/** What a search answers, in terms of the hits it was given. */
module SearchTheorems {
  import opened Text
  import opened Fusion
  import opened FusionTheorems

  // ---- The chunks hit -----------------------------------------------------------------------

  function QueryHits(q: Query): set<nat> {
    (set h | h in q.dense :: h.child) + (set h | h in q.lexical :: h.child)
  }

  /** The chunks any query hit. */
  function Hits(queries: seq<Query>): set<nat> {
    if queries == [] then {} else Hits(queries[..|queries| - 1]) + QueryHits(queries[|queries| - 1])
  }

  /** Their parents. */
  function ParentsHit(queries: seq<Query>, parents: map<nat, nat>): set<nat> {
    set c | c in Hits(queries) && c in parents :: parents[c]
  }

  predicate InEvents(events: seq<Event>, c: nat) {
    exists i :: 0 <= i < |events| && events[i].child == c
  }

  lemma ListEventsAreHits(q: Query, c: nat)
    ensures InEvents(DenseEvents(q.dense), c) <==> c in (set h | h in q.dense :: h.child)
    ensures InEvents(LexicalEvents(q.lexical), c) <==> c in (set h | h in q.lexical :: h.child)
  {
    if h :| h in q.dense && h.child == c {
      var i :| 0 <= i < |q.dense| && q.dense[i] == h;
      assert DenseEvents(q.dense)[i].child == c;
    }
    if h :| h in q.lexical && h.child == c {
      var i :| 0 <= i < |q.lexical| && q.lexical[i] == h;
      assert LexicalEvents(q.lexical)[i].child == c;
    }
  }

  lemma InEventsConcat(a: seq<Event>, b: seq<Event>, c: nat)
    ensures InEvents(a + b, c) <==> InEvents(a, c) || InEvents(b, c)
  {
    if InEvents(a, c) {
      var i :| 0 <= i < |a| && a[i].child == c;
      assert (a + b)[i].child == c;
    }
    if InEvents(b, c) {
      var i :| 0 <= i < |b| && b[i].child == c;
      assert (a + b)[|a| + i].child == c;
    }
  }

  lemma {:induction false} EventsAreHits(queries: seq<Query>, c: nat)
    ensures InEvents(Events(queries), c) <==> c in Hits(queries)
  {
    if queries != [] {
      var before, q := queries[..|queries| - 1], queries[|queries| - 1];
      EventsAreHits(before, c);
      ListEventsAreHits(q, c);
      InEventsConcat(Events(before), DenseEvents(q.dense), c);
      InEventsConcat(Events(before) + DenseEvents(q.dense), LexicalEvents(q.lexical), c);
    }
  }

  /** A ranked row is some chunk hit, with its parent. */
  lemma {:induction false} RankedRowIsAHit(queries: seq<Query>, parents: map<nat, nat>, r: Ranked)
    requires r in Ranking(queries, parents)
    ensures r.child in Hits(queries) && r.parent == ParentOf(parents, r.child)
  {
    var events := Events(queries);
    var scored := Scored(events, parents);
    EverySeenIsScored(events);
    ByScoreSorts(scored);
    assert r in multiset(scored);
    var i :| 0 <= i < |scored| && scored[i] == r;
    assert Seen(events)[i] in Seen(events);
    EventsAreHits(queries, r.child);
  }

  /** And every chunk hit is ranked. */
  lemma HitIsRanked(queries: seq<Query>, parents: map<nat, nat>, c: nat)
    returns (r: Ranked)
    requires c in Hits(queries)
    ensures r in Ranking(queries, parents) && r.child == c && r.parent == ParentOf(parents, c)
  {
    var events := Events(queries);
    var scored := Scored(events, parents);
    EventsAreHits(queries, c);
    EverySeenIsScored(events);
    assert c in Seen(events);
    var i :| 0 <= i < |Seen(events)| && Seen(events)[i] == c;
    r := scored[i];
    ByScoreKeepsRows(scored);
    assert r in multiset(ByScore(scored));
  }

  // ---- How many parents come back -----------------------------------------------------------

  function ParentSet(rs: seq<Ranked>): set<nat> {
    set r | r in rs && r.parent.Some? :: r.parent.value
  }

  lemma {:induction false} DistinctParentsCount(rs: seq<Ranked>)
    requires DistinctParents(rs)
    ensures |ParentSet(rs)| == |rs|
  {
    if rs != [] {
      var init, last := rs[..|rs| - 1], rs[|rs| - 1];
      DistinctParentsCount(init);
      assert rs == init + [last];
      assert ParentSet(rs) == ParentSet(init) + {last.parent.value};
      forall r | r in init
        ensures r.parent != last.parent
      {
        var i :| 0 <= i < |init| && init[i] == r;
        assert rs[i].parent != rs[|rs| - 1].parent;
      }
    }
  }

  lemma FirstsAreTheParentsHit(queries: seq<Query>, parents: map<nat, nat>)
    ensures |FirstPerParent(Ranking(queries, parents))| == |ParentsHit(queries, parents)|
  {
    var ranked := Ranking(queries, parents);
    FirstsAreDistinct(ranked);
    DistinctParentsCount(FirstPerParent(ranked));
    forall p
      ensures p in ParentSet(FirstPerParent(ranked)) <==> p in ParentsHit(queries, parents)
    {
      if p in ParentsHit(queries, parents) {
        HitParentIsFirst(queries, parents, p);
      }
      if p in ParentSet(FirstPerParent(ranked)) {
        FirstIsAHitParent(queries, parents, p);
      }
    }
    assert ParentSet(FirstPerParent(ranked)) == ParentsHit(queries, parents);
  }

  lemma HitParentIsFirst(queries: seq<Query>, parents: map<nat, nat>, p: nat)
    requires p in ParentsHit(queries, parents)
    ensures p in ParentSet(FirstPerParent(Ranking(queries, parents)))
  {
    var c :| c in Hits(queries) && c in parents && parents[c] == p;
    var r := HitIsRanked(queries, parents, c);
    FirstsCoverParents(Ranking(queries, parents));
    assert HasParent(FirstPerParent(Ranking(queries, parents)), r.parent);
  }

  lemma FirstIsAHitParent(queries: seq<Query>, parents: map<nat, nat>, p: nat)
    requires p in ParentSet(FirstPerParent(Ranking(queries, parents)))
    ensures p in ParentsHit(queries, parents)
  {
    var ranked := Ranking(queries, parents);
    FirstsAreDistinct(ranked);
    var f :| f in FirstPerParent(ranked) && f.parent == Some(p);
    assert f in ranked;
    RankedRowIsAHit(queries, parents, f);
  }

  /** A search that answers returns as many parents as were hit, or `k`, whichever is fewer; asked for none
      or fewer, one. */
  lemma AsManyParentsAsAskedFor(queries: seq<Query>, parents: map<nat, nat>, k: int)
    ensures
      var found, hit := |Selected(Ranking(queries, parents), k)|, |ParentsHit(queries, parents)|;
      && (k >= 1 ==> found == if hit < k then hit else k)
      && (k < 1 ==> found == if hit < 1 then hit else 1)
  {
    FirstsAreTheParentsHit(queries, parents);
  }

  // ---- What a chunk is ranked by ------------------------------------------------------------

  function DensePlaces(hits: seq<DenseHit>, c: nat): real {
    if hits == [] then 0.0
    else
      var i := |hits| - 1;
      DensePlaces(hits[..i], c) + (if hits[i].child == c then 1.0 / (60 + i) as real else 0.0)
  }

  function LexicalPlaces(hits: seq<LexicalHit>, c: nat): real {
    if hits == [] then 0.0
    else
      var i := |hits| - 1;
      LexicalPlaces(hits[..i], c) + (if hits[i].child == c then 1.0 / (30 + i) as real else 0.0)
  }

  /** One part in sixty and its place for each list by meaning, one in thirty and its place for each by
      keyword. */
  function Places(queries: seq<Query>, c: nat): real {
    if queries == [] then 0.0
    else
      var q := queries[|queries| - 1];
      Places(queries[..|queries| - 1], c) + DensePlaces(q.dense, c) + LexicalPlaces(q.lexical, c)
  }

  lemma {:induction false} DenseSumsPlaces(events: seq<Event>, hits: seq<DenseHit>, n: nat, c: nat)
    requires n <= |hits|
    ensures
      var after := events + DenseEvents(hits)[..n];
      && DenseSum(after, c) == DenseSum(events, c) + DensePlaces(hits[..n], c)
      && LexicalSum(after, c) == LexicalSum(events, c)
  {
    if n == 0 {
      assert events + DenseEvents(hits)[..0] == events;
    } else {
      DenseSumsPlaces(events, hits, n - 1, c);
      assert events + DenseEvents(hits)[..n] == events + DenseEvents(hits)[..n - 1] + [DenseEvents(hits)[n - 1]];
      SumsAppend(events + DenseEvents(hits)[..n - 1], DenseEvents(hits)[n - 1], c);
      assert hits[..n][..n - 1] == hits[..n - 1];
    }
  }

  lemma {:induction false} LexicalSumsPlaces(events: seq<Event>, hits: seq<LexicalHit>, n: nat, c: nat)
    requires n <= |hits|
    ensures
      var after := events + LexicalEvents(hits)[..n];
      && LexicalSum(after, c) == LexicalSum(events, c) + LexicalPlaces(hits[..n], c)
      && DenseSum(after, c) == DenseSum(events, c)
  {
    if n == 0 {
      assert events + LexicalEvents(hits)[..0] == events;
    } else {
      LexicalSumsPlaces(events, hits, n - 1, c);
      assert events + LexicalEvents(hits)[..n] == events + LexicalEvents(hits)[..n - 1] + [LexicalEvents(hits)[n - 1]];
      SumsAppend(events + LexicalEvents(hits)[..n - 1], LexicalEvents(hits)[n - 1], c);
      assert hits[..n][..n - 1] == hits[..n - 1];
    }
  }

  lemma {:induction false} TotalIsPlaces(queries: seq<Query>, c: nat)
    ensures DenseSum(Events(queries), c) + LexicalSum(Events(queries), c) == Places(queries, c)
  {
    if queries != [] {
      var before, q := queries[..|queries| - 1], queries[|queries| - 1];
      TotalIsPlaces(before, c);
      QueryAddsPlaces(Events(before), q, c);
    }
  }

  lemma {:induction false} QueryAddsPlaces(events: seq<Event>, q: Query, c: nat)
    ensures
      var after := events + DenseEvents(q.dense) + LexicalEvents(q.lexical);
      && DenseSum(after, c) == DenseSum(events, c) + DensePlaces(q.dense, c)
      && LexicalSum(after, c) == LexicalSum(events, c) + LexicalPlaces(q.lexical, c)
  {
    DenseSumsPlaces(events, q.dense, |q.dense|, c);
    assert DenseEvents(q.dense)[..|q.dense|] == DenseEvents(q.dense) && q.dense[..|q.dense|] == q.dense;
    LexicalSumsPlaces(events + DenseEvents(q.dense), q.lexical, |q.lexical|, c);
    assert LexicalEvents(q.lexical)[..|q.lexical|] == LexicalEvents(q.lexical) && q.lexical[..|q.lexical|] == q.lexical;
  }

  /** A chunk is ranked by its places in the lists, and by nothing else. */
  lemma {:induction false} RankedByPlaces(queries: seq<Query>, parents: map<nat, nat>, r: Ranked)
    requires r in Ranking(queries, parents)
    ensures r.score == Places(queries, r.child)
  {
    RankedScoreIsTotal(queries, parents, r);
    TotalIsPlaces(queries, r.child);
  }
}
