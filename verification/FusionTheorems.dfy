/** What the fused ranking promises. */
module FusionTheorems {
  import opened Text
  import opened Fusion

  // ---- The sort -----------------------------------------------------------------------------

  ghost predicate Descending(rs: seq<Ranked>) {
    forall i, j | 0 <= i < j < |rs| :: rs[i].score >= rs[j].score
  }

  lemma {:induction false} InsertKeepsRows(ranked: seq<Ranked>, r: Ranked)
    ensures multiset(Insert(ranked, r)) == multiset(ranked) + multiset{r}
  {
    if ranked != [] && ranked[|ranked| - 1].score < r.score {
      var rest, last := ranked[..|ranked| - 1], ranked[|ranked| - 1];
      InsertKeepsRows(rest, r);
      assert ranked == rest + [last];
    }
  }

  lemma {:induction false} InsertedOnly(ranked: seq<Ranked>, r: Ranked)
    ensures forall x | x in Insert(ranked, r) :: x in ranked || x == r
  {
    InsertKeepsRows(ranked, r);
    forall x | x in Insert(ranked, r)
      ensures x in ranked || x == r
    {
      assert x in multiset(Insert(ranked, r));
    }
  }

  lemma {:induction false} InsertKeepsOrder(ranked: seq<Ranked>, r: Ranked)
    requires Descending(ranked)
    ensures Descending(Insert(ranked, r))
  {
    if ranked != [] && ranked[|ranked| - 1].score < r.score {
      var rest, last := ranked[..|ranked| - 1], ranked[|ranked| - 1];
      InsertKeepsOrder(rest, r);
      InsertedOnly(rest, r);
      assert forall x | x in rest :: x.score >= last.score;
    }
  }

  lemma {:induction false} ByScoreDescends(rs: seq<Ranked>)
    ensures Descending(ByScore(rs))
  {
    if rs != [] {
      ByScoreDescends(rs[..|rs| - 1]);
      InsertKeepsOrder(ByScore(rs[..|rs| - 1]), rs[|rs| - 1]);
    }
  }

  lemma RowsAppend(rs: seq<Ranked>, r: Ranked)
    ensures multiset(rs + [r]) == multiset(rs) + multiset{r}
  {
  }

  lemma {:induction false} ByScoreKeepsRows(rs: seq<Ranked>)
    ensures multiset(ByScore(rs)) == multiset(rs)
  {
    if rs != [] {
      var before, r := rs[..|rs| - 1], rs[|rs| - 1];
      ByScoreKeepsRows(before);
      var sorted := ByScore(before);
      InsertKeepsRows(sorted, r);
      RowsAppend(before, r);
      assert before + [r] == rs;
    }
  }

  /** The sort is a permutation, in descending order. */
  lemma {:induction false} ByScoreSorts(rs: seq<Ranked>)
    ensures Descending(ByScore(rs)) && multiset(ByScore(rs)) == multiset(rs)
  {
    ByScoreDescends(rs);
    ByScoreKeepsRows(rs);
  }

  /** The rows of one score, in order. */
  function OfScore(rs: seq<Ranked>, x: real): seq<Ranked> {
    if rs == [] then []
    else OfScore(rs[..|rs| - 1], x) + (if rs[|rs| - 1].score == x then [rs[|rs| - 1]] else [])
  }

  lemma {:induction false} OfScoreAppends(rs: seq<Ranked>, r: Ranked, x: real)
    ensures OfScore(rs + [r], x) == OfScore(rs, x) + (if r.score == x then [r] else [])
  {
    assert (rs + [r])[..|rs|] == rs;
  }

  lemma {:induction false} InsertComesLastOfItsScore(ranked: seq<Ranked>, r: Ranked, x: real)
    requires Descending(ranked)
    ensures OfScore(Insert(ranked, r), x) == OfScore(ranked, x) + (if r.score == x then [r] else [])
  {
    if ranked == [] {
      OfScoreAppends([], r, x);
    } else if ranked[|ranked| - 1].score >= r.score {
      OfScoreAppends(ranked, r, x);
    } else {
      var rest, last := ranked[..|ranked| - 1], ranked[|ranked| - 1];
      InsertComesLastOfItsScore(rest, r, x);
      OfScoreAppends(Insert(rest, r), last, x);
    }
  }

  /** Rows of one score keep the order they came in. */
  lemma {:induction false} ByScoreIsStable(rs: seq<Ranked>, x: real)
    ensures OfScore(ByScore(rs), x) == OfScore(rs, x)
  {
    if rs != [] {
      ByScoreIsStable(rs[..|rs| - 1], x);
      ByScoreDescends(rs[..|rs| - 1]);
      InsertComesLastOfItsScore(ByScore(rs[..|rs| - 1]), rs[|rs| - 1], x);
    }
  }

  // ---- The parents --------------------------------------------------------------------------

  ghost predicate DistinctParents(rs: seq<Ranked>) {
    && (forall i | 0 <= i < |rs| :: rs[i].parent.Some?)
    && (forall i, j | 0 <= i < j < |rs| :: rs[i].parent != rs[j].parent)
  }

  lemma {:induction false} FirstsAreDistinct(rs: seq<Ranked>)
    ensures DistinctParents(FirstPerParent(rs)) && forall f | f in FirstPerParent(rs) :: f in rs
  {
    if rs != [] {
      FirstsAreDistinct(rs[..|rs| - 1]);
    }
  }

  lemma {:induction false} FirstsCoverParents(rs: seq<Ranked>)
    ensures forall r | r in rs && r.parent.Some? :: HasParent(FirstPerParent(rs), r.parent)
  {
    if rs != [] {
      var before, r := rs[..|rs| - 1], rs[|rs| - 1];
      FirstsCoverParents(before);
      assert rs == before + [r];
      HasParentAppends(FirstPerParent(before), r);
    }
  }

  lemma {:induction false} FirstsDescend(rs: seq<Ranked>)
    requires Descending(rs)
    ensures Descending(FirstPerParent(rs))
  {
    if rs != [] {
      var before, r := rs[..|rs| - 1], rs[|rs| - 1];
      FirstsDescend(before);
      FirstsAreDistinct(before);
      assert forall x | x in before :: x.score >= r.score;
      assert forall f | f in FirstPerParent(before) :: f.score >= r.score;
    }
  }

  /** The first chunk of each parent is its best one. */
  lemma {:induction false} FirstsAreBest(rs: seq<Ranked>)
    requires Descending(rs)
    ensures forall f, r | f in FirstPerParent(rs) && r in rs && f.parent == r.parent :: f.score >= r.score
  {
    if rs != [] {
      var before, r := rs[..|rs| - 1], rs[|rs| - 1];
      FirstsAreBest(before);
      FirstsAreDistinct(before);
      assert rs == before + [r];
      FirstsCoverParents(before);
      forall f, x | f in FirstPerParent(rs) && x in rs && f.parent == x.parent
        ensures f.score >= x.score
      {
        if f in FirstPerParent(before) {
          assert f in before && (x in before || x == r);
        } else {
          assert f == r && (x in before ==> x.parent != r.parent);
        }
      }
    }
  }

  /** A parent the search returned, by its best chunk. */
  predicate Chosen(found: seq<Ranked>, parent: Option<nat>) {
    HasParent(found, parent)
  }

  /** The search returns distinct parents, at most `k` of them, each by its best chunk; a parent left out
      has no chunk that outscores any it returned, and is left out only when the list is full. Asked for
      none or fewer, it still returns one. */
  lemma SearchReturnsTheBestParents(queries: seq<Query>, parents: map<nat, nat>, k: int)
    ensures var ranked := Ranking(queries, parents);
            var found := Selected(ranked, k);
            && DistinctParents(found) && |found| <= (if k < 1 then 1 else k)
            && (forall f, r | f in found && r in ranked && f.parent == r.parent :: f.score >= r.score)
            && (forall f, r | f in found && r in ranked && r.parent.Some? && !Chosen(found, r.parent) :: f.score >= r.score)
            && (forall r | r in ranked && r.parent.Some? && !Chosen(found, r.parent) :: |found| == (if k < 1 then 1 else k))
  {
    var scored := Scored(Events(queries), parents);
    ByScoreSorts(scored);
    var ranked := ByScore(scored);
    FirstsAreBest(ranked);
    FirstsAreDistinct(ranked);
    FirstsCoverParents(ranked);
    var firsts := FirstPerParent(ranked);
    var found := Selected(ranked, k);
    forall f, r | f in found && r in ranked && r.parent.Some? && !Chosen(found, r.parent)
      ensures f.score >= r.score && |found| == Limit(k)
    {
      OmittedScoresLess(ranked, k, f, r);
    }
    forall r | r in ranked && r.parent.Some? && !Chosen(found, r.parent)
      ensures |found| == Limit(k)
    {
      assert HasParent(firsts, r.parent);
    }
  }

  lemma OmittedScoresLess(ranked: seq<Ranked>, k: int, f: Ranked, r: Ranked)
    requires Descending(ranked) && f in Selected(ranked, k) && r in ranked && r.parent.Some? && !Chosen(Selected(ranked, k), r.parent)
    ensures f.score >= r.score
  {
    FirstsDescend(ranked);
    FirstsAreBest(ranked);
    FirstsCoverParents(ranked);
    var firsts, found := FirstPerParent(ranked), Selected(ranked, k);
    assert HasParent(firsts, r.parent);
    var j :| 0 <= j < |firsts| && firsts[j].parent == r.parent;
    var i :| 0 <= i < |found| && found[i] == f;
    assert forall x | 0 <= x < |found| :: found[x] == firsts[x];
    assert firsts[i] == f && i < j;
    assert firsts[j] in firsts;
  }

  // ---- Lexical over dense -------------------------------------------------------------------

  predicate InDense(q: Query, child: nat) {
    exists i | 0 <= i < |q.dense| :: q.dense[i].child == child
  }

  predicate InLexical(q: Query, child: nat) {
    exists i | 0 <= i < |q.lexical| :: q.lexical[i].child == child
  }

  function DenseQueries(queries: seq<Query>, child: nat): nat {
    if queries == [] then 0
    else DenseQueries(queries[..|queries| - 1], child) + (if InDense(queries[|queries| - 1], child) then 1 else 0)
  }

  function LexicalQueries(queries: seq<Query>, child: nat): nat {
    if queries == [] then 0
    else LexicalQueries(queries[..|queries| - 1], child) + (if InLexical(queries[|queries| - 1], child) then 1 else 0)
  }

  /** Lists of at most this many rows, no row twice. */
  ghost predicate WithinLimit(queries: seq<Query>, limit: nat) {
    forall i | 0 <= i < |queries| :: ListsWithin(queries[i], limit)
  }

  ghost predicate ListsWithin(q: Query, limit: nat) {
    && |q.dense| <= limit && |q.lexical| <= limit
    && (forall i, j | 0 <= i < j < |q.dense| :: q.dense[i].child != q.dense[j].child)
    && (forall i, j | 0 <= i < j < |q.lexical| :: q.lexical[i].child != q.lexical[j].child)
  }

  function DenseSum(events: seq<Event>, child: nat): real {
    if ScoreOf(events, child).Some? then ScoreOf(events, child).value.dense else 0.0
  }

  function LexicalSum(events: seq<Event>, child: nat): real {
    if ScoreOf(events, child).Some? then ScoreOf(events, child).value.lexical else 0.0
  }

  lemma SumsAppend(events: seq<Event>, e: Event, child: nat)
    ensures DenseSum(events + [e], child) ==
            DenseSum(events, child) + (if e.child == child && e.Dense? then Share(DENSE_K, e.rank) else 0.0)
    ensures LexicalSum(events + [e], child) ==
            LexicalSum(events, child) + (if e.child == child && e.Lexical? then Share(LEXICAL_K, e.rank) else 0.0)
  {
    assert (events + [e])[..|events|] == events;
  }

  /** What one query's dense list adds to a chunk: at most its first place, and nothing off the list. */
  lemma {:induction false} DenseListAdds(events: seq<Event>, hits: seq<DenseHit>, n: nat, child: nat)
    requires n <= |hits| && forall i, j | 0 <= i < j < |hits| :: hits[i].child != hits[j].child
    ensures var after := events + DenseEvents(hits)[..n];
            && LexicalSum(after, child) == LexicalSum(events, child)
            && DenseSum(events, child) <= DenseSum(after, child)
            && DenseSum(after, child) <= DenseSum(events, child) +
               (if exists i | 0 <= i < n :: hits[i].child == child then Share(DENSE_K, 0) else 0.0)
  {
    if n > 0 {
      DenseListAdds(events, hits, n - 1, child);
      assert events + DenseEvents(hits)[..n] == events + DenseEvents(hits)[..n - 1] + [DenseEvents(hits)[n - 1]];
      SumsAppend(events + DenseEvents(hits)[..n - 1], DenseEvents(hits)[n - 1], child);
      SharesFall(DENSE_K, 0, n - 1);
    } else {
      assert events + DenseEvents(hits)[..0] == events;
    }
  }

  /** What one query's lexical list adds: at least its last place, and nothing off the list. */
  lemma {:induction false} LexicalListAdds(events: seq<Event>, hits: seq<LexicalHit>, n: nat, child: nat)
    requires n <= |hits|
    ensures var after := events + LexicalEvents(hits)[..n];
            && DenseSum(after, child) == DenseSum(events, child)
            && (if exists i | 0 <= i < n :: hits[i].child == child
                then LexicalSum(after, child) >= LexicalSum(events, child) + Share(LEXICAL_K, |hits| - 1)
                else LexicalSum(after, child) == LexicalSum(events, child))
  {
    if n > 0 {
      LexicalListAdds(events, hits, n - 1, child);
      assert events + LexicalEvents(hits)[..n] == events + LexicalEvents(hits)[..n - 1] + [LexicalEvents(hits)[n - 1]];
      SumsAppend(events + LexicalEvents(hits)[..n - 1], LexicalEvents(hits)[n - 1], child);
      SharesFall(LEXICAL_K, n - 1, |hits| - 1);
    } else {
      assert events + LexicalEvents(hits)[..0] == events;
    }
  }

  lemma SharesFall(k: nat, i: nat, j: nat)
    requires k > 0 && i <= j
    ensures 0.0 < Share(k, j) <= Share(k, i)
  {
    var a, b := (k + i) as real, (k + j) as real;
    assert 0.0 < a <= b;
    assert (1.0 / a - 1.0 / b) * (a * b) == b - a;
  }

  lemma OneMore(n: nat, k: real)
    ensures (n + 1) as real * k == n as real * k + k
  {
  }

  /** A chunk's dense share is at most a first place per query. */
  lemma {:induction false} DenseIsBounded(queries: seq<Query>, limit: nat, child: nat)
    requires WithinLimit(queries, limit) && limit > 0
    ensures 0.0 <= DenseSum(Events(queries), child) <= DenseQueries(queries, child) as real * Share(DENSE_K, 0)
  {
    if queries != [] {
      var before, q := queries[..|queries| - 1], queries[|queries| - 1];
      DenseIsBounded(before, limit, child);
      assert ListsWithin(q, limit);
      OneQueryAdds(Events(before), q, limit, child);
      OneMore(DenseQueries(before, child), Share(DENSE_K, 0));
    }
  }

  lemma {:induction false} NoKeywordNoShare(queries: seq<Query>, limit: nat, child: nat)
    requires WithinLimit(queries, limit) && limit > 0 && LexicalQueries(queries, child) == 0
    ensures LexicalSum(Events(queries), child) == 0.0
  {
    if queries != [] {
      NoKeywordNoShare(queries[..|queries| - 1], limit, child);
      assert ListsWithin(queries[|queries| - 1], limit);
      OneQueryAdds(Events(queries[..|queries| - 1]), queries[|queries| - 1], limit, child);
    }
  }

  /** Its lexical share is at least a last place per query that hit it so. */
  lemma {:induction false} LexicalIsBounded(queries: seq<Query>, limit: nat, child: nat)
    requires WithinLimit(queries, limit) && 0 < limit <= 30
    ensures LexicalSum(Events(queries), child) >= LexicalQueries(queries, child) as real * (1.0 / 59.0)
  {
    if queries != [] {
      LexicalIsBounded(queries[..|queries| - 1], limit, child);
      assert ListsWithin(queries[|queries| - 1], limit);
      OneQueryAddsLast(Events(queries[..|queries| - 1]), queries[|queries| - 1], limit, child);
    }
  }

  lemma OneQueryAddsLast(events: seq<Event>, q: Query, limit: nat, child: nat)
    requires ListsWithin(q, limit) && 0 < limit <= 30
    ensures LexicalSum(events + DenseEvents(q.dense) + LexicalEvents(q.lexical), child) >=
            LexicalSum(events, child) + (if InLexical(q, child) then 1.0 / 59.0 else 0.0)
  {
    OneQueryAdds(events, q, limit, child);
    LastPlaces(limit);
  }

  lemma OneQueryAdds(events: seq<Event>, q: Query, limit: nat, child: nat)
    requires ListsWithin(q, limit) && limit > 0
    ensures var after := events + DenseEvents(q.dense) + LexicalEvents(q.lexical);
            && DenseSum(events, child) <= DenseSum(after, child)
            && DenseSum(after, child) <= DenseSum(events, child) + (if InDense(q, child) then Share(DENSE_K, 0) else 0.0)
            && (if InLexical(q, child) then LexicalSum(after, child) >= LexicalSum(events, child) + Share(LEXICAL_K, limit - 1)
                else LexicalSum(after, child) == LexicalSum(events, child))
  {
    DenseListAdds(events, q.dense, |q.dense|, child);
    assert DenseEvents(q.dense)[..|q.dense|] == DenseEvents(q.dense);
    LexicalListAdds(events + DenseEvents(q.dense), q.lexical, |q.lexical|, child);
    assert LexicalEvents(q.lexical)[..|q.lexical|] == LexicalEvents(q.lexical);
    if InLexical(q, child) {
      SharesFall(LEXICAL_K, |q.lexical| - 1, limit - 1);
    }
  }

  /** The score a chunk is ranked by. */
  function Total(queries: seq<Query>, child: nat): real {
    DenseSum(Events(queries), child) + LexicalSum(Events(queries), child)
  }

  lemma RankedScoreIsTotal(queries: seq<Query>, parents: map<nat, nat>, r: Ranked)
    requires r in Ranking(queries, parents)
    ensures r.score == Total(queries, r.child)
  {
    var scored := Scored(Events(queries), parents);
    ByScoreSorts(scored);
    assert r in multiset(scored);
    var i :| 0 <= i < |scored| && scored[i] == r;
    EverySeenIsScored(Events(queries));
    assert Seen(Events(queries))[i] in Seen(Events(queries));
  }

  /** `lexical` is hit by keyword in at least as many queries as `dense`, never hit so, appears in. */
  ghost predicate KeywordAgainstMeaning(queries: seq<Query>, lexical: nat, dense: nat) {
    && LexicalQueries(queries, dense) == 0
    && LexicalQueries(queries, lexical) > 0
    && DenseQueries(queries, dense) <= LexicalQueries(queries, lexical)
  }

  lemma KeywordOutranks(queries: seq<Query>, limit: nat, lexical: nat, dense: nat)
    requires WithinLimit(queries, limit) && 0 < limit <= 30 && KeywordAgainstMeaning(queries, lexical, dense)
    ensures Total(queries, lexical) > Total(queries, dense)
  {
    DenseIsBounded(queries, limit, lexical);
    LexicalIsBounded(queries, limit, lexical);
    DenseIsBounded(queries, limit, dense);
    NoKeywordNoShare(queries, limit, dense);
    LastBeatsFirst(LexicalQueries(queries, lexical), DenseQueries(queries, dense));
    assert Share(DENSE_K, 0) == 1.0 / 60.0;
  }

  lemma LastPlaces(limit: nat)
    requires 0 < limit <= 30
    ensures Share(LEXICAL_K, limit - 1) >= 1.0 / 59.0 && Share(DENSE_K, 0) == 1.0 / 60.0
  {
    SharesFall(LEXICAL_K, limit - 1, 29);
    assert Share(LEXICAL_K, 29) == 1.0 / 59.0;
  }

  lemma LastBeatsFirst(m: nat, n: nat)
    requires n <= m && 0 < m
    ensures m as real * (1.0 / 59.0) > n as real * (1.0 / 60.0)
  {
  }

  /** Thirty-one rows are one too many: the last keyword hit ties with the first by meaning. */
  function Tie(): Query {
    Query([DenseHit(31, 0.5)], seq(31, i requires 0 <= i < 31 => LexicalHit(i, 1)))
  }

  lemma LastOfThirtyOneTies()
    ensures WithinLimit([Tie()], 31) && KeywordAgainstMeaning([Tie()], 30, 31)
    ensures Total([Tie()], 30) == Total([Tie()], 31)
  {
    var q := Tie();
    assert [q][..0] == [];
    assert q.lexical[30].child == 30 && q.dense[0].child == 31;
    assert LexicalQueries([q], 30) == LexicalQueries([], 30) + 1 == 1;
    assert LexicalQueries([q], 31) == 0;
    assert DenseQueries([q], 31) <= 1;
    var dense := DenseEvents(q.dense);
    assert Events([q]) == [] + dense + LexicalEvents(q.lexical);
    SumsAppend([], dense[0], 30);
    SumsAppend([], dense[0], 31);
    assert [] + dense == [] + [dense[0]] == dense;
    LexicalHitsOf(dense, q.lexical, 30, 30);
    LexicalHitsOf(dense, q.lexical, 30, 31);
    var most := dense + LexicalEvents(q.lexical)[..30];
    assert dense + LexicalEvents(q.lexical) == most + [LexicalEvents(q.lexical)[30]];
    SumsAppend(most, LexicalEvents(q.lexical)[30], 30);
    SumsAppend(most, LexicalEvents(q.lexical)[30], 31);
    assert Share(LEXICAL_K, 30) == 1.0 / 60.0 == Share(DENSE_K, 0);
  }

  lemma LexicalHitsOf(events: seq<Event>, hits: seq<LexicalHit>, n: nat, child: nat)
    requires n <= |hits| && forall i | 0 <= i < n :: hits[i].child != child
    ensures LexicalSum(events + LexicalEvents(hits)[..n], child) == LexicalSum(events, child)
    ensures DenseSum(events + LexicalEvents(hits)[..n], child) == DenseSum(events, child)
  {
    LexicalListAdds(events, hits, n, child);
  }

  /** A chunk hit by keyword in some queries outranks every chunk that only means alike and appears in no
      more of them, for every query set, exactly when the lists hold at most thirty rows. */
  lemma KeywordsOutrankExactlyUpToThirty(limit: nat)
    requires limit > 0
    ensures limit <= 30 <==> forall queries, lexical, dense ::
      WithinLimit(queries, limit) && KeywordAgainstMeaning(queries, lexical, dense) ==>
      Total(queries, lexical) > Total(queries, dense)
  {
    if limit <= 30 {
      forall queries, lexical, dense | WithinLimit(queries, limit) && KeywordAgainstMeaning(queries, lexical, dense)
        ensures Total(queries, lexical) > Total(queries, dense)
      {
        KeywordOutranks(queries, limit, lexical, dense);
      }
    } else {
      LastOfThirtyOneTies();
      assert ListsWithin([Tie()][0], 31);
      assert WithinLimit([Tie()], limit);
    }
  }

  // ---- The gate -----------------------------------------------------------------------------

  /** A dense hit this close. */
  ghost predicate CloseHit(events: seq<Event>, threshold: real) {
    exists i :: 0 <= i < |events| && events[i].Dense? && 1.0 - events[i].distance >= threshold
  }

  /** A keyword hit that meets two concepts of its query. */
  ghost predicate StrongHit(events: seq<Event>) {
    exists i :: 0 <= i < |events| && events[i].Lexical? && events[i].matched >= 2
  }

  /** A chunk's closest distance and most concepts are those of its hits, or of no hit at all. */
  ghost predicate Witnessed(events: seq<Event>, child: nat, s: Score) {
    && (forall i | 0 <= i < |events| && events[i].child == child ::
         if events[i].Dense? then s.distance <= events[i].distance else s.matched >= events[i].matched)
    && (s.distance >= 1.0 || exists i :: 0 <= i < |events| && events[i].child == child && events[i].Dense? && events[i].distance == s.distance)
    && (s.matched == 0 || exists i :: 0 <= i < |events| && events[i].child == child && events[i].Lexical? && events[i].matched == s.matched)
  }

  lemma {:induction false} ScoreIsWitnessed(events: seq<Event>, child: nat)
    ensures ScoreOf(events, child).Some? ==> Witnessed(events, child, ScoreOf(events, child).value)
    ensures ScoreOf(events, child).None? ==> forall i | 0 <= i < |events| :: events[i].child != child
  {
    if events != [] {
      var before, e := events[..|events| - 1], events[|events| - 1];
      ScoreIsWitnessed(before, child);
      assert events == before + [e];
    }
  }

  /** The search answers at all exactly when some chunk is close enough or some chunk meets two concepts
      of one query: one stray word never lets a question through. */
  lemma {:induction false} GateOpensExactly(queries: seq<Query>, parents: map<nat, nat>, threshold: real)
    requires threshold > 0.0
    ensures Passes(Ranking(queries, parents), threshold) <==>
            CloseHit(Events(queries), threshold) || StrongHit(Events(queries))
  {
    var events := Events(queries);
    var scored := Scored(events, parents);
    ByScoreSorts(scored);
    var ranked := ByScore(scored);
    EverySeenIsScored(events);
    if Passes(ranked, threshold) {
      var n :| 0 <= n < |ranked| && (ranked[n].similarity >= threshold || ranked[n].matched >= MIN_TERMS_FOR_RESCUE);
      assert ranked[n] in multiset(scored);
      var i :| 0 <= i < |scored| && scored[i] == ranked[n];
      assert Seen(events)[i] in Seen(events);
      ScoreIsWitnessed(events, Seen(events)[i]);
    }
    forall n | 0 <= n < |events| && (if events[n].Dense? then 1.0 - events[n].distance >= threshold
                                     else events[n].matched >= MIN_TERMS_FOR_RESCUE)
      ensures Passes(ranked, threshold)
    {
      HitPasses(events, parents, n, threshold);
    }
  }

  lemma HitPasses(events: seq<Event>, parents: map<nat, nat>, n: nat, threshold: real)
    requires n < |events|
    requires if events[n].Dense? then 1.0 - events[n].distance >= threshold else events[n].matched >= MIN_TERMS_FOR_RESCUE
    ensures Passes(ByScore(Scored(events, parents)), threshold)
  {
    var scored := Scored(events, parents);
    EverySeenIsScored(events);
    ByScoreSorts(scored);
    ScoreIsWitnessed(events, events[n].child);
    var i :| 0 <= i < |Seen(events)| && Seen(events)[i] == events[n].child;
    assert scored[i] in multiset(ByScore(scored));
    var j :| 0 <= j < |scored| && ByScore(scored)[j] == scored[i];
  }
}
