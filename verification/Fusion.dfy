/** Fusing the dense and the lexical rankings of several queries into one list of parent chunks. */
module Fusion {
  import opened Text

  datatype DenseHit = DenseHit(child: nat, distance: real)
  datatype LexicalHit = LexicalHit(child: nat, matched: nat)

  /** One query's two result lists, best first. */
  datatype Query = Query(dense: seq<DenseHit>, lexical: seq<LexicalHit>)

  const DENSE_K: nat := 60
  const LEXICAL_K: nat := 30
  const MIN_TERMS_FOR_RESCUE: nat := 2

  function Share(k: nat, rank: nat): real
    requires k > 0
  {
    1.0 / (k + rank) as real
  }

  // ---- What the lists say of one chunk ------------------------------------------------------

  datatype Event = Dense(child: nat, rank: nat, distance: real) | Lexical(child: nat, rank: nat, matched: nat)

  function DenseEvents(hits: seq<DenseHit>): seq<Event> {
    seq(|hits|, i requires 0 <= i < |hits| => Dense(hits[i].child, i, hits[i].distance))
  }

  function LexicalEvents(hits: seq<LexicalHit>): seq<Event> {
    seq(|hits|, i requires 0 <= i < |hits| => Lexical(hits[i].child, i, hits[i].matched))
  }

  /** Every hit in the order it is read: query by query, dense before lexical. */
  function Events(queries: seq<Query>): seq<Event> {
    if queries == [] then []
    else
      var q := queries[|queries| - 1];
      Events(queries[..|queries| - 1]) + DenseEvents(q.dense) + LexicalEvents(q.lexical)
  }

  datatype Score = Score(dense: real, lexical: real, matched: nat, distance: real)

  function Rrf(s: Score): real {
    s.dense + s.lexical
  }

  /** A chunk's score after one more hit; the first hit opens it. */
  function Absorbed(before: Option<Score>, e: Event): Score {
    match e
    case Dense(_, rank, distance) =>
      var s := if before.Some? then before.value else Score(0.0, 0.0, 0, distance);
      s.(dense := s.dense + Share(DENSE_K, rank), distance := if distance < s.distance then distance else s.distance)
    case Lexical(_, rank, matched) =>
      var s := if before.Some? then before.value else Score(0.0, 0.0, 0, 1.0);
      s.(lexical := s.lexical + Share(LEXICAL_K, rank), matched := if matched > s.matched then matched else s.matched)
  }

  function ScoreOf(events: seq<Event>, child: nat): Option<Score> {
    if events == [] then None
    else
      var before, e := ScoreOf(events[..|events| - 1], child), events[|events| - 1];
      if e.child == child then Some(Absorbed(before, e)) else before
  }

  /** The chunks hit, in the order they first appear. */
  function Seen(events: seq<Event>): seq<nat> {
    if events == [] then []
    else
      var before, e := Seen(events[..|events| - 1]), events[|events| - 1];
      if e.child in before then before else before + [e.child]
  }

  /** The running score table, with the order its entries were opened in. */
  ghost predicate Tallied(order: seq<nat>, scores: map<nat, Score>, events: seq<Event>) {
    && order == Seen(events)
    && (forall c :: c in scores <==> c in order)
    && (forall c :: ScoreOf(events, c) == if c in scores then Some(scores[c]) else None)
  }

  method FuseRankings(queries: seq<Query>) returns (order: seq<nat>, scores: map<nat, Score>)
    ensures Tallied(order, scores, Events(queries))
  {
    order, scores := [], map[];
    for i := 0 to |queries|
      invariant Tallied(order, scores, Events(queries[..i]))
    {
      assert queries[..i + 1][..i] == queries[..i];
      ghost var events := Events(queries[..i]);
      order, scores := MergeDense(order, scores, events, queries[i].dense);
      order, scores := MergeLexical(order, scores, events + DenseEvents(queries[i].dense), queries[i].lexical);
    }
    assert queries[..|queries|] == queries;
  }

  method MergeDense(order0: seq<nat>, scores0: map<nat, Score>, ghost events: seq<Event>, hits: seq<DenseHit>)
    returns (order: seq<nat>, scores: map<nat, Score>)
    requires Tallied(order0, scores0, events)
    ensures Tallied(order, scores, events + DenseEvents(hits))
  {
    order, scores := order0, scores0;
    assert events + DenseEvents(hits)[..0] == events;
    for rank := 0 to |hits|
      invariant Tallied(order, scores, events + DenseEvents(hits)[..rank])
    {
      var child := hits[rank].child;
      TallyAppends(order, scores, events, DenseEvents(hits), rank);
      var s := AddDense(if child in scores then Some(scores[child]) else None, hits[rank], rank);
      order := if child in scores then order else order + [child];
      scores := scores[child := s];
    }
    assert DenseEvents(hits)[..|hits|] == DenseEvents(hits);
  }

  method AddDense(before: Option<Score>, hit: DenseHit, rank: nat) returns (s: Score)
    ensures s == Absorbed(before, Dense(hit.child, rank, hit.distance))
  {
    s := Score(0.0, 0.0, 0, hit.distance);
    if before.Some? {
      s := before.value;
    }
    s := s.(dense := s.dense + Share(DENSE_K, rank));
    if hit.distance < s.distance {
      s := s.(distance := hit.distance);
    }
  }

  method MergeLexical(order0: seq<nat>, scores0: map<nat, Score>, ghost events: seq<Event>, hits: seq<LexicalHit>)
    returns (order: seq<nat>, scores: map<nat, Score>)
    requires Tallied(order0, scores0, events)
    ensures Tallied(order, scores, events + LexicalEvents(hits))
  {
    order, scores := order0, scores0;
    assert events + LexicalEvents(hits)[..0] == events;
    for rank := 0 to |hits|
      invariant Tallied(order, scores, events + LexicalEvents(hits)[..rank])
    {
      var child := hits[rank].child;
      TallyAppends(order, scores, events, LexicalEvents(hits), rank);
      var s := AddLexical(if child in scores then Some(scores[child]) else None, hits[rank], rank);
      order := if child in scores then order else order + [child];
      scores := scores[child := s];
    }
    assert LexicalEvents(hits)[..|hits|] == LexicalEvents(hits);
  }

  method AddLexical(before: Option<Score>, hit: LexicalHit, rank: nat) returns (s: Score)
    ensures s == Absorbed(before, Lexical(hit.child, rank, hit.matched))
  {
    s := Score(0.0, 0.0, 0, 1.0);
    if before.Some? {
      s := before.value;
    }
    s := s.(lexical := s.lexical + Share(LEXICAL_K, rank));
    if hit.matched > s.matched {
      s := s.(matched := hit.matched);
    }
  }

  lemma TallyAppends(order: seq<nat>, scores: map<nat, Score>, events: seq<Event>, more: seq<Event>, n: nat)
    requires n < |more| && Tallied(order, scores, events + more[..n])
    ensures var e := more[n];
            var before := if e.child in scores then Some(scores[e.child]) else None;
            Tallied(if e.child in order then order else order + [e.child], scores[e.child := Absorbed(before, e)],
                    events + more[..n + 1])
  {
    var old0, all := events + more[..n], events + more[..n + 1];
    assert all[..|all| - 1] == old0 && all[|all| - 1] == more[n];
  }

  // ---- Ranking, gate, parents ---------------------------------------------------------------

  datatype Ranked = Ranked(child: nat, parent: Option<nat>, score: real, similarity: real, matched: nat)

  function Rank(child: nat, parent: Option<nat>, s: Score): Ranked {
    Ranked(child, parent, Rrf(s), 1.0 - s.distance, s.matched)
  }

  /** Place one more behind those that score at least as much. */
  function Insert(ranked: seq<Ranked>, r: Ranked): seq<Ranked> {
    if ranked == [] then [r]
    else if ranked[|ranked| - 1].score >= r.score then ranked + [r]
    else Insert(ranked[..|ranked| - 1], r) + [ranked[|ranked| - 1]]
  }

  /** Descending by score, ties in the order they came: a stable sort. */
  function ByScore(rs: seq<Ranked>): seq<Ranked> {
    if rs == [] then [] else Insert(ByScore(rs[..|rs| - 1]), rs[|rs| - 1])
  }

  /** Something is close enough, or two of a query's concepts meet in one chunk. */
  predicate Passes(rs: seq<Ranked>, threshold: real) {
    exists i | 0 <= i < |rs| :: rs[i].similarity >= threshold || rs[i].matched >= MIN_TERMS_FOR_RESCUE
  }

  predicate HasParent(rs: seq<Ranked>, parent: Option<nat>) {
    exists i | 0 <= i < |rs| :: rs[i].parent == parent
  }

  /** The first chunk of each parent; a chunk without one is passed over. */
  function FirstPerParent(rs: seq<Ranked>): seq<Ranked> {
    if rs == [] then []
    else
      var before, r := FirstPerParent(rs[..|rs| - 1]), rs[|rs| - 1];
      if r.parent.None? || HasParent(before, r.parent) then before else before + [r]
  }

  /** A limit below one still lets the first parent through. */
  function Limit(k: int): nat {
    if k < 1 then 1 else k
  }

  function Selected(ranked: seq<Ranked>, k: int): seq<Ranked> {
    var firsts := FirstPerParent(ranked);
    if |firsts| <= Limit(k) then firsts else firsts[..Limit(k)]
  }

  method SelectParents(ranked: seq<Ranked>, k: int) returns (unique: seq<Ranked>)
    ensures unique == Selected(ranked, k)
  {
    unique := [];
    var seen: set<nat> := {};
    assert ranked[..0] == [];
    for i := 0 to |ranked|
      invariant unique == FirstPerParent(ranked[..i])
      invariant forall p :: p in seen <==> HasParent(unique, Some(p))
      invariant |unique| < Limit(k)
    {
      var child := ranked[i];
      assert ranked[..i + 1][..i] == ranked[..i];
      if child.parent.None? {
        continue;
      }
      if child.parent.value !in seen {
        HasParentAppends(unique, child);
        seen := seen + {child.parent.value};
        unique := unique + [child];
      }
      if |unique| >= k {
        FirstsGrow(ranked, i + 1);
        return;
      }
    }
    assert ranked[..|ranked|] == ranked;
  }

  lemma HasParentAppends(rs: seq<Ranked>, r: Ranked)
    ensures forall p :: HasParent(rs + [r], p) <==> HasParent(rs, p) || p == r.parent
  {
    forall p
      ensures HasParent(rs + [r], p) <==> HasParent(rs, p) || p == r.parent
    {
      assert (rs + [r])[|rs|] == r;
      if HasParent(rs, p) {
        var i :| 0 <= i < |rs| && rs[i].parent == p;
        assert (rs + [r])[i] == rs[i];
      }
    }
  }

  /** What is selected early stays selected, in place. */
  lemma {:induction false} FirstsGrow(rs: seq<Ranked>, n: nat)
    requires n <= |rs|
    ensures |FirstPerParent(rs[..n])| <= |FirstPerParent(rs)|
    ensures FirstPerParent(rs)[..|FirstPerParent(rs[..n])|] == FirstPerParent(rs[..n])
    decreases |rs|
  {
    if n < |rs| {
      FirstsGrow(rs[..|rs| - 1], n);
      assert rs[..|rs| - 1][..n] == rs[..n];
    } else {
      assert rs[..n] == rs;
    }
  }

  function RankAll(order: seq<nat>, scores: map<nat, Score>, parents: map<nat, nat>): seq<Ranked>
    requires forall c | c in order :: c in scores
  {
    seq(|order|, i requires 0 <= i < |order| =>
      Rank(order[i], ParentOf(parents, order[i]), scores[order[i]]))
  }

  function ParentOf(parents: map<nat, nat>, child: nat): Option<nat> {
    if child in parents then Some(parents[child]) else None
  }

  /** The chunks hit, with their scores, in the order they first appear. */
  ghost function Scored(events: seq<Event>, parents: map<nat, nat>): seq<Ranked> {
    EverySeenIsScored(events);
    var order := Seen(events);
    seq(|order|, i requires 0 <= i < |order| => Rank(order[i], ParentOf(parents, order[i]), ScoreOf(events, order[i]).value))
  }

  ghost function Ranking(queries: seq<Query>, parents: map<nat, nat>): seq<Ranked> {
    ByScore(Scored(Events(queries), parents))
  }

  lemma TallyIsScored(order: seq<nat>, scores: map<nat, Score>, events: seq<Event>, parents: map<nat, nat>)
    requires Tallied(order, scores, events)
    ensures RankAll(order, scores, parents) == Scored(events, parents)
  {
    EverySeenIsScored(events);
    assert forall i | 0 <= i < |order| :: order[i] in order && ScoreOf(events, order[i]) == Some(scores[order[i]]);
  }

  lemma {:induction false} EverySeenIsScored(events: seq<Event>)
    ensures forall c :: c in Seen(events) <==> ScoreOf(events, c).Some?
    ensures forall c :: c in Seen(events) <==> exists i :: 0 <= i < |events| && events[i].child == c
  {
    if events != [] {
      EverySeenIsScored(events[..|events| - 1]);
      assert events == events[..|events| - 1] + [events[|events| - 1]];
    }
  }

  /** `parents` is the parent column, a chunk without one left out. */
  method HybridSearch(queries: seq<Query>, parents: map<nat, nat>, threshold: real, k: int)
    returns (found: seq<Ranked>)
    ensures found == if Passes(Ranking(queries, parents), threshold) then Selected(Ranking(queries, parents), k) else []
  {
    var order, scores := FuseRankings(queries);
    TallyIsScored(order, scores, Events(queries), parents);
    var ranked := ByScore(RankAll(order, scores, parents));
    if !Passes(ranked, threshold) {
      return [];
    }
    found := SelectParents(ranked, k);
  }
}
