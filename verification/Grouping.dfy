/** Merging consecutive short sections of a document into shared parents. */
module Grouping {

  datatype Section = Section(text: string, meta: map<string, string>)

  const MIN_PARENT_CHARS: nat := 400

  function LineOf(s: Section): string {
    if "product_line" in s.meta then s.meta["product_line"] else ""
  }

  predicate Short(s: Section) {
    |s.text| < MIN_PARENT_CHARS
  }

  /** The room sections take in a merged parent, a separator each. */
  function Room(g: seq<Section>): nat {
    if g == [] then 0 else Room(g[..|g| - 1]) + |g[|g| - 1].text| + 2
  }

  /** One section of any size, or several short ones of one product line that fit the budget together. */
  ghost predicate Allowed(budget: int, g: seq<Section>) {
    || |g| == 1
    || (|g| > 1 && (forall i | 0 <= i < |g| :: Short(g[i]) && LineOf(g[i]) == LineOf(g[0])) && Room(g) <= budget)
  }

  function Flat(groups: seq<seq<Section>>): seq<Section> {
    if groups == [] then [] else Flat(groups[..|groups| - 1]) + groups[|groups| - 1]
  }

  /** The sections in order, cut into allowed groups. */
  ghost predicate Groups(budget: int, groups: seq<seq<Section>>, sections: seq<Section>) {
    Flat(groups) == sections && forall i | 0 <= i < |groups| :: Allowed(budget, groups[i])
  }

  // ---- What the grouping leaves behind after each section -----------------------------------

  /** Finished groups, and the one still open. */
  datatype Progress = Progress(done: seq<seq<Section>>, current: seq<Section>)

  function Closed(p: Progress): seq<seq<Section>> {
    if p.current == [] then p.done else p.done + [p.current]
  }

  function Added(budget: int, p: Progress, s: Section): Progress {
    if !Short(s) then Progress(Closed(p) + [[s]], [])
    else if p.current != [] && (LineOf(p.current[0]) != LineOf(s) || Room(p.current) + |s.text| + 2 > budget)
    then Progress(Closed(p), [s])
    else Progress(p.done, p.current + [s])
  }

  function Grouped(budget: int, sections: seq<Section>): Progress {
    if sections == [] then Progress([], [])
    else Added(budget, Grouped(budget, sections[..|sections| - 1]), sections[|sections| - 1])
  }

  method GroupSmallSections(sections: seq<Section>, budget: int) returns (groups: seq<seq<Section>>)
    ensures groups == Closed(Grouped(budget, sections))
    ensures Groups(budget, groups, sections)
    ensures forall other | Groups(budget, other, sections) :: |groups| <= |other|
  {
    groups := [];
    var current: seq<Section>, currentLen := [], 0;
    for i := 0 to |sections|
      invariant Progress(groups, current) == Grouped(budget, sections[..i])
      invariant currentLen == Room(current)
    {
      assert sections[..i + 1][..i] == sections[..i];
      var section := sections[i];
      if |section.text| >= MIN_PARENT_CHARS {
        if current != [] {
          groups, current, currentLen := groups + [current], [], 0;
        }
        groups := groups + [[section]];
        continue;
      }
      var crossesH1 := current != [] && LineOf(current[0]) != LineOf(section);
      var wouldOverflow := currentLen + |section.text| + 2 > budget;
      if current != [] && (crossesH1 || wouldOverflow) {
        groups, current, currentLen := groups + [current], [], 0;
      }
      current, currentLen := current + [section], currentLen + |section.text| + 2;
      assert current[..|current| - 1] + [section] == current;
    }
    assert sections[..|sections|] == sections;
    if current != [] {
      groups := groups + [current];
    }
    GroupsAreAllowed(budget, sections);
    forall other | Groups(budget, other, sections)
      ensures |groups| <= |other|
    {
      GreedyStaysAhead(budget, sections, other);
    }
  }

  // ---- The groups are allowed ---------------------------------------------------------------

  lemma {:induction false} RoomAppends(g: seq<Section>, s: Section)
    ensures Room(g + [s]) == Room(g) + |s.text| + 2
  {
    assert (g + [s])[..|g|] == g;
  }

  lemma {:induction false} FlatAppends(groups: seq<seq<Section>>, g: seq<Section>)
    ensures Flat(groups + [g]) == Flat(groups) + g
  {
    assert (groups + [g])[..|groups|] == groups;
  }

  /** The open group is one more allowed group, of short sections. */
  ghost predicate Open(budget: int, p: Progress) {
    p.current != [] ==> Allowed(budget, p.current) && Short(p.current[0])
  }

  lemma GroupsAppend(budget: int, groups: seq<seq<Section>>, sections: seq<Section>, g: seq<Section>)
    requires Groups(budget, groups, sections) && Allowed(budget, g)
    ensures Groups(budget, groups + [g], sections + g)
  {
    FlatAppends(groups, g);
  }

  lemma {:induction false} JoiningIsAllowed(budget: int, g: seq<Section>, s: Section)
    requires g != [] && Allowed(budget, g) && Short(g[0]) && Short(s)
    requires LineOf(g[0]) == LineOf(s) && Room(g) + |s.text| + 2 <= budget
    ensures Allowed(budget, g + [s])
  {
    RoomAppends(g, s);
  }

  lemma AddedIsAllowed(budget: int, p: Progress, sections: seq<Section>, s: Section)
    requires Groups(budget, Closed(p), sections) && Open(budget, p)
    ensures Groups(budget, Closed(Added(budget, p, s)), sections + [s]) && Open(budget, Added(budget, p, s))
  {
    GroupsAppend(budget, Closed(p), sections, [s]);
    if p.current == [] {
      assert [] + [s] == [s];
    } else if Added(budget, p, s) == Progress(p.done, p.current + [s]) && Short(s) {
      JoiningIsAllowed(budget, p.current, s);
      FlatAppends(p.done, p.current);
      assert forall i | 0 <= i < |p.done| :: Closed(p)[i] == p.done[i];
      GroupsAppend(budget, p.done, Flat(p.done), p.current + [s]);
      assert Flat(p.done) + (p.current + [s]) == sections + [s];
    }
  }

  lemma {:induction false} GroupsAreAllowed(budget: int, sections: seq<Section>)
    ensures Groups(budget, Closed(Grouped(budget, sections)), sections) && Open(budget, Grouped(budget, sections))
  {
    if sections != [] {
      var before, s := sections[..|sections| - 1], sections[|sections| - 1];
      assert before + [s] == sections;
      GroupsAreAllowed(budget, before);
      AddedIsAllowed(budget, Grouped(budget, before), before, s);
    }
  }

  // ---- And as few as can be -----------------------------------------------------------------

  lemma {:induction false} SuffixTakesLess(g: seq<Section>, n: nat)
    requires n <= |g|
    ensures Room(g[n..]) <= Room(g)
  {
    if n < |g| {
      SuffixTakesLess(g[..|g| - 1], n);
      assert g[n..][..|g| - n - 1] == g[..|g| - 1][n..];
    }
  }

  /** What is left of an allowed group when its front is cut off is allowed. */
  lemma SuffixIsAllowed(budget: int, g: seq<Section>, n: nat)
    requires n < |g| && Allowed(budget, g)
    ensures Allowed(budget, g[n..])
  {
    SuffixTakesLess(g, n);
  }

  lemma PrefixIsAllowed(budget: int, g: seq<Section>)
    requires |g| > 1 && Allowed(budget, g)
    ensures Allowed(budget, g[..|g| - 1])
  {
  }

  /** The group a section joined, or would have had to. */
  function LastOf(groups: seq<seq<Section>>): seq<Section> {
    if groups == [] then [] else groups[|groups| - 1]
  }

  lemma {:induction false} LastIsSuffix(groups: seq<seq<Section>>)
    ensures |LastOf(groups)| <= |Flat(groups)|
    ensures LastOf(groups) == Flat(groups)[|Flat(groups)| - |LastOf(groups)|..]
  {
  }

  /** A section starts a group of its own only when it could not have joined the last one. */
  lemma {:induction false} NewGroupIsForced(budget: int, before: seq<Section>, s: Section)
    requires before != []
    ensures var p, q := Grouped(budget, before), Added(budget, Grouped(budget, before), s);
            && Closed(p) != []
            && ((Closed(q) == Closed(p) + [[s]] && !Allowed(budget, LastOf(Closed(p)) + [s]))
                || (|Closed(q)| == |Closed(p)| && LastOf(Closed(q)) == LastOf(Closed(p)) + [s]))
  {
    var p := Grouped(budget, before);
    if p.current == [] {
      LargeStandsAlone(budget, before);
      LargeTakesNobody(budget, before[|before| - 1], s);
      assert [] + [s] == [s];
    } else {
      OpenGroupJoinsOrCannot(budget, p, s);
    }
  }

  lemma LargeTakesNobody(budget: int, large: Section, s: Section)
    requires !Short(large)
    ensures !Allowed(budget, [large] + [s])
  {
    assert ([large] + [s])[0] == large;
  }

  lemma OpenGroupJoinsOrCannot(budget: int, p: Progress, s: Section)
    requires p.current != []
    ensures var q := Added(budget, p, s);
            || (Closed(q) == Closed(p) + [[s]] && !Allowed(budget, p.current + [s]))
            || (Closed(q) == p.done + [p.current + [s]])
  {
    var g := p.current + [s];
    assert g[|g| - 1] == s && g[0] == p.current[0];
    RoomAppends(p.current, s);
  }

  lemma {:induction false} LargeStandsAlone(budget: int, sections: seq<Section>)
    requires sections != [] && Grouped(budget, sections).current == []
    ensures !Short(sections[|sections| - 1]) && LastOf(Grouped(budget, sections).done) == [sections[|sections| - 1]]
  {
  }

  /** Any other grouping has more groups, or as many with a last group at least as long. */
  lemma {:induction false} GreedyStaysAhead(budget: int, sections: seq<Section>, other: seq<seq<Section>>)
    requires Groups(budget, other, sections)
    ensures var mine := Closed(Grouped(budget, sections));
            |other| > |mine| || (|other| == |mine| && |LastOf(other)| >= |LastOf(mine)|)
  {
    if sections == [] {
      assert Closed(Grouped(budget, sections)) == [];
    } else {
      var before, s := sections[..|sections| - 1], sections[|sections| - 1];
      assert sections == before + [s];
      assert other != [];
      var rest, last := other[..|other| - 1], other[|other| - 1];
      assert Flat(rest) + last == sections && Allowed(budget, last);
      assert last[|last| - 1] == s;
      if |last| == 1 {
        assert Flat(rest) == before;
        GreedyStaysAhead(budget, before, rest);
      } else {
        var shorter := rest + [last[..|last| - 1]];
        FlatAppends(rest, last[..|last| - 1]);
        assert Flat(shorter) == before;
        PrefixIsAllowed(budget, last);
        GreedyStaysAhead(budget, before, shorter);
        assert last[..|last| - 1] + [s] == last;
        JoinsWhenItCan(budget, before, s, rest, last[..|last| - 1]);
      }
      if before != [] {
        NewGroupIsForced(budget, before, s);
      }
    }
  }

  /** If another grouping as small lets the section join its longer last group, so does this one. */
  lemma {:induction false} JoinsWhenItCan(budget: int, before: seq<Section>, s: Section, rest: seq<seq<Section>>, long: seq<Section>)
    requires Flat(rest) + long == before && before != [] && Allowed(budget, long + [s])
    ensures var mine := LastOf(Closed(Grouped(budget, before)));
            |long| >= |mine| ==> Allowed(budget, mine + [s])
  {
    var mine := LastOf(Closed(Grouped(budget, before)));
    GroupsAreAllowed(budget, before);
    LastIsSuffix(Closed(Grouped(budget, before)));
    if |long| >= |mine| {
      SuffixOfSuffix(before, Flat(rest), long, mine);
      SuffixJoins(long, mine, s);
      SuffixIsAllowed(budget, long + [s], |long| - |mine|);
    }
  }

  lemma SuffixOfSuffix(all: seq<Section>, front: seq<Section>, long: seq<Section>, short: seq<Section>)
    requires front + long == all && |short| <= |long| && short == all[|all| - |short|..]
    ensures short == long[|long| - |short|..]
  {
  }

  lemma SuffixJoins(long: seq<Section>, short: seq<Section>, s: Section)
    requires |short| <= |long| && short == long[|long| - |short|..]
    ensures short + [s] == (long + [s])[|long| - |short|..]
  {
  }
}
