/** Turning a document's sections into parent and child chunks. */
module Chunking {
  import opened Text
  import opened Grouping

  /** Parents and children are hashed apart, so equal texts in different roles stay distinct. */
  datatype Hash = ParentHash(content: string) | ChildHash(content: string)

  datatype Chunk = Chunk(content: string, isParent: bool, meta: map<string, string>, parentRef: string)

  function HashOf(c: Chunk): Hash {
    if c.isParent then ParentHash(c.content) else ChildHash(c.content)
  }

  /** The size limit of a parent, and the two text splitters. */
  datatype Splitting = Splitting(budget: int, parents: string -> seq<string>, children: string -> seq<string>)

  // ---- The metadata of a merged parent ------------------------------------------------------

  /** A section's own headers over the document's metadata. */
  function Effective(s: Section, base: map<string, string>): map<string, string> {
    base + s.meta
  }

  predicate Agreed(g: seq<Section>, base: map<string, string>, key: string, value: string) {
    forall i | 0 <= i < |g| :: key in Effective(g[i], base) && Effective(g[i], base)[key] == value
  }

  function Shared(g: seq<Section>, base: map<string, string>): map<string, string> {
    if g == [] then base
    else
      var first := Effective(g[0], base);
      map key | key in first && Agreed(g, base, key, first[key]) :: first[key]
  }

  /** A merged parent says exactly what every one of its sections says. */
  lemma SharedIsAgreement(g: seq<Section>, base: map<string, string>, key: string, value: string)
    requires g != []
    ensures (key in Shared(g, base) && Shared(g, base)[key] == value) <==> Agreed(g, base, key, value)
  {
    if Agreed(g, base, key, value) {
      assert key in Effective(g[0], base);
    }
  }

  method SharedMetadata(g: seq<Section>, base: map<string, string>) returns (merged: map<string, string>)
    ensures merged == Shared(g, base)
  {
    merged := base;
    if g == [] {
      return;
    }
    var first := Effective(g[0], base);
    var left := first.Keys;
    while left != {}
      invariant left <= first.Keys
      invariant forall key | key in left :: key in merged <==> key in base
      invariant forall key | key !in left ::
        key in merged <==> key in first && Agreed(g, base, key, first[key])
      invariant forall key | key in merged && key !in left :: merged[key] == first[key]
      decreases left
    {
      var key :| key in left;
      left := left - {key};
      if forall i | 0 <= i < |g| :: key in Effective(g[i], base) && Effective(g[i], base)[key] == first[key] {
        merged := merged[key := first[key]];
      } else {
        merged := merged - {key};
      }
    }
  }

  // ---- Parents and children -----------------------------------------------------------------

  const GAP: string := "\n\n"

  function Joined(g: seq<Section>): string {
    if g == [] then ""
    else if |g| == 1 then g[0].text
    else Joined(g[..|g| - 1]) + GAP + g[|g| - 1].text
  }

  predicate Oversized(sp: Splitting, g: seq<Section>) {
    |Joined(g)| > sp.budget
  }

  function ParentTexts(sp: Splitting, g: seq<Section>): seq<string> {
    if Oversized(sp, g) then sp.parents(Joined(g)) else [Joined(g)]
  }

  /** A text to cut into children, and the metadata they carry. */
  datatype Source = Source(text: string, meta: map<string, string>)

  /** A merged parent's children come from its sections one by one, an oversized one's from each block. */
  function Sources(sp: Splitting, g: seq<Section>, base: map<string, string>, parent: string): seq<Source> {
    if Oversized(sp, g) then [Source(parent, Shared(g, base))]
    else seq(|g|, i requires 0 <= i < |g| => Source(g[i].text, Effective(g[i], base)))
  }

  function Pieces(sp: Splitting, s: Source, parent: string): seq<Chunk> {
    var texts := sp.children(s.text);
    seq(|texts|, i requires 0 <= i < |texts| => Chunk(texts[i], false, s.meta, parent))
  }

  function ChildChunks(sp: Splitting, sources: seq<Source>, parent: string): seq<Chunk> {
    if sources == [] then []
    else ChildChunks(sp, sources[..|sources| - 1], parent) + Pieces(sp, sources[|sources| - 1], parent)
  }

  function FamilyOf(sp: Splitting, g: seq<Section>, base: map<string, string>, parent: string): seq<Chunk> {
    [Chunk(parent, true, Shared(g, base), "")] + ChildChunks(sp, Sources(sp, g, base, parent), parent)
  }

  function Families(sp: Splitting, g: seq<Section>, base: map<string, string>, parents: seq<string>): seq<Chunk> {
    if parents == [] then []
    else Families(sp, g, base, parents[..|parents| - 1]) + FamilyOf(sp, g, base, parents[|parents| - 1])
  }

  function AllChunks(sp: Splitting, groups: seq<seq<Section>>, base: map<string, string>): seq<Chunk> {
    if groups == [] then []
    else
      var g := groups[|groups| - 1];
      AllChunks(sp, groups[..|groups| - 1], base) + Families(sp, g, base, ParentTexts(sp, g))
  }

  function DocumentChunks(sp: Splitting, sections: seq<Section>, base: map<string, string>): seq<Chunk> {
    AllChunks(sp, Closed(Grouped(sp.budget, sections)), base)
  }

  method SplitToParentChild(sp: Splitting, sections: seq<Section>, base: map<string, string>)
    returns (chunks: seq<Chunk>)
    ensures chunks == DocumentChunks(sp, sections, base)
  {
    var groups := GroupSmallSections(sections, sp.budget);
    chunks := ChunkGroups(sp, groups, base);
  }

  method ChunkGroups(sp: Splitting, groups: seq<seq<Section>>, base: map<string, string>) returns (chunks: seq<Chunk>)
    ensures chunks == AllChunks(sp, groups, base)
  {
    chunks := [];
    for i := 0 to |groups|
      invariant chunks == AllChunks(sp, groups[..i], base)
    {
      assert groups[..i + 1][..i] == groups[..i];
      var family := ChunkGroup(sp, groups[i], base);
      chunks := chunks + family;
    }
    assert groups[..|groups|] == groups;
  }

  method ChunkGroup(sp: Splitting, g: seq<Section>, base: map<string, string>) returns (chunks: seq<Chunk>)
    ensures chunks == Families(sp, g, base, ParentTexts(sp, g))
  {
    var text := Joined(g);
    var meta := SharedMetadata(g, base);
    var parents := [text];
    if |text| > sp.budget {
      parents := sp.parents(text);
    }
    chunks := ChunkParents(sp, g, base, meta, parents);
  }

  method ChunkParents(sp: Splitting, g: seq<Section>, base: map<string, string>, meta: map<string, string>,
                      parents: seq<string>) returns (chunks: seq<Chunk>)
    requires meta == Shared(g, base)
    ensures chunks == Families(sp, g, base, parents)
  {
    chunks := [];
    for i := 0 to |parents|
      invariant chunks == Families(sp, g, base, parents[..i])
    {
      assert parents[..i + 1][..i] == parents[..i];
      chunks := chunks + [Chunk(parents[i], true, meta, "")];
      var children := ChunkSources(sp, Sources(sp, g, base, parents[i]), parents[i]);
      chunks := chunks + children;
      assert chunks == Families(sp, g, base, parents[..i]) + FamilyOf(sp, g, base, parents[i]);
    }
    assert parents[..|parents|] == parents;
  }

  method ChunkSources(sp: Splitting, sources: seq<Source>, parent: string) returns (chunks: seq<Chunk>)
    ensures chunks == ChildChunks(sp, sources, parent)
  {
    chunks := [];
    for i := 0 to |sources|
      invariant chunks == ChildChunks(sp, sources[..i], parent)
    {
      assert sources[..i + 1][..i] == sources[..i];
      var texts := sp.children(sources[i].text);
      ghost var before := chunks;
      for j := 0 to |texts|
        invariant chunks == before + Pieces(sp, sources[i], parent)[..j]
      {
        chunks := chunks + [Chunk(texts[j], false, sources[i].meta, parent)];
      }
    }
    assert sources[..|sources|] == sources;
  }

  // ---- What the chunks are good for ---------------------------------------------------------

  lemma ContainsAround(left: string, s: string, right: string)
    ensures Contains(left + s + right, s)
  {
    assert OccursAt(left + s + right, s, |left|);
  }

  lemma ContainsTrans(a: string, b: string, c: string)
    requires Contains(a, b) && Contains(b, c)
    ensures Contains(a, c)
  {
    var i :| 0 <= i <= |a| && OccursAt(a, b, i);
    var j :| 0 <= j <= |b| && OccursAt(b, c, j);
    assert forall k | 0 <= k < |c| :: a[i + j + k] == b[j + k] == c[k] by {
      assert forall k | 0 <= k < |b| :: a[i + k] == a[i..i + |b|][k] == b[k];
      assert forall k | 0 <= k < |c| :: b[j + k] == b[j..j + |c|][k] == c[k];
    }
    assert a[i + j..i + j + |c|] == c;
    assert OccursAt(a, c, i + j);
  }

  lemma {:induction false} SectionIsInJoined(g: seq<Section>, i: nat)
    requires i < |g|
    ensures Contains(Joined(g), g[i].text)
  {
    if |g| == 1 {
      assert OccursAt(g[0].text, g[0].text, 0);
    } else if i == |g| - 1 {
      ContainsAround(Joined(g[..|g| - 1]) + GAP, g[i].text, "");
      assert Joined(g) == Joined(g[..|g| - 1]) + GAP + g[i].text + "";
    } else {
      SectionIsInJoined(g[..|g| - 1], i);
      ContainsAround("", Joined(g[..|g| - 1]), GAP + g[|g| - 1].text);
      assert Joined(g) == "" + Joined(g[..|g| - 1]) + (GAP + g[|g| - 1].text);
      ContainsTrans(Joined(g), Joined(g[..|g| - 1]), g[i].text);
    }
  }

  lemma {:induction false} JoinedFillsRoom(g: seq<Section>)
    requires g != []
    ensures |Joined(g)| + 2 == Room(g)
  {
    if |g| > 1 {
      JoinedFillsRoom(g[..|g| - 1]);
    }
  }

  /** Merging never makes a parent that has to be cut again. */
  lemma MergedParentFits(sp: Splitting, g: seq<Section>)
    requires Allowed(sp.budget, g) && |g| > 1
    ensures !Oversized(sp, g)
  {
    JoinedFillsRoom(g);
  }

  /** Every child is cut from the text it came with. */
  ghost predicate CutsVerbatim(sp: Splitting) {
    forall text, i | 0 <= i < |sp.children(text)| :: Contains(text, sp.children(text)[i])
  }

  /** A child names a parent chunk in the list that holds its whole text. */
  ghost predicate HasParent(chunks: seq<Chunk>, c: Chunk) {
    Contains(c.parentRef, c.content) && exists p :: p in chunks && p.isParent && p.content == c.parentRef
  }

  /** The chunks of one document: one source file, every child beside its parent. */
  ghost predicate Sound(chunks: seq<Chunk>, file: Option<string>) {
    && (forall c | c in chunks && !c.isParent :: HasParent(chunks, c))
    && (forall c | c in chunks :: FileOf(c.meta) == file)
  }

  function FileOf(meta: map<string, string>): Option<string> {
    if "source_file" in meta then Some(meta["source_file"]) else None
  }

  lemma {:induction false} ChildrenFit(sp: Splitting, sources: seq<Source>, parent: string, file: Option<string>)
    requires CutsVerbatim(sp)
    requires forall s | s in sources :: Contains(parent, s.text) && FileOf(s.meta) == file
    ensures forall c | c in ChildChunks(sp, sources, parent) ::
      !c.isParent && c.parentRef == parent && Contains(parent, c.content) && FileOf(c.meta) == file
  {
    if sources != [] {
      var s := sources[|sources| - 1];
      ChildrenFit(sp, sources[..|sources| - 1], parent, file);
      forall c | c in Pieces(sp, s, parent)
        ensures Contains(parent, c.content)
      {
        ContainsTrans(parent, s.text, c.content);
      }
    }
  }

  /** No header is called `source_file`, so sections keep the document's. */
  predicate KeepsFile(sections: seq<Section>) {
    forall i | 0 <= i < |sections| :: "source_file" !in sections[i].meta
  }

  lemma SharedKeepsFile(g: seq<Section>, base: map<string, string>)
    requires KeepsFile(g)
    ensures FileOf(Shared(g, base)) == FileOf(base)
    ensures forall i | 0 <= i < |g| :: FileOf(Effective(g[i], base)) == FileOf(base)
  {
  }

  lemma FamilyIsSound(sp: Splitting, g: seq<Section>, base: map<string, string>, parent: string)
    requires CutsVerbatim(sp) && KeepsFile(g) && parent in ParentTexts(sp, g)
    ensures Sound(FamilyOf(sp, g, base, parent), FileOf(base))
  {
    var sources := Sources(sp, g, base, parent);
    SharedKeepsFile(g, base);
    forall s | s in sources
      ensures Contains(parent, s.text) && FileOf(s.meta) == FileOf(base)
    {
      if Oversized(sp, g) {
        ContainsAround("", parent, "");
        assert "" + parent + "" == parent;
      } else {
        var i :| 0 <= i < |g| && s == sources[i];
        SectionIsInJoined(g, i);
      }
    }
    ChildrenFit(sp, sources, parent, FileOf(base));
    assert FamilyOf(sp, g, base, parent)[0].content == parent;
  }

  lemma SoundAppends(a: seq<Chunk>, b: seq<Chunk>, file: Option<string>)
    requires Sound(a, file) && Sound(b, file)
    ensures Sound(a + b, file)
  {
    forall c | c in a + b && !c.isParent
      ensures HasParent(a + b, c)
    {
      if c in a {
        var p :| p in a && p.isParent && p.content == c.parentRef;
        assert p in a + b;
      } else {
        var p :| p in b && p.isParent && p.content == c.parentRef;
        assert p in a + b;
      }
    }
  }

  lemma {:induction false} FamiliesAreSound(sp: Splitting, g: seq<Section>, base: map<string, string>, parents: seq<string>)
    requires CutsVerbatim(sp) && KeepsFile(g) && forall p | p in parents :: p in ParentTexts(sp, g)
    ensures Sound(Families(sp, g, base, parents), FileOf(base))
  {
    if parents != [] {
      FamiliesAreSound(sp, g, base, parents[..|parents| - 1]);
      FamilyIsSound(sp, g, base, parents[|parents| - 1]);
      SoundAppends(Families(sp, g, base, parents[..|parents| - 1]), FamilyOf(sp, g, base, parents[|parents| - 1]), FileOf(base));
    }
  }

  lemma {:induction false} AllChunksAreSound(sp: Splitting, groups: seq<seq<Section>>, base: map<string, string>)
    requires CutsVerbatim(sp) && forall i | 0 <= i < |groups| :: KeepsFile(groups[i])
    ensures Sound(AllChunks(sp, groups, base), FileOf(base))
  {
    if groups != [] {
      var before, g := groups[..|groups| - 1], groups[|groups| - 1];
      AllChunksAreSound(sp, before, base);
      FamiliesAreSound(sp, g, base, ParentTexts(sp, g));
      SoundAppends(AllChunks(sp, before, base), Families(sp, g, base, ParentTexts(sp, g)), FileOf(base));
    }
  }

  lemma {:induction false} GroupIsWithin(groups: seq<seq<Section>>, i: nat)
    requires i < |groups|
    ensures forall s | s in groups[i] :: s in Flat(groups)
  {
    if i < |groups| - 1 {
      GroupIsWithin(groups[..|groups| - 1], i);
      assert groups[..|groups| - 1][i] == groups[i];
    }
  }

  /** Every child of a document's chunks is a piece of a parent chunk beside it, and every chunk carries
      the document's source file. */
  lemma DocumentChunksAreSound(sp: Splitting, sections: seq<Section>, base: map<string, string>)
    requires CutsVerbatim(sp) && KeepsFile(sections)
    ensures Sound(DocumentChunks(sp, sections, base), FileOf(base))
  {
    var groups := Closed(Grouped(sp.budget, sections));
    GroupsAreAllowed(sp.budget, sections);
    forall i | 0 <= i < |groups|
      ensures KeepsFile(groups[i])
    {
      GroupIsWithin(groups, i);
      assert forall s | s in sections :: "source_file" !in s.meta;
    }
    AllChunksAreSound(sp, groups, base);
  }

  // ---- Nothing is lost ----------------------------------------------------------------------

  /** A section is indexed: one parent holds all of it, and its pieces are children of that parent under
      the section's own headers. */
  ghost predicate Indexed(sp: Splitting, chunks: seq<Chunk>, s: Section, base: map<string, string>, parent: string) {
    && Contains(parent, s.text)
    && (exists p :: p in chunks && p.isParent && p.content == parent)
    && (forall i | 0 <= i < |sp.children(s.text)| :: Chunk(sp.children(s.text)[i], false, Effective(s, base), parent) in chunks)
  }

  lemma IndexedGrows(sp: Splitting, small: seq<Chunk>, large: seq<Chunk>, s: Section, base: map<string, string>, parent: string)
    requires Indexed(sp, small, s, base, parent) && forall c | c in small :: c in large
    ensures Indexed(sp, large, s, base, parent)
  {
    var p :| p in small && p.isParent && p.content == parent;
    assert p in large;
  }

  lemma {:induction false} SourceIsCut(sp: Splitting, sources: seq<Source>, parent: string, k: nat, i: nat)
    requires k < |sources| && i < |sp.children(sources[k].text)|
    ensures Chunk(sp.children(sources[k].text)[i], false, sources[k].meta, parent) in ChildChunks(sp, sources, parent)
  {
    var pieces := Pieces(sp, sources[k], parent);
    assert pieces[i] in pieces;
    if k < |sources| - 1 {
      SourceIsCut(sp, sources[..|sources| - 1], parent, k, i);
    }
  }

  lemma {:induction false} GroupIndexesItsSections(sp: Splitting, g: seq<Section>, base: map<string, string>, k: nat)
    requires k < |g| && !Oversized(sp, g)
    ensures Indexed(sp, Families(sp, g, base, ParentTexts(sp, g)), g[k], base, Joined(g))
  {
    var parent := Joined(g);
    var sources := Sources(sp, g, base, parent);
    var family := FamilyOf(sp, g, base, parent);
    assert Families(sp, g, base, [parent]) == Families(sp, g, base, []) + family == family;
    SectionIsInJoined(g, k);
    assert family[0] in family && family[0].isParent;
    forall i | 0 <= i < |sp.children(g[k].text)|
      ensures Chunk(sp.children(g[k].text)[i], false, Effective(g[k], base), parent) in family
    {
      SourceIsCut(sp, sources, parent, k, i);
    }
  }

  lemma {:induction false} GroupIsChunked(sp: Splitting, groups: seq<seq<Section>>, base: map<string, string>, n: nat)
    requires n < |groups|
    ensures forall c | c in Families(sp, groups[n], base, ParentTexts(sp, groups[n])) :: c in AllChunks(sp, groups, base)
  {
    if n < |groups| - 1 {
      GroupIsChunked(sp, groups[..|groups| - 1], base, n);
      assert groups[..|groups| - 1][n] == groups[n];
    }
  }

  lemma {:induction false} SectionHasGroup(groups: seq<seq<Section>>, s: Section) returns (n: nat, k: nat)
    requires s in Flat(groups)
    ensures n < |groups| && k < |groups[n]| && groups[n][k] == s
  {
    var last := groups[|groups| - 1];
    if s in last {
      n := |groups| - 1;
      k :| 0 <= k < |last| && last[k] == s;
    } else {
      n, k := SectionHasGroup(groups[..|groups| - 1], s);
      assert groups[..|groups| - 1][n] == groups[n];
    }
  }

  /** Every section that fits a parent keeps its text whole in one, merged or alone, and its own pieces
      under its own headers. */
  lemma EverySectionIsIndexed(sp: Splitting, sections: seq<Section>, base: map<string, string>, s: Section)
    requires s in sections && |s.text| <= sp.budget
    ensures exists parent :: Indexed(sp, DocumentChunks(sp, sections, base), s, base, parent)
  {
    var groups := Closed(Grouped(sp.budget, sections));
    GroupsAreAllowed(sp.budget, sections);
    var n, k := SectionHasGroup(groups, s);
    var g := groups[n];
    if |g| > 1 {
      MergedParentFits(sp, g);
    }
    GroupIndexesItsSections(sp, g, base, k);
    GroupIsChunked(sp, groups, base, n);
    IndexedGrows(sp, Families(sp, g, base, ParentTexts(sp, g)), DocumentChunks(sp, sections, base), s, base, Joined(g));
  }

  /** One block of a section too large for a parent: a parent of its own under the section's headers, its own
      pieces beneath it. */
  ghost predicate BlockIndexed(sp: Splitting, chunks: seq<Chunk>, meta: map<string, string>, block: string) {
    && Chunk(block, true, meta, "") in chunks
    && forall i | 0 <= i < |sp.children(block)| :: Chunk(sp.children(block)[i], false, meta, block) in chunks
  }

  lemma {:induction false} BlockIsChunked(sp: Splitting, g: seq<Section>, base: map<string, string>, parents: seq<string>, n: nat)
    requires n < |parents| && Oversized(sp, g)
    ensures BlockIndexed(sp, Families(sp, g, base, parents), Shared(g, base), parents[n])
  {
    if n < |parents| - 1 {
      BlockIsChunked(sp, g, base, parents[..|parents| - 1], n);
    } else {
      var block := parents[n];
      var family := FamilyOf(sp, g, base, block);
      assert family[0] == Chunk(block, true, Shared(g, base), "");
      forall i | 0 <= i < |sp.children(block)|
        ensures Chunk(sp.children(block)[i], false, Shared(g, base), block) in family
      {
        SourceIsCut(sp, Sources(sp, g, base, block), block, 0, i);
      }
    }
  }

  lemma AloneSharesItself(s: Section, base: map<string, string>)
    ensures Shared([s], base) == Effective(s, base)
  {
    assert [s][0] == s;
  }

  /** A section too large for a parent is never merged: each block the splitter makes of it is a parent under
      the section's headers, with that block's pieces as its children. */
  lemma OversizedSectionIsCut(sp: Splitting, sections: seq<Section>, base: map<string, string>, s: Section, n: nat)
    requires s in sections && |s.text| > sp.budget && n < |sp.parents(s.text)|
    ensures BlockIndexed(sp, DocumentChunks(sp, sections, base), Effective(s, base), sp.parents(s.text)[n])
  {
    var groups := Closed(Grouped(sp.budget, sections));
    GroupsAreAllowed(sp.budget, sections);
    var m, k := SectionHasGroup(groups, s);
    var g := groups[m];
    SectionIsInJoined(g, k);
    if |g| > 1 {
      MergedParentFits(sp, g);
    }
    assert g == [s];
    AloneSharesItself(s, base);
    BlockIsChunked(sp, g, base, ParentTexts(sp, g), n);
    GroupIsChunked(sp, groups, base, m);
  }
}
