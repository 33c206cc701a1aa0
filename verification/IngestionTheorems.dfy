/** What re-ingesting a document keeps, and what it leaves. */
module IngestionTheorems {
  import opened Text
  import opened Chunking
  import opened Ingestion

  // ---- The table's invariant ----------------------------------------------------------------

  /** A child is a piece of a parent row of its own file. */
  ghost predicate Linked(t: Table, r: Row) {
    && r.parent.Some? && r.parent.value in t.rows
    && var p := t.rows[r.parent.value];
       p.isParent && FileOf(p.meta) == FileOf(r.meta) && Contains(p.content, r.content)
  }

  ghost predicate TableInv(t: Table) {
    && (forall id | id in t.rows :: id < t.nextId)
    && (forall id | id in t.rows :: if t.rows[id].isParent then t.rows[id].parent == None else Linked(t, t.rows[id]))
  }

  /** No other file's row has the text of one of these chunks, in its role. */
  ghost predicate NotShared(t: Table, hashes: set<Hash>, file: Option<string>) {
    forall id | id in t.rows && RowHash(t.rows[id]) in hashes :: FileOf(t.rows[id].meta) == file
  }

  ghost predicate NoStale(t: Table, file: string, hashes: set<Hash>) {
    forall id | id in t.rows :: !Stale(t.rows[id], file, hashes)
  }

  ghost predicate OthersKept(t: Table, n: Table, file: Option<string>) {
    && (forall id | id in t.rows && FileOf(t.rows[id].meta) != file :: id in n.rows && n.rows[id] == t.rows[id])
    && (forall id | id in n.rows && FileOf(n.rows[id].meta) != file :: id in t.rows)
  }

  // ---- Deleting -----------------------------------------------------------------------------

  /** What deleting leaves: the same rows, fewer of them, no other file touched, nothing stale, and every
      link whole. */
  lemma CleaningKeepsInv(t: Table, file: Option<string>, hashes: set<Hash>)
    requires TableInv(t)
    ensures var n := Cleaned(t, file, hashes);
            && TableInv(n) && n.nextId == t.nextId && OthersKept(t, n, file)
            && (forall id | id in n.rows :: id in t.rows && n.rows[id] == t.rows[id])
            && (file.Some? && file.value != "" ==> NoStale(n, file.value, hashes))
  {
    if file.Some? && file.value != "" {
      var n := Cleaned(t, file, hashes);
      forall id | id in n.rows && !n.rows[id].isParent
        ensures Linked(n, n.rows[id])
      {
        assert Linked(t, t.rows[id]);
        var p := t.rows[id].parent.value;
        if Stale(t.rows[p], file.value, hashes) {
          assert p in DoomedParents(t, file.value, hashes);
        }
      }
    }
  }

  lemma LinkedMeansNotDangling(t: Table)
    requires TableInv(t)
    ensures !Dangling(t)
  {
  }

  /** Two levels and whole links, with no promise about files or texts. */
  ghost predicate KeysHold(t: Table) {
    && (forall id | id in t.rows && t.rows[id].isParent :: t.rows[id].parent == None)
    && (forall id | id in t.rows && t.rows[id].parent.Some? ::
         t.rows[id].parent.value in t.rows && t.rows[t.rows[id].parent.value].isParent)
  }

  /** A child of another file hangs from a parent this document no longer has. */
  ghost predicate StrandsAnother(t: Table, file: string, hashes: set<Hash>) {
    exists id :: id in t.rows && !OfFile(t.rows[id], file) && t.rows[id].parent.Some?
                 && t.rows[id].parent.value in DoomedParents(t, file, hashes)
  }

  /** Whatever the table and the chunks: the database refuses exactly when a doomed parent has a child in
      another file, and otherwise the foreign key holds after the deletes. */
  lemma RefusedExactlyWhenStranding(t: Table, chunks: seq<Chunk>, file: string)
    requires KeysHold(t) && chunks != [] && file != ""
    ensures Ingested(t, chunks, Some(file)).Refused? <==> StrandsAnother(t, file, NewHashes(chunks))
  {
    var hashes := NewHashes(chunks);
    var n := Cleaned(t, Some(file), hashes);
    var doomed := DoomedParents(t, file, hashes);
    if StrandsAnother(t, file, hashes) {
      var id :| id in t.rows && !OfFile(t.rows[id], file) && t.rows[id].parent.Some? && t.rows[id].parent.value in doomed;
      assert id in n.rows && n.rows[id] == t.rows[id] && t.rows[id].parent.value !in n.rows;
    }
    forall id | id in n.rows && n.rows[id].parent.Some? && n.rows[id].parent.value !in n.rows
      ensures StrandsAnother(t, file, hashes)
    {
      var p := t.rows[id].parent.value;
      assert p in t.rows;
      LostParentWasDoomed(t, file, hashes, id);
    }
  }

  lemma LostParentWasDoomed(t: Table, file: string, hashes: set<Hash>, id: nat)
    requires KeysHold(t) && file != ""
    requires var n := Cleaned(t, Some(file), hashes);
             id in n.rows && n.rows[id].parent.Some? && n.rows[id].parent.value !in n.rows
    ensures !OfFile(t.rows[id], file) && t.rows[id].parent.value in DoomedParents(t, file, hashes)
  {
  }

  // ---- Inserting ----------------------------------------------------------------------------

  lemma {:induction false} ParentIdFinds(t: Table, content: string, limit: nat)
    ensures var id := ParentId(t, content, limit);
            if id.Some? then id.value < limit && id.value in t.rows && t.rows[id.value].isParent && t.rows[id.value].content == content
            else forall i | i in t.rows && i < limit :: !(t.rows[i].isParent && t.rows[i].content == content)
  {
    if limit > 0 {
      ParentIdFinds(t, content, limit - 1);
    }
  }

  /** Every row of `t` is in `n`, unchanged, and what is new is of this file. */
  ghost predicate Extends(t: Table, n: Table, file: Option<string>) {
    && t.nextId <= n.nextId
    && (forall id | id in t.rows :: id in n.rows && n.rows[id] == t.rows[id])
    && (forall id | id in n.rows && id !in t.rows :: FileOf(n.rows[id].meta) == file)
  }

  ghost predicate Grows(t: Table, n: Table, file: Option<string>) {
    TableInv(n) && Extends(t, n, file)
  }

  lemma WithRowGrows(t: Table, r: Row, file: Option<string>)
    requires TableInv(t) && FileOf(r.meta) == file
    requires if r.isParent then r.parent == None else Linked(t, r)
    ensures Grows(t, WithRow(t, r), file)
  {
    var n := WithRow(t, r);
    forall id | id in n.rows && !n.rows[id].isParent
      ensures Linked(n, n.rows[id])
    {
      assert Linked(t, n.rows[id]);
    }
  }

  lemma {:induction false} ParentsGrow(t: Table, parents: seq<Chunk>, file: Option<string>)
    requires TableInv(t) && forall c | c in parents :: c.isParent && FileOf(c.meta) == file
    ensures Grows(t, WithParents(t, parents), file)
    ensures forall c | c in parents :: Stored(WithParents(t, parents), HashOf(c))
  {
    if parents != [] {
      var init, c := parents[..|parents| - 1], parents[|parents| - 1];
      ParentsGrow(t, init, file);
      assert parents == init + [c];
      var before := WithParents(t, init);
      WithRowGrows(before, ParentRow(c), file);
      var n := WithRow(before, ParentRow(c));
      assert RowHash(n.rows[before.nextId]) == HashOf(c);
      StoredStays(before, n, file);
    }
  }

  lemma StoredStays(t: Table, n: Table, file: Option<string>)
    requires Extends(t, n, file)
    ensures forall h | Stored(t, h) :: Stored(n, h)
  {
    forall h | Stored(t, h)
      ensures Stored(n, h)
    {
      var id :| id in t.rows && RowHash(t.rows[id]) == h;
      assert RowHash(n.rows[id]) == h;
    }
  }

  /** The parent row of a child's text is there and of this file. */
  ghost predicate ParentReady(t: Table, c: Chunk, file: Option<string>) {
    && Contains(c.parentRef, c.content) && Stored(t, ParentHash(c.parentRef))
    && forall id | id in t.rows && RowHash(t.rows[id]) == ParentHash(c.parentRef) :: FileOf(t.rows[id].meta) == file
  }

  lemma {:induction false} ParentIdIsReady(t: Table, c: Chunk, file: Option<string>)
    requires TableInv(t) && ParentReady(t, c, file)
    ensures var id := ParentId(t, c.parentRef, t.nextId);
            && id.Some? && id.value in t.rows && t.rows[id.value].isParent
            && t.rows[id.value].content == c.parentRef && FileOf(t.rows[id.value].meta) == file
  {
    ParentIdFinds(t, c.parentRef, t.nextId);
    var row :| row in t.rows && RowHash(t.rows[row]) == ParentHash(c.parentRef);
    assert t.rows[row].isParent && row < t.nextId;
  }

  lemma {:induction false} OneChildGrows(t: Table, before: Table, c: Chunk, file: Option<string>)
    requires TableInv(t) && Grows(t, before, file) && !c.isParent && FileOf(c.meta) == file && ParentReady(t, c, file)
    ensures
      var parent := ParentId(t, c.parentRef, t.nextId);
      var n := WithRow(before, Row(c.content, false, parent, c.meta));
      parent.Some? && Grows(t, n, file) && Stored(n, HashOf(c)) && (forall h | Stored(before, h) :: Stored(n, h))
  {
    ParentIdIsReady(t, c, file);
    var row := Row(c.content, false, ParentId(t, c.parentRef, t.nextId), c.meta);
    WithRowGrows(before, row, file);
    var n := WithRow(before, row);
    assert RowHash(n.rows[before.nextId]) == HashOf(c);
    StoredStays(before, n, file);
  }

  /** A row as its chunk has it: text, role and metadata; a parent under nothing, a child under a parent row
      whose text is the one it was cut from. */
  ghost predicate RowIs(t: Table, r: Row, c: Chunk) {
    && r.content == c.content && r.isParent == c.isParent && r.meta == c.meta
    && (c.isParent ==> r.parent.None?)
    && (!c.isParent ==> r.parent.Some? && r.parent.value in t.rows)
    && (!c.isParent ==> t.rows[r.parent.value].isParent && t.rows[r.parent.value].content == c.parentRef)
  }

  ghost predicate RowIsOneOf(t: Table, r: Row, chunks: seq<Chunk>) {
    exists c :: c in chunks && RowIs(t, r, c)
  }

  /** Every new row is one of these chunks. */
  ghost predicate NewRowsFrom(t: Table, n: Table, chunks: seq<Chunk>) {
    forall id | id in n.rows && id !in t.rows :: RowIsOneOf(t, n.rows[id], chunks)
  }

  lemma {:induction false} ChildrenGrow(t: Table, children: seq<Chunk>, file: Option<string>)
    requires TableInv(t)
    requires forall c | c in children :: !c.isParent && FileOf(c.meta) == file && ParentReady(t, c, file)
    ensures Grows(t, WithChildren(t, children), file)
    ensures forall c | c in children :: Stored(WithChildren(t, children), HashOf(c))
  {
    if children != [] {
      var init, c := children[..|children| - 1], children[|children| - 1];
      ChildrenGrow(t, init, file);
      assert children == init + [c];
      OneChildGrows(t, WithChildren(t, init), c, file);
    }
  }

  lemma NewRowIsLast(t: Table, before: Table, n: Table, init: seq<Chunk>, c: Chunk)
    requires NewRowsFrom(t, before, init)
    requires n == before || (exists r :: n == WithRow(before, r) && RowIs(t, r, c))
    ensures NewRowsFrom(t, n, init + [c])
  {
    forall id | id in n.rows && id !in t.rows
      ensures RowIsOneOf(t, n.rows[id], init + [c])
    {
      if id in before.rows && n.rows[id] == before.rows[id] {
        var c' :| c' in init && RowIs(t, before.rows[id], c');
        assert c' in init + [c];
      } else {
        assert c in init + [c];
      }
    }
  }

  lemma {:induction false} NewRowsAreChildren(t: Table, children: seq<Chunk>)
    requires forall c | c in children :: !c.isParent
    ensures NewRowsFrom(t, WithChildren(t, children), children)
  {
    if children != [] {
      var init, c := children[..|children| - 1], children[|children| - 1];
      NewRowsAreChildren(t, init);
      assert children == init + [c];
      ParentIdFinds(t, c.parentRef, t.nextId);
      assert ParentId(t, c.parentRef, t.nextId).Some? ==> RowIs(t, Row(c.content, false, ParentId(t, c.parentRef, t.nextId), c.meta), c);
      NewRowIsLast(t, WithChildren(t, init), WithChildren(t, children), init, c);
    }
  }

  lemma {:induction false} NewRowsAreParents(t: Table, parents: seq<Chunk>)
    requires forall c | c in parents :: c.isParent
    ensures NewRowsFrom(t, WithParents(t, parents), parents)
  {
    if parents != [] {
      var init, c := parents[..|parents| - 1], parents[|parents| - 1];
      NewRowsAreParents(t, init);
      assert parents == init + [c];
      assert RowIs(t, ParentRow(c), c);
      NewRowIsLast(t, WithParents(t, init), WithParents(t, parents), init, c);
    }
  }

  lemma {:induction false} MissingIsFiltered(t: Table, chunks: seq<Chunk>, isParent: bool)
    ensures forall c :: c in Missing(t, chunks, isParent) <==> c in chunks && c.isParent == isParent && !Stored(t, HashOf(c))
  {
    if chunks != [] {
      MissingIsFiltered(t, chunks[..|chunks| - 1], isParent);
      assert chunks == chunks[..|chunks| - 1] + [chunks[|chunks| - 1]];
    }
  }

  /** What inserting leaves: the same rows and more of this file, every chunk stored. */
  lemma InsertingStoresAll(t: Table, chunks: seq<Chunk>, file: Option<string>)
    requires TableInv(t) && Sound(chunks, file) && NotShared(t, NewHashes(chunks), file)
    ensures var n := WithMissing(t, chunks);
            && Grows(t, n, file)
            && (forall c | c in chunks :: Stored(n, HashOf(c)))
            && (forall id | id in n.rows && id !in t.rows :: RowIsOneOf(n, n.rows[id], chunks))
            && (forall id | id in n.rows && id !in t.rows :: RowHash(n.rows[id]) in NewHashes(chunks))
  {
    var parents, children := Missing(t, chunks, true), Missing(t, chunks, false);
    MissingIsFiltered(t, chunks, true);
    MissingIsFiltered(t, chunks, false);
    ParentsGrow(t, parents, file);
    var mid := WithParents(t, parents);
    StoredStays(t, mid, file);
    forall c | c in children
      ensures ParentReady(mid, c, file)
    {
      assert HasParent(chunks, c);
      ParentIsReady(t, mid, chunks, c, file);
    }
    ChildrenGrow(mid, children, file);
    StoredStays(mid, WithChildren(mid, children), file);
    NewRowsAreOfTheChunks(t, mid, parents, children, chunks);
  }

  lemma {:induction false} NewRowsAreOfTheChunks(t: Table, mid: Table, parents: seq<Chunk>, children: seq<Chunk>, chunks: seq<Chunk>)
    requires mid == WithParents(t, parents)
    requires (forall c | c in parents :: c.isParent && c in chunks) && (forall c | c in children :: !c.isParent && c in chunks)
    requires forall id | id in mid.rows :: id in WithChildren(mid, children).rows && WithChildren(mid, children).rows[id] == mid.rows[id]
    ensures var n := WithChildren(mid, children);
            && (forall id | id in n.rows && id !in t.rows :: RowIsOneOf(n, n.rows[id], chunks))
            && (forall id | id in n.rows && id !in t.rows :: RowHash(n.rows[id]) in NewHashes(chunks))
  {
    NewRowsAreParents(t, parents);
    NewRowsAreChildren(mid, children);
    var n := WithChildren(mid, children);
    forall id | id in n.rows && id !in t.rows
      ensures RowIsOneOf(n, n.rows[id], chunks) && RowHash(n.rows[id]) in NewHashes(chunks)
    {
      var c: Chunk;
      if id in mid.rows {
        c :| c in parents && RowIs(t, mid.rows[id], c);
      } else {
        c :| c in children && RowIs(mid, n.rows[id], c);
      }
      assert RowIs(n, n.rows[id], c) && c in chunks;
      assert HashOf(c) in NewHashes(chunks);
    }
  }

  lemma ParentIsReady(t: Table, mid: Table, chunks: seq<Chunk>, c: Chunk, file: Option<string>)
    requires NotShared(t, NewHashes(chunks), file) && HasParent(chunks, c) && Extends(t, mid, file)
    requires forall p | p in chunks && p.isParent :: Stored(mid, HashOf(p))
    ensures ParentReady(mid, c, file)
  {
    var p :| p in chunks && p.isParent && p.content == c.parentRef;
    assert HashOf(p) in NewHashes(chunks);
  }

  // ---- One ingestion ------------------------------------------------------------------------

  /** Ingesting a document, on a table where every child hangs from a parent of its own file: it commits,
      the table stays so, other files keep their rows, every current chunk is stored, and the rows of a
      named file are stale after it only where there was nothing to ingest. */
  lemma IngestionKeepsTheTable(t: Table, chunks: seq<Chunk>, file: Option<string>)
    requires TableInv(t) && Sound(chunks, file) && NotShared(t, NewHashes(chunks), file)
    ensures var o := Ingested(t, chunks, file);
            && o.Committed? && TableInv(o.table) && OthersKept(t, o.table, file)
            && (forall c | c in chunks :: Stored(o.table, HashOf(c)))
            && (file.Some? && file.value != "" ==>
                 (NoStale(o.table, file.value, NewHashes(chunks)) <==>
                  chunks != [] || NoStale(t, file.value, NewHashes(chunks))))
  {
    if chunks != [] {
      var hashes := NewHashes(chunks);
      var n := Cleaned(t, file, hashes);
      CleaningKeepsInv(t, file, hashes);
      LinkedMeansNotDangling(n);
      InsertingStoresAll(n, chunks, file);
    }
  }

  /** The surviving rows keep their ids; every other row is one of the chunks, whole, with its own metadata, a
      child under the row of the very text it was cut from; and the count is the number of these. */
  lemma SurvivorsKeepTheirIds(t: Table, chunks: seq<Chunk>, file: Option<string>, id: nat)
    requires TableInv(t) && Sound(chunks, file) && NotShared(t, NewHashes(chunks), file)
    ensures var o := Ingested(t, chunks, file);
            && (id in o.table.rows && id < t.nextId ==> id in t.rows && o.table.rows[id] == t.rows[id])
            && (id in o.table.rows && id >= t.nextId ==> RowIsOneOf(o.table, o.table.rows[id], chunks))
            && o.table.nextId == t.nextId + o.inserted
  {
    if chunks != [] {
      var n := Cleaned(t, file, NewHashes(chunks));
      CleaningKeepsInv(t, file, NewHashes(chunks));
      LinkedMeansNotDangling(n);
      InsertingStoresAll(n, chunks, file);
      if id in WithMissing(n, chunks).rows && id < t.nextId {
        NewIdsAreNew(n, chunks, file, id);
      }
    }
  }

  /** A row outlives the ingestion, as it is, exactly when it is another file's, or its text is still in the
      document in its role and, for a piece, so is the text it hangs from. */
  lemma RowSurvivesExactly(t: Table, chunks: seq<Chunk>, file: string, id: nat)
    requires TableInv(t) && Sound(chunks, Some(file)) && NotShared(t, NewHashes(chunks), Some(file))
    requires chunks != [] && file != "" && id in t.rows
    ensures
      var r, hashes, after := t.rows[id], NewHashes(chunks), Ingested(t, chunks, Some(file)).table;
      id in after.rows <==>
      FileOf(r.meta) != Some(file) || (RowHash(r) in hashes && (r.parent.None? || RowHash(t.rows[r.parent.value]) in hashes))
  {
    var n := Cleaned(t, Some(file), NewHashes(chunks));
    CleaningKeepsInv(t, Some(file), NewHashes(chunks));
    LinkedMeansNotDangling(n);
    InsertingStoresAll(n, chunks, Some(file));
    if id in WithMissing(n, chunks).rows {
      NewIdsAreNew(n, chunks, Some(file), id);
    }
    assert id in WithMissing(n, chunks).rows <==> id in n.rows;
    KeptExactly(t, file, NewHashes(chunks), id);
  }

  lemma KeptExactly(t: Table, file: string, hashes: set<Hash>, id: nat)
    requires TableInv(t) && file != "" && id in t.rows
    ensures
      var r := t.rows[id];
      id in Cleaned(t, Some(file), hashes).rows <==>
      FileOf(r.meta) != Some(file) || (RowHash(r) in hashes && (r.parent.None? || RowHash(t.rows[r.parent.value]) in hashes))
  {
    var r := t.rows[id];
    assert !r.isParent ==> Linked(t, r);
  }

  lemma NewIdsAreNew(t: Table, chunks: seq<Chunk>, file: Option<string>, id: nat)
    requires id in WithMissing(t, chunks).rows && id < t.nextId
    ensures id in t.rows
  {
    ParentsComeAfter(t, Missing(t, chunks, true), id);
    ChildrenComeAfter(WithParents(t, Missing(t, chunks, true)), Missing(t, chunks, false), id);
  }

  lemma {:induction false} ParentsComeAfter(t: Table, parents: seq<Chunk>, id: nat)
    ensures WithParents(t, parents).nextId >= t.nextId
    ensures id in WithParents(t, parents).rows && id < t.nextId ==> id in t.rows
  {
    if parents != [] {
      ParentsComeAfter(t, parents[..|parents| - 1], id);
    }
  }

  lemma {:induction false} ChildrenComeAfter(t: Table, children: seq<Chunk>, id: nat)
    ensures WithChildren(t, children).nextId >= t.nextId
    ensures id in WithChildren(t, children).rows && id < t.nextId ==> id in t.rows
  {
    if children != [] {
      ChildrenComeAfter(t, children[..|children| - 1], id);
    }
  }

  /** Running the same ingestion again deletes nothing and inserts nothing. */
  lemma SecondIngestionDoesNothing(t: Table, chunks: seq<Chunk>, file: Option<string>)
    requires TableInv(t) && Sound(chunks, file) && NotShared(t, NewHashes(chunks), file)
    ensures var after := Ingested(t, chunks, file).table;
            Ingested(after, chunks, file) == Committed(after, 0)
  {
    if chunks != [] {
      IngestionKeepsTheTable(t, chunks, file);
      var after := Ingested(t, chunks, file).table;
      var hashes := NewHashes(chunks);
      LinkedMeansNotDangling(after);
      NothingStaleNothingDeleted(after, file, hashes);
      MissingIsFiltered(after, chunks, true);
      MissingIsFiltered(after, chunks, false);
      SomethingIn(Missing(after, chunks, true));
      SomethingIn(Missing(after, chunks, false));
    }
  }

  lemma SomethingIn(chunks: seq<Chunk>)
    ensures chunks == [] || exists c :: c in chunks
  {
    if chunks != [] {
      assert chunks[0] in chunks;
    }
  }

  lemma NothingStaleNothingDeleted(t: Table, file: Option<string>, hashes: set<Hash>)
    requires file.Some? && file.value != "" ==> NoStale(t, file.value, hashes)
    ensures Cleaned(t, file, hashes) == t
  {
    if file.Some? && file.value != "" {
      assert DoomedParents(t, file.value, hashes) == {};
      assert forall id | id in t.rows :: !ChildGoes({}, t.rows[id], file.value, hashes);
      assert WithoutChildren(t, file.value, hashes).rows == t.rows;
    }
  }

  // ---- A corpus over time -------------------------------------------------------------------

  /** One ingestion of a document: its file, and the chunks it is cut into at the time. */
  datatype Doc = Doc(file: Option<string>, chunks: seq<Chunk>)

  function IngestedAll(docs: seq<Doc>): Table {
    if docs == [] then Table(map[], 0)
    else
      var before, d := IngestedAll(docs[..|docs| - 1]), docs[|docs| - 1];
      var o := Ingested(before, d.chunks, d.file);
      if o.Refused? then before else o.table
  }

  ghost predicate Disjoint(docs: seq<Doc>) {
    forall i, j | 0 <= i < |docs| && 0 <= j < |docs| && docs[i].file != docs[j].file ::
      NewHashes(docs[i].chunks) !! NewHashes(docs[j].chunks)
  }

  /** Every row came from some ingestion of its file. */
  ghost predicate RowsFrom(t: Table, docs: seq<Doc>) {
    forall id | id in t.rows :: FromDoc(t.rows[id], docs)
  }

  ghost predicate FromDoc(r: Row, docs: seq<Doc>) {
    exists i :: 0 <= i < |docs| && docs[i].file == FileOf(r.meta) && RowHash(r) in NewHashes(docs[i].chunks)
  }

  lemma FromDocGrows(r: Row, docs: seq<Doc>, n: nat)
    requires n <= |docs| && FromDoc(r, docs[..n])
    ensures FromDoc(r, docs)
  {
    var i :| 0 <= i < n && docs[..n][i].file == FileOf(r.meta) && RowHash(r) in NewHashes(docs[..n][i].chunks);
    assert docs[i] == docs[..n][i];
  }

  /** Over any history of ingesting and re-ingesting files that share no chunk text, nothing is ever
      refused and every child row hangs from a parent row of its own file that holds its text. */
  lemma {:induction false} EveryHistoryKeepsTheTable(docs: seq<Doc>)
    requires Disjoint(docs) && forall i | 0 <= i < |docs| :: Sound(docs[i].chunks, docs[i].file)
    ensures TableInv(IngestedAll(docs)) && RowsFrom(IngestedAll(docs), docs)
    ensures docs != [] ==>
      var d := docs[|docs| - 1];
      Ingested(IngestedAll(docs[..|docs| - 1]), d.chunks, d.file).Committed?
  {
    if docs != [] {
      var before, d := docs[..|docs| - 1], docs[|docs| - 1];
      var t := IngestedAll(before);
      EveryHistoryKeepsTheTable(before);
      DisjointMeansNotShared(t, docs);
      IngestionKeepsTheTable(t, d.chunks, d.file);
      forall id | id in IngestedAll(docs).rows
        ensures FromDoc(IngestedAll(docs).rows[id], docs)
      {
        NewRowsAreFromTheLast(t, docs, id);
      }
    }
  }

  lemma DisjointMeansNotShared(t: Table, docs: seq<Doc>)
    requires docs != [] && Disjoint(docs) && RowsFrom(t, docs[..|docs| - 1])
    ensures NotShared(t, NewHashes(docs[|docs| - 1].chunks), docs[|docs| - 1].file)
  {
    var before := docs[..|docs| - 1];
    forall id | id in t.rows && RowHash(t.rows[id]) in NewHashes(docs[|docs| - 1].chunks)
      ensures FileOf(t.rows[id].meta) == docs[|docs| - 1].file
    {
      assert FromDoc(t.rows[id], before);
      var i :| 0 <= i < |before| && before[i].file == FileOf(t.rows[id].meta) && RowHash(t.rows[id]) in NewHashes(before[i].chunks);
      assert docs[i] == before[i];
    }
  }

  lemma {:induction false} NewRowsAreFromTheLast(t: Table, docs: seq<Doc>, id: nat)
    requires docs != [] && t == IngestedAll(docs[..|docs| - 1]) && RowsFrom(t, docs[..|docs| - 1])
    requires var d := docs[|docs| - 1]; TableInv(t) && Sound(d.chunks, d.file) && NotShared(t, NewHashes(d.chunks), d.file)
    requires id in IngestedAll(docs).rows
    ensures FromDoc(IngestedAll(docs).rows[id], docs)
  {
    var d := docs[|docs| - 1];
    var after := IngestedAll(docs);
    IngestionKeepsTheTable(t, d.chunks, d.file);
    SurvivorsKeepTheirIds(t, d.chunks, d.file, id);
    if id < t.nextId {
      FromDocGrows(t.rows[id], docs, |docs| - 1);
    } else {
      assert id !in t.rows;
      assert FileOf(after.rows[id].meta) == d.file;
    }
  }
}
