/** Re-ingesting a document: delete what it no longer says, insert what is new, parents before children. */
module Ingestion {
  import opened Text
  import opened Chunking

  datatype Row = Row(content: string, isParent: bool, parent: Option<nat>, meta: map<string, string>)

  /** The chunk table; ids are given out in order, and rows are read in id order. */
  datatype Table = Table(rows: map<nat, Row>, nextId: nat)

  datatype Outcome = Committed(table: Table, inserted: nat) | Refused

  function RowHash(r: Row): Hash {
    if r.isParent then ParentHash(r.content) else ChildHash(r.content)
  }

  predicate OfFile(r: Row, file: string) {
    FileOf(r.meta) == Some(file)
  }

  function NewHashes(chunks: seq<Chunk>): set<Hash> {
    set c | c in chunks :: HashOf(c)
  }

  // ---- Deleting -----------------------------------------------------------------------------

  predicate Stale(r: Row, file: string, hashes: set<Hash>) {
    OfFile(r, file) && RowHash(r) !in hashes
  }

  function DoomedParents(t: Table, file: string, hashes: set<Hash>): set<nat> {
    set id | id in t.rows && t.rows[id].isParent && Stale(t.rows[id], file, hashes)
  }

  /** A child goes when its own text is gone or its parent is. */
  predicate ChildGoes(doomed: set<nat>, r: Row, file: string, hashes: set<Hash>) {
    && !r.isParent && OfFile(r, file)
    && (RowHash(r) !in hashes || (r.parent.Some? && r.parent.value in doomed))
  }

  function WithoutChildren(t: Table, file: string, hashes: set<Hash>): Table {
    var doomed := DoomedParents(t, file, hashes);
    t.(rows := map id | id in t.rows && !ChildGoes(doomed, t.rows[id], file, hashes) :: t.rows[id])
  }

  function WithoutParents(t: Table, file: string, hashes: set<Hash>): Table {
    t.(rows := map id | id in t.rows && !(t.rows[id].isParent && Stale(t.rows[id], file, hashes)) :: t.rows[id])
  }

  function Cleaned(t: Table, file: Option<string>, hashes: set<Hash>): Table {
    if file.None? || file.value == "" then t
    else WithoutParents(WithoutChildren(t, file.value, hashes), file.value, hashes)
  }

  /** A row names a parent that is not there, which the database refuses. */
  predicate Dangling(t: Table) {
    exists id | id in t.rows :: t.rows[id].parent.Some? && t.rows[id].parent.value !in t.rows
  }

  // ---- Inserting ----------------------------------------------------------------------------

  predicate Stored(t: Table, h: Hash) {
    exists id | id in t.rows :: RowHash(t.rows[id]) == h
  }

  /** The chunks to insert, of one role. */
  function Missing(t: Table, chunks: seq<Chunk>, isParent: bool): seq<Chunk> {
    if chunks == [] then []
    else
      var c := chunks[|chunks| - 1];
      Missing(t, chunks[..|chunks| - 1], isParent) +
      (if !Stored(t, HashOf(c)) && c.isParent == isParent then [c] else [])
  }

  function WithRow(t: Table, r: Row): Table {
    Table(t.rows[t.nextId := r], t.nextId + 1)
  }

  function ParentRow(c: Chunk): Row {
    Row(c.content, true, None, c.meta)
  }

  function WithParents(t: Table, parents: seq<Chunk>): Table {
    if parents == [] then t
    else WithRow(WithParents(t, parents[..|parents| - 1]), ParentRow(parents[|parents| - 1]))
  }

  /** The id a parent's text stands for: the last row below `limit` that has it. */
  function ParentId(t: Table, content: string, limit: nat): Option<nat> {
    if limit == 0 then None
    else if limit - 1 in t.rows && t.rows[limit - 1].isParent && t.rows[limit - 1].content == content then Some(limit - 1)
    else ParentId(t, content, limit - 1)
  }

  /** `source` is the table with its parents; children do not change what it says of them. */
  function WithChildren(source: Table, children: seq<Chunk>): Table {
    if children == [] then source
    else
      var c := children[|children| - 1];
      var before := WithChildren(source, children[..|children| - 1]);
      var parent := ParentId(source, c.parentRef, source.nextId);
      if parent.None? then before else WithRow(before, Row(c.content, false, parent, c.meta))
  }

  /** Both kinds of missing chunk are decided before either is inserted. */
  function WithMissing(t: Table, chunks: seq<Chunk>): Table {
    WithChildren(WithParents(t, Missing(t, chunks, true)), Missing(t, chunks, false))
  }

  function Ingested(t: Table, chunks: seq<Chunk>, file: Option<string>): Outcome {
    if chunks == [] then Committed(t, 0)
    else
      var cleaned := Cleaned(t, file, NewHashes(chunks));
      if Dangling(cleaned) then Refused
      else
        var after := WithMissing(cleaned, chunks);
        Committed(after, if after.nextId > t.nextId then after.nextId - t.nextId else 0)
  }

  // ---- The table in place -------------------------------------------------------------------

  class ChunkTable {
    var rows: map<nat, Row>
    var nextId: nat

    constructor ()
      ensures Contents() == Table(map[], 0)
    {
      rows, nextId := map[], 0;
    }

    function Contents(): Table
      reads this
    {
      Table(rows, nextId)
    }

    method DeleteStale(file: string, hashes: set<Hash>)
      requires file != ""
      modifies this`rows
      ensures Contents() == Cleaned(old(Contents()), Some(file), hashes)
    {
      var doomed := set id | id in rows && rows[id].isParent && Stale(rows[id], file, hashes);
      rows := map id | id in rows && !ChildGoes(doomed, rows[id], file, hashes) :: rows[id];
      assert Contents() == WithoutChildren(old(Contents()), file, hashes);
      rows := map id | id in rows && !(rows[id].isParent && Stale(rows[id], file, hashes)) :: rows[id];
    }

    method Add(r: Row) returns (id: nat)
      modifies this
      ensures id == old(nextId) && Contents() == WithRow(old(Contents()), r)
    {
      id, rows, nextId := nextId, rows[nextId := r], nextId + 1;
    }

    /** Parents go in first, so their ids are known to the children. */
    method InsertParents(parents: seq<Chunk>) returns (ids: map<string, nat>)
      modifies this
      ensures Contents() == WithParents(old(Contents()), parents)
      ensures forall text | text in ids :: old(nextId) <= ids[text] < nextId
      ensures forall text | text in ids :: ParentId(Contents(), text, nextId) == Some(ids[text])
      ensures forall text | text !in ids :: forall i | 0 <= i < |parents| :: parents[i].content != text
    {
      ids := map[];
      for i := 0 to |parents|
        invariant nextId >= old(nextId)
        invariant Contents() == WithParents(old(Contents()), parents[..i])
        invariant forall text | text in ids :: old(nextId) <= ids[text] < nextId
        invariant forall text | text in ids :: ParentId(Contents(), text, nextId) == Some(ids[text])
        invariant forall text | text !in ids :: forall k | 0 <= k < i :: parents[k].content != text
      {
        assert parents[..i + 1][..i] == parents[..i];
        ghost var before := Contents();
        var id := Add(Row(parents[i].content, true, None, parents[i].meta));
        forall text | text in ids && text != parents[i].content
          ensures ParentId(Contents(), text, nextId) == Some(ids[text])
        {
          ParentIdStays(before, Contents(), text, before.nextId);
        }
        ids := ids[parents[i].content := id];
      }
      assert parents[..|parents|] == parents;
    }

    /** The parents of children whose parents were already in the table. */
    method MapExistingParents(children: seq<Chunk>, inserted: map<string, nat>) returns (ids: map<string, nat>)
      requires forall text | text in inserted :: ParentId(Contents(), text, nextId) == Some(inserted[text])
      ensures forall i | 0 <= i < |children| ::
        ParentId(Contents(), children[i].parentRef, nextId) ==
        if children[i].parentRef in ids then Some(ids[children[i].parentRef]) else None
    {
      var needed := set c | c in children && c.parentRef !in inserted :: c.parentRef;
      ids := inserted;
      for id := 0 to nextId
        invariant forall text | text in inserted :: text in ids && ids[text] == inserted[text]
        invariant forall text | text in needed ::
          ParentId(Contents(), text, id) == if text in ids then Some(ids[text]) else None
      {
        if id in rows && rows[id].isParent && rows[id].content in needed {
          ids := ids[rows[id].content := id];
        }
      }
    }

    method InsertChildren(children: seq<Chunk>, ids: map<string, nat>) returns (inserted: nat)
      requires forall i | 0 <= i < |children| ::
        ParentId(Contents(), children[i].parentRef, nextId) ==
        if children[i].parentRef in ids then Some(ids[children[i].parentRef]) else None
      modifies this
      ensures Contents() == WithChildren(old(Contents()), children)
      ensures nextId == old(nextId) + inserted
    {
      inserted := 0;
      for i := 0 to |children|
        invariant Contents() == WithChildren(old(Contents()), children[..i])
        invariant nextId == old(nextId) + inserted
      {
        assert children[..i + 1][..i] == children[..i];
        if children[i].parentRef in ids {
          var _ := Add(Row(children[i].content, false, Some(ids[children[i].parentRef]), children[i].meta));
          inserted := inserted + 1;
        }
      }
      assert children[..|children|] == children;
    }

    /** The chunks of one role the table does not have yet. */
    method Filter(chunks: seq<Chunk>, isParent: bool) returns (missing: seq<Chunk>)
      ensures missing == Missing(Contents(), chunks, isParent)
    {
      missing := [];
      for i := 0 to |chunks|
        invariant missing == Missing(Contents(), chunks[..i], isParent)
      {
        assert chunks[..i + 1][..i] == chunks[..i];
        if !Stored(Contents(), HashOf(chunks[i])) && chunks[i].isParent == isParent {
          missing := missing + [chunks[i]];
        }
      }
      assert chunks[..|chunks|] == chunks;
    }

    /** Ingest a document's chunks, or leave the table as it was when the database refuses. */
    method Ingest(chunks: seq<Chunk>, file: Option<string>) returns (inserted: Option<nat>)
      modifies this
      ensures var o := Ingested(old(Contents()), chunks, file);
              if o.Refused? then inserted.None? && Contents() == old(Contents())
              else inserted == Some(o.inserted) && Contents() == o.table
    {
      if chunks == [] {
        return Some(0);
      }
      var hashes := set c | c in chunks :: HashOf(c);
      var before := rows;
      if file.Some? && file.value != "" {
        DeleteStale(file.value, hashes);
      }
      if Dangling(Contents()) {
        rows := before;
        return None;
      }
      var added := InsertMissing(chunks);
      inserted := Some(added);
    }

    method InsertMissing(chunks: seq<Chunk>) returns (inserted: nat)
      modifies this
      ensures Contents() == WithMissing(old(Contents()), chunks) && nextId == old(nextId) + inserted
    {
      var parents := Filter(chunks, true);
      var children := Filter(chunks, false);
      WithParentsCount(Contents(), parents);
      var ids := InsertParents(parents);
      ids := MapExistingParents(children, ids);
      var added := InsertChildren(children, ids);
      inserted := |parents| + added;
    }
  }

  lemma {:induction false} ParentIdStays(t: Table, n: Table, text: string, limit: nat)
    requires forall id | id < limit :: (id in t.rows <==> id in n.rows) && (id in t.rows ==> t.rows[id] == n.rows[id])
    ensures ParentId(t, text, limit) == ParentId(n, text, limit)
  {
    if limit > 0 {
      ParentIdStays(t, n, text, limit - 1);
    }
  }

  lemma {:induction false} WithParentsCount(t: Table, parents: seq<Chunk>)
    ensures WithParents(t, parents).nextId == t.nextId + |parents|
  {
    if parents != [] {
      WithParentsCount(t, parents[..|parents| - 1]);
    }
  }
}
