/** Resolving requested product names to catalogue rows: exact, then normalised, then the longest
    catalogue name contained in the request. A name that fits more than one row resolves to nothing. */
module Catalogue {
  import opened Text

  /** One active price row. Amounts are in paise. */
  datatype Row = Row(name: string, base: real, install: real)

  /** Names are unique, and none is blank or padded. */
  ghost predicate CleanCatalogue(rows: seq<Row>) {
    && (forall i | 0 <= i < |rows| :: Clean(rows[i].name))
    && (forall i, j | 0 <= i < j < |rows| :: rows[i].name != rows[j].name)
  }

  // ---- Specification of one lookup ----------------------------------------------------------

  /** The exact pass keys a dictionary by name, so a repeated name keeps its last row. */
  function ExactMatch(rows: seq<Row>, name: string): Option<Row> {
    if rows == [] then None
    else if rows[|rows| - 1].name == name then Some(rows[|rows| - 1])
    else ExactMatch(rows[..|rows| - 1], name)
  }

  /** The rows filed under one normalised name, in row order. */
  function RowsUnder(rows: seq<Row>, norm: string): seq<Row> {
    if rows == [] then []
    else
      var row := rows[|rows| - 1];
      RowsUnder(rows[..|rows| - 1], norm) + (if Norm(row.name) == norm then [row] else [])
  }

  /** The distinct normalised names, in the order the rows first show them. */
  function NormKeys(rows: seq<Row>): seq<string> {
    if rows == [] then []
    else
      var before := NormKeys(rows[..|rows| - 1]);
      var norm := Norm(rows[|rows| - 1].name);
      if norm in before then before else before + [norm]
  }

  /** The earliest of the longest keys contained in `request`. */
  function LongestContained(keys: seq<string>, request: string): Option<string> {
    if keys == [] then None
    else
      var before := LongestContained(keys[..|keys| - 1], request);
      var key := keys[|keys| - 1];
      if Contains(request, key) && (before.None? || |before.value| < |key|) then Some(key) else before
  }

  /** The rows the tolerant passes leave standing for a request the exact pass missed. */
  function Matches(rows: seq<Row>, request: string): seq<Row> {
    var same := RowsUnder(rows, request);
    if same != [] then same
    else
      var longest := LongestContained(NormKeys(rows), request);
      if longest.None? then [] else RowsUnder(rows, longest.value)
  }

  function Resolve(rows: seq<Row>, name: string): Option<Row> {
    var exact := ExactMatch(rows, name);
    if exact.Some? then exact
    else
      var matches := Matches(rows, Norm(name));
      if |matches| == 1 then Some(matches[0]) else None
  }

  // ---- The batch lookup ---------------------------------------------------------------------

  method GetProductPricesBatch(rows: seq<Row>, names: seq<string>) returns (prices: map<string, Option<Row>>)
    ensures prices.Keys == set name | name in names
    ensures forall name | name in prices :: prices[name] == Resolve(rows, name)
  {
    prices := map[];
    var unresolved: seq<string> := [];
    var exact := ExactPass(rows, names);
    for i := 0 to |names|
      invariant forall name | name in names[..i] :: name in prices || name in unresolved
      invariant forall name | name in prices :: name in names && prices[name] == Resolve(rows, name)
      invariant forall name | name in unresolved :: name in names && ExactMatch(rows, name).None?
    {
      if names[i] in exact {
        prices := prices[names[i] := Some(exact[names[i]])];
      } else {
        unresolved := unresolved + [names[i]];
      }
    }
    assert names[..|names|] == names;

    if unresolved != [] {
      prices := ResolveTolerantly(rows, names, unresolved, prices);
    }
  }

  /** The second pass, over the names the exact one missed. */
  method ResolveTolerantly(rows: seq<Row>, names: seq<string>, unresolved: seq<string>, exact: map<string, Option<Row>>)
    returns (prices: map<string, Option<Row>>)
    requires forall name | name in exact :: name in names && exact[name] == Resolve(rows, name)
    requires forall name | name in unresolved :: name in names && ExactMatch(rows, name).None?
    requires forall name | name in names :: name in exact || name in unresolved
    ensures prices.Keys == set name | name in names
    ensures forall name | name in prices :: prices[name] == Resolve(rows, name)
  {
    prices := exact;
    var keys, index := BuildNormIndex(rows);
    for i := 0 to |unresolved|
      invariant forall name | name in prices :: name in names && prices[name] == Resolve(rows, name)
      invariant forall name | name in names :: name in prices || name in unresolved[i..]
    {
      var matches := TolerantPass(rows, keys, index, Norm(unresolved[i]));
      prices := prices[unresolved[i] := if |matches| == 1 then Some(matches[0]) else None];
    }
  }

  method ExactPass(rows: seq<Row>, names: seq<string>) returns (exact: map<string, Row>)
    ensures forall name | name in names ::
      ExactMatch(rows, name) == if name in exact then Some(exact[name]) else None
  {
    exact := map[];
    for i := 0 to |rows|
      invariant forall name | name in names ::
        ExactMatch(rows[..i], name) == if name in exact then Some(exact[name]) else None
    {
      assert rows[..i + 1][..i] == rows[..i];
      if rows[i].name in names {
        exact := exact[rows[i].name := rows[i]];
      }
    }
    assert rows[..|rows|] == rows;
  }

  method TolerantPass(rows: seq<Row>, keys: seq<string>, index: map<string, seq<Row>>, request: string)
    returns (matches: seq<Row>)
    requires keys == NormKeys(rows)
    requires index.Keys == set k | k in keys
    requires forall k | k in index :: index[k] == RowsUnder(rows, k)
    ensures matches == Matches(rows, request)
  {
    IndexedIffPresent(rows, request);
    matches := if request in index then index[request] else [];
    if matches == [] {
      var longest := LongestKey(keys, request);
      if longest.Some? {
        LongestContainedIsKey(keys, request);
        matches := index[longest.value];
      }
    }
  }

  method BuildNormIndex(rows: seq<Row>) returns (keys: seq<string>, index: map<string, seq<Row>>)
    ensures keys == NormKeys(rows)
    ensures index.Keys == set k | k in keys
    ensures forall k | k in index :: index[k] == RowsUnder(rows, k)
  {
    keys, index := [], map[];
    for i := 0 to |rows|
      invariant keys == NormKeys(rows[..i])
      invariant index.Keys == set k | k in keys
      invariant forall k | k in index :: index[k] == RowsUnder(rows[..i], k)
    {
      assert rows[..i + 1][..i] == rows[..i];
      var norm := Norm(rows[i].name);
      IndexedIffPresent(rows[..i], norm);
      if norm !in index {
        keys, index := keys + [norm], index[norm := []];
      }
      index := index[norm := index[norm] + [rows[i]]];
    }
    assert rows[..|rows|] == rows;
  }

  /** The head of the length-descending stable sort: a later key only displaces a shorter one. */
  method LongestKey(keys: seq<string>, request: string) returns (longest: Option<string>)
    ensures longest == LongestContained(keys, request)
  {
    longest := None;
    for i := 0 to |keys|
      invariant longest == LongestContained(keys[..i], request)
    {
      assert keys[..i + 1][..i] == keys[..i];
      if Contains(request, keys[i]) && (longest.None? || |longest.value| < |keys[i]|) {
        longest := Some(keys[i]);
      }
    }
    assert keys[..|keys|] == keys;
  }

  // ---- What a lookup means ------------------------------------------------------------------

  lemma {:induction false} IndexedIffPresent(rows: seq<Row>, norm: string)
    ensures norm in NormKeys(rows) <==> RowsUnder(rows, norm) != []
    ensures norm in NormKeys(rows) <==> exists i :: 0 <= i < |rows| && Norm(rows[i].name) == norm
  {
    if rows != [] {
      var init := rows[..|rows| - 1];
      IndexedIffPresent(init, norm);
      if norm in NormKeys(init) {
        var i :| 0 <= i < |init| && Norm(init[i].name) == norm;
        assert rows[i] == init[i];
      }
      if i :| 0 <= i < |rows| && Norm(rows[i].name) == norm && i < |rows| - 1 {
        assert init[i] == rows[i];
      }
    }
  }

  lemma {:induction false} LongestContainedIsKey(keys: seq<string>, request: string)
    ensures var longest := LongestContained(keys, request);
            && (longest.None? <==> forall k | k in keys :: !Contains(request, k))
            && (longest.Some? ==>
                  && longest.value in keys
                  && Contains(request, longest.value)
                  && forall k | k in keys && Contains(request, k) :: |k| <= |longest.value|)
  {
    if keys != [] {
      LongestContainedIsKey(keys[..|keys| - 1], request);
      assert keys == keys[..|keys| - 1] + [keys[|keys| - 1]];
    }
  }

  lemma {:induction false} ExactMatchFinds(rows: seq<Row>, name: string)
    ensures var exact := ExactMatch(rows, name);
            if exact.None? then forall i | 0 <= i < |rows| :: rows[i].name != name
            else exact.value in rows && exact.value.name == name
  {
    if rows != [] {
      ExactMatchFinds(rows[..|rows| - 1], name);
      assert rows == rows[..|rows| - 1] + [rows[|rows| - 1]];
    }
  }

  lemma {:induction false} RowsUnderAreRows(rows: seq<Row>, norm: string)
    ensures forall r | r in RowsUnder(rows, norm) :: r in rows && Norm(r.name) == norm
    ensures forall i | 0 <= i < |rows| && Norm(rows[i].name) == norm :: rows[i] in RowsUnder(rows, norm)
  {
    if rows != [] {
      RowsUnderAreRows(rows[..|rows| - 1], norm);
      assert rows == rows[..|rows| - 1] + [rows[|rows| - 1]];
    }
  }

  /** What a successful lookup guarantees: either the requested name verbatim, or the one row carrying
      a normalised name that is contained in the request, with no catalogue name contained in it
      being longer. A normalised name two rows share never resolves. */
  lemma {:induction false} ResolveIsUnambiguous(rows: seq<Row>, name: string)
    requires Resolve(rows, name).Some?
    ensures var r := Resolve(rows, name).value;
            && r in rows
            && (r.name == name || (
                && Contains(Norm(name), Norm(r.name))
                && (forall i | 0 <= i < |rows| && Norm(rows[i].name) == Norm(r.name) :: rows[i] == r)
                && (forall i | 0 <= i < |rows| && Contains(Norm(name), Norm(rows[i].name)) ::
                      |Norm(rows[i].name)| <= |Norm(r.name)|)))
  {
    ExactMatchFinds(rows, name);
    if ExactMatch(rows, name).None? {
      var r := Resolve(rows, name).value;
      var norm := Norm(r.name);
      var request := Norm(name);
      assert Matches(rows, request) == [r];
      RowsUnderAreRows(rows, request);
      LongestContainedIsKey(NormKeys(rows), request);
      if RowsUnder(rows, request) == [] {
        RowsUnderAreRows(rows, LongestContained(NormKeys(rows), request).value);
      }
      RowsUnderAreRows(rows, norm);
      assert OccursAt(request, request, 0);
      forall i | 0 <= i < |rows| && Contains(request, Norm(rows[i].name))
        ensures |Norm(rows[i].name)| <= |norm|
      {
        IndexedIffPresent(rows, Norm(rows[i].name));
        ContainedIsShorter(request, Norm(rows[i].name));
      }
    }
  }

  lemma ContainedIsShorter(hay: string, needle: string)
    requires Contains(hay, needle)
    ensures |needle| <= |hay|
  {
  }

  /** A canonical name is its own lookup, so a price read back by the name on a line is the row that
      priced the line. */
  lemma CanonicalNameResolvesToItself(rows: seq<Row>, r: Row)
    requires CleanCatalogue(rows) && r in rows
    ensures Resolve(rows, r.name) == Some(r)
  {
    ExactMatchFinds(rows, r.name);
  }
}
