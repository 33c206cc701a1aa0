/** When a product name is found in the catalogue, in terms of its letters and digits alone. */
module CatalogueTheorems {
  import opened Text
  import opened Catalogue

  // ---- When a lookup succeeds ---------------------------------------------------------------

  predicate Named(rows: seq<Row>, name: string) {
    exists i :: 0 <= i < |rows| && rows[i].name == name
  }

  /** The letters and digits of this row's name stand, in order and together, in the request's. */
  predicate Within(rows: seq<Row>, name: string, i: int)
    requires 0 <= i < |rows|
  {
    Contains(Norm(name), Norm(rows[i].name))
  }

  /** Of the names within the request this one is the longest, and the first row of its length. */
  ghost predicate FirstLongest(rows: seq<Row>, name: string, k: int)
    requires 0 <= k < |rows|
  {
    && Within(rows, name, k)
    && (forall i | 0 <= i < |rows| && Within(rows, name, i) :: |Norm(rows[i].name)| <= |Norm(rows[k].name)|)
    && (forall i | 0 <= i < k && Within(rows, name, i) :: |Norm(rows[i].name)| < |Norm(rows[k].name)|)
  }

  /** Some other row is spelled with the same letters and digits. */
  ghost predicate Shared(rows: seq<Row>, k: int)
    requires 0 <= k < |rows|
  {
    exists j :: 0 <= j < |rows| && j != k && Norm(rows[j].name) == Norm(rows[k].name)
  }

  lemma {:induction false} RowsUnderCount(rows: seq<Row>, k: int)
    requires 0 <= k < |rows|
    ensures if Shared(rows, k) then |RowsUnder(rows, Norm(rows[k].name))| > 1 else RowsUnder(rows, Norm(rows[k].name)) == [rows[k]]
  {
    var init, norm := rows[..|rows| - 1], Norm(rows[k].name);
    if k < |init| {
      RowsUnderCount(init, k);
      assert Shared(rows, k) <==> Shared(init, k) || Norm(rows[|rows| - 1].name) == norm by {
        if Shared(init, k) {
          var j :| 0 <= j < |init| && j != k && Norm(init[j].name) == norm;
          assert Norm(rows[j].name) == norm;
        }
        if j :| 0 <= j < |rows| && j != k && Norm(rows[j].name) == norm && j < |init| {
          assert Norm(init[j].name) == norm;
        }
      }
      assert RowsUnder(init, norm) != [];
    } else {
      RowsUnderAreRows(init, norm);
      if Shared(rows, k) {
        var j :| 0 <= j < |rows| && j != k && Norm(rows[j].name) == norm;
        assert init[j] in RowsUnder(init, norm);
      } else {
        NoneUnder(init, norm);
      }
    }
  }

  lemma {:induction false} NoneUnder(rows: seq<Row>, norm: string)
    requires forall i | 0 <= i < |rows| :: Norm(rows[i].name) != norm
    ensures RowsUnder(rows, norm) == []
  {
    if rows != [] {
      NoneUnder(rows[..|rows| - 1], norm);
    }
  }

  /** Every name within the request is shorter than a key that is longer than all of them. */
  lemma {:induction false} KeysAreShorter(rows: seq<Row>, name: string, norm: string)
    requires forall i | 0 <= i < |rows| && Within(rows, name, i) :: |Norm(rows[i].name)| < |norm|
    ensures norm !in NormKeys(rows) || !Contains(Norm(name), norm)
    ensures var longest := LongestContained(NormKeys(rows), Norm(name)); longest.None? || |longest.value| < |norm|
  {
    var request := Norm(name);
    LongestContainedIsKey(NormKeys(rows), request);
    forall key | key in NormKeys(rows) && Contains(request, key)
      ensures |key| < |norm|
    {
      IndexedIffPresent(rows, key);
      var i :| 0 <= i < |rows| && Norm(rows[i].name) == key;
      assert Within(rows, name, i);
    }
  }

  lemma FirstLongestAmongFewer(rows: seq<Row>, name: string, k: int)
    requires 0 <= k < |rows| - 1 && FirstLongest(rows, name, k)
    ensures FirstLongest(rows[..|rows| - 1], name, k)
  {
    var init := rows[..|rows| - 1];
    assert forall i | 0 <= i < |init| :: init[i] == rows[i] && Within(init, name, i) == Within(rows, name, i);
  }

  /** The index keeps its keys in row order, so the first of the longest keys is the first row's. */
  lemma {:induction false} LongestKeyIsFirstLongest(rows: seq<Row>, name: string, k: int)
    requires 0 <= k < |rows| && FirstLongest(rows, name, k)
    ensures LongestContained(NormKeys(rows), Norm(name)) == Some(Norm(rows[k].name))
  {
    var init, last := rows[..|rows| - 1], rows[|rows| - 1];
    assert rows == init + [last];
    KeysAppend(init, last, Norm(name));
    if k < |init| {
      FirstLongestAmongFewer(rows, name, k);
      LongestKeyIsFirstLongest(init, name, k);
      assert Within(rows, name, |rows| - 1) ==> |Norm(last.name)| <= |Norm(rows[k].name)|;
    } else {
      assert forall i | 0 <= i < |init| :: init[i] == rows[i] && Within(init, name, i) == Within(rows, name, i);
      KeysAreShorter(init, name, Norm(last.name));
    }
  }

  lemma {:induction false} KeysAppend(init: seq<Row>, last: Row, request: string)
    ensures
      var before, norm := LongestContained(NormKeys(init), request), Norm(last.name);
      LongestContained(NormKeys(init + [last]), request) ==
      if norm !in NormKeys(init) && Contains(request, norm) && (before.None? || |before.value| < |norm|) then Some(norm) else before
  {
    assert (init + [last])[..|init|] == init;
    var keys := NormKeys(init);
    assert (keys + [Norm(last.name)])[..|keys|] == keys;
  }

  lemma FullLengthIsWhole(hay: string, needle: string)
    requires Contains(hay, needle) && |needle| >= |hay|
    ensures needle == hay
  {
    var i :| 0 <= i <= |hay| && OccursAt(hay, needle, i);
  }

  /** A request no row is named by, with some row's name within it: it is given the longest such name's row,
      the first of its length in row order, and nothing if another row shares that spelling. */
  lemma LookupGivesTheLongestName(rows: seq<Row>, name: string, k: int)
    requires 0 <= k < |rows| && !Named(rows, name) && FirstLongest(rows, name, k)
    ensures Resolve(rows, name) == if Shared(rows, k) then None else Some(rows[k])
  {
    ExactMatchFinds(rows, name);
    LongestKeyIsFirstLongest(rows, name, k);
    RowsUnderCount(rows, k);
    RowsUnderAreRows(rows, Norm(name));
    if RowsUnder(rows, Norm(name)) != [] {
      var r := RowsUnder(rows, Norm(name))[0];
      assert r in RowsUnder(rows, Norm(name));
      var j :| 0 <= j < |rows| && rows[j] == r;
      assert OccursAt(Norm(name), Norm(name), 0) && Within(rows, name, j);
      FullLengthIsWhole(Norm(name), Norm(rows[k].name));
    }
  }

  /** With no row's name within it, it is given nothing. */
  lemma LookupMissesTheRest(rows: seq<Row>, name: string)
    requires !Named(rows, name) && forall i | 0 <= i < |rows| :: !Within(rows, name, i)
    ensures Resolve(rows, name) == None
  {
    ExactMatchFinds(rows, name);
    forall i | 0 <= i < |rows|
      ensures Norm(rows[i].name) != Norm(name)
    {
      assert OccursAt(Norm(name), Norm(name), 0);
      assert !Within(rows, name, i);
    }
    NoneUnder(rows, Norm(name));
    LongestContainedIsKey(NormKeys(rows), Norm(name));
    forall key | key in NormKeys(rows)
      ensures !Contains(Norm(name), key)
    {
      IndexedIffPresent(rows, key);
      var i :| 0 <= i < |rows| && Norm(rows[i].name) == key;
      assert !Within(rows, name, i);
    }
  }

  /** A request spelled as two rows alike is given nothing. */
  lemma {:induction false} LookupNeverGuesses(rows: seq<Row>, name: string, i: int, j: int)
    requires !Named(rows, name) && 0 <= i < j < |rows|
    requires Norm(rows[i].name) == Norm(name) == Norm(rows[j].name)
    ensures Resolve(rows, name) == None
  {
    ExactMatchFinds(rows, name);
    RowsUnderCount(rows, i);
    assert Shared(rows, i);
  }

  /** A name some row carries verbatim is given that row, the last of them if several do, whatever other names
      it contains. */
  lemma VerbatimNameGivesItsLastRow(rows: seq<Row>, name: string, k: nat)
    requires k < |rows| && rows[k].name == name && forall i | k < i < |rows| :: rows[i].name != name
    ensures Resolve(rows, name) == Some(rows[k])
  {
    LastExact(rows, name, k);
  }

  lemma {:induction false} LastExact(rows: seq<Row>, name: string, k: nat)
    requires k < |rows| && rows[k].name == name && forall i | k < i < |rows| :: rows[i].name != name
    ensures ExactMatch(rows, name) == Some(rows[k])
  {
    if k < |rows| - 1 {
      var init := rows[..|rows| - 1];
      assert forall i | 0 <= i < |init| :: init[i] == rows[i];
      LastExact(init, name, k);
    }
  }

  /** Words around a catalogue name do not hide it: the one row whose name stands inside is found. */
  lemma DescribedNameResolves(r: Row, left: string, right: string)
    requires left + r.name + right != r.name
    ensures Resolve([r], left + r.name + right) == Some(r)
  {
    var name := left + r.name + right;
    NormConcat(left + r.name, right);
    NormConcat(left, r.name);
    assert OccursAt(Norm(name), Norm(r.name), |Norm(left)|);
    assert Within([r], name, 0);
    LookupGivesTheLongestName([r], name, 0);
  }

  lemma {:induction false} NormConcat(a: string, b: string)
    ensures Norm(a + b) == Norm(a) + Norm(b)
  {
    if a == [] {
      assert a + b == b;
    } else {
      NormConcat(a[1..], b);
      NormHead(a, a[1..]);
      NormHead(a + b, a[1..] + b);
      assert (a + b)[1..] == a[1..] + b;
      Regrouped(Folded(a[0]), Norm(a[1..]), Norm(b));
    }
  }

  /** What one character leaves of itself. */
  function Folded(c: char): string {
    if IsLetter(LowerChar(c)) || IsDigit(LowerChar(c)) then [LowerChar(c)] else []
  }

  lemma {:induction false} NormHead(s: string, rest: string)
    requires s != [] && rest == s[1..]
    ensures Norm(s) == Folded(s[0]) + Norm(rest)
  {
  }

  lemma Regrouped(a: string, b: string, c: string)
    ensures a + b + c == a + (b + c)
  {
  }
}
