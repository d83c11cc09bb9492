/**
 * The generic data table: a sort configuration toggled by clicking a column
 * header, a sorted copy of the rows ordered by one field, and a search that
 * keeps the rows in which some declared field matches the search term.
 */
module Table {
  import opened Common
  import opened JsStrings
  import opened JsArrays

  /** A field value of a row, `item[key]`; `Undefined` is what a row without that key yields. */
  datatype Cell = Str(s: string) | Int(n: int) | Bool(b: bool) | Null | Undefined

  /** One record shown as a table row: field name to value. */
  type Row = map<string, Cell>

  function Get(row: Row, key: string): Cell {
    if key in row then row[key] else Undefined
  }

  datatype Direction = Asc | Desc

  /** The `sortConfig` state: the column sorted by (none at first) and the direction. */
  datatype SortConfig = SortConfig(key: Option<string>, direction: Direction)

  const InitialSort: SortConfig := SortConfig(None, Asc)

  /** `handleSort(k)`: a second click on the column sorted ascending turns it descending; every other click sorts by `k` ascending. */
  function Toggle(c: SortConfig, k: string): (r: SortConfig)
    ensures r.key == Some(k)
    ensures r.direction == Desc <==> c.key == Some(k) && c.direction == Asc
  {
    var direction := if c.key == Some(k) && c.direction == Asc then Desc else Asc;
    SortConfig(Some(k), direction)
  }

  /** Clicking the same column again always flips the direction. */
  lemma ToggleTwiceFlips(c: SortConfig, k: string)
    ensures Toggle(Toggle(c, k), k).direction != Toggle(c, k).direction
  {
  }

  // ---------------------------------------------------------------------------
  // The order behind `aValue < bValue`

  /** Lexicographic order on strings, character by character. */
  predicate StrLess(a: string, b: string)
    decreases |a|
  {
    if |a| == 0 then |b| > 0
    else |b| > 0 && (a[0] < b[0] || (a[0] == b[0] && StrLess(a[1..], b[1..])))
  }

  lemma {:induction false} StrLessIrreflexive(a: string)
    ensures !StrLess(a, a)
    decreases |a|
  {
    if |a| > 0 {
      StrLessIrreflexive(a[1..]);
    }
  }

  lemma {:induction false} StrLessTransitive(a: string, b: string, c: string)
    requires StrLess(a, b) && StrLess(b, c)
    ensures StrLess(a, c)
    decreases |a|
  {
    if |a| > 0 && a[0] == b[0] && b[0] == c[0] {
      StrLessTransitive(a[1..], b[1..], c[1..]);
    }
  }

  lemma {:induction false} StrLessTotal(a: string, b: string)
    requires a != b
    ensures StrLess(a, b) || StrLess(b, a)
    decreases |a|
  {
    if |a| > 0 && |b| > 0 && a[0] == b[0] {
      assert a == [a[0]] + a[1..] && b == [b[0]] + b[1..];
      StrLessTotal(a[1..], b[1..]);
    }
  }

  /** Kinds are ordered null < booleans < numbers < strings < undefined; within a kind the natural order. */
  function Rank(c: Cell): nat {
    match c
    case Null => 0
    case Bool(_) => 1
    case Int(_) => 2
    case Str(_) => 3
    case Undefined => 4
  }

  /** `aValue < bValue` for two cells. */
  predicate CellLess(a: Cell, b: Cell) {
    if Rank(a) != Rank(b) then Rank(a) < Rank(b)
    else match (a, b)
      case (Int(x), Int(y)) => x < y
      case (Str(x), Str(y)) => StrLess(x, y)
      case (Bool(x), Bool(y)) => !x && y
      case _ => false
  }

  /** `<` on cells is a strict total order, so the source's comparator is a consistent one. */
  lemma CellLessStrictTotal(a: Cell, b: Cell, c: Cell)
    ensures !CellLess(a, a)
    ensures CellLess(a, b) && CellLess(b, c) ==> CellLess(a, c)
    ensures a != b ==> CellLess(a, b) || CellLess(b, a)
  {
    if a.Str? {
      StrLessIrreflexive(a.s);
    }
    if a.Str? && b.Str? && c.Str? && StrLess(a.s, b.s) && StrLess(b.s, c.s) {
      StrLessTransitive(a.s, b.s, c.s);
    }
    if a.Str? && b.Str? && a != b {
      StrLessTotal(a.s, b.s);
    }
  }

  // ---------------------------------------------------------------------------
  // The comparator passed to `sort`

  /** The comparator: 0 for equal values, otherwise -1 or 1 by `<`, negated when descending. */
  function Compare(dir: Direction, a: Cell, b: Cell): (r: int)
    ensures -1 <= r <= 1
    ensures r == 0 <==> a == b
  {
    if a == b then 0
    else
      var comparison := if CellLess(a, b) then -1 else 1;
      if dir == Asc then comparison else -comparison
  }

  /** The descending comparator is the negation of the ascending one. */
  lemma DescendingNegatesAscending(a: Cell, b: Cell)
    ensures Compare(Desc, a, b) == -Compare(Asc, a, b)
  {
  }

  /** Swapping the arguments negates the comparator. */
  lemma CompareAntisymmetric(dir: Direction, a: Cell, b: Cell)
    ensures Compare(dir, b, a) == -Compare(dir, a, b)
  {
    CellLessStrictTotal(a, b, a);
    CellLessStrictTotal(b, a, b);
  }

  /** "Not after" is transitive, so sorting by the comparator is well defined. */
  lemma CompareTransitive(dir: Direction, a: Cell, b: Cell, c: Cell)
    requires Compare(dir, a, b) <= 0 && Compare(dir, b, c) <= 0
    ensures Compare(dir, a, c) <= 0
  {
    CellLessStrictTotal(a, b, c);
    CellLessStrictTotal(c, b, a);
    CellLessStrictTotal(a, c, a);
  }

  /** Row `x` sorts strictly before row `y`. */
  predicate Before(x: Row, y: Row, key: string, dir: Direction) {
    Compare(dir, Get(x, key), Get(y, key)) < 0
  }

  /** Rows are in comparator order: no row is followed by one that sorts before it. */
  ghost predicate Sorted(s: seq<Row>, key: string, dir: Direction) {
    forall i, j :: 0 <= i < j < |s| ==> Compare(dir, Get(s[i], key), Get(s[j], key)) <= 0
  }

  /** The rows whose field `key` holds `v`. */
  function WithValue(key: string, v: Cell): Row -> bool {
    row => Get(row, key) == v
  }

  // ---------------------------------------------------------------------------
  // `Array.prototype.sort`: stable, as section 23.1.3.30 of ECMA-262 (2023) requires

  /** Places `x` after every row of `s` that does not sort strictly after it. */
  function Insert(s: seq<Row>, x: Row, key: string, dir: Direction): (r: seq<Row>)
    ensures |r| == |s| + 1
    decreases |s|
  {
    if s == [] || !Before(x, s[|s| - 1], key, dir) then s + [x]
    else Insert(s[..|s| - 1], x, key, dir) + [s[|s| - 1]]
  }

  /** The reference stable sort: insertion of each row, in input order, into the sorted prefix. */
  function SortRows(s: seq<Row>, key: string, dir: Direction): (r: seq<Row>)
    ensures |r| == |s|
    decreases |s|
  {
    if s == [] then [] else Insert(SortRows(s[..|s| - 1], key, dir), s[|s| - 1], key, dir)
  }

  lemma {:induction false} InsertPermutes(s: seq<Row>, x: Row, key: string, dir: Direction)
    ensures multiset(Insert(s, x, key, dir)) == multiset(s) + multiset{x}
    decreases |s|
  {
    if s != [] && Before(x, s[|s| - 1], key, dir) {
      InsertPermutes(s[..|s| - 1], x, key, dir);
      assert s == s[..|s| - 1] + [s[|s| - 1]];
    }
  }

  /** Appending a row that no earlier row sorts after keeps a sorted sequence sorted. */
  lemma SortedAppend(s: seq<Row>, y: Row, key: string, dir: Direction)
    requires Sorted(s, key, dir)
    requires forall i :: 0 <= i < |s| ==> Compare(dir, Get(s[i], key), Get(y, key)) <= 0
    ensures Sorted(s + [y], key, dir)
  {
    var t := s + [y];
    forall i, j | 0 <= i < j < |t|
      ensures Compare(dir, Get(t[i], key), Get(t[j], key)) <= 0
    {
      if j < |s| {
        assert t[i] == s[i] && t[j] == s[j];
      } else {
        assert t[i] == s[i] && t[j] == y;
      }
    }
  }

  /** Every row of a sorted sequence is not after its last row. */
  lemma SortedLast(s: seq<Row>, key: string, dir: Direction, i: nat)
    requires Sorted(s, key, dir) && i < |s|
    ensures Compare(dir, Get(s[i], key), Get(s[|s| - 1], key)) <= 0
  {
    if i == |s| - 1 {
      assert Get(s[i], key) == Get(s[|s| - 1], key);
    }
  }

  lemma SortedInit(s: seq<Row>, key: string, dir: Direction)
    requires Sorted(s, key, dir) && s != []
    ensures Sorted(s[..|s| - 1], key, dir)
  {
    var t := s[..|s| - 1];
    forall i, j | 0 <= i < j < |t|
      ensures Compare(dir, Get(t[i], key), Get(t[j], key)) <= 0
    {
      assert t[i] == s[i] && t[j] == s[j];
    }
  }

  lemma {:induction false} InsertSorted(s: seq<Row>, x: Row, key: string, dir: Direction)
    requires Sorted(s, key, dir)
    ensures Sorted(Insert(s, x, key, dir), key, dir)
    decreases |s|
  {
    if s == [] {
      assert Insert(s, x, key, dir) == [x];
    } else if !Before(x, s[|s| - 1], key, dir) {
      InsertAtEnd(s, x, key, dir);
    } else {
      InsertInside(s, x, key, dir);
    }
  }

  lemma InsertAtEnd(s: seq<Row>, x: Row, key: string, dir: Direction)
    requires Sorted(s, key, dir) && s != [] && !Before(x, s[|s| - 1], key, dir)
    ensures Sorted(Insert(s, x, key, dir), key, dir)
  {
    var last := Get(s[|s| - 1], key);
    CompareAntisymmetric(dir, Get(x, key), last);
    forall i | 0 <= i < |s|
      ensures Compare(dir, Get(s[i], key), Get(x, key)) <= 0
    {
      SortedLast(s, key, dir, i);
      CompareTransitive(dir, Get(s[i], key), last, Get(x, key));
    }
    SortedAppend(s, x, key, dir);
  }

  lemma {:induction false} InsertInside(s: seq<Row>, x: Row, key: string, dir: Direction)
    requires Sorted(s, key, dir) && s != [] && Before(x, s[|s| - 1], key, dir)
    ensures Sorted(Insert(s, x, key, dir), key, dir)
    decreases |s|, 0
  {
    var init, last := s[..|s| - 1], s[|s| - 1];
    SortedInit(s, key, dir);
    InsertSorted(init, x, key, dir);
    InsertPermutes(init, x, key, dir);
    var r := Insert(init, x, key, dir);
    forall i | 0 <= i < |r|
      ensures Compare(dir, Get(r[i], key), Get(last, key)) <= 0
    {
      assert r[i] in multiset(r);
      if r[i] != x {
        assert r[i] in multiset(init);
        var k :| 0 <= k < |init| && init[k] == r[i];
        SortedLast(s, key, dir, k);
        assert s[k] == r[i];
      }
    }
    SortedAppend(r, last, key, dir);
  }

  /** Inserting `x` adds it after all rows with the same key value, so each key class keeps its order. */
  lemma {:induction false} InsertStable(s: seq<Row>, x: Row, key: string, dir: Direction, v: Cell)
    ensures Filter(Insert(s, x, key, dir), WithValue(key, v)) == Filter(s, WithValue(key, v)) + Filter([x], WithValue(key, v))
    decreases |s|
  {
    var p := WithValue(key, v);
    if s == [] || !Before(x, s[|s| - 1], key, dir) {
      FilterConcat(s, [x], p);
    } else {
      var init, last := s[..|s| - 1], s[|s| - 1];
      InsertStable(init, x, key, dir, v);
      FilterConcat(Insert(init, x, key, dir), [last], p);
      FilterConcat(init, [last], p);
      FilterConcat(init, [x], p);
      assert s == init + [last];
      // x sorts strictly before `last`, so at most one of them has key value v.
      assert Get(x, key) != Get(last, key);
    }
  }

  lemma {:induction false} SortRowsCorrect(s: seq<Row>, key: string, dir: Direction)
    ensures multiset(SortRows(s, key, dir)) == multiset(s)
    ensures Sorted(SortRows(s, key, dir), key, dir)
    ensures forall v :: Filter(SortRows(s, key, dir), WithValue(key, v)) == Filter(s, WithValue(key, v))
    decreases |s|
  {
    if s != [] {
      var init, last := s[..|s| - 1], s[|s| - 1];
      SortRowsCorrect(init, key, dir);
      InsertPermutes(SortRows(init, key, dir), last, key, dir);
      InsertSorted(SortRows(init, key, dir), last, key, dir);
      assert s == init + [last];
      forall v
        ensures Filter(SortRows(s, key, dir), WithValue(key, v)) == Filter(s, WithValue(key, v))
      {
        InsertStable(SortRows(init, key, dir), last, key, dir, v);
        FilterConcat(init, [last], WithValue(key, v));
      }
    }
  }

  /** Sorting descending gives rows that are non-increasing in the ascending order. */
  lemma SortedDescendingIsNonIncreasing(s: seq<Row>, key: string)
    requires Sorted(s, key, Desc)
    ensures forall i, j :: 0 <= i < j < |s| ==> Compare(Asc, Get(s[j], key), Get(s[i], key)) <= 0
  {
    forall i, j | 0 <= i < j < |s|
      ensures Compare(Asc, Get(s[j], key), Get(s[i], key)) <= 0
    {
      DescendingNegatesAscending(Get(s[i], key), Get(s[j], key));
      CompareAntisymmetric(Asc, Get(s[i], key), Get(s[j], key));
    }
  }

  /** One step of Insert past a row that sorts strictly after `x`. */
  lemma InsertPast(s: seq<Row>, j: nat, x: Row, key: string, dir: Direction)
    requires 0 < j <= |s| && Before(x, s[j - 1], key, dir)
    ensures Insert(s[..j], x, key, dir) + s[j..] == Insert(s[..j - 1], x, key, dir) + s[j - 1..]
  {
    var p := s[..j];
    assert p[|p| - 1] == s[j - 1] && p[..|p| - 1] == s[..j - 1];
    assert Insert(p, x, key, dir) == Insert(s[..j - 1], x, key, dir) + [s[j - 1]];
    assert s[j - 1..] == [s[j - 1]] + s[j..] by {
      assert s[j - 1..][0] == s[j - 1] && s[j - 1..][1..] == s[j..];
    }
  }

  /** Insert stops at the start or at a row `x` does not sort before. */
  lemma InsertStop(s: seq<Row>, j: nat, x: Row, key: string, dir: Direction)
    requires j <= |s| && (j == 0 || !Before(x, s[j - 1], key, dir))
    ensures Insert(s[..j], x, key, dir) + s[j..] == s[..j] + [x] + s[j..]
  {
  }

  /** Sorting one more row inserts it into the sorted prefix. */
  lemma SortRowsPrefix(s: seq<Row>, i: nat, key: string, dir: Direction)
    requires i < |s|
    ensures SortRows(s[..i + 1], key, dir) == Insert(SortRows(s[..i], key, dir), s[i], key, dir)
  {
    assert s[..i + 1][..i] == s[..i];
  }

  /** Swapping the hole at `j` with its left neighbour moves `x` one place left in the layout. */
  lemma SwapLeft(b: seq<Row>, sorted: seq<Row>, x: Row, rest: seq<Row>, j: nat)
    requires 0 < j <= |sorted|
    requires b == sorted[..j] + [x] + sorted[j..] + rest
    ensures b[j - 1 := b[j]][j := b[j - 1]] == sorted[..j - 1] + [x] + sorted[j - 1..] + rest
  {
    assert sorted[..j] == sorted[..j - 1] + [sorted[j - 1]];
    assert sorted[j - 1..] == [sorted[j - 1]] + sorted[j..];
  }

  /** Moves `a[i]` left past every row of the sorted prefix `a[..i]` that sorts strictly after it. */
  method InsertInPlace(a: array<Row>, i: nat, key: string, dir: Direction)
    requires i < a.Length
    modifies a
    ensures a[..] == Insert(old(a[..i]), old(a[i]), key, dir) + old(a[i + 1..])
  {
    ghost var sorted, rest := a[..i], a[i + 1..];
    var x := a[i];
    var j := i;
    assert sorted[..j] == sorted && sorted[j..] == [];
    assert a[..] == sorted[..j] + [x] + sorted[j..] + rest;
    while j > 0 && Before(x, a[j - 1], key, dir)
      invariant 0 <= j <= i
      invariant a[..] == sorted[..j] + [x] + sorted[j..] + rest
      invariant Insert(sorted, x, key, dir) == Insert(sorted[..j], x, key, dir) + sorted[j..]
    {
      InsertPast(sorted, j, x, key, dir);
      ghost var b := a[..];
      SwapLeft(b, sorted, x, rest, j);
      a[j - 1], a[j] := a[j], a[j - 1];
      assert a[..] == b[j - 1 := b[j]][j := b[j - 1]];
      j := j - 1;
    }
    InsertStop(sorted, j, x, key, dir);
  }

  /** One round of the outer loop: inserting the next input row into the sorted prefix extends that prefix by one. */
  lemma SortStep(orig: seq<Row>, i: nat, key: string, dir: Direction, b: seq<Row>, after: seq<Row>)
    requires i < |orig| && b == SortRows(orig[..i], key, dir) + orig[i..]
    requires after == Insert(b[..i], b[i], key, dir) + b[i + 1..]
    ensures after == SortRows(orig[..i + 1], key, dir) + orig[i + 1..]
  {
    var done := SortRows(orig[..i], key, dir);
    assert b[..i] == done;
    assert b[i] == orig[i] && b[i + 1..] == orig[i + 1..];
    SortRowsPrefix(orig, i, key, dir);
  }

  /** In-place insertion sort of the copied array, proved to compute SortRows. */
  method SortInPlace(a: array<Row>, key: string, dir: Direction)
    modifies a
    ensures a[..] == SortRows(old(a[..]), key, dir)
  {
    ghost var orig := a[..];
    var i := 0;
    assert orig[..0] == [];
    while i < a.Length
      invariant 0 <= i <= a.Length
      invariant a[..] == SortRows(orig[..i], key, dir) + orig[i..]
    {
      ghost var b := a[..];
      InsertInPlace(a, i, key, dir);
      SortStep(orig, i, key, dir, b, a[..]);
      i := i + 1;
    }
    assert orig[..a.Length] == orig;
  }

  /** `!sortConfig.key`: no column chosen yet, or a column whose key is the empty string (falsy). */
  predicate Unsorted(c: SortConfig) {
    c.key.None? || c.key.value == ""
  }

  /** The sorted view: the rows themselves when no column is chosen, otherwise the stable sort. */
  function SortedView(data: seq<Row>, c: SortConfig): seq<Row> {
    if Unsorted(c) then data else SortRows(data, c.key.value, c.direction)
  }

  // ---------------------------------------------------------------------------
  // The search filter

  /** A string cell matches when its lower-cased text contains the lower-cased term; a number cell when its decimal text contains the term as typed. */
  predicate CellMatches(c: Cell, term: string) {
    match c
    case Str(s) => Includes(Lower(s), Lower(term))
    case Int(n) => Includes(IntToString(n), term)
    case _ => false
  }

  /** `searchKeys.some(...)`, scanning the keys in order. */
  predicate RowMatches(row: Row, keys: seq<string>, term: string)
    decreases |keys|
  {
    |keys| > 0 && (CellMatches(Get(row, keys[0]), term) || RowMatches(row, keys[1..], term))
  }

  lemma {:induction false} RowMatchesIff(row: Row, keys: seq<string>, term: string)
    ensures RowMatches(row, keys, term) <==> exists i :: 0 <= i < |keys| && CellMatches(Get(row, keys[i]), term)
    decreases |keys|
  {
    if |keys| > 0 {
      RowMatchesIff(row, keys[1..], term);
      if exists i :: 0 <= i < |keys| && CellMatches(Get(row, keys[i]), term) {
        var i :| 0 <= i < |keys| && CellMatches(Get(row, keys[i]), term);
        if i > 0 {
          assert keys[1..][i - 1] == keys[i];
        }
      }
      if RowMatches(row, keys[1..], term) {
        var i :| 0 <= i < |keys[1..]| && CellMatches(Get(row, keys[1..][i]), term);
        assert keys[i + 1] == keys[1..][i];
      }
    }
  }

  function Matcher(keys: seq<string>, term: string): Row -> bool {
    row => RowMatches(row, keys, term)
  }

  /** Search is bypassed for an empty term, a table that is not searchable, or no search keys. */
  predicate Bypassed(term: string, searchable: bool, keys: seq<string>) {
    term == "" || !searchable || |keys| == 0
  }

  /** `filteredData`: the sorted rows, or those of them that match the term. */
  function Search(sorted: seq<Row>, term: string, searchable: bool, keys: seq<string>): seq<Row> {
    if Bypassed(term, searchable, keys) then sorted else Filter(sorted, Matcher(keys, term))
  }

  /** Search keeps the sorted order and keeps a row, with all its copies, exactly when some search key matches. */
  lemma SearchKeepsExactlyMatches(sorted: seq<Row>, term: string, searchable: bool, keys: seq<string>)
    ensures Bypassed(term, searchable, keys) ==> Search(sorted, term, searchable, keys) == sorted
    ensures IsSubsequence(Search(sorted, term, searchable, keys), sorted)
    ensures !Bypassed(term, searchable, keys) ==>
      forall row :: multiset(Search(sorted, term, searchable, keys))[row] ==
        if exists i :: 0 <= i < |keys| && CellMatches(Get(row, keys[i]), term) then multiset(sorted)[row] else 0
  {
    if Bypassed(term, searchable, keys) {
      SubsequenceReflexive(sorted);
    } else {
      FilterIsSubsequence(sorted, Matcher(keys, term));
      forall row
        ensures multiset(Search(sorted, term, searchable, keys))[row] ==
          if exists i :: 0 <= i < |keys| && CellMatches(Get(row, keys[i]), term) then multiset(sorted)[row] else 0
      {
        FilterCount(sorted, Matcher(keys, term), row);
        RowMatchesIff(row, keys, term);
      }
    }
  }

  lemma {:induction false} SubsequenceReflexive(s: seq<Row>)
    ensures IsSubsequence(s, s)
    decreases |s|
  {
    if s != [] {
      SubsequenceReflexive(s[1..]);
    }
  }

  /** A key holding neither a string nor a number never matches. */
  lemma OtherKindsNeverMatch(c: Cell, term: string)
    requires !c.Str? && !c.Int?
    ensures !CellMatches(c, term)
  {
  }

  // ---------------------------------------------------------------------------
  // The component's state

  /** The table component: its sort configuration and the search box text. */
  class TableState {
    var sortConfig: SortConfig
    var searchTerm: string

    /** Initially nothing is sorted, the direction is ascending and the search box is empty. */
    constructor ()
      ensures sortConfig == InitialSort && searchTerm == ""
    {
      sortConfig := InitialSort;
      searchTerm := "";
    }

    /** A click on a sortable column header. */
    method HandleSort(k: string)
      modifies this
      ensures sortConfig == Toggle(old(sortConfig), k)
      ensures searchTerm == old(searchTerm)
    {
      var direction := Asc;
      if sortConfig.key == Some(k) && sortConfig.direction == Asc {
        direction := Desc;
      }
      sortConfig := SortConfig(Some(k), direction);
    }

    /** Typing in the search box. */
    method SetSearchTerm(t: string)
      modifies this
      ensures searchTerm == t && sortConfig == old(sortConfig)
    {
      searchTerm := t;
    }

    /**
     * `sortedData`: with no sort key, the `data` array itself; otherwise a fresh
     * copy of it sorted in place. `data` is never written.
     */
    method SortedData(data: array<Row>) returns (view: array<Row>)
      ensures Unsorted(sortConfig) ==> view == data
      ensures !Unsorted(sortConfig) ==> fresh(view)
      ensures view[..] == SortedView(data[..], sortConfig)
    {
      if sortConfig.key.None? || sortConfig.key.value == "" {
        return data;
      }
      view := new Row[data.Length](i reads data requires 0 <= i < data.Length => data[i]);
      assert view[..] == data[..];
      SortInPlace(view, sortConfig.key.value, sortConfig.direction);
    }

    /** The rows the table displays: sorted first, then searched. */
    method DisplayedRows(data: array<Row>, searchable: bool, searchKeys: seq<string>) returns (rows: seq<Row>)
      ensures rows == Search(SortedView(data[..], sortConfig), searchTerm, searchable, searchKeys)
    {
      var sorted := SortedData(data);
      rows := Search(sorted[..], searchTerm, searchable, searchKeys);
    }
  }

  /** The displayed rows are an order-preserving selection of the sorted rows; untouched, the table shows `data` as given. */
  lemma DisplayedIsSubsequenceOfSorted(data: seq<Row>, c: SortConfig, term: string, searchable: bool, keys: seq<string>)
    ensures IsSubsequence(Search(SortedView(data, c), term, searchable, keys), SortedView(data, c))
    ensures Unsorted(c) && Bypassed(term, searchable, keys) ==> Search(SortedView(data, c), term, searchable, keys) == data
  {
    SearchKeepsExactlyMatches(SortedView(data, c), term, searchable, keys);
  }

  /** With a key, the sorted view is a permutation of the data, in comparator order, stable on ties. */
  lemma SortedViewCorrect(data: seq<Row>, c: SortConfig)
    requires !Unsorted(c)
    ensures multiset(SortedView(data, c)) == multiset(data)
    ensures Sorted(SortedView(data, c), c.key.value, c.direction)
    ensures forall v :: Filter(SortedView(data, c), WithValue(c.key.value, v)) == Filter(data, WithValue(c.key.value, v))
  {
    SortRowsCorrect(data, c.key.value, c.direction);
  }
}
