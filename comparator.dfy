/**
  The value comparator of the test runner: every expected and actual value is
  normalised by the type letter of its column, both lists are arranged according to
  the query's sort mode, and the first difference (or a difference in length) is
  reported.
*/
module Comparator {
  import opened Strings
  import opened Ordering
  import SltParser

  // ---------------------------------------------------------------------------
  // Normalising one value

  /** How the numeric column types render a value that is neither empty nor NULL:
      `integer` for `I` and `decimal` for `R`, each returning the value unchanged where
      Python's float conversion fails.  Float parsing and formatting are parameters of
      this model. */
  datatype NumericFormat = NumericFormat(integer: string -> string, decimal: string -> string)

  /** The stripped values that stand for SQL NULL: any capitalisation of `NULL`, and the
      empty string. */
  predicate IsNull(v: string) {
    Upper(v) == "NULL" || v == ""
  }

  /** A value as it is compared: stripped, NULL markers unified, numbers rendered by the
      column's type letter (`I`, `R`; any other letter leaves the text as it is). */
  function NormalizeValue(value: string, typeChar: char, fmt: NumericFormat): (r: string)
    ensures IsNull(PyStrip(value)) ==> r == "NULL"
    ensures !IsNull(PyStrip(value)) && typeChar == 'I' ==> r == fmt.integer(PyStrip(value))
    ensures !IsNull(PyStrip(value)) && typeChar == 'R' ==> r == fmt.decimal(PyStrip(value))
    ensures !IsNull(PyStrip(value)) && typeChar != 'I' && typeChar != 'R' ==> r == PyStrip(value)
  {
    var v := PyStrip(value);
    if IsNull(v) then "NULL"
    else if typeChar == 'I' then fmt.integer(v)
    else if typeChar == 'R' then fmt.decimal(v)
    else v
  }

  /** Surrounding whitespace never matters: a value and its stripped form normalise
      alike, under every column type. */
  lemma NormalizeIgnoresSurroundingSpace(value: string, typeChar: char, fmt: NumericFormat)
    ensures NormalizeValue(PyStrip(value), typeChar, fmt) == NormalizeValue(value, typeChar, fmt)
  {
    TrimIdempotent(value, PySpace);
  }

  /** Normalising a text value a second time changes nothing. */
  lemma NormalizeTextIdempotent(value: string, typeChar: char, fmt: NumericFormat)
    requires typeChar != 'I' && typeChar != 'R'
    ensures var n := NormalizeValue(value, typeChar, fmt); NormalizeValue(n, typeChar, fmt) == n
  {
    var v := PyStrip(value);
    if IsNull(v) {
      NullMarkerIsNull();
    } else {
      TrimIdempotent(value, PySpace);
    }
  }

  /** The marker `NULL` is itself read as NULL, and is its own strip. */
  lemma NullMarkerIsNull()
    ensures PyStrip("NULL") == "NULL" && IsNull("NULL")
  {
    var s := "NULL";
    assert !IsPySpace(s[0]) && !IsPySpace(s[|s| - 1]);
    TrimmedIsFixed(s, PySpace);
    assert Upper(s) == s;
  }

  // ---------------------------------------------------------------------------
  // Normalising a list

  /** The number of values per row: one per type letter, or one when there are none. */
  function NumCols(columnTypes: string): (n: nat)
    ensures n >= 1
  {
    if columnTypes == "" then 1 else |columnTypes|
  }

  /** The type letter of the value at position `i` of a flattened result: its column's
      letter, or `T` when the query names no columns. */
  function TypeAt(columnTypes: string, i: nat): char {
    if columnTypes == "" then 'T' else columnTypes[i % |columnTypes|]
  }

  /** Every value normalised by the type letter of its position. */
  function Normalized(values: seq<string>, columnTypes: string, fmt: NumericFormat): (r: seq<string>)
    ensures |r| == |values|
  {
    seq(|values|, k requires 0 <= k < |values| => NormalizeValue(values[k], TypeAt(columnTypes, k), fmt))
  }

  /** The normalising loop of the comparator. */
  method NormalizeList(values: seq<string>, columnTypes: string, fmt: NumericFormat)
    returns (result: seq<string>)
    ensures |result| == |values|
    ensures forall k :: 0 <= k < |values| ==>
              result[k] == NormalizeValue(values[k], TypeAt(columnTypes, k), fmt)
  {
    result := [];
    var i := 0;
    while i < |values|
      invariant i <= |values| && |result| == i
      invariant forall k :: 0 <= k < i ==> result[k] == NormalizeValue(values[k], TypeAt(columnTypes, k), fmt)
    {
      var typeChar := if columnTypes != "" then columnTypes[i % NumCols(columnTypes)] else 'T';
      result := result + [NormalizeValue(values[i], typeChar, fmt)];
      i := i + 1;
    }
  }

  /** Euclidean division of a natural number by a positive one. */
  lemma DivMod(k: nat, n: nat)
    requires n > 0
    ensures 0 <= k / n && 0 <= k % n < n && k == (k / n) * n + k % n
  {
  }

  /** Quotient and remainder are the only ones with `x == q * n + r` and `0 <= r < n`. */
  lemma DivModUnique(x: int, n: int, q: int, r: int)
    requires n > 0 && 0 <= r < n && x == q * n + r
    ensures x % n == r && x / n == q
  {
    var q0, r0 := x / n, x % n;
    assert x == q0 * n + r0 && 0 <= r0 < n;
    assert (q - q0) * n == r0 - r;
    MulBounds(q - q0, n);
  }

  lemma MulNonnegative(a: nat, b: nat)
    ensures a * b >= 0
  {
  }

  lemma MulBounds(d: int, n: int)
    requires n > 0
    ensures d > 0 ==> d * n >= n
    ensures d < 0 ==> d * n <= -n
  {
  }

  /** Positions a whole number of rows apart are in the same column. */
  lemma TypeAtShift(columnTypes: string, i: nat, q: nat)
    ensures TypeAt(columnTypes, i + q * NumCols(columnTypes)) == TypeAt(columnTypes, i)
  {
    if columnTypes != "" {
      var n := |columnTypes|;
      DivModUnique(i + q * n, n, i / n + q, i % n);
    }
  }

  /** Normalisation respects a split after a whole number of rows. */
  lemma NormalizedAppend(a: seq<string>, b: seq<string>, columnTypes: string, fmt: NumericFormat)
    requires |a| % NumCols(columnTypes) == 0
    ensures Normalized(a + b, columnTypes, fmt) == Normalized(a, columnTypes, fmt) + Normalized(b, columnTypes, fmt)
  {
    var n := NumCols(columnTypes);
    var q := |a| / n;
    DivMod(|a|, n);
    forall k | 0 <= k < |b|
      ensures Normalized(a + b, columnTypes, fmt)[|a| + k] == Normalized(b, columnTypes, fmt)[k]
    {
      TypeAtShift(columnTypes, k, q);
      assert |a| + k == k + q * n;
    }
  }

  /** A flattened result made of whole rows normalises row by row. */
  lemma {:induction false} NormalizedRows(rows: seq<seq<string>>, columnTypes: string, fmt: NumericFormat)
    requires forall k :: 0 <= k < |rows| ==> |rows[k]| == NumCols(columnTypes)
    ensures Normalized(Flatten(rows), columnTypes, fmt)
         == Flatten(Map((row: seq<string>) => Normalized(row, columnTypes, fmt), rows))
  {
    var f := (row: seq<string>) => Normalized(row, columnTypes, fmt);
    if rows != [] {
      NormalizedRows(rows[1..], columnTypes, fmt);
      NormalizedAppend(rows[0], Flatten(rows[1..]), columnTypes, fmt);
      assert Map(f, rows)[1..] == Map(f, rows[1..]);
    }
  }

  // ---------------------------------------------------------------------------
  // Arranging by sort mode

  /** Python's order on `str`: lexicographic by code point. */
  function CharLe(a: char, b: char): bool {
    a <= b
  }

  function StrLe(a: string, b: string): bool {
    LexLe(a, b, CharLe)
  }

  /** Python's order on tuples of strings. */
  function RowLe(a: seq<string>, b: seq<string>): bool {
    LexLe(a, b, StrLe)
  }

  lemma StrLeTotal()
    ensures TotalOrder(StrLe)
  {
    assert TotalOrder(CharLe);
    LexTotalOrder(CharLe, StrLe);
  }

  lemma RowLeTotal()
    ensures TotalOrder(RowLe)
  {
    StrLeTotal();
    LexTotalOrder(StrLe, RowLe);
  }

  /** A normalised list as it is compared: unchanged (`nosort`), its rows of `n` values
      sorted (`rowsort`), or all its values sorted (`valuesort`). */
  function Arrange(values: seq<string>, mode: SltParser.SortMode, n: nat): seq<string>
    requires n > 0
  {
    match mode
    case NoSort => values
    case RowSort => Flatten(Sort(Chunks(values, n), RowLe))
    case ValueSort => Sort(values, StrLe)
  }

  /** Every sort mode keeps the number of values. */
  lemma ArrangeLength(values: seq<string>, mode: SltParser.SortMode, n: nat)
    requires n > 0
    ensures |Arrange(values, mode, n)| == |values|
  {
    if mode == SltParser.RowSort {
      FlattenPermutationLength(Sort(Chunks(values, n), RowLe), Chunks(values, n));
    }
  }

  function Arranged(values: seq<string>, columnTypes: string, mode: SltParser.SortMode, fmt: NumericFormat): seq<string> {
    Arrange(Normalized(values, columnTypes, fmt), mode, NumCols(columnTypes))
  }

  // ---------------------------------------------------------------------------
  // Comparing

  datatype Verdict =
    | Pass
    | CountMismatch(gotCount: nat, expectedCount: nat)
    | ValueMismatch(row: nat, col: nat, gotValue: string, expectedValue: string)

  /** The diagnostic the comparator returns with its verdict. */
  function Message(v: Verdict): (r: string)
    ensures r == "" <==> v.Pass?
  {
    match v
    case Pass => ""
    case CountMismatch(got, expected) =>
      "Row count mismatch: got " + NatToString(got) + ", expected " + NatToString(expected)
    case ValueMismatch(row, col, got, expected) =>
      "Mismatch at row " + NatToString(row) + ", col " + NatToString(col)
        + ": got '" + got + "', expected '" + expected + "'"
  }

  /** The first position at which two equally long lists differ, or their length. */
  function FirstDifference(a: seq<string>, e: seq<string>): (k: nat)
    requires |a| == |e|
    ensures k <= |a|
    ensures forall j :: 0 <= j < k ==> a[j] == e[j]
    ensures k < |a| ==> a[k] != e[k]
  {
    if a == [] || a[0] != e[0] then 0
    else 1 + FirstDifference(a[1..], e[1..])
  }

  /** The verdict on two arranged lists of a query `n` values wide: their lengths first,
      then their first difference, located as a row and a column. */
  function Judge(a: seq<string>, e: seq<string>, n: nat): Verdict
    requires n > 0
  {
    if |a| != |e| then CountMismatch(|a|, |e|)
    else
      var k := FirstDifference(a, e);
      if k == |a| then Pass
      else
        DivMod(k, n);
        ValueMismatch(k / n, k % n, a[k], e[k])
  }

  /** The verdict on a query's actual values against its expected ones. */
  function Compare(actual: seq<string>, expected: seq<string>, columnTypes: string,
                   mode: SltParser.SortMode, fmt: NumericFormat): Verdict
  {
    Judge(Arranged(actual, columnTypes, mode, fmt), Arranged(expected, columnTypes, mode, fmt),
          NumCols(columnTypes))
  }

  /** The comparator: the verdict as a pass flag and its diagnostic. */
  method CompareResults(actual: seq<string>, expected: seq<string>, columnTypes: string,
                        mode: SltParser.SortMode, fmt: NumericFormat)
    returns (passed: bool, message: string)
    ensures passed == Compare(actual, expected, columnTypes, mode, fmt).Pass?
    ensures message == Message(Compare(actual, expected, columnTypes, mode, fmt))
  {
    var n := NumCols(columnTypes);
    var a := NormalizeList(actual, columnTypes, fmt);
    var e := NormalizeList(expected, columnTypes, fmt);
    assert a == Normalized(actual, columnTypes, fmt);
    assert e == Normalized(expected, columnTypes, fmt);
    match mode {
      case RowSort =>
        a := Flatten(Sort(Chunks(a, n), RowLe));
        e := Flatten(Sort(Chunks(e, n), RowLe));
      case ValueSort =>
        a := Sort(a, StrLe);
        e := Sort(e, StrLe);
      case NoSort =>
    }
    passed, message := CompareArranged(a, e, n);
  }

  /** The length check and the position-by-position comparison of two arranged lists. */
  method CompareArranged(a: seq<string>, e: seq<string>, n: nat) returns (passed: bool, message: string)
    requires n > 0
    ensures passed == Judge(a, e, n).Pass?
    ensures message == Message(Judge(a, e, n))
  {
    if |a| != |e| {
      return false, Message(CountMismatch(|a|, |e|));
    }
    var i := 0;
    while i < |a|
      invariant i <= |a|
      invariant forall j :: 0 <= j < i ==> a[j] == e[j]
    {
      if a[i] != e[i] {
        assert FirstDifference(a, e) == i;
        DivMod(i, n);
        return false, Message(ValueMismatch(i / n, i % n, a[i], e[i]));
      }
      i := i + 1;
    }
    assert FirstDifference(a, e) == |a|;
    return true, "";
  }

  // ---------------------------------------------------------------------------
  // What the verdict means

  /** A query passes exactly when its arranged actual and expected values are equal. */
  lemma PassesIffArrangedEqual(actual: seq<string>, expected: seq<string>, columnTypes: string,
                               mode: SltParser.SortMode, fmt: NumericFormat)
    ensures Compare(actual, expected, columnTypes, mode, fmt).Pass?
        <==> Arranged(actual, columnTypes, mode, fmt) == Arranged(expected, columnTypes, mode, fmt)
  {
    var a := Arranged(actual, columnTypes, mode, fmt);
    var e := Arranged(expected, columnTypes, mode, fmt);
    if |a| == |e| && FirstDifference(a, e) == |a| {
      assert a == e;
    }
  }

  /** The counts differ exactly when the two lists have different lengths, whatever the
      sort mode, and then the diagnostic names both lengths. */
  lemma CountMismatchIffLengthsDiffer(actual: seq<string>, expected: seq<string>, columnTypes: string,
                                      mode: SltParser.SortMode, fmt: NumericFormat)
    ensures Compare(actual, expected, columnTypes, mode, fmt).CountMismatch?
        <==> |actual| != |expected|
    ensures |actual| != |expected| ==>
              Compare(actual, expected, columnTypes, mode, fmt) == CountMismatch(|actual|, |expected|)
  {
    ArrangeLength(Normalized(actual, columnTypes, fmt), mode, NumCols(columnTypes));
    ArrangeLength(Normalized(expected, columnTypes, fmt), mode, NumCols(columnTypes));
  }

  /** A value mismatch names the first differing position of the arranged lists, as a row
      and a column of the query's width, and the two values found there. */
  lemma MismatchIsFirstDifference(actual: seq<string>, expected: seq<string>, columnTypes: string,
                                  mode: SltParser.SortMode, fmt: NumericFormat)
    ensures var v := Compare(actual, expected, columnTypes, mode, fmt);
            var a := Arranged(actual, columnTypes, mode, fmt);
            var e := Arranged(expected, columnTypes, mode, fmt);
            v.ValueMismatch? ==>
              var p := Position(v.row, v.col, NumCols(columnTypes));
              && |a| == |e| && p < |a| && v.col < NumCols(columnTypes)
              && a[p] == v.gotValue && e[p] == v.expectedValue && v.gotValue != v.expectedValue
              && (forall j :: 0 <= j < p ==> a[j] == e[j])
  {
    var v := Compare(actual, expected, columnTypes, mode, fmt);
    if v.ValueMismatch? {
      var n := NumCols(columnTypes);
      var a := Arranged(actual, columnTypes, mode, fmt);
      var e := Arranged(expected, columnTypes, mode, fmt);
      var k := FirstDifference(a, e);
      assert v.row == k / n && v.col == k % n;
      DivMod(k, n);
      assert Position(v.row, v.col, n) == k;
    }
  }

  /** The position in a flattened result of the value at `row` and `col`, for rows of
      `n` values. */
  function Position(row: nat, col: nat, n: nat): nat {
    MulNonnegative(row, n);
    row * n + col
  }

  /** All columns have the same type letter (or none is named). */
  predicate UniformTypes(columnTypes: string) {
    forall i :: 0 <= i < |columnTypes| ==> columnTypes[i] == columnTypes[0]
  }

  /** With one type letter for every column, `valuesort` ignores the order in which the
      values of either side arrive.  (Normalisation is by position, so with mixed type
      letters the order can change how a value is normalised.) */
  lemma ValueSortIgnoresOrder(actual: seq<string>, actual': seq<string>,
                              expected: seq<string>, expected': seq<string>,
                              columnTypes: string, fmt: NumericFormat)
    requires UniformTypes(columnTypes)
    requires multiset(actual) == multiset(actual') && multiset(expected) == multiset(expected')
    ensures Compare(actual, expected, columnTypes, SltParser.ValueSort, fmt)
         == Compare(actual', expected', columnTypes, SltParser.ValueSort, fmt)
  {
    StrLeTotal();
    SortedNormalizedIgnoresOrder(actual, actual', columnTypes, fmt);
    SortedNormalizedIgnoresOrder(expected, expected', columnTypes, fmt);
  }

  lemma SortedNormalizedIgnoresOrder(xs: seq<string>, ys: seq<string>, columnTypes: string, fmt: NumericFormat)
    requires UniformTypes(columnTypes) && TotalOrder(StrLe)
    requires multiset(xs) == multiset(ys)
    ensures Arranged(xs, columnTypes, SltParser.ValueSort, fmt) == Arranged(ys, columnTypes, SltParser.ValueSort, fmt)
  {
    var t := TypeAt(columnTypes, 0);
    var f := (v: string) => NormalizeValue(v, t, fmt);
    forall zs: seq<string> ensures Normalized(zs, columnTypes, fmt) == Map(f, zs) {
      forall k | 0 <= k < |zs| ensures TypeAt(columnTypes, k) == t {
      }
    }
    MapPermutation(f, xs, ys);
    SortDependsOnlyOnMultiset(Normalized(xs, columnTypes, fmt), Normalized(ys, columnTypes, fmt), StrLe);
  }

  /** `rowsort` ignores the order in which whole rows arrive, on both sides. */
  lemma RowSortIgnoresRowOrder(rows: seq<seq<string>>, rows': seq<seq<string>>,
                               expected: seq<seq<string>>, expected': seq<seq<string>>,
                               columnTypes: string, fmt: NumericFormat)
    requires forall k :: 0 <= k < |rows| ==> |rows[k]| == NumCols(columnTypes)
    requires forall k :: 0 <= k < |expected| ==> |expected[k]| == NumCols(columnTypes)
    requires multiset(rows) == multiset(rows')
    requires multiset(expected) == multiset(expected')
    ensures Compare(Flatten(rows), Flatten(expected), columnTypes, SltParser.RowSort, fmt)
         == Compare(Flatten(rows'), Flatten(expected'), columnTypes, SltParser.RowSort, fmt)
  {
    RowArrangementIgnoresOrder(rows, rows', columnTypes, fmt);
    RowArrangementIgnoresOrder(expected, expected', columnTypes, fmt);
  }

  /** Under `rowsort`, the arrangement of whole rows depends only on which rows there are. */
  lemma RowArrangementIgnoresOrder(rows: seq<seq<string>>, rows': seq<seq<string>>,
                                   columnTypes: string, fmt: NumericFormat)
    requires forall k :: 0 <= k < |rows| ==> |rows[k]| == NumCols(columnTypes)
    requires multiset(rows) == multiset(rows')
    ensures Arranged(Flatten(rows), columnTypes, SltParser.RowSort, fmt)
         == Arranged(Flatten(rows'), columnTypes, SltParser.RowSort, fmt)
  {
    RowLeTotal();
    var n := NumCols(columnTypes);
    forall k | 0 <= k < |rows'| ensures |rows'[k]| == n {
      assert rows'[k] in multiset(rows);
    }
    RowSortedRows(rows, columnTypes, fmt);
    RowSortedRows(rows', columnTypes, fmt);
    var f := (row: seq<string>) => Normalized(row, columnTypes, fmt);
    MapPermutation(f, rows, rows');
    SortDependsOnlyOnMultiset(Map(f, rows), Map(f, rows'), RowLe);
  }

  /** Arranging whole rows under `rowsort` sorts the normalised rows. */
  lemma RowSortedRows(rows: seq<seq<string>>, columnTypes: string, fmt: NumericFormat)
    requires forall k :: 0 <= k < |rows| ==> |rows[k]| == NumCols(columnTypes)
    ensures Arranged(Flatten(rows), columnTypes, SltParser.RowSort, fmt)
         == Flatten(Sort(Map((row: seq<string>) => Normalized(row, columnTypes, fmt), rows), RowLe))
  {
    var f := (row: seq<string>) => Normalized(row, columnTypes, fmt);
    NormalizedRows(rows, columnTypes, fmt);
    ChunksOfFlatten(Map(f, rows), NumCols(columnTypes));
  }
}
