/**
  The string operations of Python's `str` and Rust's `str` that the test harness
  and the starter REPL rely on, stated on `seq<char>`.  Characters are Unicode
  scalar values; comparisons are by code point, as in both languages.
*/
module Strings {
  import opened Options

  /** Python's `str.isspace` for one character (what `strip()` and `split()` remove). */
  predicate IsPySpace(c: char) {
    || c == ' '
    || ('\t' <= c <= '\r')
    || ('\U{1C}' <= c <= '\U{1F}')
    || c == '\U{85}' || c == '\U{A0}' || c == '\U{1680}'
    || ('\U{2000}' <= c <= '\U{200A}')
    || c == '\U{2028}' || c == '\U{2029}' || c == '\U{202F}' || c == '\U{205F}' || c == '\U{3000}'
  }

  /** Rust's `char::is_whitespace` (what `trim()` and `split_whitespace()` remove):
      Python's set without the separators U+001C..U+001F. */
  predicate IsRustSpace(c: char) {
    IsPySpace(c) && !('\U{1C}' <= c <= '\U{1F}')
  }

  /** The characters of Python's `rstrip('\n\r')`. */
  predicate IsLineEnd(c: char) {
    c == '\n' || c == '\r'
  }

  predicate IsDigit(c: char) {
    '0' <= c <= '9'
  }

  predicate AllDigits(s: string) {
    forall k :: 0 <= k < |s| ==> IsDigit(s[k])
  }

  /** The character classes that are stripped and split on. */
  datatype CharClass = PySpace | RustSpace | LineEnd | Semicolon

  predicate InClass(c: char, cls: CharClass) {
    match cls
    case PySpace => IsPySpace(c)
    case RustSpace => IsRustSpace(c)
    case LineEnd => IsLineEnd(c)
    case Semicolon => c == ';'
  }

  // ---------------------------------------------------------------------------
  // Trimming

  /** The length of the longest prefix of `s` whose characters are all in `cls`. */
  function LeadingCount(s: string, cls: CharClass): (n: nat)
    ensures n <= |s|
    ensures n < |s| ==> !InClass(s[n], cls)
  {
    if s == [] || !InClass(s[0], cls) then 0 else 1 + LeadingCount(s[1..], cls)
  }

  /** Every character before `LeadingCount` is in the class. */
  lemma {:induction false} LeadingCountPrefix(s: string, cls: CharClass)
    ensures forall k :: 0 <= k < LeadingCount(s, cls) ==> InClass(s[k], cls)
  {
    if s != [] && InClass(s[0], cls) {
      LeadingCountPrefix(s[1..], cls);
      forall k | 1 <= k < LeadingCount(s, cls) ensures InClass(s[k], cls) {
        assert s[k] == s[1..][k - 1];
      }
    }
  }

  /** The length of the longest suffix of `s` whose characters are all in `cls`. */
  function TrailingCount(s: string, cls: CharClass): (n: nat)
    ensures n <= |s|
    ensures n < |s| ==> !InClass(s[|s| - 1 - n], cls)
  {
    if s == [] || !InClass(s[|s| - 1], cls) then 0 else 1 + TrailingCount(s[..|s| - 1], cls)
  }

  /** Every character of the last `TrailingCount` is in the class. */
  lemma {:induction false} TrailingCountSuffix(s: string, cls: CharClass)
    ensures forall k :: |s| - TrailingCount(s, cls) <= k < |s| ==> InClass(s[k], cls)
  {
    if s != [] && InClass(s[|s| - 1], cls) {
      TrailingCountSuffix(s[..|s| - 1], cls);
      forall k | |s| - TrailingCount(s, cls) <= k < |s| - 1 ensures InClass(s[k], cls) {
        assert s[k] == s[..|s| - 1][k];
      }
    }
  }

  /** A character of the class added at the end is trimmed with the rest. */
  lemma TrimEndAppend(s: string, c: char, cls: CharClass)
    requires InClass(c, cls)
    ensures TrimEnd(s + [c], cls) == TrimEnd(s, cls)
  {
    var t := s + [c];
    assert t[..|s|] == s;
    assert TrailingCount(t, cls) == 1 + TrailingCount(s, cls);
    var m := |s| - TrailingCount(s, cls);
    assert t[..m] == s[..m];
  }

  /** `s` without its leading characters in `cls` (Python `lstrip`, Rust `trim_start`). */
  function TrimStart(s: string, cls: CharClass): (r: string)
    ensures |r| <= |s| && r == s[|s| - |r|..]
    ensures r == [] || !InClass(r[0], cls)
  {
    s[LeadingCount(s, cls)..]
  }

  /** `s` without its trailing characters in `cls` (Python `rstrip`, Rust `trim_end`). */
  function TrimEnd(s: string, cls: CharClass): (r: string)
    ensures |r| <= |s| && r == s[..|r|]
    ensures r == [] || !InClass(r[|r| - 1], cls)
  {
    s[..|s| - TrailingCount(s, cls)]
  }

  /** Python's `s.strip()`. */
  function PyStrip(s: string): string {
    TrimEnd(TrimStart(s, PySpace), PySpace)
  }

  /** Python's `s.lstrip()`. */
  function PyLStrip(s: string): string {
    TrimStart(s, PySpace)
  }

  /** Python's `s.rstrip('\n\r')`. */
  function StripLineEnd(s: string): string {
    if s != [] && IsLineEnd(s[|s| - 1]) then StripLineEnd(s[..|s| - 1]) else s
  }

  /** `StripLineEnd` removes the run of line-end characters at the end of `s` and
      nothing else. */
  lemma {:induction false} StripLineEndIsPrefix(s: string)
    ensures StripLineEnd(s) <= s
    ensures forall k :: |StripLineEnd(s)| <= k < |s| ==> IsLineEnd(s[k])
    ensures StripLineEnd(s) == [] || !IsLineEnd(StripLineEnd(s)[|StripLineEnd(s)| - 1])
  {
    if s != [] && IsLineEnd(s[|s| - 1]) {
      StripLineEndIsPrefix(s[..|s| - 1]);
    }
  }

  /** Rust's `s.trim()`. */
  function RustTrim(s: string): string {
    TrimEnd(TrimStart(s, RustSpace), RustSpace)
  }

  /** A string that neither starts nor ends with a character of `cls` is its own trim. */
  lemma TrimmedIsFixed(s: string, cls: CharClass)
    requires s == [] || (!InClass(s[0], cls) && !InClass(s[|s| - 1], cls))
    ensures TrimEnd(TrimStart(s, cls), cls) == s
  {
    assert TrimStart(s, cls) == s;
  }

  /** A string that is its own trim neither starts nor ends with a character of `cls`. */
  lemma TrimmedEnds(s: string, cls: CharClass)
    requires TrimEnd(TrimStart(s, cls), cls) == s
    ensures s == [] || (!InClass(s[0], cls) && !InClass(s[|s| - 1], cls))
  {
    var u := TrimStart(s, cls);
    assert u == s by {
      assert |TrimEnd(u, cls)| <= |u| <= |s|;
      assert s[|s| - |u|..] == s;
    }
  }

  /** A trimmed string stays trimmed when a character outside the class is added. */
  lemma TrimmedAppend(s: string, c: char, cls: CharClass)
    requires TrimEnd(TrimStart(s, cls), cls) == s
    requires !InClass(c, cls)
    ensures TrimEnd(TrimStart(s + [c], cls), cls) == s + [c]
  {
    TrimmedEnds(s, cls);
    var t := s + [c];
    assert t == [] || (!InClass(t[0], cls) && !InClass(t[|t| - 1], cls)) by {
      if s != [] {
        assert t[0] == s[0];
      }
      assert t[|t| - 1] == c;
    }
    TrimmedIsFixed(t, cls);
  }

  /** Trimming twice is trimming once. */
  lemma TrimIdempotent(s: string, cls: CharClass)
    ensures var t := TrimEnd(TrimStart(s, cls), cls); TrimEnd(TrimStart(t, cls), cls) == t
  {
    var u := TrimStart(s, cls);
    var t := TrimEnd(u, cls);
    if t != [] {
      assert t[0] == u[0];
    }
    TrimmedIsFixed(t, cls);
  }

  // ---------------------------------------------------------------------------
  // Splitting and joining

  /** `parts` joined with `sep` between consecutive elements (Python `sep.join(parts)`). */
  function Join(parts: seq<string>, sep: string): string
  {
    if parts == [] then ""
    else if |parts| == 1 then parts[0]
    else parts[0] + sep + Join(parts[1..], sep)
  }

  /** The index of the first `c` in `s`, or `|s|` when there is none. */
  function IndexOfChar(s: string, c: char): (k: nat)
    ensures k <= |s|
    ensures k < |s| ==> s[k] == c
  {
    if s == [] || s[0] == c then 0 else 1 + IndexOfChar(s[1..], c)
  }

  /** No `c` occurs before `IndexOfChar(s, c)`. */
  lemma {:induction false} IndexOfCharBefore(s: string, c: char)
    ensures forall j :: 0 <= j < IndexOfChar(s, c) ==> s[j] != c
  {
    if s != [] && s[0] != c {
      IndexOfCharBefore(s[1..], c);
      forall j | 1 <= j < IndexOfChar(s, c) ensures s[j] != c {
        assert s[j] == s[1..][j - 1];
      }
    }
  }

  /** Python's `s.split(sep)` for a one-character separator: the pieces between the
      occurrences of `sep`, empty pieces included. */
  function Split(s: string, sep: char): (parts: seq<string>)
    ensures |parts| >= 1
    decreases |s|
  {
    var k := IndexOfChar(s, sep);
    if k == |s| then [s]
    else [s[..k]] + Split(s[k + 1..], sep)
  }

  /** Joining the pieces of a split with the separator gives back the string. */
  lemma {:induction false} JoinSplit(s: string, sep: char)
    ensures Join(Split(s, sep), [sep]) == s
    decreases |s|
  {
    var k := IndexOfChar(s, sep);
    if k < |s| {
      var rest := Split(s[k + 1..], sep);
      JoinSplit(s[k + 1..], sep);
      assert ([s[..k]] + rest)[1..] == rest;
      assert s == s[..k] + [sep] + s[k + 1..];
    }
  }

  /** No piece of a split contains the separator. */
  lemma {:induction false} SplitPiecesAvoidSeparator(s: string, sep: char)
    ensures forall k :: 0 <= k < |Split(s, sep)| ==> sep !in Split(s, sep)[k]
    decreases |s|
  {
    var k := IndexOfChar(s, sep);
    IndexOfCharBefore(s, sep);
    if k == |s| {
      assert sep !in s;
    } else {
      var parts := Split(s, sep);
      SplitPiecesAvoidSeparator(s[k + 1..], sep);
      assert sep !in s[..k];
      forall j | 1 <= j < |parts| ensures sep !in parts[j] {
        assert parts[j] == Split(s[k + 1..], sep)[j - 1];
      }
    }
  }

  /** Splitting undoes joining when no piece contains the separator. */
  lemma {:induction false} SplitJoin(parts: seq<string>, sep: char)
    requires |parts| >= 1
    requires forall k :: 0 <= k < |parts| ==> sep !in parts[k]
    ensures Split(Join(parts, [sep]), sep) == parts
  {
    if |parts| > 1 {
      var s := Join(parts, [sep]);
      var tail := Join(parts[1..], [sep]);
      assert s == parts[0] + [sep] + tail;
      assert s[..|parts[0]|] == parts[0];
      assert s[|parts[0]|] == sep;
      assert IndexOfChar(s, sep) == |parts[0]| by {
        forall j | 0 <= j < |parts[0]| ensures s[j] != sep {
          assert s[j] == parts[0][j];
        }
        IndexOfCharIsFirst(s, sep, |parts[0]|);
      }
      assert s[|parts[0]| + 1..] == tail;
      SplitJoin(parts[1..], sep);
      assert parts == [parts[0]] + parts[1..];
    }
  }

  /** `IndexOfChar` is determined by where `c` first occurs. */
  lemma IndexOfCharIsFirst(s: string, c: char, k: nat)
    requires k < |s| && s[k] == c
    requires forall j :: 0 <= j < k ==> s[j] != c
    ensures IndexOfChar(s, c) == k
  {
    IndexOfCharBefore(s, c);
  }

  /** The length of the longest prefix of `t` without a character of class `ws`. */
  function WordLength(t: string, ws: CharClass): (n: nat)
    ensures n <= |t|
    ensures n < |t| ==> InClass(t[n], ws)
  {
    if t == [] || InClass(t[0], ws) then 0 else 1 + WordLength(t[1..], ws)
  }

  /** No character before `WordLength` is in the class. */
  lemma {:induction false} WordLengthPrefix(t: string, ws: CharClass)
    ensures forall k :: 0 <= k < WordLength(t, ws) ==> !InClass(t[k], ws)
  {
    if t != [] && !InClass(t[0], ws) {
      WordLengthPrefix(t[1..], ws);
      forall k | 1 <= k < WordLength(t, ws) ensures !InClass(t[k], ws) {
        assert t[k] == t[1..][k - 1];
      }
    }
  }

  /** Characters of the class in front of `t` add to its leading count. */
  lemma {:induction false} LeadingCountAppend(pre: string, t: string, cls: CharClass)
    requires forall k :: 0 <= k < |pre| ==> InClass(pre[k], cls)
    ensures LeadingCount(pre + t, cls) == |pre| + LeadingCount(t, cls)
  {
    if pre != [] {
      assert (pre + t)[1..] == pre[1..] + t;
      LeadingCountAppend(pre[1..], t, cls);
    } else {
      assert pre + t == t;
    }
  }

  /** A word followed by the end or by whitespace is read whole. */
  lemma {:induction false} WordLengthOfWord(w: string, rest: string, ws: CharClass)
    requires forall k :: 0 <= k < |w| ==> !InClass(w[k], ws)
    requires rest == [] || InClass(rest[0], ws)
    ensures WordLength(w + rest, ws) == |w|
  {
    if w != [] {
      assert (w + rest)[1..] == w[1..] + rest;
      WordLengthOfWord(w[1..], rest, ws);
    } else {
      assert w + rest == rest;
    }
  }

  /** A non-empty run of characters outside the class `ws`. */
  predicate IsWord(x: string, ws: CharClass) {
    x != [] && forall j :: 0 <= j < |x| ==> !InClass(x[j], ws)
  }

  /** Python's `s.split()` / Rust's `s.split_whitespace()` for the whitespace class `ws`:
      the maximal runs of non-whitespace characters, in order. */
  function Words(s: string, ws: CharClass): seq<string>
    decreases |s|
  {
    var t := TrimStart(s, ws);
    if t == [] then []
    else
      var n := WordLength(t, ws);
      [t[..n]] + Words(t[n..], ws)
  }

  /** Every piece `Words` returns is a word: non-empty and free of whitespace. */
  lemma {:induction false} WordsAreWords(s: string, ws: CharClass)
    ensures forall k :: 0 <= k < |Words(s, ws)| ==> IsWord(Words(s, ws)[k], ws)
    decreases |s|
  {
    var t := TrimStart(s, ws);
    if t != [] {
      var n := WordLength(t, ws);
      var word := t[..n];
      assert IsWord(word, ws) by {
        WordLengthPrefix(t, ws);
        forall j | 0 <= j < |word| ensures !InClass(word[j], ws) {
          assert word[j] == t[j];
        }
      }
      WordsAreWords(t[n..], ws);
      var w := Words(s, ws);
      assert w == [word] + Words(t[n..], ws);
      forall k | 0 <= k < |w| ensures IsWord(w[k], ws) {
        if k > 0 {
          assert w[k] == Words(t[n..], ws)[k - 1];
        }
      }
    }
  }

  // ---------------------------------------------------------------------------
  // Searching

  /** The first index at which `t` occurs in `s` (Python `s.find(t)`), if any. */
  function Find(s: string, t: string): (r: Option<nat>)
    ensures r.Some? ==> r.value <= |s| && t <= s[r.value..]
    decreases |s|
  {
    if t <= s then Some(0)
    else if s == [] then None
    else
      match Find(s[1..], t)
      case Some(k) => Some(k + 1)
      case None => None
  }

  /** `Find` reports the first occurrence, and `None` only when there is none. */
  lemma {:induction false} FindIsFirst(s: string, t: string)
    ensures Find(s, t).Some? ==> forall j :: 0 <= j < Find(s, t).value ==> !(t <= s[j..])
    ensures Find(s, t).None? ==> forall j :: 0 <= j <= |s| ==> !(t <= s[j..])
    decreases |s|
  {
    if !(t <= s) && s != [] {
      FindIsFirst(s[1..], t);
      assert forall j :: 1 <= j <= |s| ==> s[j..] == s[1..][j - 1..];
    }
  }

  /** Python's `t in s` for strings. */
  predicate Contains(s: string, t: string) {
    Find(s, t).Some?
  }

  // ---------------------------------------------------------------------------
  // ASCII case mapping (Python's `lower()`/`upper()` on the letters that matter here)

  function LowerChar(c: char): char {
    if 'A' <= c <= 'Z' then (c as int + 32) as char else c
  }

  function UpperChar(c: char): char {
    if 'a' <= c <= 'z' then (c as int - 32) as char else c
  }

  function Lower(s: string): (r: string)
    ensures |r| == |s|
  {
    seq(|s|, k requires 0 <= k < |s| => LowerChar(s[k]))
  }

  function Upper(s: string): (r: string)
    ensures |r| == |s|
  {
    seq(|s|, k requires 0 <= k < |s| => UpperChar(s[k]))
  }

  // ---------------------------------------------------------------------------
  // Decimal numbers (Python's `str(n)` / f-string `{n}` and `int(s)`)

  function DigitChar(d: nat): (c: char)
    requires d < 10
    ensures IsDigit(c) && c as int - '0' as int == d
  {
    ('0' as int + d) as char
  }

  /** The decimal rendering of `n`, without sign or leading zeros. */
  function NatToString(n: nat): (s: string)
    ensures s != [] && AllDigits(s)
    ensures s[0] == '0' ==> n == 0
  {
    if n < 10 then [DigitChar(n)] else NatToString(n / 10) + [DigitChar(n % 10)]
  }

  /** The value of a string of decimal digits. */
  function DigitsValue(s: string): nat
    requires AllDigits(s)
  {
    if s == [] then 0 else DigitsValue(s[..|s| - 1]) * 10 + (s[|s| - 1] as int - '0' as int)
  }

  /** Reading back the decimal rendering of `n` gives `n`. */
  lemma {:induction false} DigitsValueOfNatToString(n: nat)
    ensures DigitsValue(NatToString(n)) == n
  {
    if n >= 10 {
      var s := NatToString(n);
      assert s[..|s| - 1] == NatToString(n / 10);
      DigitsValueOfNatToString(n / 10);
    }
  }

  /** Python's `int(s)` on a string: surrounding whitespace, an optional sign and at
      least one ASCII digit; `None` where Python raises `ValueError`. */
  function ParseInt(s: string): (r: Option<int>)
    ensures r.Some? ==> PyStrip(s) != []
  {
    var t := PyStrip(s);
    if t == [] then None
    else
      var digits := if t[0] == '-' || t[0] == '+' then t[1..] else t;
      if digits == [] || !AllDigits(digits) then None
      else if t[0] == '-' then Some(-(DigitsValue(digits) as int))
      else Some(DigitsValue(digits))
  }

  /** `int(str(n)) == n`. */
  lemma ParseIntOfNatToString(n: nat)
    ensures ParseInt(NatToString(n)) == Some(n)
  {
    var s := NatToString(n);
    assert !IsPySpace(s[0]) && !IsPySpace(s[|s| - 1]);
    TrimmedIsFixed(s, PySpace);
    DigitsValueOfNatToString(n);
  }
}
