/**
 * The parts of the JavaScript string library the lyrics code relies on:
 * character classes of its regular expressions, `trim`, `split` on a
 * character or on a line-break pattern, `join`, `padStart`, `parseInt` on a
 * run of digits and `Number.prototype.toString` on a natural number.
 */
module Strings {

  /** `\d` in a regular expression without the `u` flag: ASCII digits only. */
  predicate IsDigit(c: char) {
    '0' <= c <= '9'
  }

  predicate AllDigits(s: string) {
    forall i :: 0 <= i < |s| ==> IsDigit(s[i])
  }

  /** The characters that `.` in a regular expression does not match. */
  predicate IsLineTerminator(c: char) {
    c == '\n' || c == '\r' || c == '\U{2028}' || c == '\U{2029}'
  }

  /** ECMAScript WhiteSpace and LineTerminator: what `trim` removes and `\s` matches. */
  predicate IsWhite(c: char) {
    || IsLineTerminator(c)
    || c == ' ' || c == '\t' || c == '\U{B}' || c == '\U{C}'
    || c == '\U{A0}' || c == '\U{FEFF}' || c == '\U{1680}'
    || ('\U{2000}' <= c <= '\U{200A}')
    || c == '\U{202F}' || c == '\U{205F}' || c == '\U{3000}'
  }

  /** A string made of white space only (the empty string included). */
  predicate Blank(s: string) {
    forall i :: 0 <= i < |s| ==> IsWhite(s[i])
  }

  // ---------------------------------------------------------------- trim

  function TrimStart(s: string): (r: string)
    ensures |r| <= |s| && r == s[|s| - |r|..]
    ensures forall i :: 0 <= i < |s| - |r| ==> IsWhite(s[i])
    ensures r == [] || !IsWhite(r[0])
  {
    if s != [] && IsWhite(s[0]) then TrimStart(s[1..]) else s
  }

  function TrimEnd(s: string): (r: string)
    ensures |r| <= |s| && r == s[..|r|]
    ensures forall i :: |r| <= i < |s| ==> IsWhite(s[i])
    ensures r == [] || !IsWhite(r[|r| - 1])
  {
    if s != [] && IsWhite(s[|s| - 1]) then TrimEnd(s[..|s| - 1]) else s
  }

  /** `String.prototype.trim`. */
  function Trim(s: string): string {
    TrimEnd(TrimStart(s))
  }

  /** `trim` yields the empty string exactly for blank input, and never leaves white space at either end. */
  lemma TrimShape(s: string)
    ensures Trim(s) == [] <==> Blank(s)
    ensures Trim(s) == [] || (!IsWhite(Trim(s)[0]) && !IsWhite(Trim(s)[|Trim(s)| - 1]))
  {
    var a := TrimStart(s);
    if Trim(s) == [] {
      assert a == [];
    } else {
      assert Trim(s)[0] == a[0];
    }
  }

  /** `trim` skips a leading white-space character. */
  lemma TrimDropsWhite(s: string)
    requires s != [] && IsWhite(s[0])
    ensures Trim(s) == Trim(s[1..])
  {
  }

  /** Text already free of white space at both ends is left alone by `trim`. */
  lemma TrimTrimmed(s: string)
    requires s == [] || (!IsWhite(s[0]) && !IsWhite(s[|s| - 1]))
    ensures Trim(s) == s
  {
  }

  /** A piece of a string found at `a` inside `s` is the same piece of `s`. */
  lemma Within(s: string, a: nat, t: string, i: nat, j: nat)
    requires a + |t| <= |s| && s[a..a + |t|] == t && i <= j <= |t|
    ensures s[a + i..a + j] == t[i..j]
  {
    forall k | 0 <= k < j - i ensures s[a + i..a + j][k] == t[i..j][k] {
      assert s[a..a + |t|][i + k] == s[a + i + k];
    }
  }

  // ---------------------------------------------------------------- sequences

  /** A sequence is what comes before index `i`, the element there, and what comes after. */
  lemma Around<T>(s: seq<T>, i: nat)
    requires i < |s|
    ensures s == s[..i] + [s[i]] + s[i + 1..]
  {
  }

  /** A non-empty sequence is its front followed by its last element. */
  lemma Snoc<T>(s: seq<T>)
    requires s != []
    ensures s == s[..|s| - 1] + [s[|s| - 1]]
  {
  }

  /** Concatenation is associative. */
  lemma Assoc<T>(a: seq<T>, b: seq<T>, c: seq<T>)
    ensures (a + b) + c == a + (b + c)
  {
  }

  // ---------------------------------------------------------------- split and join

  /** `Array.prototype.join`. */
  function Join(parts: seq<string>, sep: string): string {
    if |parts| == 0 then ""
    else if |parts| == 1 then parts[0]
    else parts[0] + sep + Join(parts[1..], sep)
  }

  function IndexOf(s: string, c: char): (i: nat)
    requires c in s
    ensures i < |s| && s[i] == c && c !in s[..i]
  {
    if s[0] == c then 0 else 1 + IndexOf(s[1..], c)
  }

  /** `String.prototype.split` with a one-character separator. */
  function Split(s: string, sep: char): (parts: seq<string>)
    ensures |parts| >= 1
    ensures forall i :: 0 <= i < |parts| ==> sep !in parts[i]
    ensures Join(parts, [sep]) == s
    decreases |s|
  {
    if sep !in s then [s]
    else
      var i := IndexOf(s, sep);
      var rest := Split(s[i + 1..], sep);
      assert s == s[..i] + [sep] + s[i + 1..];
      [s[..i]] + rest
  }

  /** Splitting what was joined recovers the parts, when no part holds the separator. */
  lemma {:induction false} SplitJoin(parts: seq<string>, sep: char)
    requires |parts| >= 1
    requires forall i :: 0 <= i < |parts| ==> sep !in parts[i]
    ensures Split(Join(parts, [sep]), sep) == parts
    decreases |parts|
  {
    if |parts| > 1 {
      var s := Join(parts, [sep]);
      var p0 := parts[0];
      assert s == p0 + [sep] + Join(parts[1..], [sep]);
      assert s[|p0|] == sep;
      assert s[..|p0|] == p0;
      assert sep in s;
      assert IndexOf(s, sep) == |p0|;
      assert s[|p0| + 1..] == Join(parts[1..], [sep]);
      SplitJoin(parts[1..], sep);
    }
  }

  /** The two line-break patterns given to `split`: `\r?\n` and `\r?\n\r?\n`. */
  datatype Breaks = LineBreak | BlankLine

  /** Length of the `\r?\n` that starts at `q`, or 0 when none does. */
  function BreakAt(s: string, q: nat): (n: nat)
    ensures n > 0 ==> q + n <= |s| && s[q + n - 1] == '\n'
  {
    if q < |s| && s[q] == '\n' then 1
    else if q + 1 < |s| && s[q] == '\r' && s[q + 1] == '\n' then 2
    else 0
  }

  /** Length of the separator that starts at `q`, or 0 when none does. */
  function SeparatorAt(b: Breaks, s: string, q: nat): (n: nat)
    ensures n > 0 ==> q + n <= |s|
  {
    match b
    case LineBreak => BreakAt(s, q)
    case BlankLine =>
      var a := BreakAt(s, q);
      if a > 0 && BreakAt(s, q + a) > 0 then a + BreakAt(s, q + a) else 0
  }

  /**
   * The pieces of `s[p..]` between separators: the regular-expression form of
   * `split`, which looks for the leftmost separator from the start of the
   * current piece and resumes after it.
   */
  function SplitFrom(b: Breaks, s: string, p: nat, q: nat): (parts: seq<string>)
    requires p <= q <= |s|
    ensures |parts| >= 1
    decreases |s| - q
  {
    if q == |s| then [s[p..]]
    else
      var n := SeparatorAt(b, s, q);
      if n == 0 then SplitFrom(b, s, p, q + 1)
      else [s[p..q]] + SplitFrom(b, s, q + n, q + n)
  }

  /** `s.split(/\r?\n/)` or `s.split(/\r?\n\r?\n/)`. */
  function SplitBy(b: Breaks, s: string): seq<string> {
    SplitFrom(b, s, 0, 0)
  }

  // ---------------------------------------------------------------- numbers

  function DigitValue(c: char): nat
    requires IsDigit(c)
  {
    (c as int - '0' as int) as nat
  }

  function DigitChar(d: nat): (c: char)
    requires d < 10
    ensures IsDigit(c) && DigitValue(c) == d
  {
    ('0' as int + d) as char
  }

  /** `parseInt` of a run of decimal digits. */
  function Value(ds: string): nat
    requires AllDigits(ds)
  {
    if ds == [] then 0 else Value(ds[..|ds| - 1]) * 10 + DigitValue(ds[|ds| - 1])
  }

  /** `n.toString()` for a natural number: decimal digits, no leading zero. */
  function Decimal(n: nat): (r: string)
    ensures AllDigits(r) && |r| >= 1
    ensures |r| > 1 ==> r[0] != '0'
  {
    if n < 10 then [DigitChar(n)] else Decimal(n / 10) + [DigitChar(n % 10)]
  }

  /** Reading back a rendered number gives the number. */
  lemma {:induction false} DecimalValue(n: nat)
    ensures Value(Decimal(n)) == n
  {
    if n >= 10 {
      DecimalValue(n / 10);
      var r := Decimal(n);
      assert r[..|r| - 1] == Decimal(n / 10);
    }
  }

  function Repeat(c: char, k: nat): (r: string)
    ensures |r| == k && forall i :: 0 <= i < k ==> r[i] == c
  {
    if k == 0 then "" else [c] + Repeat(c, k - 1)
  }

  /** `s.padStart(width, c)`. */
  function PadStart(s: string, width: nat, c: char): string {
    if |s| >= width then s else Repeat(c, width - |s|) + s
  }

  /** Padding reaches the width, keeps `s` at the end and fills the front with `c`. */
  lemma PadStartShape(s: string, width: nat, c: char)
    ensures var r := PadStart(s, width, c);
      && |r| == (if |s| >= width then |s| else width)
      && r[|r| - |s|..] == s
      && forall i :: 0 <= i < |r| - |s| ==> r[i] == c
  {
    var r := PadStart(s, width, c);
    if |s| < width {
      assert r[|r| - |s|..] == s;
    }
  }

  /** Leading zeros do not change the value `parseInt` reads. */
  lemma {:induction false} LeadingZeros(ds: string, k: nat)
    requires AllDigits(ds)
    ensures AllDigits(Repeat('0', k) + ds)
    ensures Value(Repeat('0', k) + ds) == Value(ds)
    decreases |ds|
  {
    var z := Repeat('0', k) + ds;
    if ds == [] {
      assert z == Repeat('0', k);
      ZerosValue(k);
    } else {
      var init := ds[..|ds| - 1];
      assert z[..|z| - 1] == Repeat('0', k) + init;
      LeadingZeros(init, k);
    }
  }

  lemma {:induction false} ZerosValue(k: nat)
    ensures AllDigits(Repeat('0', k)) && Value(Repeat('0', k)) == 0
  {
    if k > 0 {
      var z := Repeat('0', k);
      assert z[..k - 1] == Repeat('0', k - 1);
      ZerosValue(k - 1);
    }
  }

  /** A zero-padded rendering of `n` still reads back as `n`. */
  lemma PaddedValue(n: nat, width: nat)
    ensures AllDigits(PadStart(Decimal(n), width, '0'))
    ensures Value(PadStart(Decimal(n), width, '0')) == n
  {
    var d := Decimal(n);
    DecimalValue(n);
    if |d| < width {
      LeadingZeros(d, width - |d|);
    }
  }

  /** Concatenation of `line + "\n"` over the lines, as a string accumulator builds it. */
  function Terminated(lines: seq<string>): string {
    if lines == [] then "" else Terminated(lines[..|lines| - 1]) + lines[|lines| - 1] + "\n"
  }

  /** Appending a line appends that line and its break. */
  lemma TerminatedSnoc(lines: seq<string>, line: string)
    ensures Terminated(lines + [line]) == Terminated(lines) + line + "\n"
  {
    assert (lines + [line])[..|lines|] == lines;
  }
}
