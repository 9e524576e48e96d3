/**
 * Text helpers shared by the diff engine: Go's `strings.TrimSpace` on ASCII
 * text, `strings.Split(s, "\n")` and its inverse, the decimal rendering used
 * by `%d`, Go's truncating integer division and the engine's own `max`.
 */
module Text {

  /** The ASCII characters Go's `unicode.IsSpace` accepts. */
  predicate IsSpace(c: char) {
    c == ' ' || c == '\t' || c == '\n' || c == '\r' || c == '\U{000B}' || c == '\U{000C}'
  }

  /** `s` with its leading white space removed. */
  function TrimLeft(s: string): (r: string)
    ensures |r| <= |s| && r == s[|s| - |r|..]
    ensures r == [] || !IsSpace(r[0])
    ensures forall i :: 0 <= i < |s| - |r| ==> IsSpace(s[i])
  {
    if |s| > 0 && IsSpace(s[0]) then TrimLeft(s[1..]) else s
  }

  /** `s` with its trailing white space removed. */
  function TrimRight(s: string): (r: string)
    ensures |r| <= |s| && r == s[..|r|]
    ensures r == [] || !IsSpace(r[|r| - 1])
    ensures forall i :: |r| <= i < |s| ==> IsSpace(s[i])
  {
    if |s| > 0 && IsSpace(s[|s| - 1]) then TrimRight(s[..|s| - 1]) else s
  }

  /** The number of white-space characters `s` starts with. */
  function LeadingSpaces(s: string): (r: nat) {
    |s| - |TrimLeft(s)|
  }

  /**
   * `strings.TrimSpace` on ASCII text: the longest infix of `s` that neither
   * starts nor ends with white space, everything cut off being white space.
   */
  function TrimSpace(s: string): (r: string)
    ensures LeadingSpaces(s) + |r| <= |s|
    ensures r == s[LeadingSpaces(s)..LeadingSpaces(s) + |r|]
    ensures forall i :: 0 <= i < LeadingSpaces(s) ==> IsSpace(s[i])
    ensures forall i :: LeadingSpaces(s) + |r| <= i < |s| ==> IsSpace(s[i])
    ensures r == [] || (!IsSpace(r[0]) && !IsSpace(r[|r| - 1]))
  {
    var l := TrimLeft(s);
    var r := TrimRight(l);
    var lo := |s| - |l|;
    assert r == s[lo..lo + |r|];
    r
  }

  lemma TrimSpaceIdempotent(s: string)
    ensures TrimSpace(TrimSpace(s)) == TrimSpace(s)
  {
    var t := TrimSpace(s);
    assert TrimLeft(t) == t;
    assert TrimRight(t) == t;
  }

  /** A string made of white space only trims to the empty string. */
  lemma TrimSpaceBlank(s: string)
    requires forall i :: 0 <= i < |s| ==> IsSpace(s[i])
    ensures TrimSpace(s) == []
  {
  }

  /** Index of the first `c` in `s`. */
  function FirstIndex(s: string, c: char): (i: nat)
    requires c in s
    ensures i < |s| && s[i] == c && c !in s[..i]
  {
    if s[0] == c then 0 else FirstIndex(s[1..], c) + 1
  }

  /** `strings.Split(s, "\n")`: the pieces between line breaks (at least one). */
  function SplitLines(s: string): (r: seq<string>)
    ensures |r| >= 1
    ensures forall k :: 0 <= k < |r| ==> '\n' !in r[k]
    decreases |s|
  {
    if '\n' in s then
      var i := FirstIndex(s, '\n');
      [s[..i]] + SplitLines(s[i + 1..])
    else
      [s]
  }

  /** `strings.Join(lines, "\n")`. */
  function JoinLines(lines: seq<string>): (r: string) {
    if |lines| == 0 then ""
    else if |lines| == 1 then lines[0]
    else lines[0] + "\n" + JoinLines(lines[1..])
  }

  lemma {:induction false} JoinSplit(s: string)
    ensures JoinLines(SplitLines(s)) == s
    decreases |s|
  {
    if '\n' in s {
      var i := FirstIndex(s, '\n');
      var rest := SplitLines(s[i + 1..]);
      JoinSplit(s[i + 1..]);
      JoinCons(s[..i], rest);
      CutAt(s, i);
    }
  }

  lemma JoinCons(x: string, rest: seq<string>)
    requires |rest| >= 1
    ensures JoinLines([x] + rest) == x + "\n" + JoinLines(rest)
  {
    assert ([x] + rest)[1..] == rest;
  }

  lemma CutAt(s: string, i: nat)
    requires i < |s| && s[i] == '\n'
    ensures s == s[..i] + "\n" + s[i + 1..]
  {
  }

  lemma {:induction false} SplitJoin(lines: seq<string>)
    requires |lines| >= 1
    requires forall k :: 0 <= k < |lines| ==> '\n' !in lines[k]
    ensures SplitLines(JoinLines(lines)) == lines
  {
    if |lines| > 1 {
      SplitJoin(lines[1..]);
      var s := JoinLines(lines);
      assert s == lines[0] + "\n" + JoinLines(lines[1..]);
      assert s[|lines[0]|] == '\n';
      assert s[..|lines[0]|] == lines[0];
      var i := FirstIndex(s, '\n');
      assert s[i + 1..] == JoinLines(lines[1..]);
    }
  }

  predicate IsDigit(c: char) {
    '0' <= c <= '9'
  }

  /** The decimal rendering of `n` (Go's `%d`). */
  function DecimalString(n: nat): (s: string)
    ensures |s| >= 1
    ensures forall i :: 0 <= i < |s| ==> IsDigit(s[i])
    ensures s[0] == '0' ==> n == 0 && s == "0"
  {
    var d := [(n % 10) as char + '0'];
    if n < 10 then d else DecimalString(n / 10) + d
  }

  function DigitValue(c: char): (r: nat)
    requires IsDigit(c)
  {
    c as int - '0' as int
  }

  /** The value of a string of decimal digits. */
  function DecimalValue(s: string): (r: nat)
    requires forall i :: 0 <= i < |s| ==> IsDigit(s[i])
  {
    if |s| == 0 then 0
    else 10 * DecimalValue(s[..|s| - 1]) + DigitValue(s[|s| - 1])
  }

  lemma {:induction false} DecimalRoundTrip(n: nat)
    ensures DecimalValue(DecimalString(n)) == n
  {
    var s := DecimalString(n);
    if n >= 10 {
      DecimalRoundTrip(n / 10);
      assert s[..|s| - 1] == DecimalString(n / 10);
    }
  }

  /** Go's `/` on `int`: the quotient truncated toward zero. */
  function GoDiv(a: int, b: int): (q: int)
    requires b != 0
    ensures a >= 0 && b > 0 ==> q == a / b
    ensures (a >= 0) == (b > 0) || a == 0 ==> q >= 0
  {
    var ua := if a < 0 then -a else a;
    var ub := if b < 0 then -b else b;
    if (a < 0) == (b < 0) then ua / ub else -(ua / ub)
  }

  /** Scaling `y` by a fraction `x / m` of at most `f` keeps it within `[0, f * y]`. */
  lemma ScaleAtMost(x: int, y: nat, m: int, f: nat)
    requires 0 <= x <= f * m && m > 0
    ensures 0 <= x * y / m <= f * y
  {
    var q := x * y / m;
    assert q * m <= x * y;
    assert x * y <= f * m * y by {
      assert (f * m - x) * y >= 0;
    }
  }

  /** `ScaleAtMost` for Go's division. */
  lemma GoDivScaleAtMost(x: int, y: nat, m: int, f: nat)
    requires 0 <= x <= f * m && m > 0
    ensures 0 <= GoDiv(x * y, m) <= f * y
  {
    ScaleAtMost(x, y, m, f);
  }

  /** A scale of at least the divisor turns any positive `x` into a positive quotient. */
  lemma ScaleAtLeast(x: int, y: int, m: int)
    requires x >= 1 && y >= m && m > 0
    ensures x * y / m >= 1
  {
    assert x * y >= y by {
      assert (x - 1) * y >= 0;
    }
  }

  /** `ScaleAtLeast` for Go's division. */
  lemma GoDivScaleAtLeast(x: int, y: int, m: int)
    requires x >= 1 && y >= m && m > 0
    ensures GoDiv(x * y, m) >= 1
  {
    ScaleAtLeast(x, y, m);
  }

  /** The engine's own `max` (cmd/godiff.go). */
  function Max(a: int, b: int): (r: int)
    ensures r >= a && r >= b && (r == a || r == b)
  {
    if a > b then a else b
  }
}
