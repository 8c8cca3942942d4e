/**
 * The few PHP string primitives the overrider relies on: truthiness of a
 * string, `implode`, decimal rendering of integers, and the cutting helpers
 * the parsers in the other modules are built from.
 */
module PhpText {
  import opened Wrappers

  /** PHP's truthiness of a string: `''` and `'0'` are the only falsy strings. */
  predicate Truthy(s: string) {
    s != "" && s != "0"
  }

  /** `implode(sep, xs)`. */
  function Join(xs: seq<string>, sep: string): string
    decreases |xs|
  {
    if |xs| == 0 then ""
    else if |xs| == 1 then xs[0]
    else xs[0] + sep + Join(xs[1..], sep)
  }

  /** `implode` starts with its first piece. */
  lemma JoinHead(xs: seq<string>, sep: string)
    requires |xs| > 0
    ensures xs[0] <= Join(xs, sep)
  {
    if |xs| > 1 { assert Join(xs, sep) == xs[0] + (sep + Join(xs[1..], sep)); }
  }

  /** Every character of `s` satisfies `P`. */
  predicate AllChars(s: string, P: char -> bool) {
    forall k :: 0 <= k < |s| ==> P(s[k])
  }

  lemma AllCharsConcat(a: string, b: string, P: char -> bool)
    requires AllChars(a, P) && AllChars(b, P)
    ensures AllChars(a + b, P)
  {
    forall k | 0 <= k < |a + b| ensures P((a + b)[k]) {
      if k >= |a| { assert (a + b)[k] == b[k - |a|]; }
    }
  }

  lemma {:induction false} AllCharsJoin(xs: seq<string>, sep: string, P: char -> bool)
    requires AllChars(sep, P)
    requires forall i :: 0 <= i < |xs| ==> AllChars(xs[i], P)
    ensures AllChars(Join(xs, sep), P)
    decreases |xs|
  {
    if |xs| > 1 {
      AllCharsJoin(xs[1..], sep, P);
      AllCharsConcat(xs[0], sep, P);
      AllCharsConcat(xs[0] + sep, Join(xs[1..], sep), P);
    }
  }

  lemma AllCharsImplies(s: string, P: char -> bool, Q: char -> bool)
    requires AllChars(s, P)
    requires forall c :: P(c) ==> Q(c)
    ensures AllChars(s, Q)
  {
  }

  lemma NotInAllChars(s: string, P: char -> bool, c: char)
    requires AllChars(s, P) && !P(c)
    ensures c !in s
  {
  }

  /** A character of a PHP identifier (letters, digits, `_`, bytes from 0x80). */
  predicate IdentChar(c: char) {
    ('a' <= c <= 'z') || ('A' <= c <= 'Z') || ('0' <= c <= '9') || c == '_' || c as int >= 0x80
  }

  /** A PHP label: a non-empty run of identifier characters not starting with a digit. */
  predicate IsIdentifier(s: string) {
    |s| > 0 && !('0' <= s[0] <= '9') && AllChars(s, IdentChar)
  }

  /** A type name as reflection reports it: identifier characters and namespace separators. */
  predicate IsTypeName(s: string) {
    |s| > 0 && AllChars(s, c => IdentChar(c) || c == '\\')
  }

  // ---------------------------------------------------------------------
  // Decimal rendering of integers (string interpolation of an `int`)
  // ---------------------------------------------------------------------

  predicate IsDigit(c: char) {
    '0' <= c <= '9'
  }

  function DigitChar(d: nat): (c: char)
    requires d < 10
    ensures IsDigit(c)
  {
    ('0' as int + d) as char
  }

  /** The decimal text PHP produces for a non-negative integer. */
  function NatToDecimal(n: nat): (r: string)
    ensures |r| > 0 && AllChars(r, IsDigit)
  {
    if n < 10 then [DigitChar(n)]
    else NatToDecimal(n / 10) + [DigitChar(n % 10)]
  }

  /** The value of a run of decimal digits. */
  function DecimalValue(s: string): nat
    requires AllChars(s, IsDigit)
  {
    if s == [] then 0
    else 10 * DecimalValue(s[..|s| - 1]) + (s[|s| - 1] as int - '0' as int)
  }

  /** Reads a non-empty run of decimal digits. */
  function ParseNat(s: string): Option<nat> {
    if s != [] && AllChars(s, IsDigit) then Some(DecimalValue(s)) else None
  }

  /** Decimal rendering is undone by decimal reading: distinct numbers give distinct texts. */
  lemma {:induction false} NatDecimalRoundTrip(n: nat)
    ensures ParseNat(NatToDecimal(n)) == Some(n)
    decreases n
  {
    var s := NatToDecimal(n);
    if n >= 10 {
      NatDecimalRoundTrip(n / 10);
      assert s[..|s| - 1] == NatToDecimal(n / 10);
      assert DecimalValue(s) == 10 * (n / 10) + n % 10;
    }
  }

  // ---------------------------------------------------------------------
  // Cutting helpers
  // ---------------------------------------------------------------------

  /** Splits `s` at the first occurrence of `c`, dropping `c`. */
  function CutFirst(s: string, c: char): Option<(string, string)>
    decreases |s|
  {
    if s == [] then None
    else if s[0] == c then Some(([], s[1..]))
    else match CutFirst(s[1..], c)
      case None => None
      case Some(p) => Some(([s[0]] + p.0, p.1))
  }

  lemma {:induction false} CutFirstAt(x: string, c: char, y: string)
    requires c !in x
    ensures CutFirst(x + [c] + y, c) == Some((x, y))
    decreases |x|
  {
    var s := x + [c] + y;
    if x == [] {
      assert s[1..] == y;
    } else {
      assert s[1..] == x[1..] + [c] + y;
      CutFirstAt(x[1..], c, y);
      assert [x[0]] + x[1..] == x;
    }
  }

  lemma {:induction false} CutFirstAbsent(s: string, c: char)
    requires c !in s
    ensures CutFirst(s, c) == None
    decreases |s|
  {
    if s != [] { assert s[0] != c; CutFirstAbsent(s[1..], c); }
  }

  /** Splits `s` at the last occurrence of `c`, dropping `c`. */
  function CutLast(s: string, c: char): Option<(string, string)>
    decreases |s|
  {
    if s == [] then None
    else if s[|s| - 1] == c then Some((s[..|s| - 1], []))
    else match CutLast(s[..|s| - 1], c)
      case None => None
      case Some(p) => Some((p.0, p.1 + [s[|s| - 1]]))
  }

  lemma {:induction false} CutLastAt(x: string, c: char, y: string)
    requires c !in y
    ensures CutLast(x + [c] + y, c) == Some((x, y))
    decreases |y|
  {
    var s := x + [c] + y;
    if y == [] {
      assert s[..|s| - 1] == x;
    } else {
      var y' := y[..|y| - 1];
      assert s[..|s| - 1] == x + [c] + y';
      CutLastAt(x, c, y');
      assert y' + [y[|y| - 1]] == y;
    }
  }

  /** `s` without the leading `p`, if `s` starts with `p`. */
  function StripPrefix(s: string, p: string): Option<string> {
    if p <= s then Some(s[|p|..]) else None
  }

  lemma StripPrefixAt(p: string, y: string)
    ensures StripPrefix(p + y, p) == Some(y)
  {
    assert (p + y)[..|p|] == p;
    assert (p + y)[|p|..] == y;
  }

  /** `s` without the trailing `p`, if `s` ends with `p`. */
  function StripSuffix(s: string, p: string): Option<string> {
    if |p| <= |s| && s[|s| - |p|..] == p then Some(s[..|s| - |p|]) else None
  }

  lemma StripSuffixAt(x: string, p: string)
    ensures StripSuffix(x + p, p) == Some(x)
  {
    assert (x + p)[|x|..] == p;
    assert (x + p)[..|x|] == x;
  }
}
