/**
 * Default values of parameters and the PHP literal text `var_export($v, true)`
 * produces for them, with a reader of that text (the value PHP gets back when
 * it parses the literal).
 */
module VarExport {
  import opened Wrappers
  import opened PhpText

  /** PHP integers are 64-bit. */
  newtype int64 = x: int | -0x8000_0000_0000_0000 <= x < 0x8000_0000_0000_0000

  const INT64_MIN: int64 := -0x8000_0000_0000_0000

  /**
   * The most negative integer is not a literal PHP can read back as an int
   * (its magnitude overflows to float), so var_export writes it as a subtraction.
   */
  const MinIntLiteral := "-9223372036854775807-1"

  /** The scalar default values the model renders. */
  datatype Scalar = Null | Bool(b: bool) | Int(i: int64) | Str(s: string)

  /** The piece var_export writes for a NUL byte inside a single-quoted string. */
  const NulPiece := "' . \"\\0\" . '"

  /** How var_export writes one character inside a single-quoted string. */
  function EscapeChar(c: char): string {
    if c == '\'' then "\\'"
    else if c == '\\' then "\\\\"
    else if c == '\0' then NulPiece
    else [c]
  }

  function Escape(s: string): string {
    if s == [] then [] else EscapeChar(s[0]) + Escape(s[1..])
  }

  /** How PHP reads back the body of a single-quoted literal written by var_export. */
  function Unescape(t: string): string
    decreases |t|
  {
    if t == [] then []
    else if |t| >= 2 && t[0] == '\\' && (t[1] == '\'' || t[1] == '\\') then [t[1]] + Unescape(t[2..])
    else if NulPiece <= t then ['\0'] + Unescape(t[|NulPiece|..])
    else [t[0]] + Unescape(t[1..])
  }

  function IntLiteral(i: int64): string {
    if i == INT64_MIN then MinIntLiteral
    else if i < 0 then "-" + NatToDecimal(-i as int)
    else NatToDecimal(i as int)
  }

  /** `var_export($v, true)`. */
  function Export(v: Scalar): string {
    match v
    case Null => "NULL"
    case Bool(b) => if b then "true" else "false"
    case Int(i) => IntLiteral(i)
    case Str(s) => "'" + Escape(s) + "'"
  }

  /** The value PHP reads from a literal of the forms above (`null` in either case). */
  function Decode(t: string): Option<Scalar> {
    if t == "NULL" || t == "null" then Some(Null)
    else if t == "true" then Some(Bool(true))
    else if t == "false" then Some(Bool(false))
    else if t == MinIntLiteral then Some(Int(INT64_MIN))
    else if |t| >= 2 && t[0] == '\'' && t[|t| - 1] == '\'' then Some(Str(Unescape(t[1..|t| - 1])))
    else if |t| >= 1 && t[0] == '-' then
      match ParseNat(t[1..])
      case Some(n) => if n < 0x8000_0000_0000_0000 then Some(Int((-(n as int)) as int64)) else None
      case None => None
    else
      match ParseNat(t)
      case Some(n) => if n < 0x8000_0000_0000_0000 then Some(Int(n as int64)) else None
      case None => None
  }

  lemma {:induction false} UnescapeEscape(s: string)
    ensures Unescape(Escape(s)) == s
    decreases |s|
  {
    if s != [] {
      var c, rest := s[0], Escape(s[1..]);
      var t := EscapeChar(c) + rest;
      UnescapeEscape(s[1..]);
      if c == '\'' || c == '\\' {
        assert t[2..] == rest;
      } else if c == '\0' {
        assert NulPiece <= t;
        assert t[|NulPiece|..] == rest;
      } else {
        assert t[0] == c && t[1..] == rest;
        assert !(NulPiece <= t) by { assert NulPiece[0] == '\''; }
      }
      assert [c] + s[1..] == s;
    }
  }

  /** A minus sign followed by the digits of `n` reads back as `-n`. */
  lemma DecodeNegative(d: string, n: nat)
    requires ParseNat(d) == Some(n) && n < 0x8000_0000_0000_0000
    ensures Decode("-" + d) == Some(Int((-(n as int)) as int64))
  {
    var t := "-" + d;
    assert t[0] == '-' && t[1..] == d;
    assert t != "NULL" && t != "null" && t != "true" && t != "false" && t[0] != '\'';
    assert t != MinIntLiteral by {
      assert MinIntLiteral[20] == '-';
      if |t| == |MinIntLiteral| { assert t[20] == d[19] && IsDigit(d[19]); }
    }
  }

  lemma NegativeLiteralRoundTrip(i: int64)
    requires INT64_MIN < i < 0
    ensures Decode(IntLiteral(i)) == Some(Int(i))
  {
    var d := NatToDecimal(-i as int);
    assert IntLiteral(i) == "-" + d;
    NatDecimalRoundTrip(-i as int);
    DecodeNegative(d, -i as int);
  }

  lemma NonNegativeLiteralRoundTrip(i: int64)
    requires 0 <= i
    ensures Decode(IntLiteral(i)) == Some(Int(i))
  {
    var t := IntLiteral(i);
    NatDecimalRoundTrip(i as int);
    assert IsDigit(t[0]);
    assert t != MinIntLiteral && t != "NULL" && t != "null" && t != "true" && t != "false" by {
      assert MinIntLiteral[0] == '-';
    }
  }

  /** Every 64-bit integer, including the most negative one, reads back as itself. */
  lemma IntLiteralRoundTrip(i: int64)
    ensures Decode(IntLiteral(i)) == Some(Int(i))
  {
    if i == INT64_MIN {
    } else if i < 0 {
      NegativeLiteralRoundTrip(i);
    } else {
      NonNegativeLiteralRoundTrip(i);
    }
  }

  /** Whatever scalar a parameter declares, PHP reads back that same value from var_export's text. */
  lemma ExportRoundTrip(v: Scalar)
    ensures Decode(Export(v)) == Some(v)
  {
    match v
    case Null =>
    case Bool(b) =>
    case Int(i) => IntLiteralRoundTrip(i);
    case Str(s) =>
      var t := Export(v);
      UnescapeEscape(s);
      assert t[1..|t| - 1] == Escape(s);
  }
}
