/**
 * Signature rendering: the text the overrider writes for a reflected
 * method's parameter list, for the bare names it forwards, and for its
 * return type, together with readers of that text that say what PHP will
 * declare when it parses the generated override.
 */
module Signature {
  import opened Wrappers
  import opened PhpText
  import opened VarExport

  /**
   * A parameter as reflection reports it: its name, the name of its declared
   * type (`getType()?->getName()`), `isOptional()`, and the default value when
   * `isDefaultValueAvailable()`.
   */
  datatype ParamSpec = ParamSpec(name: string, typeName: Option<string>, isOptional: bool, default: Option<Scalar>)

  /** A method as reflection reports it. */
  datatype MethodSpec = MethodSpec(name: string, params: seq<ParamSpec>, returnType: Option<string>)

  /** What a parameter declaration means to PHP: its type, its name, its default value. */
  datatype Declared = Declared(typeName: Option<string>, name: string, default: Option<Scalar>)

  /** A parameter (or return) type is written only when its name is truthy. */
  function WrittenType(t: Option<string>): Option<string> {
    if t.Some? && Truthy(t.value) then t else None
  }

  predicate WellFormedParam(p: ParamSpec) {
    IsIdentifier(p.name) && (p.typeName.Some? ==> IsTypeName(p.typeName.value))
  }

  predicate WellFormedParams(ps: seq<ParamSpec>) {
    forall i :: 0 <= i < |ps| ==> WellFormedParam(ps[i])
  }

  function Names(ps: seq<ParamSpec>): (r: seq<string>)
    ensures |r| == |ps| && forall i :: 0 <= i < |ps| ==> r[i] == ps[i].name
  {
    seq(|ps|, i requires 0 <= i < |ps| => ps[i].name)
  }

  /**
   * What the overridden method declares for each parameter of the original:
   * the same type and name; its default when it has one; `null` when it is
   * optional without an available default.
   */
  function Meaning(p: ParamSpec): Declared {
    Declared(WrittenType(p.typeName), p.name,
      if p.default.Some? then p.default else if p.isOptional then Some(Null) else None)
  }

  function Meanings(ps: seq<ParamSpec>): (r: seq<Option<Declared>>)
    ensures |r| == |ps| && forall i :: 0 <= i < |ps| ==> r[i] == Some(Meaning(ps[i]))
  {
    seq(|ps|, i requires 0 <= i < |ps| => Some(Meaning(ps[i])))
  }

  // ---------------------------------------------------------------------
  // Rendering
  // ---------------------------------------------------------------------

  /**
   * The default's text as MethodOverrider.php writes it: a string default is
   * first wrapped in single quotes and then exported, so the quotes become
   * part of the value.
   */
  function RenderDefaultAsWritten(v: Scalar): string {
    match v
    case Str(s) => Export(Str("'" + s + "'"))
    case _ => Export(v)
  }

  /** The default's text as intended: PHP reads back exactly the declared value. */
  function RenderDefault(v: Scalar): (r: string)
    ensures Decode(r) == Some(v)
  {
    ExportRoundTrip(v);
    Export(v)
  }

  function DefaultSuffix(p: ParamSpec): string {
    if p.default.Some? then " = " + RenderDefault(p.default.value)
    else if p.isOptional then " = null"
    else ""
  }

  /** One entry of the parameter list: `T $name` or `$name`, then the default suffix. */
  function RenderParam(p: ParamSpec): string {
    (if WrittenType(p.typeName).Some? then p.typeName.value + " $" + p.name else "$" + p.name)
      + DefaultSuffix(p)
  }

  function RenderedParams(ps: seq<ParamSpec>): seq<string> {
    seq(|ps|, i requires 0 <= i < |ps| => RenderParam(ps[i]))
  }

  /** `buildParameterList`. */
  function BuildParameterList(ps: seq<ParamSpec>): string {
    if ps == [] then "" else Join(RenderedParams(ps), ", ")
  }

  function DollarNames(ps: seq<ParamSpec>): seq<string> {
    seq(|ps|, i requires 0 <= i < |ps| => "$" + ps[i].name)
  }

  /**
   * `buildParameterNames`: empty exactly when there are no parameters, and
   * never `'0'`, so the source's extra `!== '0'` test never fires.
   */
  function BuildParameterNames(ps: seq<ParamSpec>): (r: string)
    ensures r == "" <==> ps == []
    ensures r != "0"
    ensures ps != [] ==> r[0] == '$'
  {
    if ps == [] then ""
    else
      JoinHead(DollarNames(ps), ", ");
      var r := Join(DollarNames(ps), ", ");
      assert r[0] == DollarNames(ps)[0][0] == '$';
      assert r != "0" by { assert "0"[0] == '0'; }
      r
  }

  /** The return-type part of `getMethodReturnType`: `': T'` when the type name is truthy. */
  function ReturnTypeDecl(rt: Option<string>): (r: string)
    ensures r == "" <==> WrittenType(rt).None?
  {
    if WrittenType(rt).Some? then ": " + rt.value else ""
  }

  // ---------------------------------------------------------------------
  // Reading lists back: a comma splits the list only outside quotes
  // ---------------------------------------------------------------------

  /** Where a PHP reader is: in code, in a single-quoted string, or just after a backslash in one. */
  datatype Lex = Code | Quoted | QuotedEscape

  function Step(q: Lex, c: char): Lex {
    match q
    case Code => if c == '\'' then Quoted else Code
    case Quoted => if c == '\\' then QuotedEscape else if c == '\'' then Code else Quoted
    case QuotedEscape => Quoted
  }

  function Run(q: Lex, x: string): Lex
    decreases |x|
  {
    if x == [] then q else Run(Step(q, x[0]), x[1..])
  }

  predicate NoTopComma(q: Lex, x: string)
    decreases |x|
  {
    x == [] || ((q == Code ==> x[0] != ',') && NoTopComma(Step(q, x[0]), x[1..]))
  }

  /** A list entry: balanced quotes and no comma outside them. */
  predicate Item(x: string) {
    Run(Code, x) == Code && NoTopComma(Code, x)
  }

  /** Splits at each `', '` outside quotes. */
  function SplitItems(s: string, q: Lex, acc: string): seq<string>
    decreases |s|
  {
    if s == [] then [acc]
    else if q == Code && |s| >= 2 && s[0] == ',' && s[1] == ' ' then [acc] + SplitItems(s[2..], Code, "")
    else SplitItems(s[1..], Step(q, s[0]), acc + [s[0]])
  }

  /** The entries of a comma-separated list (none for the empty text). */
  function SplitList(s: string): seq<string> {
    if s == "" then [] else SplitItems(s, Code, "")
  }

  /** What PHP declares for one entry of a parameter list. */
  function ParseParam(e: string): Option<Declared> {
    var cut :- CutFirst(e, '$');
    var typeName :- ParseTypePrefix(cut.0);
    ParseNameAndDefault(typeName, cut.1)
  }

  /** The text before `$`: nothing, or a type name and a space. */
  function ParseTypePrefix(pre: string): Option<Option<string>> {
    if pre == "" then Some(None)
    else
      var t :- StripSuffix(pre, " ");
      Some(Some(t))
  }

  /** The text after `$`: the name, then optionally `' = '` and a literal. */
  function ParseNameAndDefault(typeName: Option<string>, rest: string): Option<Declared> {
    match CutFirst(rest, ' ')
    case None => Some(Declared(typeName, rest, None))
    case Some(tail) =>
      var literal :- StripPrefix(tail.1, "= ");
      var v :- Decode(literal);
      Some(Declared(typeName, tail.0, Some(v)))
  }

  /** What PHP declares for each entry of a parameter list, in order. */
  function ParseParameterList(s: string): seq<Option<Declared>> {
    var items := SplitList(s);
    seq(|items|, i requires 0 <= i < |items| => ParseParam(items[i]))
  }

  function StripDollar(x: string): string {
    if |x| > 0 && x[0] == '$' then x[1..] else x
  }

  /** The variables named by a list of `$name` entries, in order. */
  function ParseParameterNames(s: string): seq<string> {
    var items := SplitList(s);
    seq(|items|, i requires 0 <= i < |items| => StripDollar(items[i]))
  }

  // ---------------------------------------------------------------------
  // Lemmas
  // ---------------------------------------------------------------------

  predicate Plain(c: char) {
    c != ',' && c != '\''
  }

  lemma {:induction false} RunConcat(q: Lex, a: string, b: string)
    ensures Run(q, a + b) == Run(Run(q, a), b)
    ensures NoTopComma(q, a + b) <==> NoTopComma(q, a) && NoTopComma(Run(q, a), b)
    decreases |a|
  {
    if a == [] {
      assert a + b == b;
    } else {
      assert (a + b)[0] == a[0] && (a + b)[1..] == a[1..] + b;
      RunConcat(Step(q, a[0]), a[1..], b);
    }
  }

  lemma ItemConcat(a: string, b: string)
    requires Item(a) && Item(b)
    ensures Item(a + b)
  {
    RunConcat(Code, a, b);
  }

  lemma {:induction false} PlainItem(x: string)
    requires AllChars(x, Plain)
    ensures Item(x)
    decreases |x|
  {
    if x != [] {
      assert AllChars(x[1..], Plain) by { forall k | 0 <= k < |x[1..]| ensures Plain(x[1..][k]) { assert x[1..][k] == x[k + 1]; } }
      PlainItem(x[1..]);
    }
  }

  /** A quoted run of plain characters, entered from and left to quoted state, keeps commas inside. */
  lemma ReopenedQuote(x: string)
    requires AllChars(x, Plain)
    ensures Run(Quoted, "'" + x + "'") == Quoted && NoTopComma(Quoted, "'" + x + "'")
  {
    PlainItem(x);
    RunConcat(Quoted, "'", x);
    RunConcat(Quoted, "'" + x, "'");
  }

  lemma NulPieceQuoted()
    ensures Run(Quoted, NulPiece) == Quoted && NoTopComma(Quoted, NulPiece)
  {
    var x := " . \"\\0\" . ";
    assert NulPiece == "'" + x + "'";
    assert AllChars(x, Plain);
    ReopenedQuote(x);
  }

  lemma EscapeCharQuoted(c: char)
    ensures Run(Quoted, EscapeChar(c)) == Quoted && NoTopComma(Quoted, EscapeChar(c))
  {
    if c == '\0' {
      NulPieceQuoted();
    } else if c == '\'' || c == '\\' {
      var e := EscapeChar(c);
      assert e == ['\\', c];
      assert Step(Quoted, e[0]) == QuotedEscape;
      assert e[1..] == [c];
      assert Run(QuotedEscape, [c]) == Quoted;
    } else {
      assert EscapeChar(c) == [c];
      assert Step(Quoted, c) == Quoted;
    }
  }

  /** Everything var_export writes inside a string literal stays inside it. */
  lemma {:induction false} EscapeQuoted(s: string)
    ensures Run(Quoted, Escape(s)) == Quoted && NoTopComma(Quoted, Escape(s))
    decreases |s|
  {
    if s != [] {
      EscapeCharQuoted(s[0]);
      EscapeQuoted(s[1..]);
      RunConcat(Quoted, EscapeChar(s[0]), Escape(s[1..]));
    }
  }

  lemma ExportItem(v: Scalar)
    ensures Item(Export(v))
  {
    match v
    case Null =>
      assert AllChars("NULL", Plain);
      PlainItem("NULL");
    case Bool(b) =>
      assert AllChars("true", Plain) && AllChars("false", Plain);
      PlainItem(if b then "true" else "false");
    case Int(i) =>
      var t := IntLiteral(i);
      if i == INT64_MIN {
        assert AllChars(t, Plain);
      } else if i < 0 {
        assert AllChars(t, Plain) by {
          forall k | 0 <= k < |t| ensures Plain(t[k]) {
            if k > 0 { assert t[k] == NatToDecimal(-i as int)[k - 1]; }
          }
        }
      } else {
        assert AllChars(t, Plain);
      }
      PlainItem(t);
    case Str(s) =>
      EscapeQuoted(s);
      RunConcat(Code, "'", Escape(s));
      RunConcat(Code, "'" + Escape(s), "'");
  }

  lemma IdentifierPlain(s: string)
    requires AllChars(s, c => IdentChar(c) || c == '\\')
    ensures AllChars(s, Plain)
  {
  }

  lemma RenderParamItem(p: ParamSpec)
    requires WellFormedParam(p)
    ensures Item(RenderParam(p))
  {
    var head := if WrittenType(p.typeName).Some? then p.typeName.value + " $" + p.name else "$" + p.name;
    assert AllChars(head, Plain) by {
      IdentifierPlain(p.name);
      if WrittenType(p.typeName).Some? {
        IdentifierPlain(p.typeName.value);
        AllCharsConcat(p.typeName.value, " $", Plain);
        AllCharsConcat(p.typeName.value + " $", p.name, Plain);
      } else {
        AllCharsConcat("$", p.name, Plain);
      }
    }
    PlainItem(head);
    if p.default.Some? {
      PlainItem(" = ");
      ExportItem(p.default.value);
      ItemConcat(" = ", Export(p.default.value));
      ItemConcat(head, DefaultSuffix(p));
    } else if p.isOptional {
      PlainItem(" = null");
      ItemConcat(head, DefaultSuffix(p));
    } else {
      assert RenderParam(p) == head;
    }
  }

  lemma {:induction false} SplitEnd(x: string, q: Lex, acc: string)
    requires NoTopComma(q, x)
    ensures SplitItems(x, q, acc) == [acc + x]
    decreases |x|
  {
    if x == [] {
      assert acc + x == acc;
    } else {
      assert q == Code ==> x[0] != ',';
      SplitEnd(x[1..], Step(q, x[0]), acc + [x[0]]);
      assert acc + [x[0]] + x[1..] == acc + x;
    }
  }

  lemma {:induction false} SplitThrough(x: string, q: Lex, acc: string, rest: string)
    requires NoTopComma(q, x) && Run(q, x) == Code
    ensures SplitItems(x + ", " + rest, q, acc) == [acc + x] + SplitItems(rest, Code, "")
    decreases |x|
  {
    var s := x + ", " + rest;
    if x == [] {
      assert q == Code;
      assert s[0] == ',' && s[1] == ' ' && s[2..] == rest;
      assert acc + x == acc;
    } else {
      assert q == Code ==> x[0] != ',';
      assert s[0] == x[0] && s[1..] == x[1..] + ", " + rest;
      SplitThrough(x[1..], Step(q, x[0]), acc + [x[0]], rest);
      assert acc + [x[0]] + x[1..] == acc + x;
    }
  }

  /** Splitting an `implode(', ', …)` of list entries gives the entries back. */
  lemma {:induction false} SplitJoin(xs: seq<string>)
    requires |xs| > 0
    requires forall i :: 0 <= i < |xs| ==> Item(xs[i])
    ensures SplitItems(Join(xs, ", "), Code, "") == xs
    decreases |xs|
  {
    if |xs| == 1 {
      SplitEnd(xs[0], Code, "");
      assert "" + xs[0] == xs[0];
      assert [xs[0]] == xs;
    } else {
      SplitJoin(xs[1..]);
      SplitThrough(xs[0], Code, "", Join(xs[1..], ", "));
      assert "" + xs[0] == xs[0];
      assert [xs[0]] + xs[1..] == xs;
    }
  }

  /** A name followed by `' = '` and a literal reads back as the name with the literal's value. */
  lemma NameWithDefault(typeName: Option<string>, name: string, literal: string, v: Scalar)
    requires ' ' !in name && Decode(literal) == Some(v)
    ensures ParseNameAndDefault(typeName, name + [' '] + ("= " + literal)) == Some(Declared(typeName, name, Some(v)))
  {
    CutFirstAt(name, ' ', "= " + literal);
    StripPrefixAt("= ", literal);
  }

  lemma NameAndDefaultRoundTrip(p: ParamSpec)
    requires WellFormedParam(p)
    ensures ParseNameAndDefault(WrittenType(p.typeName), p.name + DefaultSuffix(p)) == Some(Meaning(p))
  {
    var typeName := WrittenType(p.typeName);
    assert ' ' !in p.name by { assert AllChars(p.name, IdentChar); }
    if p.default.Some? {
      var literal := RenderDefault(p.default.value);
      assert p.name + DefaultSuffix(p) == p.name + [' '] + ("= " + literal);
      NameWithDefault(typeName, p.name, literal, p.default.value);
    } else if p.isOptional {
      assert p.name + DefaultSuffix(p) == p.name + [' '] + ("= " + "null");
      NameWithDefault(typeName, p.name, "null", Null);
    } else {
      assert p.name + DefaultSuffix(p) == p.name;
      CutFirstAbsent(p.name, ' ');
    }
  }

  /** A type name followed by a space contains no `$`. */
  lemma TypeNameNoDollar(t: string)
    requires IsTypeName(t)
    ensures '$' !in t + " "
  {
    forall k | 0 <= k < |t + " "| ensures (t + " ")[k] != '$' {
      if k < |t| { assert (t + " ")[k] == t[k]; }
    }
  }

  /** `T $name` followed by a suffix splits at `$` into the prefix `T ` and the rest. */
  lemma TypedPrefix(t: string, name: string, suffix: string)
    requires IsTypeName(t)
    ensures '$' !in t + " "
    ensures t + " $" + name + suffix == (t + " ") + ['$'] + (name + suffix)
    ensures ParseTypePrefix(t + " ") == Some(Some(t))
  {
    TypeNameNoDollar(t);
    StripSuffixAt(t, " ");
  }

  lemma TypePrefixRoundTrip(p: ParamSpec) returns (pre: string)
    requires WellFormedParam(p)
    ensures '$' !in pre
    ensures RenderParam(p) == pre + ['$'] + (p.name + DefaultSuffix(p))
    ensures ParseTypePrefix(pre) == Some(WrittenType(p.typeName))
  {
    var suffix := DefaultSuffix(p);
    if WrittenType(p.typeName).Some? {
      var t := p.typeName.value;
      pre := t + " ";
      TypedPrefix(t, p.name, suffix);
    } else {
      pre := "";
      assert "$" + p.name + suffix == pre + ['$'] + (p.name + suffix);
    }
  }

  /** The entry written for a parameter declares exactly what the original parameter means. */
  lemma ParseRenderParam(p: ParamSpec)
    requires WellFormedParam(p)
    ensures ParseParam(RenderParam(p)) == Some(Meaning(p))
  {
    var pre := TypePrefixRoundTrip(p);
    CutFirstAt(pre, '$', p.name + DefaultSuffix(p));
    NameAndDefaultRoundTrip(p);
  }

  /**
   * The overridden method's parameter list declares the original's
   * parameters, in order, each with its name, type and default.
   */
  lemma ParameterListRoundTrip(ps: seq<ParamSpec>)
    requires WellFormedParams(ps)
    ensures ParseParameterList(BuildParameterList(ps)) == Meanings(ps)
  {
    if ps != [] {
      var xs := RenderedParams(ps);
      forall i | 0 <= i < |xs| ensures Item(xs[i]) { RenderParamItem(ps[i]); }
      forall i | 0 <= i < |ps| ensures ParseParam(xs[i]) == Some(Meaning(ps[i])) { ParseRenderParam(ps[i]); }
      SplitJoin(xs);
      JoinHead(xs, ", ");
      assert xs[0][|xs[0]| - |DefaultSuffix(ps[0])| - 1 - |ps[0].name|] == '$';
    }
  }

  /** The forwarded names read back as the parameters' names, in declaration order. */
  lemma ParameterNamesRoundTrip(ps: seq<ParamSpec>)
    requires WellFormedParams(ps)
    ensures ParseParameterNames(BuildParameterNames(ps)) == Names(ps)
  {
    if ps != [] {
      var xs := DollarNames(ps);
      forall i | 0 <= i < |xs| ensures Item(xs[i]) {
        IdentifierPlain(ps[i].name);
        AllCharsConcat("$", ps[i].name, Plain);
        PlainItem(xs[i]);
      }
      SplitJoin(xs);
    }
  }

  /** A character `buildParameterNames` can write for well-formed parameters. */
  predicate NameListChar(c: char) {
    IdentChar(c) || c == '$' || c == ',' || c == ' '
  }

  lemma ParameterNamesChars(ps: seq<ParamSpec>)
    requires WellFormedParams(ps)
    ensures AllChars(BuildParameterNames(ps), NameListChar)
  {
    var P := NameListChar;
    if ps != [] {
      var xs := DollarNames(ps);
      forall i | 0 <= i < |xs| ensures AllChars(xs[i], P) {
        AllCharsConcat("$", ps[i].name, P);
      }
      AllCharsJoin(xs, ", ", P);
    }
  }

  // ---------------------------------------------------------------------
  // The string default, as written
  // ---------------------------------------------------------------------

  /**
   * As written, a string default comes back from the generated signature
   * with single quotes added around it.
   */
  lemma StringDefaultRequoted(s: string)
    ensures Decode(RenderDefaultAsWritten(Str(s))) == Some(Str("'" + s + "'"))
    ensures RenderDefaultAsWritten(Str(s)) != RenderDefault(Str(s))
  {
    ExportRoundTrip(Str("'" + s + "'"));
    ExportRoundTrip(Str(s));
  }

  /**
   * Only string defaults are affected: for every other default the text as
   * written is the intended text.
   */
  lemma NonStringDefaultUnaffected(v: Scalar)
    ensures RenderDefaultAsWritten(v) == RenderDefault(v) <==> !v.Str?
  {
    if v.Str? { StringDefaultRequoted(v.s); }
  }

  lemma EscapeCons(c: char, s: string)
    ensures Escape([c] + s) == EscapeChar(c) + Escape(s)
  {
    assert ([c] + s)[0] == c && ([c] + s)[1..] == s;
  }

  lemma EscapeAbc()
    ensures Escape("abc") == "abc"
  {
    EscapeCons('c', []);
    assert Escape("c") == "c" by { assert "c" == ['c'] + []; }
    EscapeCons('b', "c");
    assert Escape("bc") == "bc" by { assert "bc" == ['b'] + "c"; }
    EscapeCons('a', "bc");
    assert "abc" == ['a'] + "bc";
  }

  lemma EscapeQuotedAbc()
    ensures Escape("'abc'") == "\\'abc\\'"
  {
    EscapeCons('\'', []);
    assert Escape("'") == "\\'" by { assert "'" == ['\''] + []; }
    EscapeCons('c', "'");
    assert Escape("c'") == "c\\'" by { assert "c'" == ['c'] + "'"; }
    EscapeCons('b', "c'");
    assert Escape("bc'") == "bc\\'" by { assert "bc'" == ['b'] + "c'"; }
    EscapeCons('a', "bc'");
    assert Escape("abc'") == "abc\\'" by { assert "abc'" == ['a'] + "bc'"; }
    EscapeCons('\'', "abc'");
    assert "'abc'" == ['\''] + "abc'";
  }

  /** The default `'abc'` is written as `'\'abc\''`. */
  lemma StringDefaultExample()
    ensures RenderDefaultAsWritten(Str("abc")) == "'\\'abc\\''"
    ensures RenderDefault(Str("abc")) == "'abc'"
  {
    EscapeAbc();
    EscapeQuotedAbc();
    assert "'" + "abc" + "'" == "'abc'";
    assert "'" + "\\'abc\\'" + "'" == "'\\'abc\\''";
  }
}
