/**
 * MethodOverrider: validates a request to override methods of a class and
 * writes the PHP source of a subclass whose overrides delegate to
 * caller-supplied implementations.  Reflection is given as data (a
 * `ClassTable`); `eval` is left out, so `Override` returns the code it
 * would hand to `eval`.  String defaults in that code are rendered as
 * intended (`Signature.RenderDefault`), not re-quoted as the PHP code does.
 */
module MethodOverrider {
  import opened Wrappers
  import opened PhpText
  import opened Signature

  /**
   * The loaded classes, each with every method it has (declared or
   * inherited) as reflection reports it, keyed by method name.
   */
  type ClassTable = map<string, map<string, MethodSpec>>

  /**
   * A `string|array` or `callable|array` argument, split by `is_array`: any
   * PHP array is `Many`, so a callable written in array form
   * (`[$object, 'method']`) is `Many` of its two elements.
   */
  datatype OneOrMany<T> = One(item: T) | Many(items: seq<T>)

  /** A single value is wrapped into a one-element list; a list passes through unchanged. */
  function Normalize<T>(x: OneOrMany<T>): (r: seq<T>)
    ensures x.One? ==> r == [x.item]
    ensures x.Many? ==> r == x.items
  {
    match x
    case One(v) => [v]
    case Many(vs) => vs
  }

  /**
   * As written, one method with one callable in array form is counted as one
   * method against two implementations and rejected.
   */
  lemma ArrayCallableMiscounted<F>(classes: ClassTable, cls: string, m: string, target: F, name: F)
    requires cls in classes && m in classes[cls]
    ensures Validate(classes, cls, Normalize(One(m)), |Normalize(Many([target, name]))|) == Some(CountMismatch)
  {
  }

  /** `method_exists($class, $method)`. */
  predicate MethodExists(classes: ClassTable, cls: string, m: string) {
    cls in classes && m in classes[cls]
  }

  predicate AllExist(classes: ClassTable, cls: string, methods: seq<string>) {
    forall i :: 0 <= i < |methods| ==> MethodExists(classes, cls, methods[i])
  }

  // ---------------------------------------------------------------------
  // Validation
  // ---------------------------------------------------------------------

  datatype Failure = ClassMissing | MethodMissing | CountMismatch

  /**
   * The three checks, in order; the first that fails decides the outcome.
   * `None` means every check passed.
   */
  function Validate(classes: ClassTable, cls: string, methods: seq<string>, implCount: nat): (r: Option<Failure>)
    ensures r == Some(ClassMissing) <==> cls !in classes
    ensures r == Some(MethodMissing) <==>
      cls in classes && exists i :: 0 <= i < |methods| && methods[i] !in classes[cls]
    ensures r == Some(CountMismatch) <==>
      cls in classes && (forall i :: 0 <= i < |methods| ==> methods[i] in classes[cls]) && |methods| != implCount
    ensures r == None <==>
      cls in classes && (forall i :: 0 <= i < |methods| ==> methods[i] in classes[cls]) && |methods| == implCount
  {
    if cls !in classes then Some(ClassMissing)
    else if !AllExist(classes, cls, methods) then Some(MethodMissing)
    else if |methods| != implCount then Some(CountMismatch)
    else None
  }

  /** The message of the `InvalidArgumentException` each failed check raises. */
  function Message(f: Failure): string {
    match f
    case ClassMissing => "Class does not exist"
    case MethodMissing => "Method does not exist"
    case CountMismatch => "Number of methods and implementations must match"
  }

  /**
   * `allMethodsExist`: true exactly when every listed name is a method of the
   * class.  The ghost result is the position where the scan stopped: the first
   * missing name, or the end of the list.
   */
  method AllMethodsExist(classes: ClassTable, cls: string, methods: seq<string>) returns (r: bool, ghost stop: nat)
    ensures r <==> forall i :: 0 <= i < |methods| ==> MethodExists(classes, cls, methods[i])
    ensures stop <= |methods| && (r <==> stop == |methods|)
    ensures forall k :: 0 <= k < stop ==> MethodExists(classes, cls, methods[k])
    ensures stop < |methods| ==> !MethodExists(classes, cls, methods[stop])
  {
    var i := 0;
    while i < |methods|
      invariant i <= |methods|
      invariant forall k :: 0 <= k < i ==> MethodExists(classes, cls, methods[k])
    {
      if !MethodExists(classes, cls, methods[i]) {
        return false, i;
      }
      i := i + 1;
    }
    return true, |methods|;
  }

  // ---------------------------------------------------------------------
  // The proxy class name
  // ---------------------------------------------------------------------

  /** `str_replace('\\', '/', $s)`. */
  function ToSlashes(s: string): (r: string)
    ensures |r| == |s|
    ensures forall i :: 0 <= i < |s| ==> r[i] == if s[i] == '\\' then '/' else s[i]
  {
    seq(|s|, i requires 0 <= i < |s| => if s[i] == '\\' then '/' else s[i])
  }

  function TrimTrailingSlashes(p: string): string
    decreases |p|
  {
    if p != [] && p[|p| - 1] == '/' then TrimTrailingSlashes(p[..|p| - 1]) else p
  }

  function LastSegment(p: string): string
    decreases |p|
  {
    if p == [] || p[|p| - 1] == '/' then [] else LastSegment(p[..|p| - 1]) + [p[|p| - 1]]
  }

  /** `basename($p)`: the last run of characters other than `/`, trailing slashes ignored. */
  function Basename(p: string): string {
    LastSegment(TrimTrailingSlashes(p))
  }

  const ProxySuffix := "CacheProxy"

  /** The name of the generated class: the class's short name followed by `CacheProxy`. */
  function ProxyClassName(cls: string): (r: string)
    ensures '\\' !in r && '/' !in r
    ensures |r| >= |ProxySuffix| && r[|r| - |ProxySuffix|..] == ProxySuffix
  {
    var short := Basename(ToSlashes(cls));
    BasenameChars(ToSlashes(cls));
    assert (short + ProxySuffix)[|short|..] == ProxySuffix;
    short + ProxySuffix
  }

  lemma {:induction false} TrimTrailingSlashesPrefix(p: string)
    ensures TrimTrailingSlashes(p) <= p
    decreases |p|
  {
    if p != [] && p[|p| - 1] == '/' {
      TrimTrailingSlashesPrefix(p[..|p| - 1]);
    }
  }

  lemma {:induction false} LastSegmentChars(p: string)
    ensures '/' !in LastSegment(p)
    ensures forall c :: c in LastSegment(p) ==> c in p
    decreases |p|
  {
    if p != [] && p[|p| - 1] != '/' {
      LastSegmentChars(p[..|p| - 1]);
      forall c | c in p[..|p| - 1] ensures c in p { }
    }
  }

  lemma BasenameChars(p: string)
    requires '\\' !in p
    ensures '\\' !in Basename(p) && '/' !in Basename(p)
  {
    TrimTrailingSlashesPrefix(p);
    LastSegmentChars(TrimTrailingSlashes(p));
    var t := TrimTrailingSlashes(p);
    forall c | c in t ensures c in p { }
  }

  lemma {:induction false} LastSegmentAfterSlash(x: string, y: string)
    requires '/' !in y
    ensures LastSegment(x + "/" + y) == y
    decreases |y|
  {
    var p := x + "/" + y;
    if y != [] {
      assert p[..|p| - 1] == x + "/" + y[..|y| - 1];
      LastSegmentAfterSlash(x, y[..|y| - 1]);
      assert y[..|y| - 1] + [y[|y| - 1]] == y;
    }
  }

  lemma {:induction false} LastSegmentWhole(y: string)
    requires '/' !in y
    ensures LastSegment(y) == y
    decreases |y|
  {
    if y != [] {
      LastSegmentWhole(y[..|y| - 1]);
      assert y[..|y| - 1] + [y[|y| - 1]] == y;
    }
  }

  /** A namespaced class `Ns\Short` gets the proxy name `ShortCacheProxy`. */
  lemma QualifiedProxyName(ns: string, short: string)
    requires short != [] && '\\' !in short && '/' !in short
    ensures ProxyClassName(ns + "\\" + short) == short + ProxySuffix
  {
    var cls := ns + "\\" + short;
    assert ToSlashes(cls) == ToSlashes(ns) + "/" + short;
    assert TrimTrailingSlashes(ToSlashes(cls)) == ToSlashes(cls);
    LastSegmentAfterSlash(ToSlashes(ns), short);
  }

  /** A class in the global namespace gets its own name followed by `CacheProxy`. */
  lemma UnqualifiedProxyName(cls: string)
    requires '\\' !in cls && '/' !in cls
    ensures ProxyClassName(cls) == cls + ProxySuffix
  {
    assert ToSlashes(cls) == cls;
    if cls != [] {
      assert TrimTrailingSlashes(cls) == cls;
    }
    LastSegmentWhole(cls);
  }

  // ---------------------------------------------------------------------
  // Method definitions
  // ---------------------------------------------------------------------

  const Indent16 := "                "
  const Indent20 := Indent16 + "    "
  const Indent24 := Indent20 + "    "

  /** `" use ($a, $b)"`, or nothing when there are no parameters. */
  function UseClause(ps: seq<ParamSpec>): (r: string)
    ensures r == "" <==> ps == []
  {
    var names := BuildParameterNames(ps);
    if names != "" && names != "0" then " use (" + names + ")" else ""
  }

  /** `", $a, $b"` after `$original`, or nothing when there are no parameters. */
  function ForwardedArgs(ps: seq<ParamSpec>): (r: string)
    ensures r == "" <==> ps == []
  {
    var names := BuildParameterNames(ps);
    if names != "" && names != "0" then ", " + names else ""
  }

  const FunctionKeyword := Indent16 + "public function "
  const BraceIndent := "\n" + Indent16
  const ClosureOpen := "\n" + Indent20 + "$original = function()"
  const ParentReturn := "\n" + Indent24 + "return parent::"
  const SlotOpen := ";\n" + Indent20 + "};\n\n" + Indent20 + "return ($this->implementations["
  const InvokeOpen := ")($original"
  const InvokeClose := ");\n" + Indent16 + "}"

  /** `name(<parameter list>)<return type>` */
  function HeaderSignature(name: string, spec: MethodSpec): string {
    name + ['('] + (BuildParameterList(spec.params) + [')'] + ReturnTypeDecl(spec.returnType))
  }

  /** `$original = function()<use clause> ` */
  function ClosureHeader(ps: seq<ParamSpec>): string {
    ClosureOpen + (UseClause(ps) + " ")
  }

  /** `index])($original<forwarded>);` and the closing brace. */
  function Invocation(index: nat, ps: seq<ParamSpec>): string {
    NatToDecimal(index) + [']'] + (InvokeOpen + (ForwardedArgs(ps) + InvokeClose))
  }

  /** The closure's body calling the parent, then the call of the implementation. */
  function ClosureBodyAndCall(name: string, index: nat, ps: seq<ParamSpec>): string {
    ParentReturn + (name + ['('] + (BuildParameterNames(ps) + [')'] + (SlotOpen + Invocation(index, ps))))
  }

  /**
   * The definition `buildMethodDefinitions` writes for the method at position
   * `index`; its lines are
   *
   *     public function name(<parameter list>)<return type>
   *     {
   *         $original = function()<use clause> {
   *             return parent::name(<names>);
   *         };
   *
   *         return ($this->implementations[index])($original<forwarded>);
   *     }
   *
   * indented by 16, 20 and 24 spaces.
   */
  function MethodDefinition(name: string, index: nat, spec: MethodSpec): string {
    FunctionKeyword + HeaderSignature(name, spec) + BraceIndent + ['{'] + ClosureHeader(spec.params) + ['{']
      + ClosureBodyAndCall(name, index, spec.params)
  }

  function Definitions(classes: ClassTable, cls: string, methods: seq<string>): seq<string>
    requires AllExist(classes, cls, methods)
  {
    seq(|methods|, i requires 0 <= i < |methods| => MethodDefinition(methods[i], i, classes[cls][methods[i]]))
  }

  const DefinitionSeparator := "\n\n        "

  /** What `buildMethodDefinitions` returns. */
  function DefinitionsText(classes: ClassTable, cls: string, methods: seq<string>): string
    requires AllExist(classes, cls, methods)
  {
    Join(Definitions(classes, cls, methods), DefinitionSeparator)
  }

  /**
   * `buildMethodDefinitions`: one definition per requested method, in the
   * order requested, the one at position i calling implementation i.
   */
  method BuildMethodDefinitions(classes: ClassTable, cls: string, methods: seq<string>) returns (text: string)
    requires AllExist(classes, cls, methods)
    ensures text == DefinitionsText(classes, cls, methods)
  {
    var definitions: seq<string> := [];
    var index := 0;
    while index < |methods|
      invariant index <= |methods|
      invariant definitions == Definitions(classes, cls, methods)[..index]
    {
      assert MethodExists(classes, cls, methods[index]);
      var spec := classes[cls][methods[index]];
      definitions := definitions + [MethodDefinition(methods[index], index, spec)];
      index := index + 1;
    }
    assert definitions == Definitions(classes, cls, methods);
    text := Join(definitions, DefinitionSeparator);
  }

  // ---------------------------------------------------------------------
  // Reading a definition back
  // ---------------------------------------------------------------------

  /** What a generated override does, as PHP would read it. */
  datatype OverrideView = OverrideView(
    name: string,                   // the overriding method
    params: seq<Option<Declared>>,  // what its parameter list declares
    returnType: Option<string>,     // its declared return type
    captured: seq<string>,          // variables the `$original` closure captures
    parentName: string,             // the parent method the closure calls
    parentArgs: seq<string>,        // variables passed to the parent method
    slot: Option<nat>,              // which entry of `$this->implementations` is called
    forwarded: seq<string>)         // variables passed to it after `$original`

  function ParseReturnType(t: string): Option<Option<string>> {
    if t == "" then Some(None)
    else
      var name :- StripPrefix(t, ": ");
      Some(Some(name))
  }

  function ParseUseClause(u: string): Option<seq<string>> {
    if u == "" then Some([])
    else
      var inner :- StripPrefix(u, " use (");
      var names :- StripSuffix(inner, ")");
      Some(ParseParameterNames(names))
  }

  function ParseForwarded(f: string): Option<seq<string>> {
    if f == "" then Some([])
    else
      var names :- StripPrefix(f, ", ");
      Some(ParseParameterNames(names))
  }

  function ParseInvocation(t: string): Option<(Option<nat>, seq<string>)> {
    var slot :- CutFirst(t, ']');
    var rest :- StripPrefix(slot.1, InvokeOpen);
    var args :- StripSuffix(rest, InvokeClose);
    var forwarded :- ParseForwarded(args);
    Some((ParseNat(slot.0), forwarded))
  }

  function ParseClosureBody(t: string): Option<(string, seq<string>, Option<nat>, seq<string>)> {
    var call :- StripPrefix(t, ParentReturn);
    var parent :- CutFirst(call, '(');
    var args :- CutFirst(parent.1, ')');
    var slotText :- StripPrefix(args.1, SlotOpen);
    var invocation :- ParseInvocation(slotText);
    Some((parent.0, ParseParameterNames(args.0), invocation.0, invocation.1))
  }

  function ParseHeader(h: string): Option<(string, seq<Option<Declared>>, Option<string>)> {
    var sig :- StripPrefix(h, FunctionKeyword);
    var name :- CutFirst(sig, '(');
    var params :- CutLast(name.1, ')');
    var returnType :- ParseReturnType(params.1);
    Some((name.0, ParseParameterList(params.0), returnType))
  }

  function ParseDefinition(d: string): Option<OverrideView> {
    var body :- CutLast(d, '{');
    var opening :- CutLast(body.0, '{');
    var header :- StripSuffix(opening.0, BraceIndent);
    var h :- ParseHeader(header);
    var useText :- StripPrefix(opening.1, ClosureOpen);
    var useClause :- StripSuffix(useText, " ");
    var captured :- ParseUseClause(useClause);
    var b :- ParseClosureBody(body.1);
    Some(OverrideView(h.0, h.1, h.2, captured, b.0, b.1, b.2, b.3))
  }

  predicate WellFormedSpec(spec: MethodSpec) {
    WellFormedParams(spec.params) && (spec.returnType.Some? ==> IsTypeName(spec.returnType.value))
  }

  /** Reflection data as PHP produces it: identifiers for names, type names for types. */
  predicate WellFormedClass(classes: ClassTable, cls: string) {
    cls in classes ==> forall m :: m in classes[cls] ==> IsIdentifier(m) && WellFormedSpec(classes[cls][m])
  }

  /** What the override of `spec`, placed at position `index`, must do. */
  function Expected(name: string, index: nat, spec: MethodSpec): OverrideView {
    var ps := spec.params;
    OverrideView(name, Meanings(ps), WrittenType(spec.returnType),
      Names(ps), name, Names(ps), Some(index), Names(ps))
  }

  // ---------------------------------------------------------------------
  // Lemmas: the definition written for a method does what it must
  // ---------------------------------------------------------------------

  predicate NotOpenBrace(c: char) { c != '{' }

  lemma NameListCharsExclude(s: string)
    requires AllChars(s, NameListChar)
    ensures '{' !in s && '(' !in s && ')' !in s && ']' !in s
    ensures AllChars(s, NotOpenBrace)
  {
    AllCharsImplies(s, NameListChar, NotOpenBrace);
  }

  lemma IdentifierExcludes(name: string)
    requires IsIdentifier(name)
    ensures AllChars(name, NameListChar)
    ensures '(' !in name && ' ' !in name
  {
    AllCharsImplies(name, IdentChar, NameListChar);
  }

  lemma TemplateHasNoOpenBrace()
    ensures AllChars(ClosureOpen, NotOpenBrace)
    ensures AllChars(ParentReturn, NotOpenBrace)
    ensures AllChars(SlotOpen, NotOpenBrace)
    ensures AllChars(InvokeOpen, NotOpenBrace)
    ensures AllChars(InvokeClose, NotOpenBrace)
  {
  }

  /** The variables of a name list, read back, whether it is empty or not. */
  lemma NameListRead(ps: seq<ParamSpec>)
    requires WellFormedParams(ps)
    ensures ParseParameterNames(BuildParameterNames(ps)) == Names(ps)
    ensures AllChars(BuildParameterNames(ps), NotOpenBrace)
    ensures ')' !in BuildParameterNames(ps)
  {
    ParameterNamesChars(ps);
    NameListCharsExclude(BuildParameterNames(ps));
    if ps == [] {
      assert ParseParameterNames("") == [];
    } else {
      ParameterNamesRoundTrip(ps);
    }
  }

  lemma ReturnTypeRoundTrip(rt: Option<string>)
    requires rt.Some? ==> IsTypeName(rt.value)
    ensures ')' !in ReturnTypeDecl(rt)
    ensures ParseReturnType(ReturnTypeDecl(rt)) == Some(WrittenType(rt))
  {
    if WrittenType(rt).Some? {
      var t := rt.value;
      StripPrefixAt(": ", t);
      assert AllChars(": " + t, c => IdentChar(c) || c == '\\' || c == ':' || c == ' ');
    }
  }

  lemma HeaderRoundTrip(name: string, spec: MethodSpec)
    requires IsIdentifier(name) && WellFormedSpec(spec)
    ensures ParseHeader(FunctionKeyword + HeaderSignature(name, spec))
      == Some((name, Meanings(spec.params), WrittenType(spec.returnType)))
  {
    var ps, rt := spec.params, spec.returnType;
    var tail := BuildParameterList(ps) + [')'] + ReturnTypeDecl(rt);
    StripPrefixAt(FunctionKeyword, HeaderSignature(name, spec));
    IdentifierExcludes(name);
    CutFirstAt(name, '(', tail);
    ReturnTypeRoundTrip(rt);
    CutLastAt(BuildParameterList(ps), ')', ReturnTypeDecl(rt));
    ParameterListRoundTrip(ps);
  }

  lemma UseClauseRoundTrip(ps: seq<ParamSpec>)
    requires WellFormedParams(ps)
    ensures ParseUseClause(UseClause(ps)) == Some(Names(ps))
  {
    if ps != [] {
      var names := BuildParameterNames(ps);
      assert UseClause(ps) == " use (" + (names + ")");
      StripPrefixAt(" use (", names + ")");
      StripSuffixAt(names, ")");
      NameListRead(ps);
    }
  }

  lemma ClosureHeaderNoOpenBrace(ps: seq<ParamSpec>)
    requires WellFormedParams(ps)
    ensures AllChars(ClosureHeader(ps), NotOpenBrace)
  {
    var names := BuildParameterNames(ps);
    NameListRead(ps);
    TemplateHasNoOpenBrace();
    if ps != [] {
      AllCharsConcat(" use (", names, NotOpenBrace);
      AllCharsConcat(" use (" + names, ")", NotOpenBrace);
    }
    AllCharsConcat(UseClause(ps), " ", NotOpenBrace);
    AllCharsConcat(ClosureOpen, UseClause(ps) + " ", NotOpenBrace);
  }

  lemma ForwardedRoundTrip(ps: seq<ParamSpec>)
    requires WellFormedParams(ps)
    ensures ParseForwarded(ForwardedArgs(ps)) == Some(Names(ps))
    ensures AllChars(ForwardedArgs(ps), NotOpenBrace)
  {
    NameListRead(ps);
    if ps != [] {
      var names := BuildParameterNames(ps);
      StripPrefixAt(", ", names);
      AllCharsConcat(", ", names, NotOpenBrace);
    }
  }

  lemma InvocationRoundTrip(index: nat, ps: seq<ParamSpec>)
    requires WellFormedParams(ps)
    ensures ParseInvocation(Invocation(index, ps)) == Some((Some(index), Names(ps)))
  {
    var digits, forwarded := NatToDecimal(index), ForwardedArgs(ps);
    NotInAllChars(digits, IsDigit, ']');
    CutFirstAt(digits, ']', InvokeOpen + (forwarded + InvokeClose));
    StripPrefixAt(InvokeOpen, forwarded + InvokeClose);
    StripSuffixAt(forwarded, InvokeClose);
    NatDecimalRoundTrip(index);
    ForwardedRoundTrip(ps);
  }

  lemma InvocationNoOpenBrace(index: nat, ps: seq<ParamSpec>)
    requires WellFormedParams(ps)
    ensures AllChars(Invocation(index, ps), NotOpenBrace)
  {
    var digits, forwarded := NatToDecimal(index), ForwardedArgs(ps);
    ForwardedRoundTrip(ps);
    TemplateHasNoOpenBrace();
    AllCharsImplies(digits, IsDigit, NotOpenBrace);
    AllCharsConcat(forwarded, InvokeClose, NotOpenBrace);
    AllCharsConcat(InvokeOpen, forwarded + InvokeClose, NotOpenBrace);
    AllCharsConcat(digits, [']'], NotOpenBrace);
    AllCharsConcat(digits + [']'], InvokeOpen + (forwarded + InvokeClose), NotOpenBrace);
  }

  lemma ClosureBodyRoundTrip(name: string, index: nat, ps: seq<ParamSpec>)
    requires IsIdentifier(name) && WellFormedParams(ps)
    ensures ParseClosureBody(ClosureBodyAndCall(name, index, ps)) == Some((name, Names(ps), Some(index), Names(ps)))
  {
    var names := BuildParameterNames(ps);
    var invocation := Invocation(index, ps);
    var afterName := names + [')'] + (SlotOpen + invocation);
    StripPrefixAt(ParentReturn, name + ['('] + afterName);
    IdentifierExcludes(name);
    CutFirstAt(name, '(', afterName);
    NameListRead(ps);
    CutFirstAt(names, ')', SlotOpen + invocation);
    StripPrefixAt(SlotOpen, invocation);
    InvocationRoundTrip(index, ps);
  }

  lemma ClosureBodyNoOpenBrace(name: string, index: nat, ps: seq<ParamSpec>)
    requires IsIdentifier(name) && WellFormedParams(ps)
    ensures AllChars(ClosureBodyAndCall(name, index, ps), NotOpenBrace)
  {
    var names := BuildParameterNames(ps);
    var invocation := Invocation(index, ps);
    var afterName := names + [')'] + (SlotOpen + invocation);
    IdentifierExcludes(name);
    NameListRead(ps);
    InvocationNoOpenBrace(index, ps);
    TemplateHasNoOpenBrace();
    AllCharsImplies(name, NameListChar, NotOpenBrace);
    AllCharsConcat(SlotOpen, invocation, NotOpenBrace);
    AllCharsConcat(names, [')'], NotOpenBrace);
    AllCharsConcat(names + [')'], SlotOpen + invocation, NotOpenBrace);
    AllCharsConcat(name, ['('], NotOpenBrace);
    AllCharsConcat(name + ['('], afterName, NotOpenBrace);
    AllCharsConcat(ParentReturn, name + ['('] + afterName, NotOpenBrace);
  }

  /**
   * The definition written for a method declares the method's name,
   * parameters and return type; its closure captures every parameter and
   * passes them, in order, to the parent method of the same name; and it
   * calls the implementation at its own position with `$original` followed by
   * the same parameters in the same order.
   */
  lemma DefinitionRoundTrip(name: string, index: nat, spec: MethodSpec)
    requires IsIdentifier(name) && WellFormedSpec(spec)
    ensures ParseDefinition(MethodDefinition(name, index, spec)) == Some(Expected(name, index, spec))
  {
    var ps := spec.params;
    var header := FunctionKeyword + HeaderSignature(name, spec);
    var closure := ClosureHeader(ps);
    var body := ClosureBodyAndCall(name, index, ps);
    ClosureBodyNoOpenBrace(name, index, ps);
    NotInAllChars(body, NotOpenBrace, '{');
    CutLastAt(header + BraceIndent + ['{'] + closure, '{', body);
    ClosureHeaderNoOpenBrace(ps);
    NotInAllChars(closure, NotOpenBrace, '{');
    CutLastAt(header + BraceIndent, '{', closure);
    StripSuffixAt(header, BraceIndent);
    HeaderRoundTrip(name, spec);
    StripPrefixAt(ClosureOpen, UseClause(ps) + " ");
    StripSuffixAt(UseClause(ps), " ");
    UseClauseRoundTrip(ps);
    ClosureBodyRoundTrip(name, index, ps);
  }

  /**
   * `buildMethodDefinitions` writes one definition per requested method, in
   * the order requested, and the one at position i overrides method i and
   * calls implementation i.
   */
  lemma DefinitionsRealizeRequest(classes: ClassTable, cls: string, methods: seq<string>)
    requires AllExist(classes, cls, methods) && WellFormedClass(classes, cls)
    ensures |Definitions(classes, cls, methods)| == |methods|
    ensures forall i :: 0 <= i < |methods| ==>
      ParseDefinition(Definitions(classes, cls, methods)[i]) == Some(Expected(methods[i], i, classes[cls][methods[i]]))
  {
    forall i | 0 <= i < |methods|
      ensures ParseDefinition(Definitions(classes, cls, methods)[i]) == Some(Expected(methods[i], i, classes[cls][methods[i]]))
    {
      assert MethodExists(classes, cls, methods[i]);
      DefinitionRoundTrip(methods[i], i, classes[cls][methods[i]]);
    }
  }

  // ---------------------------------------------------------------------
  // override and generateOverriddenClass
  // ---------------------------------------------------------------------

  /** The anonymous class `override` hands to `eval`, as `return <class>;`. */
  function EvalSource(cls: string, definitions: string): string {
    "return "
      + "    new class($implementations) extends \\" + cls + " {\n"
      + "        private array $implementations;\n"
      + "\n"
      + "        public function __construct(array $implementations)\n"
      + "        {\n"
      + "            $this->implementations = $implementations;\n"
      + "        }\n"
      + "\n"
      + "        " + definitions + "\n"
      + "    }"
      + ";"
  }

  /** The file `generateOverriddenClass` returns as `content`. */
  function ProxySource(className: string, cls: string, definitions: string): string {
    "<?php\n"
      + "\n"
      + "class " + className + " extends \\" + cls + "\n"
      + "{\n"
      + "    private array $implementations;\n"
      + "\n"
      + "    public function __construct(array $implementations)\n"
      + "    {\n"
      + "        $this->implementations = $implementations;\n"
      + "    }\n"
      + "\n"
      + "    " + definitions + "\n"
      + "}"
  }

  /** What `override` returns: `false`, or the object `eval` builds from this code. */
  datatype Overridden = Rejected | Evaluated(code: string)

  /**
   * `override`: `false` when a check fails (the class, then every method,
   * then the counts), and otherwise the anonymous subclass built from the
   * definitions of the requested methods.
   */
  method Override<F>(classes: ClassTable, cls: string, methodNames: OneOrMany<string>, implementations: OneOrMany<F>)
    returns (r: Overridden)
    ensures r == Rejected <==> Validate(classes, cls, Normalize(methodNames), |Normalize(implementations)|).Some?
    ensures r.Evaluated? ==>
              AllExist(classes, cls, Normalize(methodNames))
              && r.code == EvalSource(cls, DefinitionsText(classes, cls, Normalize(methodNames)))
  {
    var methods := Normalize(methodNames);
    var impls := Normalize(implementations);
    ghost var outcome := Validate(classes, cls, methods, |impls|);
    if cls !in classes {
      return Rejected;
    }
    var allExist;
    ghost var stop;
    allExist, stop := AllMethodsExist(classes, cls, methods);
    if !allExist {
      assert outcome == Some(MethodMissing);
      return Rejected;
    }
    if |methods| != |impls| {
      assert outcome == Some(CountMismatch);
      return Rejected;
    }
    assert outcome == None;
    var definitions := BuildMethodDefinitions(classes, cls, methods);
    return Evaluated(EvalSource(cls, definitions));
  }

  /** What `generateOverriddenClass` returns on success. */
  datatype Generated<F> = Generated(content: string, implementations: seq<F>, className: string)

  /**
   * `generateOverriddenClass`: the same checks in the same order, each
   * raising its own message; on success the source of a named subclass, the
   * implementations to construct it with, and its name.
   */
  method GenerateOverriddenClass<F>(classes: ClassTable, cls: string, methodNames: OneOrMany<string>, implementations: OneOrMany<F>)
    returns (r: Result<Generated<F>, string>)
    ensures r.Failure? <==> Validate(classes, cls, Normalize(methodNames), |Normalize(implementations)|).Some?
    ensures r.Failure? ==> r.error == Message(Validate(classes, cls, Normalize(methodNames), |Normalize(implementations)|).value)
    ensures r.Success? ==>
              AllExist(classes, cls, Normalize(methodNames))
              && r.value == Generated(ProxySource(ProxyClassName(cls), cls, DefinitionsText(classes, cls, Normalize(methodNames))),
                                      Normalize(implementations), ProxyClassName(cls))
  {
    var methods := Normalize(methodNames);
    var impls := Normalize(implementations);
    ghost var outcome := Validate(classes, cls, methods, |impls|);
    if cls !in classes {
      return Failure("Class does not exist");
    }
    var allExist;
    ghost var stop;
    allExist, stop := AllMethodsExist(classes, cls, methods);
    if !allExist {
      assert outcome == Some(MethodMissing);
      return Failure("Method does not exist");
    }
    if |methods| != |impls| {
      assert outcome == Some(CountMismatch);
      return Failure("Number of methods and implementations must match");
    }
    var newClassName := ProxyClassName(cls);
    assert outcome == None;
    var definitions := BuildMethodDefinitions(classes, cls, methods);
    return Success(Generated(ProxySource(newClassName, cls, definitions), impls, newClassName));
  }
}
