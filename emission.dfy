/**
 * The text the generator writes, as functions of its inputs: the expected
 * output that the builder-driven methods in module Generator are proved to
 * produce. Every function takes the builder's indentation character `c`
 * and the level `l` the text is written at.
 *
 * An exception thrown while generating is a Failure; the generator stops at
 * the first one, so a fold over members fails with the error of the first
 * member that fails.
 */
module Emission {
  import opened Wrappers
  import opened Text
  import opened Symbols
  import opened Utilities
  import opened Declarations
  import opened AutoProperties

  /** Which member generator and class-body generator a service is built with. */
  datatype Variant = Proxy | Dud

  /** A generated source file as handed to AddSource: its hint name and its text. */
  datatype Artifact = Artifact(hintName: string, source: string)

  /** Sequencing two generation steps: the first failure wins, otherwise the texts concatenate. */
  function Then(a: Result<string, Error>, b: Result<string, Error>): (r: Result<string, Error>)
    ensures r.Success? <==> a.Success? && b.Success?
    ensures a.Failure? ==> r == a
    ensures a.Success? && b.Failure? ==> r == b
    ensures r.Success? ==> r.value == a.value + b.value
  {
    match a
    case Failure(e) => Failure(e)
    case Success(x) =>
      match b
      case Failure(e) => Failure(e)
      case Success(y) => Success(x + y)
  }

  // ---------------------------------------------------------------- proxy members

  /** The names and argument strings GenerateProxyMethod puts into a forwarding body. */
  datatype ProxyCall = ProxyCall(
    interceptorName: string,       // the member-specific hook is <interceptorName>Interceptor
    interceptorArguments: string,  // what the hook is called with
    methodName: string,            // what is called or accessed on _service
    methodArguments: string,       // what follows it
    returnString: string)          // "return " unless the member is void

  function ParameterNames(ps: seq<Parameter>): (r: seq<string>)
    ensures |r| == |ps| && forall k :: 0 <= k < |ps| ==> r[k] == ps[k].name
  {
    seq(|ps|, k requires 0 <= k < |ps| => ps[k].name)
  }

  /** The name and argument selection of GenerateProxyMethod, or its Substring exception. */
  function ProxyCallParts(m: Method, isPropertyMethod: bool): Result<ProxyCall, Error>
  {
    var returnString := if m.returnsVoid then "" else "return ";
    if isPropertyMethod then
      if |m.name| < 4 then Failure(NameTooShort(m.name))
      else if m.kind == PropertyGet then Success(ProxyCall(m.name, "()", m.name[4..], "", returnString))
      else Success(ProxyCall(m.name, "(value)", m.name[4..], " = value", returnString))
    else
      var arguments := "(" + Join(", ", ParameterNames(m.parameters)) + ")";
      Success(ProxyCall(m.name, arguments, m.name, arguments, returnString))
  }

  /** The three calls inside a forwarding body. */
  function ProxyBody(call: ProxyCall): seq<Cmd>
  {
    [ Line("Interceptor();"),
      Line(call.interceptorName + "Interceptor" + call.interceptorArguments + ";"),
      Line(call.returnString + "_service." + call.methodName + call.methodArguments + ";") ]
  }

  /** What GenerateProxyMethod appends. */
  function ProxyMethodText(c: char, l: nat, m: Method, isPropertyMethod: bool): Result<string, Error>
  {
    match Declaration(m)
    case Failure(e) => Failure(e)
    case Success(decl) =>
      match ProxyCallParts(m, isPropertyMethod)
      case Failure(e) => Failure(e)
      case Success(call) =>
        Success(IndentedLine(c, l, decl + " {") + Render(c, l + 1, ProxyBody(call)) + IndentedLine(c, l, "}"))
  }

  /** The three forwarding lines at level `l`. */
  function ProxyLines(c: char, l: nat, call: ProxyCall): string
  {
    IndentedLine(c, l, "Interceptor();")
    + IndentedLine(c, l, call.interceptorName + "Interceptor" + call.interceptorArguments + ";")
    + IndentedLine(c, l, call.returnString + "_service." + call.methodName + call.methodArguments + ";")
  }

  /** The pieces of a forwarding member, once its declaration and its call are known. */
  lemma ProxyMethodPieces(c: char, l: nat, m: Method, isPropertyMethod: bool, decl: string, call: ProxyCall)
    requires Declaration(m) == Success(decl) && ProxyCallParts(m, isPropertyMethod) == Success(call)
    ensures ProxyMethodText(c, l, m, isPropertyMethod)
         == Success(IndentedLine(c, l, decl + " {") + Render(c, l + 1, ProxyBody(call)) + IndentedLine(c, l, "}"))
  {
  }

  /** The forwarding callback writes the three forwarding lines. */
  lemma ProxyBodyLines(c: char, l: nat, call: ProxyCall)
    ensures Render(c, l, ProxyBody(call)) == ProxyLines(c, l, call)
  {
    var b := ProxyBody(call);
    var l0 := IndentedLine(c, l, "Interceptor();");
    var l1 := IndentedLine(c, l, call.interceptorName + "Interceptor" + call.interceptorArguments + ";");
    var l2 := IndentedLine(c, l, call.returnString + "_service." + call.methodName + call.methodArguments + ";");
    assert b[1..][1..][1..] == [];
    assert Render(c, l, b[1..][1..]) == l2 + "";
    assert Render(c, l, b[1..]) == l1 + (l2 + "");
    assert Render(c, l, b) == l0 + (l1 + (l2 + ""));
  }

  /** A forwarding member: declaration line, the three forwarding lines one level deeper, `}`. */
  lemma ProxyShape(c: char, l: nat, m: Method, isPropertyMethod: bool)
    requires Declaration(m).Success? && ProxyCallParts(m, isPropertyMethod).Success?
    ensures var call := ProxyCallParts(m, isPropertyMethod).value;
      ProxyMethodText(c, l, m, isPropertyMethod) == Success(
        IndentedLine(c, l, Declaration(m).value + " {")
      + IndentedLine(c, l + 1, "Interceptor();")
      + IndentedLine(c, l + 1, call.interceptorName + "Interceptor" + call.interceptorArguments + ";")
      + IndentedLine(c, l + 1, call.returnString + "_service." + call.methodName + call.methodArguments + ";")
      + IndentedLine(c, l, "}"))
  {
    var call := ProxyCallParts(m, isPropertyMethod).value;
    var decl := Declaration(m).value;
    ProxyMethodPieces(c, l, m, isPropertyMethod, decl, call);
    ProxyBodyLines(c, l + 1, call);
    Regroup(IndentedLine(c, l, decl + " {"),
            IndentedLine(c, l + 1, "Interceptor();"),
            IndentedLine(c, l + 1, call.interceptorName + "Interceptor" + call.interceptorArguments + ";"),
            IndentedLine(c, l + 1, call.returnString + "_service." + call.methodName + call.methodArguments + ";"),
            IndentedLine(c, l, "}"));
  }

  /**
   * A forwarded ordinary method: its declaration line, then exactly
   *   Interceptor();
   *   <Name>Interceptor(<args>);
   *   [return ]_service.<Name>(<args>);
   * one level deeper, where <args> are the parameter names joined with ", "
   * and `return ` appears exactly when the method is not void; then `}`.
   */
  lemma ProxyOrdinaryMethod(c: char, l: nat, m: Method)
    requires !IsPropertyMethod(m) && m.accessibility in {Internal, Public, Protected}
    ensures ProxyMethodText(c, l, m, false) == Success(
        IndentedLine(c, l, Declaration(m).value + " {")
      + IndentedLine(c, l + 1, "Interceptor();")
      + IndentedLine(c, l + 1, m.name + "Interceptor" + "(" + Join(", ", ParameterNames(m.parameters)) + ")" + ";")
      + IndentedLine(c, l + 1, (if m.returnsVoid then "" else "return ") + "_service." + m.name
                                 + "(" + Join(", ", ParameterNames(m.parameters)) + ")" + ";")
      + IndentedLine(c, l, "}"))
  {
    ProxyShape(c, l, m, false);
    var args := "(" + Join(", ", ParameterNames(m.parameters)) + ")";
    var ret := if m.returnsVoid then "" else "return ";
    assert m.name + "Interceptor" + args + ";"
        == m.name + "Interceptor" + "(" + Join(", ", ParameterNames(m.parameters)) + ")" + ";";
    assert ret + "_service." + m.name + args + ";"
        == ret + "_service." + m.name + "(" + Join(", ", ParameterNames(m.parameters)) + ")" + ";";
  }

  /**
   * A forwarded getter `get_X`: `get {`, then Interceptor(), the hook
   * `get_XInterceptor()` and `[return ]_service.X;`, then `}`.
   */
  lemma ProxyGetter(c: char, l: nat, m: Method)
    requires m.kind == PropertyGet && |m.name| >= 4
    ensures ProxyMethodText(c, l, m, true) == Success(
        IndentedLine(c, l, Declaration(m).value + " {")
      + IndentedLine(c, l + 1, "Interceptor();")
      + IndentedLine(c, l + 1, m.name + "Interceptor" + "()" + ";")
      + IndentedLine(c, l + 1, (if m.returnsVoid then "" else "return ") + "_service." + m.name[4..] + "" + ";")
      + IndentedLine(c, l, "}"))
  {
    ProxyShape(c, l, m, true);
  }

  /**
   * A forwarded setter `set_X`: `set {`, then Interceptor(), the hook
   * `set_XInterceptor(value)` and `_service.X = value;`, then `}`.
   */
  lemma ProxySetter(c: char, l: nat, m: Method)
    requires m.kind == PropertySet && |m.name| >= 4
    ensures ProxyMethodText(c, l, m, true) == Success(
        IndentedLine(c, l, Declaration(m).value + " {")
      + IndentedLine(c, l + 1, "Interceptor();")
      + IndentedLine(c, l + 1, m.name + "Interceptor" + "(value)" + ";")
      + IndentedLine(c, l + 1, (if m.returnsVoid then "" else "return ") + "_service." + m.name[4..] + " = value" + ";")
      + IndentedLine(c, l, "}"))
  {
    ProxyShape(c, l, m, true);
  }

  /** Forwarding fails exactly when the declaration fails or an accessor's name is shorter than its `get_` prefix. */
  lemma ProxyMethodFails(c: char, l: nat, m: Method, isPropertyMethod: bool)
    ensures ProxyMethodText(c, l, m, isPropertyMethod).Failure?
        <==> Declaration(m).Failure? || (isPropertyMethod && |m.name| < 4)
  {
  }

  // ---------------------------------------------------------------- dud members

  /** The call inside a dud body: `return (<ReturnType>) default;` unless the member is void. */
  function DudBody(m: Method): seq<Cmd>
  {
    if m.returnsVoid then [] else [Line("return (" + m.returnType + ") default;")]
  }

  /** What GenerateDudMethod appends. */
  function DudMethodText(c: char, l: nat, m: Method): Result<string, Error>
  {
    match Declaration(m)
    case Failure(e) => Failure(e)
    case Success(decl) =>
      Success(IndentedLine(c, l, decl + " {") + Render(c, l + 1, DudBody(m)) + IndentedLine(c, l, "}"))
  }

  /** The line of a dud body at level `l`: none for a void member. */
  function DudLines(c: char, l: nat, m: Method): string
  {
    if m.returnsVoid then "" else IndentedLine(c, l, "return (" + m.returnType + ") default;")
  }

  /** The dud callback writes the dud body's line. */
  lemma DudBodyLines(c: char, l: nat, m: Method)
    ensures Render(c, l, DudBody(m)) == DudLines(c, l, m)
  {
    if !m.returnsVoid {
      assert Render(c, l, DudBody(m)) == IndentedLine(c, l, "return (" + m.returnType + ") default;") + "";
    }
  }
  /** The pieces of a dud member, once its declaration is known. */
  lemma DudMethodPieces(c: char, l: nat, m: Method, decl: string)
    requires Declaration(m) == Success(decl)
    ensures DudMethodText(c, l, m) == Success(IndentedLine(c, l, decl + " {") + Render(c, l + 1, DudBody(m)) + IndentedLine(c, l, "}"))
  {
  }


  /**
   * A dud member: its declaration line, then exactly the line
   * `return (<ReturnType>) default;` one level deeper when it is not void
   * and nothing when it is, then `}`; it fails exactly when its declaration does.
   */
  lemma DudMethodShape(c: char, l: nat, m: Method)
    ensures DudMethodText(c, l, m).Failure? <==> Declaration(m).Failure?
    ensures DudMethodText(c, l, m).Success? ==>
              DudMethodText(c, l, m).value
              == IndentedLine(c, l, Declaration(m).value + " {")
               + (if m.returnsVoid then "" else IndentedLine(c, l + 1, "return (" + m.returnType + ") default;"))
               + IndentedLine(c, l, "}")
  {
    DudBodyLines(c, l + 1, m);
  }

  // ---------------------------------------------------------------- shared

  /** What the member generator of a variant appends for one member. */
  function MemberText(c: char, l: nat, m: Method, isPropertyMethod: bool, v: Variant): Result<string, Error>
  {
    match v
    case Proxy => ProxyMethodText(c, l, m, isPropertyMethod)
    case Dud => DudMethodText(c, l, m)
  }

  /** Whether GenerateMethods emits a member: accessors are skipped when asked to. */
  predicate Emitted(m: Method, skipPropertyMethods: bool)
  {
    !(IsPropertyMethod(m) && skipPropertyMethods)
  }

  /** What GenerateMethods appends: each emitted member followed by a blank line, in input order. */
  function MethodsText(c: char, l: nat, ms: seq<Method>, v: Variant, skipPropertyMethods: bool): Result<string, Error>
  {
    if ms == [] then Success("")
    else
      var m := ms[|ms| - 1];
      Then(MethodsText(c, l, ms[..|ms| - 1], v, skipPropertyMethods),
           if Emitted(m, skipPropertyMethods) then Then(MemberText(c, l, m, IsPropertyMethod(m), v), Success(NewLine))
           else Success(""))
  }

  /** The header line of a property block. */
  function PropertyHeader(key: Property): string
  {
    "public " + key.typeName + " " + key.name + " {"
  }

  /** What GenerateProperties appends for one grouping: header, its accessors one level deeper, `}`, blank line. */
  function PropertyText(c: char, l: nat, g: Group, v: Variant): Result<string, Error>
  {
    Then(Success(IndentedLine(c, l, PropertyHeader(g.key))),
         Then(MethodsText(c, l + 1, g.methods, v, false), Success(IndentedLine(c, l, "}") + NewLine)))
  }

  /** What GenerateProperties appends: one property block per grouping, in lookup order. */
  function PropertiesText(c: char, l: nat, gs: seq<Group>, v: Variant): Result<string, Error>
  {
    if gs == [] then Success("")
    else Then(PropertiesText(c, l, gs[..|gs| - 1], v), PropertyText(c, l, gs[|gs| - 1], v))
  }

  /** The hook declaration for one member: `partial void <Name>Interceptor(<params>);`. */
  function InterceptorStub(m: Method): string
  {
    "partial void " + m.name + "Interceptor(" + GetParametersAsString(m.parameters) + ");"
  }

  /** What GenerateInterceptorMethodStrings appends: one hook declaration and a blank line per member. */
  function InterceptorsText(c: char, l: nat, ms: seq<Method>): string
  {
    if ms == [] then ""
    else InterceptorsText(c, l, ms[..|ms| - 1]) + IndentedLine(c, l, InterceptorStub(ms[|ms| - 1])) + NewLine
  }

  const FieldPrefix: string := "private readonly "
  const InterceptorDeclaration: string := "partial void Interceptor([CallerMemberName]string callerName = null);"

  /** What GenerateProxyClassBody appends. */
  function ProxyClassBodyText(c: char, l: nat, ms: seq<Method>, gs: seq<Group>, interfaceName: string): Result<string, Error>
  {
    Then(Success(IndentedLine(c, l, FieldPrefix + interfaceName + " _service;") + NewLine),
    Then(PropertiesText(c, l, gs, Proxy),
    Then(MethodsText(c, l, ms, Proxy, true),
         Success(IndentedLine(c, l, InterceptorDeclaration) + NewLine + InterceptorsText(c, l, ms)))))
  }

  /** The pieces of a proxy body, once its properties and methods are known. */
  lemma ProxyClassBodyPieces(c: char, l: nat, ms: seq<Method>, gs: seq<Group>, interfaceName: string, p: string, m: string)
    requires PropertiesText(c, l, gs, Proxy) == Success(p) && MethodsText(c, l, ms, Proxy, true) == Success(m)
    ensures ProxyClassBodyText(c, l, ms, gs, interfaceName)
         == Success(IndentedLine(c, l, FieldPrefix + interfaceName + " _service;") + NewLine + p + m
                    + (IndentedLine(c, l, InterceptorDeclaration) + NewLine + InterceptorsText(c, l, ms)))
  {
    var f := IndentedLine(c, l, FieldPrefix + interfaceName + " _service;") + NewLine;
    var h := IndentedLine(c, l, InterceptorDeclaration) + NewLine + InterceptorsText(c, l, ms);
    Regroup3(f, p, m, h);
  }

  /** What GenerateDudClassBody appends. */
  function DudClassBodyText(c: char, l: nat, ms: seq<Method>, gs: seq<Group>): Result<string, Error>
  {
    Then(PropertiesText(c, l, gs, Dud), MethodsText(c, l, ms, Dud, true))
  }

  function ClassBodyText(c: char, l: nat, v: Variant, ms: seq<Method>, gs: seq<Group>, interfaceName: string): Result<string, Error>
  {
    match v
    case Proxy => ProxyClassBodyText(c, l, ms, gs, interfaceName)
    case Dud => DudClassBodyText(c, l, ms, gs)
  }

  /** The lines GenerateService writes before the class body, at level 0 of a tab-indented builder. */
  function ServiceHeader(usings: string, className: string, interfaceName: string, assemblyName: string): string
  {
    IndentedLine('\t', 0, "using System.Runtime.CompilerServices;")
    + IndentedLine('\t', 0, usings)
    + IndentedLine('\t', 0, "namespace " + assemblyName + ";")
    + NewLine
    + IndentedLine('\t', 0, "/// <inheritdoc cref=\"" + interfaceName + "\"/>")
    + IndentedLine('\t', 0, "public partial class " + className + " : " + interfaceName + " {")
    + NewLine
  }

  /** What GenerateService hands to AddSource: `<className>.g.cs` and the class with its body at level 1. */
  function ServiceText(usings: string, className: string, interfaceName: string, assemblyName: string,
                       ms: seq<Method>, v: Variant): Result<Artifact, Error>
  {
    match ClassBodyText('\t', 1, v, ms, AutoPropertyLookup(ms), interfaceName)
    case Failure(e) => Failure(e)
    case Success(body) =>
      Success(Artifact(className + ".g.cs", ServiceHeader(usings, className, interfaceName, assemblyName) + body + "}"))
  }

  // ---------------------------------------------------------------- failures

  /** Whether generating one emitted member throws: an ordinary member of an unsupported accessibility, or (proxy only) an accessor name too short to strip. */
  predicate Breaks(m: Method, v: Variant)
  {
    if IsPropertyMethod(m) then v == Proxy && |m.name| < 4
    else m.accessibility !in {Internal, Public, Protected}
  }

  /** Whether a member of the interface makes the whole service fail; an accessor is only generated when it has a property. */
  predicate Fails(m: Method, v: Variant)
  {
    Breaks(m, v) && (IsPropertyMethod(m) ==> m.associatedSymbol.Some?)
  }

  /** One member's text fails exactly when the member breaks. */
  lemma MemberBreaks(c: char, l: nat, m: Method, v: Variant)
    ensures MemberText(c, l, m, IsPropertyMethod(m), v).Failure? <==> Breaks(m, v)
  {
    match v {
      case Proxy => ProxyMethodFails(c, l, m, IsPropertyMethod(m));
      case Dud => DudMethodShape(c, l, m);
    }
  }

  /** GenerateMethods fails exactly when some member it emits breaks. */
  lemma {:induction false} MethodsTextFails(c: char, l: nat, ms: seq<Method>, v: Variant, skipPropertyMethods: bool)
    ensures MethodsText(c, l, ms, v, skipPropertyMethods).Failure?
        <==> exists m :: m in ms && Emitted(m, skipPropertyMethods) && Breaks(m, v)
  {
    if ms != [] {
      var init := ms[..|ms| - 1];
      var last := ms[|ms| - 1];
      MethodsTextFails(c, l, init, v, skipPropertyMethods);
      MethodsFailStep(c, l, ms, v, skipPropertyMethods);
      assert ms == init + [last];
      if m :| m in ms && Emitted(m, skipPropertyMethods) && Breaks(m, v) {
        if m != last {
          assert m in init;
        }
      }
      if m :| m in init && Emitted(m, skipPropertyMethods) && Breaks(m, v) {
        assert m in ms;
      }
    }
  }

  /** The fold fails when its prefix fails or its last member is emitted and breaks. */
  lemma MethodsFailStep(c: char, l: nat, ms: seq<Method>, v: Variant, skipPropertyMethods: bool)
    requires ms != []
    ensures MethodsText(c, l, ms, v, skipPropertyMethods).Failure?
        <==> MethodsText(c, l, ms[..|ms| - 1], v, skipPropertyMethods).Failure?
             || (Emitted(ms[|ms| - 1], skipPropertyMethods) && Breaks(ms[|ms| - 1], v))
  {
    var last := ms[|ms| - 1];
    MemberBreaks(c, l, last, v);
  }

  /** GenerateProperties fails exactly when some accessor of some grouping breaks. */
  lemma {:induction false} PropertiesTextFails(c: char, l: nat, gs: seq<Group>, v: Variant)
    ensures PropertiesText(c, l, gs, v).Failure?
        <==> exists g, m :: g in gs && m in g.methods && Breaks(m, v)
  {
    if gs != [] {
      var init := gs[..|gs| - 1];
      var last := gs[|gs| - 1];
      PropertiesTextFails(c, l, init, v);
      MethodsTextFails(c, l + 1, last.methods, v, false);
      PropertiesFailStep(c, l, gs, v);
      assert gs == init + [last];
      assert forall g :: g in gs <==> g in init || g == last;
    }
  }

  /** The property fold fails when its prefix fails or the accessors of its last grouping do. */
  lemma PropertiesFailStep(c: char, l: nat, gs: seq<Group>, v: Variant)
    requires gs != []
    ensures PropertiesText(c, l, gs, v).Failure?
        <==> PropertiesText(c, l, gs[..|gs| - 1], v).Failure?
             || MethodsText(c, l + 1, gs[|gs| - 1].methods, v, false).Failure?
  {
  }

  /** A member sits in some grouping of the lookup exactly when it is an accessor with a property. */
  lemma GroupedMembers(ms: seq<Method>, v: Variant)
    ensures (exists g, m :: g in AutoPropertyLookup(ms) && m in g.methods && Breaks(m, v))
        <==> exists m :: m in ms && IsPropertyMethod(m) && m.associatedSymbol.Some? && Breaks(m, v)
  {
    var gs := AutoPropertyLookup(ms);
    if g, m :| g in gs && m in g.methods && Breaks(m, v) {
      var k :| 0 <= k < |gs| && gs[k] == g;
      LookupGroupContents(ms, k);
      assert m in ms && IsPropertyMethod(m) && m.associatedSymbol.Some? && Breaks(m, v);
    }
    if m :| m in ms && IsPropertyMethod(m) && m.associatedSymbol.Some? && Breaks(m, v) {
      var i :| 0 <= i < |ms| && ms[i] == m;
      AccessorInExactlyOneGroup(ms, i);
      var k :| 0 <= k < |gs| && gs[k].key == ms[i].associatedSymbol.value && ms[i] in gs[k].methods;
      assert gs[k] in gs && m in gs[k].methods && Breaks(m, v);
    }
  }

  /**
   * A service fails exactly when some member of the interface fails: an
   * ordinary member of unsupported accessibility (both variants), or, for
   * the proxy, a property accessor whose name is shorter than four characters.
   */
  lemma ServiceTextFails(usings: string, className: string, interfaceName: string, assemblyName: string,
                         ms: seq<Method>, v: Variant)
    ensures ServiceText(usings, className, interfaceName, assemblyName, ms, v).Failure?
        <==> exists m :: m in ms && Fails(m, v)
  {
    var gs := AutoPropertyLookup(ms);
    PropertiesTextFails('\t', 1, gs, v);
    MethodsTextFails('\t', 1, ms, v, true);
    GroupedMembers(ms, v);
    assert ClassBodyText('\t', 1, v, ms, gs, interfaceName).Failure?
       <==> PropertiesText('\t', 1, gs, v).Failure? || MethodsText('\t', 1, ms, v, true).Failure?;
  }

  // ---------------------------------------------------------------- folds

  /** The ordinary members, in order. */
  function Ordinaries(ms: seq<Method>): (r: seq<Method>)
    ensures forall m :: m in r <==> m in ms && !IsPropertyMethod(m)
  {
    if ms == [] then []
    else
      var init := Ordinaries(ms[..|ms| - 1]);
      var last := ms[|ms| - 1];
      assert ms == ms[..|ms| - 1] + [last];
      if IsPropertyMethod(last) then init else init + [last]
  }

  /** Skipping accessors is the same as generating the ordinary members alone, in their order. */
  lemma {:induction false} SkipAccessors(c: char, l: nat, ms: seq<Method>, v: Variant)
    ensures MethodsText(c, l, ms, v, true) == MethodsText(c, l, Ordinaries(ms), v, false)
  {
    if ms != [] {
      var init := ms[..|ms| - 1];
      var last := ms[|ms| - 1];
      SkipAccessors(c, l, init, v);
      var os := Ordinaries(ms);
      var prefix := MethodsText(c, l, init, v, true);
      if prefix.Success? {
        assert prefix.value + "" == prefix.value;
      }
      if !IsPropertyMethod(last) {
        assert os == Ordinaries(init) + [last];
        assert os[..|os| - 1] == Ordinaries(init) && os[|os| - 1] == last;
      } else {
        assert os == Ordinaries(init);
      }
    }
  }

  /** Extending the members by one appends that member's text, if it is emitted. */
  lemma MethodsStep(c: char, l: nat, ms: seq<Method>, i: nat, v: Variant, skipPropertyMethods: bool)
    requires i < |ms|
    ensures MethodsText(c, l, ms[..i + 1], v, skipPropertyMethods)
         == Then(MethodsText(c, l, ms[..i], v, skipPropertyMethods),
                 if Emitted(ms[i], skipPropertyMethods) then Then(MemberText(c, l, ms[i], IsPropertyMethod(ms[i]), v), Success(NewLine))
                 else Success(""))
  {
    assert ms[..i + 1][..i] == ms[..i];
  }

  /** A property block whose accessors render without failure. */
  lemma PropertyPieces(c: char, l: nat, g: Group, v: Variant, accessors: string)
    requires MethodsText(c, l + 1, g.methods, v, false) == Success(accessors)
    ensures PropertyText(c, l, g, v) == Success(IndentedLine(c, l, PropertyHeader(g.key)) + (accessors + (IndentedLine(c, l, "}") + NewLine)))
  {
  }

  /** Extending the groupings by one appends that grouping's property block. */
  lemma PropertiesStep(c: char, l: nat, gs: seq<Group>, k: nat, v: Variant)
    requires k < |gs|
    ensures PropertiesText(c, l, gs[..k + 1], v) == Then(PropertiesText(c, l, gs[..k], v), PropertyText(c, l, gs[k], v))
  {
    assert gs[..k + 1][..k] == gs[..k];
  }

  /** Once a prefix of the members fails, generating all of them fails with the same error. */
  lemma {:induction false} MethodsPrefixFailure(c: char, l: nat, ms: seq<Method>, i: nat, v: Variant, skipPropertyMethods: bool)
    requires i <= |ms| && MethodsText(c, l, ms[..i], v, skipPropertyMethods).Failure?
    ensures MethodsText(c, l, ms, v, skipPropertyMethods) == MethodsText(c, l, ms[..i], v, skipPropertyMethods)
    decreases |ms| - i
  {
    if i < |ms| {
      var next := ms[..i + 1];
      assert next[..|next| - 1] == ms[..i];
      MethodsPrefixFailure(c, l, ms, i + 1, v, skipPropertyMethods);
    } else {
      assert ms[..i] == ms;
    }
  }

  /** Once a prefix of the groupings fails, generating all of them fails with the same error. */
  lemma {:induction false} PropertiesPrefixFailure(c: char, l: nat, gs: seq<Group>, i: nat, v: Variant)
    requires i <= |gs| && PropertiesText(c, l, gs[..i], v).Failure?
    ensures PropertiesText(c, l, gs, v) == PropertiesText(c, l, gs[..i], v)
    decreases |gs| - i
  {
    if i < |gs| {
      var next := gs[..i + 1];
      assert next[..|next| - 1] == gs[..i];
      PropertiesPrefixFailure(c, l, gs, i + 1, v);
    } else {
      assert gs[..i] == gs;
    }
  }

  // ---------------------------------------------------------------- whole files

  /**
   * An interface without members: the proxy holds only the `_service` field
   * and the general Interceptor hook, the dud class is empty; both bodies sit
   * at one tab of indentation and the file is named after the class.
   */
  lemma EmptyInterface(usings: string, className: string, interfaceName: string, assemblyName: string)
    ensures ServiceText(usings, className, interfaceName, assemblyName, [], Proxy)
      == Success(Artifact(className + ".g.cs",
           ServiceHeader(usings, className, interfaceName, assemblyName)
           + "\t" + FieldPrefix + interfaceName + " _service;" + "\n" + "\n"
           + "\t" + InterceptorDeclaration + "\n" + "\n"
           + "}"))
    ensures ServiceText(usings, className, interfaceName, assemblyName, [], Dud)
      == Success(Artifact(className + ".g.cs", ServiceHeader(usings, className, interfaceName, assemblyName) + "}"))
  {
    var h := ServiceHeader(usings, className, interfaceName, assemblyName);
    assert AutoPropertyLookup([]) == [];
    var body := EmptyProxyBody(interfaceName);
    EmptyServiceRegroup(h, FieldPrefix, interfaceName, InterceptorDeclaration);
    assert DudClassBodyText('\t', 1, [], []).value == "";
    assert h + "" + "}" == h + "}";
  }

  /** The body of a proxy without members: the field line and the hook line, each followed by a blank line. */
  lemma EmptyProxyBody(interfaceName: string) returns (body: string)
    ensures body == "\t" + FieldPrefix + interfaceName + " _service;" + "\n" + "\n"
                  + "\t" + InterceptorDeclaration + "\n" + "\n"
    ensures ProxyClassBodyText('\t', 1, [], [], interfaceName) == Success(body)
  {
    var f := FieldPrefix + interfaceName + " _service;";
    assert PropertiesText('\t', 1, [], Proxy) == Success("");
    assert MethodsText('\t', 1, [], Proxy, true) == Success("");
    assert InterceptorsText('\t', 1, []) == "";
    ProxyClassBodyPieces('\t', 1, [], [], interfaceName, "", "");
    TabLine(f);
    TabLine(InterceptorDeclaration);
    var a, b := IndentedLine('\t', 1, f), IndentedLine('\t', 1, InterceptorDeclaration);
    EmptyBodyRegroup(FieldPrefix, interfaceName, InterceptorDeclaration, a, b);
    body := a + NewLine + "" + "" + (b + NewLine + "");
  }

  lemma EmptyBodyRegroup(prefix: string, interfaceName: string, hook: string, a: string, b: string)
    requires a == "\t" + (prefix + interfaceName + " _service;") + "\n" && b == "\t" + hook + "\n"
    ensures a + NewLine + "" + "" + (b + NewLine + "")
         == "\t" + prefix + interfaceName + " _service;" + "\n" + "\n" + "\t" + hook + "\n" + "\n"
  {
  }

  lemma EmptyServiceRegroup(h: string, prefix: string, interfaceName: string, hook: string)
    ensures h + ("\t" + prefix + interfaceName + " _service;" + "\n" + "\n" + "\t" + hook + "\n" + "\n") + "}"
         == h + "\t" + prefix + interfaceName + " _service;" + "\n" + "\n" + "\t" + hook + "\n" + "\n" + "}"
  {
  }


  /** A line one tab deep. */
  lemma TabLine(s: string)
    ensures IndentedLine('\t', 1, s) == "\t" + s + "\n"
  {
    assert Repeat('\t', 1) == "\t";
  }
}
