/**
 * The generator's builder-driven methods (DudNet.Generation.Generator).
 * Each writes into an IndentedStringBuilder and is proved to append exactly
 * the text module Emission specifies; an exception it throws is returned as
 * `Threw`, after which the builder is abandoned, as the source abandons it.
 *
 * The Action parameters of the source (the member generator and the class
 * body generator) are the two fixed pairs GenerateProxyMethod /
 * GenerateProxyClassBody and GenerateDudMethod / GenerateDudClassBody, so
 * they are passed as a Variant.
 */
module Generator {
  import opened Wrappers
  import opened Text
  import opened Symbols
  import opened Utilities
  import opened Declarations
  import opened AutoProperties
  import opened Emission

  /** How a generation step ended: normally, or by throwing. */
  datatype Outcome = Done | Threw(error: Error)

  function OutcomeOf(r: Result<string, Error>): (o: Outcome)
    ensures o.Done? <==> r.Success?
    ensures o.Threw? ==> o.error == r.error
  {
    if r.Success? then Done else Threw(r.error)
  }

  lemma LineBlockLine(s: string, head: string, body: string, tail: string)
    ensures s + head + body + tail == s + (head + body + tail)
  {
  }

  /** GenerateDudMethod: declaration line, `return (T) default;` one level deeper unless void, `}`. */
  method GenerateDudMethod(sb: IndentedStringBuilder, m: Method, isPropertyMethod: bool) returns (o: Outcome)
    requires sb.Valid()
    modifies sb
    ensures sb.Valid()
    ensures o == OutcomeOf(DudMethodText(sb.indentChar, old(sb.level), m))
    ensures o.Done? ==> sb.level == old(sb.level)
    ensures o.Done? ==> sb.buf == old(sb.buf) + DudMethodText(sb.indentChar, old(sb.level), m).value
  {
    var methodString := GenerateMethodDeclaration(m);
    if methodString.Failure? {
      return Threw(methodString.error);
    }
    ghost var c, l, start := sb.indentChar, sb.level, sb.buf;
    ghost var head := IndentedLine(c, l, methodString.value + " {");
    ghost var body := Render(c, l + 1, DudBody(m));
    ghost var tail := IndentedLine(c, l, "}");
    DudMethodPieces(c, l, m, methodString.value);
    sb.AppendLine(methodString.value + " {");
    sb.IndentedBlockWrite(DudBody(m));
    sb.AppendLineChar('}');
    LineBlockLine(start, head, body, tail);
    return Done;
  }

  /**
   * The name and argument selection at the start of GenerateProxyMethod: the
   * accessor `get_X`/`set_X` forwards to `X` with `()`/`(value)` and
   * ``/` = value`, an ordinary member forwards its parameter names; taking
   * `Substring(4)` of a name shorter than four characters throws.
   */
  method ChooseProxyCall(m: Method, isPropertyMethod: bool) returns (r: Result<ProxyCall, Error>)
    ensures r == ProxyCallParts(m, isPropertyMethod)
  {
    var interceptorName := m.name;
    var methodName := interceptorName;
    var interceptorArgumentString: string, methodArgumentString: string;
    var returnString := if m.returnsVoid then "" else "return ";

    if isPropertyMethod {
      if |methodName| < 4 {
        return Failure(NameTooShort(m.name));
      }
      methodName := methodName[4..];
      if m.kind == PropertyGet {
        interceptorArgumentString := "()";
        methodArgumentString := "";
      } else {
        interceptorArgumentString := "(value)";
        methodArgumentString := " = value";
      }
    } else {
      interceptorArgumentString := "(" + Join(", ", ParameterNames(m.parameters)) + ")";
      methodArgumentString := interceptorArgumentString;
    }
    return Success(ProxyCall(interceptorName, interceptorArgumentString, methodName, methodArgumentString, returnString));
  }

  /** GenerateProxyMethod: declaration line, the three forwarding calls one level deeper, `}`. */
  method GenerateProxyMethod(sb: IndentedStringBuilder, m: Method, isPropertyMethod: bool) returns (o: Outcome)
    requires sb.Valid()
    modifies sb
    ensures sb.Valid()
    ensures o == OutcomeOf(ProxyMethodText(sb.indentChar, old(sb.level), m, isPropertyMethod))
    ensures o.Done? ==> sb.level == old(sb.level)
    ensures o.Done? ==> sb.buf == old(sb.buf) + ProxyMethodText(sb.indentChar, old(sb.level), m, isPropertyMethod).value
  {
    var methodString := GenerateMethodDeclaration(m);
    if methodString.Failure? {
      return Threw(methodString.error);
    }

    var parts := ChooseProxyCall(m, isPropertyMethod);
    if parts.Failure? {
      return Threw(parts.error);
    }
    var call := parts.value;
    ghost var c, l, start := sb.indentChar, sb.level, sb.buf;
    ghost var head := IndentedLine(c, l, methodString.value + " {");
    ghost var body := Render(c, l + 1, ProxyBody(call));
    ghost var tail := IndentedLine(c, l, "}");
    ProxyMethodPieces(c, l, m, isPropertyMethod, methodString.value, call);

    sb.AppendLine(methodString.value + " {");
    sb.IndentedBlockWrite(ProxyBody(call));
    sb.AppendLineChar('}');
    LineBlockLine(start, head, body, tail);
    return Done;
  }

  /** The member generator a variant passes to GenerateProperties and GenerateMethods. */
  method GenerateMember(sb: IndentedStringBuilder, m: Method, isPropertyMethod: bool, v: Variant) returns (o: Outcome)
    requires sb.Valid()
    modifies sb
    ensures sb.Valid()
    ensures o == OutcomeOf(MemberText(sb.indentChar, old(sb.level), m, isPropertyMethod, v))
    ensures o.Done? ==> sb.level == old(sb.level)
    ensures o.Done? ==> sb.buf == old(sb.buf) + MemberText(sb.indentChar, old(sb.level), m, isPropertyMethod, v).value
  {
    match v {
      case Proxy => o := GenerateProxyMethod(sb, m, isPropertyMethod);
      case Dud => o := GenerateDudMethod(sb, m, isPropertyMethod);
    }
  }

  /** GenerateMethods: each member not skipped, followed by a blank line, in order. */
  method GenerateMethods(sb: IndentedStringBuilder, ms: seq<Method>, v: Variant, skipPropertyMethods: bool)
    returns (o: Outcome)
    requires sb.Valid()
    modifies sb
    ensures sb.Valid()
    ensures o == OutcomeOf(MethodsText(sb.indentChar, old(sb.level), ms, v, skipPropertyMethods))
    ensures o.Done? ==> sb.level == old(sb.level)
    ensures o.Done? ==> sb.buf == old(sb.buf) + MethodsText(sb.indentChar, old(sb.level), ms, v, skipPropertyMethods).value
  {
    ghost var c, l := sb.indentChar, sb.level;
    for i := 0 to |ms|
      invariant sb.Valid() && sb.level == l
      invariant MethodsText(c, l, ms[..i], v, skipPropertyMethods).Success?
      invariant sb.buf == old(sb.buf) + MethodsText(c, l, ms[..i], v, skipPropertyMethods).value
    {
      var m := ms[i];
      var isPropertyMethod := m.kind == PropertyGet || m.kind == PropertySet;
      ghost var prefix := MethodsText(c, l, ms[..i], v, skipPropertyMethods).value;
      MethodsStep(c, l, ms, i, v, skipPropertyMethods);

      if isPropertyMethod && skipPropertyMethods {
        assert prefix + "" == prefix;
        continue;
      }

      var r := GenerateMember(sb, m, isPropertyMethod, v);
      if r.Threw? {
        MethodsPrefixFailure(c, l, ms, i + 1, v, skipPropertyMethods);
        return r;
      }
      ghost var member := MemberText(c, l, m, isPropertyMethod, v).value;
      assert MethodsText(c, l, ms[..i + 1], v, skipPropertyMethods) == Success(prefix + (member + NewLine));
      sb.AppendNewLine();
      Regroup3(old(sb.buf), prefix, member, NewLine);
    }
    assert ms[..|ms|] == ms;
    return Done;
  }

  /** One grouping of GenerateProperties: its header, its accessors one level deeper, `}` and a blank line. */
  method GenerateProperty(sb: IndentedStringBuilder, grouping: Group, v: Variant) returns (o: Outcome)
    requires sb.Valid()
    modifies sb
    ensures sb.Valid()
    ensures o == OutcomeOf(PropertyText(sb.indentChar, old(sb.level), grouping, v))
    ensures o.Done? ==> sb.level == old(sb.level)
    ensures o.Done? ==> sb.buf == old(sb.buf) + PropertyText(sb.indentChar, old(sb.level), grouping, v).value
  {
    ghost var c, l, start := sb.indentChar, sb.level, sb.buf;
    sb.AppendLine(PropertyHeader(grouping.key));
    // IndentedBlockWrite(sb => GenerateMethods(sb, grouping.ToList(), methodGenerator))
    sb.IncrementIndentation();
    var r := GenerateMethods(sb, grouping.methods, v, false);
    if r.Threw? {
      return r;
    }
    sb.DecrementIndentation();
    sb.AppendLineChar('}');
    sb.AppendNewLine();
    ghost var accessors := MethodsText(c, l + 1, grouping.methods, v, false).value;
    PropertyPieces(c, l, grouping, v, accessors);
    Regroup4(start, IndentedLine(c, l, PropertyHeader(grouping.key)), accessors, IndentedLine(c, l, "}"), NewLine);
    return Done;
  }

  /** GenerateProperties: every grouping of the lookup, in order. */
  method GenerateProperties(sb: IndentedStringBuilder, gs: seq<Group>, v: Variant) returns (o: Outcome)
    requires sb.Valid()
    modifies sb
    ensures sb.Valid()
    ensures o == OutcomeOf(PropertiesText(sb.indentChar, old(sb.level), gs, v))
    ensures o.Done? ==> sb.level == old(sb.level)
    ensures o.Done? ==> sb.buf == old(sb.buf) + PropertiesText(sb.indentChar, old(sb.level), gs, v).value
  {
    ghost var c, l := sb.indentChar, sb.level;
    for k := 0 to |gs|
      invariant sb.Valid() && sb.level == l
      invariant PropertiesText(c, l, gs[..k], v).Success?
      invariant sb.buf == old(sb.buf) + PropertiesText(c, l, gs[..k], v).value
    {
      ghost var prefix := PropertiesText(c, l, gs[..k], v).value;
      PropertiesStep(c, l, gs, k, v);
      var r := GenerateProperty(sb, gs[k], v);
      if r.Threw? {
        PropertiesPrefixFailure(c, l, gs, k + 1, v);
        return r;
      }
      Regroup2(old(sb.buf), prefix, PropertyText(c, l, gs[k], v).value);
    }
    assert gs[..|gs|] == gs;
    return Done;
  }

  /** GenerateInterceptorMethodStrings: one `partial void <Name>Interceptor(<params>);` and a blank line per member. */
  method GenerateInterceptorMethodStrings(sb: IndentedStringBuilder, ms: seq<Method>)
    requires sb.Valid()
    modifies sb
    ensures sb.Valid() && sb.level == old(sb.level)
    ensures sb.buf == old(sb.buf) + InterceptorsText(sb.indentChar, old(sb.level), ms)
  {
    for i := 0 to |ms|
      invariant sb.Valid() && sb.level == old(sb.level)
      invariant sb.buf == old(sb.buf) + InterceptorsText(sb.indentChar, sb.level, ms[..i])
    {
      var m := ms[i];
      assert ms[..i + 1][..i] == ms[..i] && ms[..i + 1][i] == m;
      var name := m.name;
      var parameters := GetParametersAsString(m.parameters);
      sb.AppendLine("partial void " + name + "Interceptor(" + parameters + ");");
      sb.AppendNewLine();
    }
    assert ms[..|ms|] == ms;
  }

  lemma ProxyBodyRegroup(s: string, f: string, p: string, m: string, h: string, t: string)
    ensures s + f + NewLine + p + m + h + NewLine + t == s + (f + NewLine + p + m + (h + NewLine + t))
  {
    var x := f + NewLine + p + m;
    assert s + f + NewLine + p + m == s + x;
    assert s + x + h + NewLine + t == s + x + (h + NewLine + t);
  }

  /** GenerateProxyClassBody: the `_service` field, properties, methods, the general hook and the per-member hooks. */
  method GenerateProxyClassBody(sb: IndentedStringBuilder, ms: seq<Method>, gs: seq<Group>, interfaceName: string)
    returns (o: Outcome)
    requires sb.Valid()
    modifies sb
    ensures sb.Valid()
    ensures o == OutcomeOf(ProxyClassBodyText(sb.indentChar, old(sb.level), ms, gs, interfaceName))
    ensures o.Done? ==> sb.level == old(sb.level)
    ensures o.Done? ==> sb.buf == old(sb.buf) + ProxyClassBodyText(sb.indentChar, old(sb.level), ms, gs, interfaceName).value
  {
    ghost var c, l, start := sb.indentChar, sb.level, sb.buf;
    sb.AppendLine(FieldPrefix + interfaceName + " _service;");
    sb.AppendNewLine();

    var r := GenerateProperties(sb, gs, Proxy);
    if r.Threw? {
      return r;
    }
    ghost var p := PropertiesText(c, l, gs, Proxy).value;
    r := GenerateMethods(sb, ms, Proxy, true);
    if r.Threw? {
      return r;
    }
    ghost var m := MethodsText(c, l, ms, Proxy, true).value;

    sb.AppendLine(InterceptorDeclaration);
    sb.AppendNewLine();
    // BlockWrite(sb => GenerateInterceptorMethodStrings(sb, methods)) writes at the current level
    GenerateInterceptorMethodStrings(sb, ms);

    ghost var f := IndentedLine(c, l, FieldPrefix + interfaceName + " _service;");
    ghost var h := IndentedLine(c, l, InterceptorDeclaration);
    ghost var stubs := InterceptorsText(c, l, ms);
    ProxyClassBodyPieces(c, l, ms, gs, interfaceName, p, m);
    ProxyBodyRegroup(start, f, p, m, h, stubs);
    return Done;
  }

  /** GenerateDudClassBody: properties, then the ordinary methods. */
  method GenerateDudClassBody(sb: IndentedStringBuilder, ms: seq<Method>, gs: seq<Group>, interfaceName: string)
    returns (o: Outcome)
    requires sb.Valid()
    modifies sb
    ensures sb.Valid()
    ensures o == OutcomeOf(DudClassBodyText(sb.indentChar, old(sb.level), ms, gs))
    ensures o.Done? ==> sb.level == old(sb.level)
    ensures o.Done? ==> sb.buf == old(sb.buf) + DudClassBodyText(sb.indentChar, old(sb.level), ms, gs).value
  {
    ghost var c, l, start := sb.indentChar, sb.level, sb.buf;
    var r := GenerateProperties(sb, gs, Dud);
    if r.Threw? {
      return r;
    }
    o := GenerateMethods(sb, ms, Dud, true);
    if o.Done? {
      Regroup2(start, PropertiesText(c, l, gs, Dud).value, MethodsText(c, l, ms, Dud, true).value);
    }
  }

  /** The class body generator a variant passes to GenerateService. */
  method GenerateClassBody(sb: IndentedStringBuilder, v: Variant, ms: seq<Method>, gs: seq<Group>, interfaceName: string)
    returns (o: Outcome)
    requires sb.Valid()
    modifies sb
    ensures sb.Valid()
    ensures o == OutcomeOf(ClassBodyText(sb.indentChar, old(sb.level), v, ms, gs, interfaceName))
    ensures o.Done? ==> sb.level == old(sb.level)
    ensures o.Done? ==> sb.buf == old(sb.buf) + ClassBodyText(sb.indentChar, old(sb.level), v, ms, gs, interfaceName).value
  {
    match v {
      case Proxy => o := GenerateProxyClassBody(sb, ms, gs, interfaceName);
      case Dud => o := GenerateDudClassBody(sb, ms, gs, interfaceName);
    }
  }

  /** The lines GenerateService writes before the class body, at the builder's new-builder level. */
  method AppendServiceHeader(sb: IndentedStringBuilder, usings: string, className: string, interfaceName: string, assemblyName: string)
    requires sb.Valid() && sb.indentChar == '\t' && sb.level == 0
    modifies sb
    ensures sb.Valid() && sb.level == 0
    ensures sb.buf == old(sb.buf) + ServiceHeader(usings, className, interfaceName, assemblyName)
  {
    ghost var start := sb.buf;
    sb.AppendLine("using System.Runtime.CompilerServices;");
    sb.AppendLine(usings);
    sb.AppendLine("namespace " + assemblyName + ";");
    sb.AppendNewLine();
    sb.AppendLine("/// <inheritdoc cref=\"" + interfaceName + "\"/>");
    sb.AppendLine("public partial class " + className + " : " + interfaceName + " {");
    sb.AppendNewLine();
    HeaderRegroup(start,
      IndentedLine('\t', 0, "using System.Runtime.CompilerServices;"),
      IndentedLine('\t', 0, usings),
      IndentedLine('\t', 0, "namespace " + assemblyName + ";"),
      IndentedLine('\t', 0, "/// <inheritdoc cref=\"" + interfaceName + "\"/>"),
      IndentedLine('\t', 0, "public partial class " + className + " : " + interfaceName + " {"));
  }

  lemma HeaderRegroup(s: string, a: string, b: string, c: string, d: string, e: string)
    ensures s + a + b + c + NewLine + d + e + NewLine == s + (a + b + c + NewLine + d + e + NewLine)
  {
    var x := a + b + c + NewLine + d + e;
    assert s + a + b + c + NewLine + d + e == s + x;
  }

  /** GenerateService: the file header, the class body one tab deep, the closing brace; named `<className>.g.cs`. */
  method GenerateService(usings: string, className: string, interfaceName: string, assemblyName: string,
                         ms: seq<Method>, v: Variant) returns (r: Result<Artifact, Error>)
    ensures r == ServiceText(usings, className, interfaceName, assemblyName, ms, v)
  {
    var newClassName := className;
    var propertyMethodLookup := GetAutoPropertyMethods(ms);
    ghost var header := ServiceHeader(usings, className, interfaceName, assemblyName);

    var sb := new IndentedStringBuilder();
    AppendServiceHeader(sb, usings, newClassName, interfaceName, assemblyName);
    assert sb.buf == header;

    // IndentedBlockWrite(sb => classBodyGenerator(sb, methods, propertyMethodLookup, interfaceName))
    sb.IncrementIndentation();
    var o := GenerateClassBody(sb, v, ms, propertyMethodLookup, interfaceName);
    if o.Threw? {
      return Failure(o.error);
    }
    ghost var body := ClassBodyText('\t', 1, v, ms, propertyMethodLookup, interfaceName).value;
    sb.DecrementIndentation();
    sb.Append('}');
    assert sb.buf == header + body + "}";

    var source := sb.ToString();
    return Success(Artifact(newClassName + ".g.cs", source));
  }

  /** GenerateProxyService: the proxy class `<className>Proxy` in `<className>Proxy.g.cs`. */
  method GenerateProxyService(usings: string, className: string, interfaceName: string, assemblyName: string,
                              ms: seq<Method>) returns (r: Result<Artifact, Error>)
    ensures r == ServiceText(usings, className + "Proxy", interfaceName, assemblyName, ms, Proxy)
    ensures r.Failure? <==> exists m :: m in ms && Fails(m, Proxy)
    ensures r.Success? ==> r.value.hintName == className + "Proxy" + ".g.cs"
  {
    var newClassName := className + "Proxy";
    ServiceTextFails(usings, newClassName, interfaceName, assemblyName, ms, Proxy);
    r := GenerateService(usings, newClassName, interfaceName, assemblyName, ms, Proxy);
  }

  /** GenerateDudService: the dud class `<className>Dud` in `<className>Dud.g.cs`. */
  method GenerateDudService(usings: string, className: string, interfaceName: string, assemblyName: string,
                            ms: seq<Method>) returns (r: Result<Artifact, Error>)
    ensures r == ServiceText(usings, className + "Dud", interfaceName, assemblyName, ms, Dud)
    ensures r.Failure? <==> exists m :: m in ms && Fails(m, Dud)
    ensures r.Success? ==> r.value.hintName == className + "Dud" + ".g.cs"
  {
    var newClassName := className + "Dud";
    ServiceTextFails(usings, newClassName, interfaceName, assemblyName, ms, Dud);
    r := GenerateService(usings, newClassName, interfaceName, assemblyName, ms, Dud);
  }
}
