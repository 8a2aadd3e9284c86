/**
 * How the generator renders a member's declaration and its parameter lists
 * (Generator.GenerateMethodDeclaration, GetParametersAsString and
 * GetTypeParameterAsString). The same text heads both the proxy and the dud
 * member, so the two variants always share their signatures.
 */
module Declarations {
  import opened Wrappers
  import opened Text
  import opened Symbols

  /** One parameter as written in a parameter list: `<type> <name>`. */
  function ParameterString(p: Parameter): string
  {
    p.typeName + " " + p.name
  }

  function ParameterStrings(ps: seq<Parameter>): (r: seq<string>)
    ensures |r| == |ps|
    ensures forall k :: 0 <= k < |ps| ==> r[k] == ParameterString(ps[k])
  {
    seq(|ps|, k requires 0 <= k < |ps| => ParameterString(ps[k]))
  }

  /** The parameters' `<type> <name>` pairs joined with ", "; empty exactly when there are none. */
  function GetParametersAsString(ps: seq<Parameter>): (r: string)
    ensures r == "" <==> ps == []
  {
    var items := ParameterStrings(ps);
    assert ps != [] ==> |items[0]| > 0;
    Join(", ", items)
  }

  /** No comma in any parameter's type or name. */
  predicate NoCommas(ps: seq<Parameter>)
  {
    forall k :: 0 <= k < |ps| ==> ',' !in ps[k].typeName && ',' !in ps[k].name
  }

  /**
   * The parameter list holds one `<type> <name>` pair per parameter, in
   * order: cutting it at its commas yields exactly the pairs (each after the
   * first behind the one space of the separator), when no type or name
   * itself holds a comma.
   */
  lemma ParametersArity(ps: seq<Parameter>)
    requires |ps| >= 1 && NoCommas(ps)
    ensures |Split(GetParametersAsString(ps), ',')| == |ps|
    ensures Split(GetParametersAsString(ps), ',')[0] == ParameterString(ps[0])
    ensures forall k :: 1 <= k < |ps| ==> Split(GetParametersAsString(ps), ',')[k] == " " + ParameterString(ps[k])
  {
    var items := ParameterStrings(ps);
    forall k | 0 <= k < |items|
      ensures ',' !in items[k]
    {
      assert items[k] == ps[k].typeName + " " + ps[k].name;
    }
    assert ", "[0] == ',' && ", "[1..] == " ";
    JoinThenSplit(", ", items);
  }

  /** The type parameters' names joined with ", ". */
  function GetTypeParameterAsString(tps: seq<string>): (r: string)
    ensures tps == [] ==> r == ""
    ensures |tps| >= 1 ==> |r| >= |tps[0]| && r[..|tps[0]|] == tps[0]
  {
    Join(", ", tps)
  }

  /**
   * The type parameter list names each type parameter once, in order:
   * cutting it at its commas yields the names (each after the first behind
   * the separator's space), when no name holds a comma.
   */
  lemma TypeParametersArity(tps: seq<string>)
    requires |tps| >= 1 && forall k :: 0 <= k < |tps| ==> ',' !in tps[k]
    ensures |Split(GetTypeParameterAsString(tps), ',')| == |tps|
    ensures Split(GetTypeParameterAsString(tps), ',')[0] == tps[0]
    ensures forall k :: 1 <= k < |tps| ==> Split(GetTypeParameterAsString(tps), ',')[k] == " " + tps[k]
  {
    assert ", "[0] == ',' && ", "[1..] == " ";
    JoinThenSplit(", ", tps);
  }

  /** `<T1, T2>` after the name of a generic member, nothing otherwise. */
  function TypeParameterList(m: Method): string
  {
    if m.isGeneric then "<" + GetTypeParameterAsString(m.typeParameters) + ">" else ""
  }

  /** The access modifier written for each supported accessibility. */
  function AccessModifier(a: Accessibility): (r: Option<string>)
    ensures r.Some? <==> a in {Internal, Public, Protected}
  {
    match a
    case Internal => Some("internal ")
    case Public => Some("public ")
    case Protected => Some("protected ")
    case _ => None
  }

  /** What GenerateMethodDeclaration returns, or the exception it throws. */
  function Declaration(m: Method): (r: Result<string, Error>)
    ensures r.Failure? <==> !IsPropertyMethod(m) && m.accessibility !in {Internal, Public, Protected}
    ensures r.Failure? ==> r.error == AccessibilityOutOfRange(m.name)
  {
    if IsPropertyMethod(m) then
      Success(Split(m.name, '_')[0] + TypeParameterList(m))
    else
      match AccessModifier(m.accessibility)
      case None => Failure(AccessibilityOutOfRange(m.name))
      case Some(keyword) =>
        Success(keyword + (if m.isStatic then "static " else "") + (m.returnType + " ")
                + m.name + TypeParameterList(m) + ("(" + GetParametersAsString(m.parameters) + ")"))
  }

  /** Builds the declaration piece by piece, as the source does with its StringBuilder. */
  method GenerateMethodDeclaration(m: Method) returns (r: Result<string, Error>)
    ensures r == Declaration(m)
  {
    var result := "";
    var isPropertyMethod := m.kind == PropertyGet || m.kind == PropertySet;

    if !isPropertyMethod {
      // Access modifier
      match m.accessibility {
        case Internal => result := result + "internal ";
        case Public => result := result + "public ";
        case Protected => result := result + "protected ";
        case _ => return Failure(AccessibilityOutOfRange(m.name));
      }
      assert result == AccessModifier(m.accessibility).value;
      // Modifiers
      if m.isStatic {
        result := result + "static ";
      }
      assert result == AccessModifier(m.accessibility).value + (if m.isStatic then "static " else "");
      // Return type
      result := result + (m.returnType + " ");
    }
    ghost var head := result;

    // Name
    result := result + (if isPropertyMethod then Split(m.name, '_')[0] else m.name);

    // Generic type parameters
    if m.isGeneric {
      result := result + ("<" + GetTypeParameterAsString(m.typeParameters) + ">");
    }

    assert result == head + (if isPropertyMethod then Split(m.name, '_')[0] else m.name) + TypeParameterList(m);

    // Parameters
    if !isPropertyMethod {
      result := result + ("(" + GetParametersAsString(m.parameters) + ")");
    }

    assert isPropertyMethod ==> result == Split(m.name, '_')[0] + TypeParameterList(m);
    return Success(result);
  }

  /**
   * An ordinary member's declaration: access modifier, `static ` when
   * static, return type, name, type parameters when generic, and the
   * parenthesised parameter list.
   */
  lemma OrdinaryDeclaration(m: Method)
    requires !IsPropertyMethod(m) && m.accessibility in {Internal, Public, Protected}
    ensures Declaration(m) == Success(
      (if m.accessibility == Internal then "internal " else if m.accessibility == Public then "public " else "protected ")
      + (if m.isStatic then "static " else "") + m.returnType + " " + m.name
      + (if m.isGeneric then "<" + Join(", ", m.typeParameters) + ">" else "")
      + "(" + Join(", ", ParameterStrings(m.parameters)) + ")")
  {
    var keyword := AccessModifier(m.accessibility).value;
    var mods := if m.isStatic then "static " else "";
    var tpl := TypeParameterList(m);
    var pars := GetParametersAsString(m.parameters);
    assert Declaration(m).value == keyword + mods + (m.returnType + " ") + m.name + tpl + ("(" + pars + ")");
    assert tpl == if m.isGeneric then "<" + Join(", ", m.typeParameters) + ">" else "";
    assert pars == Join(", ", ParameterStrings(m.parameters));
    DeclarationRegroup(keyword + mods, m.returnType, m.name, tpl, pars);
  }

  lemma DeclarationRegroup(head: string, returnType: string, name: string, tpl: string, pars: string)
    ensures head + (returnType + " ") + name + tpl + ("(" + pars + ")") == head + returnType + " " + name + tpl + "(" + pars + ")"
  {
  }

  /**
   * An accessor's declaration is the part of its name before the first
   * underscore, followed by the type parameter list when generic: no
   * modifiers, no return type and no parameter list.
   */
  lemma AccessorDeclaration(m: Method, before: string, after: string)
    requires IsPropertyMethod(m) && m.name == before + "_" + after && '_' !in before
    ensures Declaration(m) == Success(before + TypeParameterList(m))
    ensures !m.isGeneric ==> Declaration(m) == Success(before)
  {
    var rest := "_" + after;
    assert m.name == before + rest;
    SplitAfterPrefix(before, rest, '_');
    assert rest[0] == '_' && rest[1..] == after;
    assert Split(rest, '_')[0] == "";
    assert before + "" == before;
  }

  /** The compiler's accessors `get_X` and `set_X` are declared as just `get` and `set`. */
  lemma GetSetDeclaration(m: Method)
    requires IsPropertyMethod(m) && !m.isGeneric
    requires |m.name| >= 4 && (m.name[..4] == "get_" || m.name[..4] == "set_")
    ensures Declaration(m) == Success(m.name[..3])
  {
    var before := m.name[..3];
    assert before == "get" || before == "set";
    assert m.name == before + "_" + m.name[4..];
    AccessorDeclaration(m, before, m.name[4..]);
  }

}
