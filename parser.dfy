/**
 * The syntactic filter of the incremental generator (DudNet.Generation.Parser):
 * a syntax node is a potential target when it is a class declaration with at
 * least one attribute list and one of its attributes is named ProxyService.
 *
 * Only what the filter reads of Roslyn's syntax tree is kept: whether the
 * node is a class declaration, its attribute lists, and for each attribute
 * the full text of its name (Name.ToFullString(), surrounding trivia included).
 */
module Parser {
  import opened Text

  /** One attribute, as the full text of its name. */
  datatype Attribute = Attribute(fullName: string)

  /** One bracketed attribute list, `[A, B]`. */
  datatype AttributeList = AttributeList(attributes: seq<Attribute>)

  /** A syntax node: a class declaration with its attribute lists, or any other node. */
  datatype SyntaxNode = ClassDeclaration(attributeLists: seq<AttributeList>) | OtherNode

  /** The four spellings the switch accepts: short or long, with or without the namespace. */
  predicate IsProxyServiceSpelling(name: string)
  {
    name == "ProxyService" || name == "ProxyServiceAttribute"
    || name == "DudNet.Attributes.ProxyService" || name == "DudNet.Attributes.ProxyServiceAttribute"
  }

  /** Whether an attribute's trimmed name is one of the four spellings. */
  predicate IsProxyServiceName(fullName: string)
  {
    IsProxyServiceSpelling(Trim(fullName))
  }

  /** Some attribute of some list is named ProxyService. */
  predicate MarkedWithProxyService(lists: seq<AttributeList>)
  {
    exists i, j :: 0 <= i < |lists| && 0 <= j < |lists[i].attributes| && IsProxyServiceName(lists[i].attributes[j].fullName)
  }

  /** Scans the lists in order and stops at the first attribute named ProxyService. */
  method HasProxyServiceAttribute(attributeLists: seq<AttributeList>) returns (found: bool)
    ensures found <==> MarkedWithProxyService(attributeLists)
  {
    for i := 0 to |attributeLists|
      invariant forall i', j :: 0 <= i' < i && 0 <= j < |attributeLists[i'].attributes| ==>
        !IsProxyServiceName(attributeLists[i'].attributes[j].fullName)
    {
      var attributes := attributeLists[i].attributes;
      for j := 0 to |attributes|
        invariant forall j' :: 0 <= j' < j ==> !IsProxyServiceName(attributes[j'].fullName)
      {
        var attributeName := Trim(attributes[j].fullName);
        if IsProxyServiceSpelling(attributeName) {
          assert IsProxyServiceName(attributeLists[i].attributes[j].fullName);
          return true;
        }
      }
      assert forall j :: 0 <= j < |attributeLists[i].attributes| ==> !IsProxyServiceName(attributeLists[i].attributes[j].fullName);
    }
    return false;
  }

  /**
   * A node is a potential target exactly when it is a class declaration that
   * has at least one attribute list and is marked with ProxyService; in
   * particular no other kind of node and no class without attribute lists is.
   */
  method IsPotentialTarget(node: SyntaxNode) returns (r: bool)
    ensures r <==> node.ClassDeclaration? && |node.attributeLists| > 0 && MarkedWithProxyService(node.attributeLists)
    ensures !node.ClassDeclaration? ==> !r
    ensures node.ClassDeclaration? && node.attributeLists == [] ==> !r
  {
    if node.ClassDeclaration? && |node.attributeLists| > 0 {
      r := HasProxyServiceAttribute(node.attributeLists);
    } else {
      r := false;
    }
  }

  /** White space around the name, such as the trivia ToFullString keeps, does not matter. */
  lemma PaddedNameAccepted(before: string, name: string, after: string)
    requires IsProxyServiceSpelling(name)
    requires forall k :: 0 <= k < |before| ==> IsWhiteSpace(before[k])
    requires forall k :: 0 <= k < |after| ==> IsWhiteSpace(after[k])
    ensures IsProxyServiceName(before + name + after)
  {
    TrimPadding(before, name, after);
    SpellingUnpadded(name);
    TrimUnpadded(name);
  }

  /** Each spelling starts with `P` or `D` and ends with `e`. */
  lemma SpellingUnpadded(name: string)
    requires IsProxyServiceSpelling(name)
    ensures name != [] && !IsWhiteSpace(name[0]) && !IsWhiteSpace(name[|name| - 1])
  {
    assert name[0] == 'P' || name[0] == 'D';
    assert name[|name| - 1] == 'e';
  }

  /**
   * A name without surrounding white space is accepted exactly when it is one
   * of the four spellings: a name that only contains, starts or ends with one
   * of them is rejected.
   */
  lemma ExactNameOnly(name: string)
    requires name != [] && !IsWhiteSpace(name[0]) && !IsWhiteSpace(name[|name| - 1])
    ensures IsProxyServiceName(name) <==> IsProxyServiceSpelling(name)
  {
    TrimUnpadded(name);
  }

  /** Names that merely contain the attribute's name are not matches. */
  lemma NearMissesRejected()
    ensures !IsProxyServiceName("MyProxyService")
    ensures !IsProxyServiceName("ProxyServiceFactory")
    ensures !IsProxyServiceName("Attributes.ProxyService")
  {
    ExactNameOnly("MyProxyService");
    ExactNameOnly("ProxyServiceFactory");
    ExactNameOnly("Attributes.ProxyService");
  }
}
