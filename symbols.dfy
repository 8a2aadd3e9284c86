/**
 * The parts of the compiler's method symbols (IMethodSymbol, IParameterSymbol,
 * IPropertySymbol) that the generator reads, as plain values. Type names are
 * opaque strings: how the compiler prints a type is not part of this model.
 */
module Symbols {
  import opened Wrappers

  /**
   * MethodSymbol.MethodKind. The generator only ever asks whether a kind is
   * PropertyGet or PropertySet, so every other kind is Ordinary here.
   */
  datatype MethodKind = Ordinary | PropertyGet | PropertySet

  /** Microsoft.CodeAnalysis.Accessibility. */
  datatype Accessibility =
    | NotApplicable | Private | ProtectedAndInternal | Protected | Internal | ProtectedOrInternal | Public

  /** A parameter: its type as the compiler prints it, and its name. */
  datatype Parameter = Parameter(typeName: string, name: string)

  /**
   * A property an accessor belongs to: its name, its type as printed, and
   * the identity of its IPropertySymbol. Two properties are equal only when
   * they are the same symbol, as the dictionary and ToLookup compare them;
   * two indexers share the name `this[]` and may share a type, yet differ
   * in `symbol`.
   */
  datatype Property = Property(name: string, typeName: string, symbol: nat)

  /** An interface member as the generator sees it. */
  datatype Method = Method(
    kind: MethodKind,
    name: string,                         // e.g. "FullName", "get_FirstName", "set_FirstName"
    returnType: string,                   // ReturnType as printed, "void" for void members
    returnsVoid: bool,
    parameters: seq<Parameter>,
    isStatic: bool,
    accessibility: Accessibility,         // DeclaredAccessibility
    isGeneric: bool,                      // IsGenericMethod
    typeParameters: seq<string>,          // TypeParameters, by name
    associatedSymbol: Option<Property>    // AssociatedSymbol when it is a property
  )

  /** The exceptions that can escape the generator, with the member that raised them. */
  datatype Error =
    | AccessibilityOutOfRange(member: string)  // the accessibility switch's default branch
    | NameTooShort(member: string)             // Substring(4) on an accessor name shorter than 4

  /** MethodKind is PropertyGet or PropertySet. */
  predicate IsPropertyMethod(m: Method)
  {
    m.kind == PropertyGet || m.kind == PropertySet
  }
}
