# DudNet generation core in Dafny

DudNet is a C# source generator. For a class marked `[ProxyService]` that
implements an interface, it writes two companion classes: a *proxy* and a
*dud*. The proxy forwards every interface member to a wrapped `_service`
through `Interceptor` hooks. The dud is a null object that returns
`default`. This project models the part of DudNet that decides and writes
that text:

- **`Utilities.IndentedStringBuilder`** (`indented_string_builder.dfy`) is a
  class with the fields of the C# builder: the accumulated text `buf`, the
  indentation `level`, the cached `indent` string and `indentChar`. Its
  `Valid()` invariant says that `indent` is always `indentChar` repeated
  `level` times. The `Action<IIndentedStringBuilder>` callbacks become a
  command datatype `Cmd`. `Render` states what text a callback appends; the
  methods `Run`/`RunCmd` carry a callback out on the builder.
- **The engine of `Generator`**, in five files:
  - `symbols.dfy` holds the member model: `IMethodSymbol` as a datatype with
    opaque type-name strings.
  - `declarations.dfy` renders declarations and parameter lists.
  - `auto_properties.dfy` groups accessors by property: the dictionary, and
    `ToLookup` over it.
  - `emission.dfy` holds the *expected text*: for every generator method, a
    pure function of its inputs giving the exact text it appends. Each one
    that can fail yields a `Result` whose `Failure` stands for the exception
    the C# code throws.
  - `generator.dfy` holds the imperative methods, each proved to produce
    exactly its expected text, or to report the same exception.
    - Seven are the C# methods that write into a builder they are given:
      `GenerateDudMethod`, `GenerateProxyMethod`, `GenerateMethods`,
      `GenerateProperties`, `GenerateInterceptorMethodStrings`,
      `GenerateProxyClassBody` and `GenerateDudClassBody`.
    - `GenerateService`, `GenerateProxyService` and `GenerateDudService` are
      C# methods that take no builder. `GenerateService` creates its own and
      returns the file it yields.
    - Five are parts of a C# method pulled out into methods of their own:
      - `GenerateMember` is the call through the `Action` parameter;
      - `GenerateClassBody` is the callback that writes the class body;
      - `GenerateProperty` is one iteration of the property loop;
      - `AppendServiceHeader` is the header lines of `GenerateService`;
      - `ChooseProxyCall` is the choice of hook name and arguments inside
        `GenerateProxyMethod`. It takes no builder.
  - The other C# methods of `Generator` live with the data they work on:
    `GenerateMethodDeclaration`, `GetParametersAsString` and
    `GetTypeParameterAsString` in `declarations.dfy`, and
    `TryGetAutoProperty` and `GetAutoPropertyMethods` in
    `auto_properties.dfy`.
- **`Parser`** (`parser.dfy`) holds the syntactic filter. `IsPotentialTarget`
  works on an abstract syntax node. `HasProxyServiceAttribute` is a
  nested-loop method proved equal to an existential over a class's attribute
  lists.

`text.dfy` holds the .NET primitives the code uses: `new string(c, n)`,
`string.Join`, `string.Split(char)`, `char.IsWhiteSpace` and `string.Trim`.
`wrappers.dfy` holds `Option` and `Result`.

`Environment.NewLine` is the single character `"\n"`. The two `Action`
parameters of the C# `Generator` take only two values: the proxy pair
`GenerateProxyMethod`/`GenerateProxyClassBody` and the dud pair
`GenerateDudMethod`/`GenerateDudClassBody`. They are passed as a `Variant`.
`context.AddSource(hint, text)` becomes the returned `Artifact(hintName,
source)`.

Where the expected text in DudNet.Tests/Generation/ProxyServiceGeneratorTests.cs
differs from Generator.cs, the model follows Generator.cs:
- both classes carry the `/// <inheritdoc cref=...>` line;
- both are `public partial class`;
- both start with `using System.Runtime.CompilerServices;`;
- a void dud member's body is an empty block over two lines.

## Model

| member | source | states |
|---|---|---|
| `Utilities.IndentedStringBuilder.constructor` | DudNet/Utilities/IndentedStringBuilder.cs:12-18 | A new builder is empty, at the starting level, with its indent string matching that level. |
| `Utilities.IndentedStringBuilder.GenerateIndentationString` | DudNet/Utilities/IndentedStringBuilder.cs:70-73 | The indentation string is exactly `level` copies of the indentation character. |
| `Utilities.IndentedStringBuilder.IncrementIndentation` | DudNet/Utilities/IndentedStringBuilder.cs:20-24 | Raises the level by `amount`, keeps the text, and re-establishes the indent-matches-level invariant. |
| `Utilities.IndentedStringBuilder.DecrementIndentation` | DudNet/Utilities/IndentedStringBuilder.cs:26-30 | The new level is max(0, level - amount), so it never goes negative; the text is untouched and the invariant holds. |
| `Utilities.IndentedStringBuilder.Append` | DudNet/Utilities/IndentedStringBuilder.cs:32-36 | Appends exactly the one character, without indentation; earlier text and the level are unchanged. |
| `Utilities.IndentedStringBuilder.AppendNewLine` | DudNet/Utilities/IndentedStringBuilder.cs:38-42 | `AppendLine()` appends only a newline, without indentation. |
| `Utilities.IndentedStringBuilder.AppendLineChar` | DudNet/Utilities/IndentedStringBuilder.cs:44-48 | `AppendLine(char)` appends indent + character + newline; earlier text stays a prefix. |
| `Utilities.IndentedStringBuilder.AppendLine` | DudNet/Utilities/IndentedStringBuilder.cs:50-54 | `AppendLine(string)` appends indent + line + newline; earlier text stays a prefix and the level is unchanged. |
| `Utilities.IndentedStringBuilder.BlockWrite` | DudNet/Utilities/IndentedStringBuilder.cs:56-60 | Appends what the callback renders at the current level and leaves the level as it was. |
| `Utilities.IndentedStringBuilder.IndentedBlockWrite` | DudNet/Utilities/IndentedStringBuilder.cs:62-68 | Appends what the callback renders one level deeper; for any nested callback the level afterwards equals the level before. |
| `Utilities.IndentedStringBuilder.Run` | DudNet/Utilities/IndentedStringBuilder.cs:58 | Invoking a callback makes its calls in order: the text grows by the callback's rendering and the level is restored. |
| `Utilities.IndentedStringBuilder.RunCmd` | DudNet/Utilities/IndentedStringBuilder.cs:65 | One call of a callback appends that call's rendering at the current level. |
| `Utilities.IndentedStringBuilder.ToString` | DudNet/Utilities/IndentedStringBuilder.cs:75-78 | Returns the accumulated text (empty for a new builder, by the constructor). |
| `Utilities.RenderAppend` | DudNet/Utilities/IndentedStringBuilder.cs:56-68 | Running two callbacks in sequence appends their texts in sequence. |
| `Utilities.BlockIsTransparent` | DudNet/Utilities/IndentedStringBuilder.cs:56-60 | Inside any callback, `BlockWrite(a)` has exactly the effect of making a's calls directly. |
| `Utilities.IndentedLineIsDeeper` | DudNet/Utilities/IndentedStringBuilder.cs:62-68 | A line written directly inside `IndentedBlockWrite` carries exactly one more indentation character than the same line outside it. |
| `Text.Repeat` | DudNet/Utilities/IndentedStringBuilder.cs:72 | `new string(c, n)` has length n. |
| `Text.RepeatIsConstant` | DudNet/Utilities/IndentedStringBuilder.cs:72 | Every character of `new string(c, n)` is c. |
| `Text.Split` | DudNet/Generation/Generator.cs:309 | `Split('_')` yields at least one piece, and no piece contains the separator. |
| `Text.SplitThenJoin` | DudNet/Generation/Generator.cs:309 | Joining the pieces of a split with the separator gives the original name back. |
| `Text.Join` | DudNet/Generation/Generator.cs:369 | `string.Join` over no pieces is empty, and over one or more pieces it begins with the first piece. |
| `Text.JoinThenSplit` | DudNet/Generation/Generator.cs:379 | Splitting a join at the separator's first character gives one piece per joined piece, in order: the first piece, then each later one preceded by the rest of the separator, which for `", "` is a single space. This holds when neither the pieces nor the rest of the separator contain that character. |
| `Text.WhiteSpaceCharacters` | DudNet/Generation/Parser.cs:35 | Space, tab, line feed and carriage return are white space; digits, Latin letters, `.` and `_` are not. |
| `Text.TrimRemovesPadding` | DudNet/Generation/Parser.cs:35 | `Trim` returns a contiguous part of its input. Everything it cuts before and after that part is white space, and the part neither starts nor ends with white space. |
| `Text.TrimStartRemovesLeadingSpace` | DudNet/Generation/Parser.cs:35 | `TrimStart` removes exactly the leading white space: the result is a suffix that does not start with white space, and everything cut is white space. |
| `Text.TrimEndRemovesTrailingSpace` | DudNet/Generation/Parser.cs:35 | `TrimEnd` removes exactly the trailing white space: the result is a prefix that does not end with white space, and everything cut is white space. |
| `Text.TrimPadding` | DudNet/Generation/Parser.cs:35 | White-space padding on either side makes no difference to `Trim`. |
| `Text.TrimUnpadded` | DudNet/Generation/Parser.cs:35 | `Trim` leaves alone a text that neither starts nor ends with white space. |
| `Declarations.ParameterStrings` | DudNet/Generation/Generator.cs:379 | One `"<type> <name>"` piece per parameter, in order. |
| `Declarations.GetParametersAsString` | DudNet/Generation/Generator.cs:377-380 | The parameter list is empty exactly when there are no parameters. |
| `Declarations.ParametersArity` | DudNet/Generation/Generator.cs:377-380 | Cutting the parameter list at its commas gives one `"<type> <name>"` pair per parameter, in order: the first pair, then each later one after a single space. |
| `Declarations.GetTypeParameterAsString` | DudNet/Generation/Generator.cs:367-370 | No type parameters give the empty string; otherwise the text starts with the first type parameter. |
| `Declarations.TypeParametersArity` | DudNet/Generation/Generator.cs:367-370 | Cutting the type-parameter list at its commas gives one piece per type parameter, in order: the first type parameter, then each later one after a single space. This holds under the stated no-comma condition. |
| `Declarations.AccessModifier` | DudNet/Generation/Generator.cs:282-299 | Exactly internal, public and protected have a modifier. |
| `Declarations.Declaration` | DudNet/Generation/Generator.cs:273-319 | A declaration fails exactly for an ordinary member whose accessibility is not internal, public or protected, and the model's failure names that member. |
| `Declarations.GenerateMethodDeclaration` | DudNet/Generation/Generator.cs:273-319 | The step-by-step StringBuilder construction yields exactly the specified declaration or failure. |
| `Declarations.OrdinaryDeclaration` | DudNet/Generation/Generator.cs:279-316 | An ordinary member's declaration is `<internal|public|protected> [static ]<ReturnType> <Name>[<T1, T2>](<type name, ...>)`. |
| `Declarations.AccessorDeclaration` | DudNet/Generation/Generator.cs:277-316 | An accessor named `a_b`, where `a` has no underscore, is declared as just `a` with its type-parameter list: no modifiers, return type or parameter list. A non-generic one is declared as `a` alone. |
| `Declarations.GetSetDeclaration` | DudNet/Generation/Generator.cs:309 | A non-generic accessor `get_X` or `set_X` is declared as exactly `get` or `set`. |
| `AutoProperties.TryGetAutoProperty` | DudNet/Generation/Generator.cs:441-451 | Yields a property exactly for a getter or setter with an associated property, and that property is the associated one. |
| `AutoProperties.GetAutoPropertyMethods` | DudNet/Generation/Generator.cs:415-433 | The dictionary-filling loop and `ToLookup` produce the lookup of the accessor entries. Groupings are keyed by the property symbol's identity, not by its name and type. |
| `AutoProperties.AccessorEntriesSound` | DudNet/Generation/Generator.cs:423-428 | The dictionary has no more entries than there are input members, and each entry pairs an input member with the property `TryGetAutoProperty` gives it. |
| `AutoProperties.Insert` | DudNet/Generation/Generator.cs:431 | Adding an entry to a lookup adds at most one grouping, and the result is never empty. |
| `AutoProperties.ToLookupSize` | DudNet/Generation/Generator.cs:431 | `ToLookup` has at most one grouping per entry, and no groupings exactly when there are no entries. |
| `AutoProperties.DistinctElements` | DudNet/Generation/Generator.cs:431 | First-seen deduplication keeps exactly the elements of its input, each once. |
| `AutoProperties.InsertKeys` | DudNet/Generation/Generator.cs:431 | Adding an entry keeps the lookup's keys, or appends the entry's property when it is new. |
| `AutoProperties.InsertMethods` | DudNet/Generation/Generator.cs:431 | Adding an entry appends its accessor to the grouping of its property and leaves every other grouping alone. |
| `AutoProperties.InsertNewGroup` | DudNet/Generation/Generator.cs:431 | An entry for a new property opens one last grouping holding only its accessor. |
| `AutoProperties.InsertGroups` | DudNet/Generation/Generator.cs:431 | Adding an entry to groupings that match the entries so far gives groupings that match the extended entries. |
| `AutoProperties.ToLookupKeys` | DudNet/Generation/Generator.cs:431 | The lookup has one grouping per distinct property, in the order the properties are first seen. |
| `AutoProperties.KeysDistinct` | DudNet/Generation/Generator.cs:431 | No two groupings share a property. |
| `AutoProperties.ToLookupGroups` | DudNet/Generation/Generator.cs:431 | Each grouping holds exactly its property's accessors, in entry order. |
| `AutoProperties.MethodsOfAbsent` | DudNet/Generation/Generator.cs:431 | A property that no entry carries has no accessors. |
| `AutoProperties.MethodsOfAccessorEntries` | DudNet/Generation/Generator.cs:423-428 | A member is among the dictionary's accessors of p exactly when it occurs in the input and is an accessor of p. |
| `AutoProperties.AccessorEntryProperties` | DudNet/Generation/Generator.cs:423-428 | A property occurs in the dictionary exactly when some input member is an accessor of it. |
| `AutoProperties.LookupKeysDistinct` | DudNet/Generation/Generator.cs:415-433 | The property groupings returned for a member list have pairwise distinct keys. |
| `AutoProperties.LookupKeys` | DudNet/Generation/Generator.cs:415-433 | A property has a grouping exactly when some member of the list is an accessor of it. |
| `AutoProperties.LookupGroupContents` | DudNet/Generation/Generator.cs:415-433 | A member belongs to a grouping exactly when it occurs in the list and is an accessor of that grouping's property; order follows the input. |
| `AutoProperties.AccessorInExactlyOneGroup` | DudNet/Generation/Generator.cs:415-433 | Every accessor with a property lands in exactly one grouping, the one of its property. |
| `AutoProperties.NonAccessorInNoGroup` | DudNet/Generation/Generator.cs:445-447 | An ordinary method, or an accessor without a property, lands in no grouping. |
| `AutoProperties.DistinctSymbolsSeparate` | DudNet/Generation/Generator.cs:415-433 | Accessors of two different property symbols get two groupings, in input order, even when the properties share their name and type. |
| `AutoProperties.IndexersStaySeparate` | DudNet/Generation/Generator.cs:415-433 | An illustration: the getters of two `string this[...]` indexers give two groupings. |
| `Emission.ProxyBodyLines` | DudNet/Generation/Generator.cs:177-183 | The forwarding callback writes exactly three lines: `Interceptor();`, the member's hook call, and the call on `_service`. |
| `Emission.ProxyShape` | DudNet/Generation/Generator.cs:142-185 | A proxy member is its declaration line, the three forwarding lines one level deeper, then `}`. |
| `Emission.ParameterNames` | DudNet/Generation/Generator.cs:171 | One name per parameter, in parameter order. |
| `Emission.ProxyOrdinaryMethod` | DudNet/Generation/Generator.cs:169-184 | An ordinary method forwards its parameter names, joined with ", ", to its hook and to `_service`; `return ` appears exactly when it is not void. |
| `Emission.ProxyGetter` | DudNet/Generation/Generator.cs:155-162 | A getter `get_X` calls hook `get_XInterceptor()` and reads `_service.X`. |
| `Emission.ProxySetter` | DudNet/Generation/Generator.cs:163-167 | A setter `set_X` calls hook `set_XInterceptor(value)` and assigns `_service.X = value`. |
| `Emission.ProxyMethodFails` | DudNet/Generation/Generator.cs:148-157 | A proxy member fails exactly when its declaration fails or an accessor's name is shorter than four characters, so `Substring(4)` throws. |
| `Emission.DudBodyLines` | DudNet/Generation/Generator.cs:75-78 | The dud callback writes `return (<ReturnType>) default;` for a non-void member and nothing for a void one. |
| `Emission.DudMethodShape` | DudNet/Generation/Generator.cs:65-80 | A dud member is its declaration line, that single line one level deeper when non-void, then `}`; it fails exactly when its declaration fails. |
| `Emission.MemberBreaks` | DudNet/Generation/Generator.cs:259 | One member generator call fails exactly when the member breaks: unsupported accessibility, or for the proxy a name too short to strip. |
| `Emission.MethodsStep` | DudNet/Generation/Generator.cs:253-261 | One more loop iteration appends that member's text and a blank line, or nothing when it is skipped. |
| `Emission.MethodsPrefixFailure` | DudNet/Generation/Generator.cs:253-261 | Once a member throws, generating the whole list throws the same error. |
| `Emission.MethodsFailStep` | DudNet/Generation/Generator.cs:253-261 | The methods fold fails exactly when its prefix fails or its last member is emitted and breaks. |
| `Emission.MethodsTextFails` | DudNet/Generation/Generator.cs:246-262 | Generating methods fails exactly when some emitted member breaks. |
| `Emission.Ordinaries` | DudNet/Generation/Generator.cs:255-257 | Keeps exactly the members that are not accessors. |
| `Emission.SkipAccessors` | DudNet/Generation/Generator.cs:246-262 | With `skipPropertyMethods` the output equals that of the ordinary members alone, in input order: accessors contribute nothing. |
| `Emission.PropertyPieces` | DudNet/Generation/Generator.cs:231-235 | A property block is the `public <Type> <Name> {` header, its accessors one level deeper, `}`, and a blank line. |
| `Emission.PropertiesStep` | DudNet/Generation/Generator.cs:225-236 | One more grouping appends its property block. |
| `Emission.PropertiesPrefixFailure` | DudNet/Generation/Generator.cs:225-236 | Once a grouping throws, generating all groupings throws the same error. |
| `Emission.PropertiesFailStep` | DudNet/Generation/Generator.cs:225-236 | The property fold fails exactly when its prefix fails or the last grouping's accessors do. |
| `Emission.PropertiesTextFails` | DudNet/Generation/Generator.cs:219-237 | Generating properties fails exactly when some accessor of some grouping breaks. |
| `Emission.GroupedMembers` | DudNet/Generation/Generator.cs:415-433 | A breaking member sits in some grouping exactly when it is an accessor with a property. |
| `Emission.ServiceTextFails` | DudNet/Generation/Generator.cs:331-360 | A service fails exactly when some interface member fails: an ordinary member of unsupported accessibility, or, for the proxy, an accessor with a property and a name under four characters. |
| `Emission.ProxyClassBodyPieces` | DudNet/Generation/Generator.cs:116-134 | The proxy body is the `_service` field and a blank line, the properties, the methods, the general hook and a blank line, then the per-member hooks. |
| `Emission.EmptyProxyBody` | DudNet/Generation/Generator.cs:116-134 | Without members, the proxy body is just the field line and the hook line, each followed by a blank line. |
| `Emission.EmptyInterface` | DudNet/Generation/Generator.cs:331-360 | For an empty interface, the proxy holds only the field and the general hook and the dud class is empty; the file is `<className>.g.cs` and ends with `}`. |
| `Generator.GenerateDudMethod` | DudNet/Generation/Generator.cs:65-80 | Appends exactly the dud member's text, or reports the declaration's exception; the level is restored. |
| `Generator.ChooseProxyCall` | DudNet/Generation/Generator.cs:150-173 | The hook name and argument selection, including the `Substring(4)` exception, is the specified forwarding call. |
| `Generator.GenerateProxyMethod` | DudNet/Generation/Generator.cs:142-185 | Appends exactly the forwarding member's text, or reports the first exception; the level is restored. |
| `Generator.GenerateMember` | DudNet/Generation/Generator.cs:259 | The variant's member generator appends that variant's member text. |
| `Generator.GenerateMethods` | DudNet/Generation/Generator.cs:246-262 | The loop appends each non-skipped member followed by a blank line, in input order, or stops at the first exception. |
| `Generator.GenerateProperty` | DudNet/Generation/Generator.cs:227-235 | One iteration of the property loop appends that grouping's block. |
| `Generator.GenerateProperties` | DudNet/Generation/Generator.cs:219-237 | The loop appends one property block per grouping, in lookup order, or stops at the first exception. |
| `Generator.GenerateInterceptorMethodStrings` | DudNet/Generation/Generator.cs:192-204 | Appends one `partial void <Name>Interceptor(<params>);` and a blank line per member of the full list, accessors included, in order. |
| `Generator.GenerateProxyClassBody` | DudNet/Generation/Generator.cs:116-134 | Appends exactly the specified proxy body, or reports the first exception. |
| `Generator.GenerateDudClassBody` | DudNet/Generation/Generator.cs:48-57 | Appends the dud properties, then the ordinary methods, or reports the first exception. |
| `Generator.GenerateClassBody` | DudNet/Generation/Generator.cs:355 | The variant's class-body generator appends that variant's body. |
| `Generator.AppendServiceHeader` | DudNet/Generation/Generator.cs:347-354 | Writes the using lines, the namespace, the inheritdoc comment and the `public partial class <Name> : <Interface> {` line, at level 0. |
| `Generator.GenerateService` | DudNet/Generation/Generator.cs:331-360 | Produces `<className>.g.cs` holding the header, the body at indentation level 1 and a final `}` with no trailing newline, or the first exception. |
| `Generator.GenerateProxyService` | DudNet/Generation/Generator.cs:95-107 | The proxy file is named `<className>Proxy.g.cs`, and generation fails exactly when some member fails for the proxy. |
| `Generator.GenerateDudService` | DudNet/Generation/Generator.cs:27-39 | The dud file is named `<className>Dud.g.cs`, and generation fails exactly when some member fails for the dud. |
| `Parser.HasProxyServiceAttribute` | DudNet/Generation/Parser.cs:29-49 | True iff some attribute in some attribute list has a trimmed name equal to one of the four ProxyService spellings. |
| `Parser.IsPotentialTarget` | DudNet/Generation/Parser.cs:17-21 | True iff the node is a class declaration with at least one attribute list that is marked with ProxyService; false for every other node and for classes without attribute lists. |
| `Parser.SpellingUnpadded` | DudNet/Generation/Parser.cs:40-42 | None of the four spellings starts or ends with white space. |
| `Parser.PaddedNameAccepted` | DudNet/Generation/Parser.cs:35-43 | A spelling surrounded by white space, such as the trivia `ToFullString` keeps, is still accepted. |
| `Parser.ExactNameOnly` | DudNet/Generation/Parser.cs:35-44 | A name without surrounding white space is accepted iff it is exactly one of the four spellings. |
| `Parser.NearMissesRejected` | DudNet/Generation/Parser.cs:37-44 | An illustration of `Parser.ExactNameOnly`: names that only contain, extend or shorten the attribute's name (`MyProxyService`, `ProxyServiceFactory`, `Attributes.ProxyService`) are rejected. |

## Left out

- The incremental pipeline is not part of this model: `ProxyServiceGenerator.Initialize` and `Execute`. That includes the member filtering and the `Interfaces[0]` access. Here the generator receives the members of one interface directly.
- `Parser.GetSemanticTargetForGeneration` and the `GeneratorSyntaxContextWrapper` types are not part of this model. They only ask Roslyn's semantic model for a symbol.
- `Generator.GetUsingDirectivesForTypeFile` is not part of this model. The `usings` text is an opaque input line, written with a single `AppendLine` that indents only its first line.
- How Roslyn prints a type or a type parameter is not modelled. Type names are opaque strings.
- Symbol identity is modelled by a number. A property's `symbol` field stands for the identity of its `IPropertySymbol`; the dictionary and `ToLookup` compare properties by that identity. A symbol number is taken to come always with the same name and type. Methods compare by value, which is enough because the members of an interface are distinct.
- Syntax nodes keep only what the filter reads: whether the node is a class, its attribute lists, and each attribute's full name text.
- `context.AddSource` becomes the returned `Artifact`. Publishing it to the compilation is outside the model.
- `Environment.NewLine` is fixed to the single character `"\n"`.
- Exceptions are modelled as a `Failure` result (or the `Threw` outcome) carrying the member that caused them. There are two: the accessibility switch's `ArgumentOutOfRangeException` and `Substring(4)` on a name shorter than four characters. The builder is abandoned after such an exception.
- The contents of an error are the model's addition. The C# code throws a bare `ArgumentOutOfRangeException`, both from the accessibility switch and from `Substring(4)`, and neither names the member. The model's `Error` tells the two cases apart and names the member. Only the model's own errors are ever compared with each other.
- `Dictionary.Add` throwing on a duplicate key is not modelled. The members of an interface are distinct symbols, so the loop never adds the same accessor twice.
- The `BlockWrite` around `GenerateInterceptorMethodStrings` (Generator.cs:133) is written as a direct call. `Utilities.BlockIsTransparent` proves that `BlockWrite` adds nothing.
- The callbacks that call back into generator methods are written out inline as `IncrementIndentation`, the call, then `DecrementIndentation`. These are the callbacks at Generator.cs:233 and :355, and the expansion is `IndentedBlockWrite`'s own body. The other callbacks are `Cmd` sequences run by `IndentedBlockWrite`.
- Utilities.IndentedStringBuilder.IncrementIndentation: `amount` is a `nat`. A negative amount in C# could make the level negative, and then `new string` throws; that path is not modelled.
- Utilities.IndentedStringBuilder.DecrementIndentation: `amount` is a `nat`. The C# code, given a negative amount, would raise the level.
- Utilities.IndentedStringBuilder.constructor: `startingIndentation` is a `nat`. A negative value makes `new string` throw in C#.
- Generator.GenerateMethods: after an exception, the contract says only that the builder stays valid. It does not say what partial text was written, because the caller abandons the builder. The same holds for Generator.GenerateProperties, Generator.GenerateProperty, Generator.GenerateProxyMethod, Generator.GenerateDudMethod, Generator.GenerateMember, Generator.GenerateProxyClassBody, Generator.GenerateDudClassBody and Generator.GenerateClassBody.
- Declarations.ParametersArity: the one-pair-per-parameter property is stated only for types and names without commas. A generic type such as `Dictionary<K, V>` puts commas inside a pair.
- Generated code is not proved to compile. For example, the interceptor stub of a generic member uses type parameters it does not declare.
