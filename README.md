# set-iterable lint rules, modelled in Dafny

This project models the core of `eslint-plugin-set-iterable`, two ESLint rules
for TypeScript code: `no-set-spread` reports spreading a `Set` (`[...s]`), and
`no-for-of-set` reports iterating one with `for (x of s)`. Both decide "is this
a Set?" the same way. The checker's type for the expression is classified by
`getTypeName`. `isSetType` then tests whether the resulting name begins with
`Set<`.

The model is written as pure functions over values, like the source:

- `wrappers.dfy`: `Option` and `Result`. `Result` stands for a call that may throw.
- `type_name.dfy` (module `TypeNames`): TypeScript types and the classifier.
  A type is its rendered text, its `StringLike` flag and its shape. The shape
  is a type parameter with its constraint already resolved, a union, an
  intersection, or anything else. Two reference definitions sit beside the
  classifier: `StringLikeType`, the declarative meaning of "string-like", and
  `Target`, the end of a chain of constrained type parameters. The lemmas
  prove that the classifier agrees with them.
- `set_type.dfy` (module `SetTypes`): the textual `Set<` prefix test.
- `parser_services.dfy` (module `ParserServicesCheck`): the configuration
  check run when a rule is created.
- `rules.dfy` (module `Rules`): rule creation and the two node handlers. Each
  handler maps a node to an optional diagnostic.

`isSetType` (`index.js:91`) compares the four characters `Set<` at the
start of the classified name.

## Model

| member | source | states |
|---|---|---|
| `TypeNames.TypeName` | index.js:32-85 | the name is always either "string" or the rendered text of the type itself or of the end of its constraint chain, never the text of a union or intersection member |
| `TypeNames.AllAre` | index.js:66-68 | `every` over the member names is true exactly when every name is "string" (vacuously for no members) |
| `TypeNames.AnyIs` | index.js:77-79 | `some` over the member names is true exactly when at least one name is "string" |
| `TypeNames.MemberNames` | index.js:66-67 | the `map` step: one name per member, in member order, each the classifier's name for that member |
| `TypeNames.Target` | index.js:42-57 | following constraints from a type parameter ends at a type that is string-flagged or is not a constrained type parameter |
| `TypeNames.StringFlagWins` | index.js:35-37 | a type whose flags include StringLike is "string" whatever its shape, so this rule comes before all others |
| `TypeNames.ConstraintRule` | index.js:42-57 | a type parameter with a constraint is named exactly as its constraint; without one it falls through to its own rendered text |
| `TypeNames.UnionRule` | index.js:60-71 | a union is "string" iff every member is named "string", and otherwise it is the union's own text |
| `TypeNames.IntersectionRule` | index.js:73-82 | an intersection is "string" iff some member is named "string", and otherwise it is the intersection's own text |
| `TypeNames.StringLikeNamedString` | index.js:32-85 | every type that is string-like, through any nesting of parameters, unions and intersections, is named "string" |
| `TypeNames.NamedStringIsStringLike` | index.js:32-85 | when only string-like types are rendered as "string", a type named "string" is string-like |
| `TypeNames.TypeNameCharacterized` | index.js:32-85 | for such a type, the name is "string" if the type is string-like, and otherwise the rendered text of the end of its constraint chain |
| `TypeNames.UnionExamples` | index.js:60-71 | the union of the literals "a" and "b" is "string"; the union of `string` and `string[]` is named by its own text |
| `TypeNames.IntersectionExample` | index.js:73-82 | `string & {__htmlEscaped: void}` is "string" |
| `SetTypes.StartsWith` | index.js:91 | `startsWith` holds exactly when the prefix is no longer than the text and equals its leading characters |
| `SetTypes.IsSetType` | index.js:87-92 | a string-like type is never a Set; a type is a Set iff its name is not "string" and the end of its constraint chain renders with the `Set<` prefix |
| `SetTypes.SetTypeCharacterized` | index.js:91 | for a well-rendered type: a Set iff not string-like and the end of the constraint chain renders as `Set<...>` |
| `SetTypes.PrefixExamples` | index.js:91 | `Set<number>` matches; `WeakSet<string>`, `ReadonlySet<number>`, a bare `Set` and "string" do not |
| `SetTypes.ConstrainedParameterExample` | index.js:39-57 | `T extends Set<number>` is named `Set<number>` and is a Set, and so is a parameter constrained by `T` |
| `Wrappers.Option.GetOr` | index.js:19-21 | the `??` default: a present value is kept (even `false`), an absent one is replaced by the default |
| `ParserServicesCheck.HasRequiredServices` | index.js:10-15 | the presence guard fails exactly when the services, the program or either node map is missing |
| `ParserServicesCheck.GetParserServices` | index.js:6-30 | the services are accepted iff they are present with a program and both node maps, and full type information is not explicitly false unless allowed; when accepted they are returned unchanged; every rejection carries the fixed message |
| `ParserServicesCheck.AbsentFullTypeInformationMeansFull` | index.js:19-21 | an absent `hasFullTypeInformation` counts as true, so the allow flag makes no difference |
| `ParserServicesCheck.AllowOnlyWidens` | index.js:23-27 | allowing missing type information never rejects what would otherwise be accepted; with it, only missing services are rejected |
| `Rules.Create` | index.js:100-102 | creating either rule fails, with the fixed message, unless the services are complete and `hasFullTypeInformation` is not explicitly false |
| `Rules.CheckSpreadElement` | index.js:105-115 | a spread gives a diagnostic iff its argument is Set-typed; the diagnostic is at the spread node with the spread message |
| `Rules.CheckForOfStatement` | index.js:128-139 | a for-of gives a diagnostic iff its right-hand side is Set-typed; the diagnostic is at the loop node with the for-of message |
| `Rules.SpreadReportedIffSet` | index.js:105-115 | spreading a well-rendered value is reported iff its type is not string-like and the end of its constraint chain renders as `Set<...>` |
| `Rules.ForOfReportedIffSet` | index.js:128-139 | the same for the value a for-of loop iterates over |
| `Rules.ScenarioExamples` | index.js:105-139 | spreading `Set<number>` gives one diagnostic at the spread; spreading `Array<number>` or iterating `ReadonlySet<string>` gives none |

## Left out

- The TypeScript checker is not part of this model. `typeToString` becomes the opaque `display` text of each type. `getTypeFromTypeNode` is replaced by a constraint that is already resolved. `getTypeAtLocation` and the ESTree-to-TypeScript node map are replaced by the `staticType` each expression carries.
- `getSymbol()` / `getDeclarations()` and `decls?.[0]` are not modelled. A type parameter is assumed to have a declaration, and only the presence of its constraint is modelled. What `ts.isTypeParameterDeclaration(undefined)` does is not visible in the source.
- The bit-flag tests on `ts.TypeFlags` become the `stringLike` field and the `TypeParameter` shape. The flag values are library constants. A type is modelled as exactly one of parameter, union, intersection or other.
- Cyclic constraints (`T extends U, U extends T`) are not modelled. The source has no guard against them and would recurse without end. The inductive type here admits no cycles.
- ESLint plumbing is not modelled: rule registration, `meta`, the handler table returned by `create`, and the traversal that calls the handlers. `context.report` is modelled as the returned diagnostic, and a thrown `Error` as a `Failure` carrying its message.
- JavaScript truthiness of unusual values is not modelled. Each service member is either present or absent, and `hasFullTypeInformation` is a boolean when present.
- TypeNames.NamedStringIsStringLike: stated only for well-rendered types (`WellRendered`: only string-like types render as the bare word `string`), because the rendering is opaque and a type rendered `string` by other means is also named "string"; `TypeName` carries the unconditional form.
- TypeNames.TypeNameCharacterized: stated only for well-rendered types, for the same reason.
- SetTypes.SetTypeCharacterized: stated only for well-rendered types; `IsSetType` carries the unconditional form.
- Rules.SpreadReportedIffSet: stated only for well-rendered types, for the same reason.
- Rules.ForOfReportedIffSet: stated only for well-rendered types, for the same reason.
