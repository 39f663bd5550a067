# swift-graphql enum emitter, modelled in Dafny

This project models `GraphQLCodegen.generateEnum` from swift-graphql. That is the code generator that turns a GraphQL enum type into a Swift `enum` declaration. Its input is a `GraphQL.EnumType`: a name, an optional description and an ordered list of `GraphQL.EnumValue`s. Each value has a name, an optional description, `isDeprecated` and an optional `deprecationReason`. These are the `__Type` / `__EnumValue` introspection fields of the GraphQL specification. The output is Swift source text:

```
/// <description of the type, or its name when it has none>
enum <Name>: String, CaseIterable, Codable {
    /// <description of the value>                   only when it has one
    @available(*, deprecated, message: "<reason>")   only when it is deprecated; "" without a reason
    case <lowercased name> = "<NAME>"

    ...                                              one blank line between case blocks
}
```

The model follows the behaviour that the unit tests in `Tests/SwiftGraphQLCodegenTests/Generator/EnumTests.swift` fix byte for byte.

Files:

- `Wrappers.dfy`: `Option`, for the schema's nullable fields.
- `GraphQL.dfy`: the input datatypes `EnumValue` and `EnumType`, and the lexical form of a GraphQL `Name`.
- `Sequences.dfy`: `Join` and `Split` of parts around a separator, with both round trips and the exact layout of a join. The emitter uses `Join` twice: it joins case blocks with a blank line, then joins lines with a newline.
- `Codegen.dfy`: the emitter itself (`RenderCase`, `JoinBlocks`, `Body`, `Lines`, `GenerateEnum`) and the layout lemmas.
- `EnumReader.dfy`: a reader that parses an emitted declaration back into the facts it carries. This is the emitter's inverse. Its round-trip lemmas show that the text carries every value, in order, with its description, its deprecation message, its identifier and its raw name, and that nothing is lost or merged.
- `EpisodesText.dfy`: the `Episodes` inputs of the unit tests, and the exact lines and blocks the emitter produces for them.
- `EnumTests.dfy`: the outputs proved for the three unit tests. A Swift multi-line string literal is its lines joined by newlines, with no trailing newline. So the test lemmas state the emitted text split at its newlines. Since `Join(Split(s)) == s`, this fixes the text exactly.

The emitter is a set of pure functions, so calling it twice on the same input gives the same text by construction.

## Model

| member | source | states |
|---|---|---|
| `Codegen.CaseIdentifierLowercases` | Tests/SwiftGraphQLCodegenTests/Generator/EnumTests.swift:92-101 | The case identifier has the length of the schema name, and each character is that name's character lowercased (ASCII). |
| `Codegen.CaseIdentifierInjective` | Tests/SwiftGraphQLCodegenTests/Generator/EnumTests.swift:91-101 | Two names written without lower-case letters get the same case identifier only if they are the same name, so distinct values never collide. |
| `Codegen.RenderCase` | Tests/SwiftGraphQLCodegenTests/Generator/EnumTests.swift:91-101 | A case block has one to three lines, and its last line is the value's `case` line. |
| `Codegen.CaseBlockIndented` | Tests/SwiftGraphQLCodegenTests/Generator/EnumTests.swift:91-101 | Every line of a case block is indented by four spaces, so no line of a block is blank. |
| `Codegen.EmptyEnumLayout` | Tests/SwiftGraphQLCodegenTests/Generator/EnumTests.swift:6-22 | An enum without values is exactly: the doc line, `enum <Name>: String, CaseIterable, Codable {`, one empty line and `}`. This holds both as lines and as text with no case text. |
| `Codegen.BodyLayout` | Tests/SwiftGraphQLCodegenTests/Generator/EnumTests.swift:88-103 | Value i's block sits unchanged at its start position in the body. Exactly one blank line follows every block but the last, and the body ends with the last block. |
| `Codegen.CaseOrder` | Tests/SwiftGraphQLCodegenTests/Generator/EnumTests.swift:60-101 | Blocks keep the order of `enumValues`: an earlier value's block and its separating blank line come before any later value's block. |
| `Codegen.BodyBlankLines` | Tests/SwiftGraphQLCodegenTests/Generator/EnumTests.swift:90-102 | With n > 0 values, the body holds exactly n - 1 blank lines. It neither begins nor ends with one, so there is no blank line after `{` or before `}`. |
| `EnumReader.DocLinePresence` | Tests/SwiftGraphQLCodegenTests/Generator/EnumTests.swift:67-78 | A block has a `///` line if and only if the value has a description. That line is the block's first and reads `/// <description>`. |
| `EnumReader.AnnotationPresence` | Tests/SwiftGraphQLCodegenTests/Generator/EnumTests.swift:61-84 | A block has an `@available(*, deprecated, message: "...")` line if and only if the value is deprecated. That line sits immediately above the case line, which ends the block. Its message is the reason, or exactly `""` when the reason is nil. |
| `EnumReader.CaseBlockRoundTrip` | Tests/SwiftGraphQLCodegenTests/Generator/EnumTests.swift:91-101 | Reading a block back gives, in order: the description, the deprecation message (present exactly when deprecated), the lowercased identifier, and the raw string literal equal to the schema name unchanged. |
| `EnumReader.GenerateEnumLines` | Tests/SwiftGraphQLCodegenTests/Generator/EnumTests.swift:88-103 | The emitted text is exactly the declaration's lines separated by newlines, with no trailing newline. |
| `EnumReader.GenerateEnumRoundTrip` | Tests/SwiftGraphQLCodegenTests/Generator/EnumTests.swift:57-103 | Reading the emitted declaration back gives the type's doc text, its name and every value's facts in declaration order. No value is dropped, duplicated, reordered or merged. |
| `EnumTests.GenerateEmptyEnum` | Tests/SwiftGraphQLCodegenTests/Generator/EnumTests.swift:6-22 | The empty `Episodes` enum yields exactly the expected four lines. |
| `EnumTests.GenerateEnumWithDescription` | Tests/SwiftGraphQLCodegenTests/Generator/EnumTests.swift:54-107 | The four-value `Episodes` enum yields exactly the expected fourteen lines: NEWHOPE, EMPIRE, JEDI, SKYWALKER, with their doc lines, annotations and blank separators. |
| `EnumTests.GenerateEnumWithoutDescription` | Tests/SwiftGraphQLCodegenTests/Generator/EnumTests.swift:25-49 | The one-value input yields the header, case block and brace the test expects. The first line is `/// Collection of all StarWars episodes.`, where this test expects `/// Episodes` (see below). |

## Left out

- The type-level doc comment for the input of `testGenerateEnumWithoutDescription` (EnumTests.swift:25-45). That test expects `/// Episodes`, the type name, although the type has a description. `testGenerateEmptyEnum` and `testGenerateEnumWithDescription` expect the description for the same description. No single rule fits all three tests. The model uses the description when there is one and the type name when there is none. `EnumTests.GenerateEnumWithoutDescription` states the resulting disagreement on the first line.
- Codegen.CaseIdentifierLowercases: the identifier only lowercases ASCII letters. Camel-casing of multi-word `SCREAMING_SNAKE` names and escaping of reserved words are not modelled, because no unit test fixes them.
- Escaping inside string literals and comments is not modelled. A quote or backslash in a raw name, a description or a deprecation reason is emitted as is.
- The round-trip lemmas assume single-line descriptions and reasons (`EnumReader.Printable`). A multi-line description would be emitted after a single `///`.
- An empty description, `Some("")`, is treated as a description and emits `/// ` followed by nothing. No unit test covers this case.
- A `deprecationReason` on a value that is not deprecated is ignored, since only `isDeprecated` decides whether the annotation appears.
- The emitters for objects, interfaces, unions and inputs, the schema parser, and the selection-set runtime with its decoding and fragment dispatch are not modelled. They lie outside the enum emitter.
- The SwiftUI demo application (`ete_tests/StarWars/StarWars/ContentView.swift`) is not modelled. It consists of user interface, HTTP requests, thread hopping, and selections built with the query runtime, all outside the enum emitter.
