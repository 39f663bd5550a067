/**
  * The introspected schema types the enum emitter consumes: `GraphQL.EnumType` and
  * its `GraphQL.EnumValue`s, with the fields of `__Type` and `__EnumValue` from the
  * Introspection chapter of the GraphQL specification.
  */
module GraphQL {
  import opened Wrappers

  /** One value of an enum; `deprecationReason` is only meaningful when `isDeprecated`. */
  datatype EnumValue = EnumValue(
    name: string,
    description: Option<string>,
    isDeprecated: bool,
    deprecationReason: Option<string>)

  /** An enum type; the order of `enumValues` is the declaration order. */
  datatype EnumType = EnumType(
    name: string,
    description: Option<string>,
    enumValues: seq<EnumValue>)

  predicate IsLetter(c: char) {
    ('A' <= c <= 'Z') || ('a' <= c <= 'z')
  }

  predicate IsNameContinue(c: char) {
    IsLetter(c) || ('0' <= c <= '9') || c == '_'
  }

  /** The lexical form of a GraphQL `Name`: a letter or `_`, then letters, digits or `_`. */
  predicate IsName(s: string) {
    && |s| > 0
    && (IsLetter(s[0]) || s[0] == '_')
    && forall i :: 0 <= i < |s| ==> IsNameContinue(s[i])
  }
}
