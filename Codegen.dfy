/**
  * `GraphQLCodegen.generateEnum`: the Swift declaration emitted for a GraphQL enum.
  *
  *   /// <type doc>
  *   enum <Name>: String, CaseIterable, Codable {
  *       /// <value description>                        (only when there is one)
  *       @available(*, deprecated, message: "<reason>")  (only when deprecated)
  *       case <lowercased name> = "<NAME>"
  *                                                       (one blank line between blocks)
  *       ...
  *   }
  *
  * The text is a sequence of lines joined with newlines and no trailing newline; an enum
  * without values has a single blank line between its braces.
  */
module Codegen {
  import opened Wrappers
  import opened GraphQL
  import opened Sequences

  /** The indentation of every line inside the enum's braces. */
  const Indent: string := "    "

  const Conformances: string := ": String, CaseIterable, Codable {"

  const ClosingBrace: string := "}"

  const BlankLine: string := ""

  /** ASCII lowercasing of one character; every other character is kept. */
  function LowerChar(c: char): char {
    if 'A' <= c <= 'Z' then (c as int - 'A' as int + 'a' as int) as char else c
  }

  predicate IsLower(c: char) {
    'a' <= c <= 'z'
  }

  /** The Swift case identifier of an enum value: its schema name, lowercased character by character. */
  function CaseIdentifier(name: string): string {
    if name == [] then [] else [LowerChar(name[0])] + CaseIdentifier(name[1..])
  }

  /** The type's doc comment text: its description, or its own name when it has none. */
  function TypeDoc(t: EnumType): string {
    t.description.GetOr(t.name)
  }

  /** The message of a deprecated value's annotation: its reason, or the empty string. */
  function DeprecationMessage(v: EnumValue): string {
    v.deprecationReason.GetOr("")
  }

  function DocLine(indent: string, text: string): string {
    indent + "/// " + text
  }

  function AnnotationLine(message: string): string {
    Indent + "@available(*, deprecated, message: \"" + message + "\")"
  }

  function CaseLine(v: EnumValue): string {
    Indent + "case " + CaseIdentifier(v.name) + " = \"" + v.name + "\""
  }

  function HeaderLine(name: string): string {
    "enum " + name + Conformances
  }

  /** A line inside the braces of a case block: indented, hence never blank. */
  predicate IsIndented(line: string) {
    Indent < line
  }

  /** The lines of one value's case block: optional doc line, optional annotation, case line. */
  function RenderCase(v: EnumValue): (block: seq<string>)
    ensures 1 <= |block| <= 3
    ensures block[|block| - 1] == CaseLine(v)
  {
    (if v.description.Some? then [DocLine(Indent, v.description.value)] else [])
    + (if v.isDeprecated then [AnnotationLine(DeprecationMessage(v))] else [])
    + [CaseLine(v)]
  }

  /** One case block per value, in declaration order. */
  function RenderCases(values: seq<EnumValue>): (blocks: seq<seq<string>>)
    ensures |blocks| == |values|
  {
    seq(|values|, i requires 0 <= i < |values| => RenderCase(values[i]))
  }

  /** Case blocks with exactly one blank line between consecutive blocks. */
  function JoinBlocks(blocks: seq<seq<string>>): seq<string> {
    Join(blocks, BlankLine)
  }

  /** The lines between the braces; an enum without values keeps one blank line there. */
  function Body(values: seq<EnumValue>): seq<string> {
    if values == [] then [BlankLine] else JoinBlocks(RenderCases(values))
  }

  function Header(t: EnumType): seq<string> {
    [DocLine("", TypeDoc(t)), HeaderLine(t.name)]
  }

  /** Every line of the declaration, in order. */
  function Lines(t: EnumType): seq<string> {
    Header(t) + Body(t.enumValues) + [ClosingBrace]
  }

  /** The Swift source of the enum declaration. */
  function GenerateEnum(t: EnumType): string {
    Join(Lines(t), '\n')
  }

  // ---------------------------------------------------------------------------------------
  // Case identifiers

  /** The identifier has one character per character of the name: that character, lowercased. */
  lemma {:induction false} CaseIdentifierLowercases(name: string)
    ensures |CaseIdentifier(name)| == |name|
    ensures forall i :: 0 <= i < |name| ==> CaseIdentifier(name)[i] == LowerChar(name[i])
  {
    if name != [] {
      CaseIdentifierLowercases(name[1..]);
    }
  }

  /**
    * Two names spelled without lower-case letters (the SCREAMING form schemas use for enum
    * values) map to the same case identifier only if they are the same name.
    */
  lemma CaseIdentifierInjective(a: string, b: string)
    requires forall i :: 0 <= i < |a| ==> !IsLower(a[i])
    requires forall i :: 0 <= i < |b| ==> !IsLower(b[i])
    requires CaseIdentifier(a) == CaseIdentifier(b)
    ensures a == b
  {
    CaseIdentifierLowercases(a);
    CaseIdentifierLowercases(b);
    forall i | 0 <= i < |a|
      ensures a[i] == b[i]
    {
      assert CaseIdentifier(a)[i] == CaseIdentifier(b)[i];
      LowerCharInjective(a[i], b[i]);
    }
  }

  lemma LowerCharInjective(c: char, d: char)
    requires !IsLower(c) && !IsLower(d) && LowerChar(c) == LowerChar(d)
    ensures c == d
  {
  }

  /** The identifier of a GraphQL name is again a name, in particular it has no space. */
  lemma CaseIdentifierIsName(name: string)
    requires IsName(name)
    ensures IsName(CaseIdentifier(name))
    ensures ' ' !in CaseIdentifier(name)
  {
    CaseIdentifierLowercases(name);
    var id := CaseIdentifier(name);
    forall i | 0 <= i < |id|
      ensures IsNameContinue(id[i])
    {
      assert IsNameContinue(name[i]);
    }
    assert IsLetter(id[0]) || id[0] == '_';
  }

  // ---------------------------------------------------------------------------------------
  // Layout of the declaration

  /** An enum without values: doc line, header, one blank line, closing brace, and nothing else. */
  lemma EmptyEnumLayout(t: EnumType)
    requires t.enumValues == []
    ensures Lines(t) == ["/// " + TypeDoc(t), "enum " + t.name + ": String, CaseIterable, Codable {", "", "}"]
    ensures GenerateEnum(t) == "/// " + TypeDoc(t) + "\nenum " + t.name + ": String, CaseIterable, Codable {\n\n}"
  {
    var doc, head := "/// " + TypeDoc(t), "enum " + t.name + ": String, CaseIterable, Codable {";
    assert DocLine("", TypeDoc(t)) == doc;
    assert HeaderLine(t.name) == head;
    assert Lines(t) == [doc, head, "", "}"];
    calc {
      GenerateEnum(t);
      doc + ['\n'] + Join([head, "", "}"], '\n');
      { assert [head, "", "}"][1..] == ["", "}"]; }
      doc + ['\n'] + (head + ['\n'] + Join(["", "}"], '\n'));
      { assert ["", "}"][1..] == ["}"]; }
      doc + ['\n'] + (head + ['\n'] + ("" + ['\n'] + "}"));
    }
  }

  /** Where the block of the `i`-th value starts in the body. */
  function BlockStart(values: seq<EnumValue>, i: nat): nat
    requires i < |values|
  {
    Offset(RenderCases(values), i)
  }

  /**
    * The body of an enum with values holds the case block of each value in declaration order:
    * block `i` sits at `BlockStart(values, i)`, is followed by exactly one blank line unless
    * it is the last, and the body ends with the last block.
    */
  lemma BodyLayout(values: seq<EnumValue>, i: nat)
    requires i < |values|
    ensures var body, o, block := Body(values), BlockStart(values, i), RenderCase(values[i]);
      && o + |block| <= |body|
      && body[o..o + |block|] == block
      && (i + 1 < |values| ==> o + |block| < |body| && body[o + |block|] == BlankLine)
      && (i + 1 == |values| ==> |body| == o + |block|)
  {
    var blocks := RenderCases(values);
    assert Body(values) == Join(blocks, BlankLine);
    assert blocks[i] == RenderCase(values[i]);
    JoinLayout(blocks, BlankLine, i);
  }

  lemma {:induction false} OffsetGrows<T>(parts: seq<seq<T>>, i: nat, j: nat)
    requires i < j <= |parts|
    ensures Offset(parts, i) + |parts[i]| + 1 <= Offset(parts, j)
    decreases j
  {
    if i > 0 {
      OffsetGrows(parts[1..], i - 1, j - 1);
    } else if j > 1 {
      OffsetGrows(parts[1..], 0, j - 1);
    }
  }

  /**
    * Case blocks keep the order of `enumValues`: the block of an earlier value ends, and a
    * blank line separates it, before the block of any later value starts.
    */
  lemma CaseOrder(values: seq<EnumValue>, i: nat, j: nat)
    requires i < j < |values|
    ensures BlockStart(values, i) + |RenderCase(values[i])| < BlockStart(values, j)
  {
    OffsetGrows(RenderCases(values), i, j);
  }

  /**
    * The body of an enum with `n > 0` values holds exactly `n - 1` blank lines, and neither
    * begins nor ends with one.
    */
  lemma BodyBlankLines(values: seq<EnumValue>)
    requires |values| > 0
    ensures multiset(Body(values))[BlankLine] == |values| - 1
    ensures |Body(values)| > 0
    ensures Body(values)[0] != BlankLine && Body(values)[|Body(values)| - 1] != BlankLine
  {
    var blocks := RenderCases(values);
    forall k | 0 <= k < |blocks|
      ensures BlankLine !in blocks[k]
    {
      CaseBlockHasNoBlankLine(values[k]);
    }
    JoinSeparatorCount(blocks, BlankLine);
    BodyEnds(values);
  }

  /** Every line of a case block is indented, so no line of a block is blank. */
  lemma CaseBlockIndented(v: EnumValue)
    ensures forall k :: 0 <= k < |RenderCase(v)| ==> IsIndented(RenderCase(v)[k])
  {
    var block := RenderCase(v);
    assert Indent < CaseLine(v);
    if v.description.Some? {
      assert Indent < DocLine(Indent, v.description.value);
    }
    if v.isDeprecated {
      assert Indent < AnnotationLine(DeprecationMessage(v));
    }
  }

  lemma CaseBlockHasNoBlankLine(v: EnumValue)
    ensures BlankLine !in RenderCase(v)
  {
    var block := RenderCase(v);
    CaseBlockIndented(v);
    forall k | 0 <= k < |block|
      ensures block[k] != BlankLine
    {
      assert IsIndented(block[k]);
    }
  }

  lemma BodyEnds(values: seq<EnumValue>)
    requires |values| > 0
    ensures |Body(values)| > 0
    ensures Body(values)[0] != BlankLine && Body(values)[|Body(values)| - 1] != BlankLine
  {
    var blocks := RenderCases(values);
    var first, last := blocks[0], blocks[|blocks| - 1];
    assert first == RenderCase(values[0]);
    assert last == RenderCase(values[|values| - 1]);
    assert forall k :: 0 <= k < |blocks| ==> |blocks[k]| > 0;
    JoinEnds(blocks, BlankLine);
    CaseBlockIndented(values[0]);
    CaseBlockIndented(values[|values| - 1]);
    assert IsIndented(first[0]) && IsIndented(last[|last| - 1]);
  }
}
