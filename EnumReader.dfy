/**
  * Reading an emitted enum declaration back: the inverse of `Codegen.GenerateEnum`.
  *
  * The round-trip lemmas show that the emitted text carries, unambiguously and in order,
  * the type's doc text and name and, for every value, its description, its deprecation
  * message (present exactly when the value is deprecated), its case identifier and its raw
  * schema name.
  */
module EnumReader {
  import opened Wrappers
  import opened GraphQL
  import opened Sequences
  import opened Codegen

  /** What one case block says about its value. */
  datatype CaseInfo = CaseInfo(
    doc: Option<string>,
    deprecation: Option<string>,
    identifier: string,
    rawValue: string)

  /** What a declaration says about its enum. */
  datatype EnumInfo = EnumInfo(doc: string, name: string, cases: seq<CaseInfo>)

  const DocPrefix: string := Indent + "/// "
  const AnnotationPrefix: string := Indent + "@available(*, deprecated, message: \""
  const AnnotationSuffix: string := "\")"
  const CasePrefix: string := Indent + "case "
  const RawValuePrefix: string := " = \""
  const RawValueSuffix: string := "\""

  /** The rest of `line` after `prefix`, if `line` starts with it. */
  function After(prefix: string, line: string): (r: Option<string>)
    ensures r.Some? ==> line == prefix + r.value
  {
    if prefix <= line then Some(line[|prefix|..]) else None
  }

  /** The middle of `line` between `prefix` and `suffix`, if it has both. */
  function Between(prefix: string, suffix: string, line: string): (r: Option<string>)
    ensures r.Some? ==> line == prefix + r.value + suffix
  {
    if |prefix| + |suffix| <= |line| && prefix <= line && line[|line| - |suffix|..] == suffix then
      Some(line[|prefix|..|line| - |suffix|])
    else
      None
  }

  lemma AfterPrefix(prefix: string, rest: string)
    ensures After(prefix, prefix + rest) == Some(rest)
  {
  }

  lemma BetweenAffixes(prefix: string, middle: string, suffix: string)
    ensures Between(prefix, suffix, prefix + middle + suffix) == Some(middle)
  {
    var line := prefix + middle + suffix;
    assert line[|line| - |suffix|..] == suffix;
    assert line[|prefix|..|line| - |suffix|] == middle;
  }

  function ReadDocLine(line: string): Option<string> {
    After(DocPrefix, line)
  }

  function ReadAnnotationLine(line: string): Option<string> {
    Between(AnnotationPrefix, AnnotationSuffix, line)
  }

  /** The identifier (up to the first space) and the raw value of a case line. */
  function ReadCaseLine(line: string): Option<(string, string)> {
    match After(CasePrefix, line)
    case None => None
    case Some(rest) =>
      if ' ' in rest then
        var id := rest[..IndexOf(rest, ' ')];
        match Between(RawValuePrefix, RawValueSuffix, rest[|id|..])
        case None => None
        case Some(raw) => Some((id, raw))
      else
        None
  }

  /** A case block: an optional doc line, an optional annotation, then exactly one case line. */
  function ReadCaseBlock(block: seq<string>): Option<CaseInfo> {
    if |block| == 0 then None
    else
      var doc := ReadDocLine(block[0]);
      var afterDoc := if doc.Some? then block[1..] else block;
      if |afterDoc| == 0 then None
      else
        var deprecation := ReadAnnotationLine(afterDoc[0]);
        var afterAnnotation := if deprecation.Some? then afterDoc[1..] else afterDoc;
        if |afterAnnotation| != 1 then None
        else
          match ReadCaseLine(afterAnnotation[0])
          case None => None
          case Some((id, raw)) => Some(CaseInfo(doc, deprecation, id, raw))
  }

  function ReadCases(blocks: seq<seq<string>>): Option<seq<CaseInfo>> {
    if blocks == [] then Some([])
    else
      match (ReadCaseBlock(blocks[0]), ReadCases(blocks[1..]))
      case (Some(c), Some(cs)) => Some([c] + cs)
      case _ => None
  }

  /** Reads a whole declaration: doc line, header, body, closing brace. */
  function ReadEnum(text: string): Option<EnumInfo> {
    var lines := Split(text, '\n');
    if |lines| < 4 || lines[|lines| - 1] != ClosingBrace then None
    else
      match (After("/// ", lines[0]), Between("enum ", Conformances, lines[1]))
      case (Some(doc), Some(name)) =>
        var body := lines[2..|lines| - 1];
        if body == [BlankLine] then Some(EnumInfo(doc, name, []))
        else
          (match ReadCases(Split(body, BlankLine))
           case Some(cases) => Some(EnumInfo(doc, name, cases))
           case None => None)
      case _ => None
  }

  // ---------------------------------------------------------------------------------------
  // What the emitter promises to write

  /** The facts a value's case block must carry. */
  function CaseSummary(v: EnumValue): CaseInfo {
    CaseInfo(
      v.description,
      if v.isDeprecated then Some(DeprecationMessage(v)) else None,
      CaseIdentifier(v.name),
      v.name)
  }

  function CaseSummaries(values: seq<EnumValue>): seq<CaseInfo> {
    if values == [] then [] else [CaseSummary(values[0])] + CaseSummaries(values[1..])
  }

  function EnumSummary(t: EnumType): EnumInfo {
    EnumInfo(TypeDoc(t), t.name, CaseSummaries(t.enumValues))
  }

  predicate NoNewline(s: string) {
    '\n' !in s
  }

  predicate OptionNoNewline(o: Option<string>) {
    o.Some? ==> NoNewline(o.value)
  }

  /** A value whose block can be written on separate lines: a GraphQL name, single-line texts. */
  predicate PrintableValue(v: EnumValue) {
    IsName(v.name) && OptionNoNewline(v.description) && OptionNoNewline(v.deprecationReason)
  }

  predicate Printable(t: EnumType) {
    && NoNewline(t.name)
    && NoNewline(TypeDoc(t))
    && forall i :: 0 <= i < |t.enumValues| ==> PrintableValue(t.enumValues[i])
  }

  // ---------------------------------------------------------------------------------------
  // Lines of a case block are told apart by their fifth character

  lemma DocLineShape(text: string)
    ensures var line := DocLine(Indent, text);
      ReadDocLine(line) == Some(text) && ReadAnnotationLine(line).None? && line[4] == '/'
  {
    var line := DocLine(Indent, text);
    assert line == DocPrefix + text;
    AfterPrefix(DocPrefix, text);
    assert !(AnnotationPrefix <= line) by { assert AnnotationPrefix[4] != line[4]; }
  }

  lemma AnnotationLineShape(message: string)
    ensures var line := AnnotationLine(message);
      ReadAnnotationLine(line) == Some(message) && ReadDocLine(line).None? && line[4] == '@'
  {
    var line := AnnotationLine(message);
    assert line == AnnotationPrefix + message + AnnotationSuffix;
    BetweenAffixes(AnnotationPrefix, message, AnnotationSuffix);
    assert !(DocPrefix <= line) by { assert DocPrefix[4] != line[4]; }
  }

  lemma ReadCaseLineOf(id: string, raw: string)
    requires ' ' !in id
    ensures ReadCaseLine(CasePrefix + id + RawValuePrefix + raw + RawValueSuffix) == Some((id, raw))
  {
    var tail := RawValuePrefix + raw + RawValueSuffix;
    var rest := id + tail;
    assert CasePrefix + id + RawValuePrefix + raw + RawValueSuffix == CasePrefix + rest;
    AfterPrefix(CasePrefix, rest);
    assert rest == id + [' '] + tail[1..];
    IndexOfAfterPrefix(id, ' ', tail[1..]);
    assert rest[..|id|] == id && rest[|id|..] == tail;
    BetweenAffixes(RawValuePrefix, raw, RawValueSuffix);
  }

  lemma CaseLineShape(v: EnumValue)
    requires IsName(v.name)
    ensures var line := CaseLine(v);
      && ReadCaseLine(line) == Some((CaseIdentifier(v.name), v.name))
      && ReadDocLine(line).None? && ReadAnnotationLine(line).None? && line[4] == 'c'
  {
    var line, id := CaseLine(v), CaseIdentifier(v.name);
    assert line == CasePrefix + id + RawValuePrefix + v.name + RawValueSuffix;
    CaseIdentifierIsName(v.name);
    ReadCaseLineOf(id, v.name);
    assert line[4] == 'c';
    assert !(DocPrefix <= line) by { assert DocPrefix[4] != line[4]; }
    assert !(AnnotationPrefix <= line) by { assert AnnotationPrefix[4] != line[4]; }
  }

  lemma CaseLineFifth(v: EnumValue)
    ensures CaseLine(v)[4] == 'c' && !(DocPrefix <= CaseLine(v)) && !(AnnotationPrefix <= CaseLine(v))
  {
    var line := CaseLine(v);
    assert line == CasePrefix + (CaseIdentifier(v.name) + RawValuePrefix + v.name + RawValueSuffix);
    assert line[4] == CasePrefix[4];
    assert DocPrefix[4] != line[4] && AnnotationPrefix[4] != line[4];
  }

  /**
    * A value's block has a `///` line exactly when the value has a description; it is the
    * first line of the block and carries the description unchanged.
    */
  lemma DocLinePresence(v: EnumValue)
    ensures var block := RenderCase(v);
      (exists k :: 0 <= k < |block| && DocPrefix <= block[k]) <==> v.description.Some?
    ensures v.description.Some? ==> RenderCase(v)[0] == DocPrefix + v.description.value
  {
    var block := RenderCase(v);
    CaseLineFifth(v);
    AnnotationLineShape(DeprecationMessage(v));
    if v.description.Some? {
      DocLineShape(v.description.value);
      assert DocPrefix <= block[0];
    } else {
      forall k | 0 <= k < |block|
        ensures !(DocPrefix <= block[k])
      {
      }
    }
  }

  /**
    * A value's block has an `@available` line exactly when the value is deprecated; it sits
    * immediately above the case line, which ends the block, and its message is the
    * deprecation reason, or the empty string when there is none.
    */
  lemma AnnotationPresence(v: EnumValue)
    ensures var block := RenderCase(v);
      (exists k :: 0 <= k < |block| && AnnotationPrefix <= block[k]) <==> v.isDeprecated
    ensures RenderCase(v)[|RenderCase(v)| - 1] == CaseLine(v)
    ensures v.isDeprecated ==>
      && |RenderCase(v)| >= 2
      && RenderCase(v)[|RenderCase(v)| - 2] == AnnotationPrefix + v.deprecationReason.GetOr("") + AnnotationSuffix
  {
    var block := RenderCase(v);
    CaseLineFifth(v);
    if v.description.Some? {
      DocLineShape(v.description.value);
    }
    if v.isDeprecated {
      var line := AnnotationLine(DeprecationMessage(v));
      AnnotationLineShape(DeprecationMessage(v));
      assert line == AnnotationPrefix + DeprecationMessage(v) + AnnotationSuffix;
      assert block[|block| - 2] == line;
      assert AnnotationPrefix <= block[|block| - 2];
    } else {
      forall k | 0 <= k < |block|
        ensures !(AnnotationPrefix <= block[k])
      {
      }
    }
  }

  // ---------------------------------------------------------------------------------------
  // Round trips

  /**
    * Reading a value's case block back yields its description as the doc line (none when it
    * has none), a deprecation message exactly when it is deprecated (its reason, or `""`),
    * its lowercased identifier and its raw name unchanged, in the order doc line, annotation,
    * case line.
    */
  lemma CaseBlockRoundTrip(v: EnumValue)
    requires IsName(v.name)
    ensures ReadCaseBlock(RenderCase(v)) == Some(CaseSummary(v))
  {
    var block, tail := RenderCase(v), CaseBlockTail(v);
    var doc := if v.description.Some? then [DocLine(Indent, v.description.value)] else [];
    assert block == doc + tail;
    CaseBlockTailRoundTrip(v);
    if v.description.Some? {
      DocLineShape(v.description.value);
      assert block[0] == doc[0] && block[1..] == tail;
    } else {
      assert block == tail;
    }
  }

  /** A case block without its doc line. */
  function CaseBlockTail(v: EnumValue): seq<string> {
    (if v.isDeprecated then [AnnotationLine(DeprecationMessage(v))] else []) + [CaseLine(v)]
  }

  lemma CaseBlockTailRoundTrip(v: EnumValue)
    requires IsName(v.name)
    ensures var tail := CaseBlockTail(v);
      && ReadDocLine(tail[0]).None?
      && ReadAnnotationLine(tail[0]) == (if v.isDeprecated then Some(DeprecationMessage(v)) else None)
      && (if v.isDeprecated then tail[1..] else tail) == [CaseLine(v)]
      && ReadCaseLine(CaseLine(v)) == Some((CaseIdentifier(v.name), v.name))
  {
    CaseLineShape(v);
    if v.isDeprecated {
      AnnotationLineShape(DeprecationMessage(v));
    }
  }

  lemma {:induction false} CasesRoundTrip(values: seq<EnumValue>)
    requires forall i :: 0 <= i < |values| ==> IsName(values[i].name)
    ensures ReadCases(RenderCases(values)) == Some(CaseSummaries(values))
    decreases |values|
  {
    if values != [] {
      var blocks := RenderCases(values);
      assert blocks[0] == RenderCase(values[0]);
      CaseBlockRoundTrip(values[0]);
      assert ReadCaseBlock(blocks[0]) == Some(CaseSummary(values[0]));
      assert blocks[1..] == RenderCases(values[1..]);
      CasesRoundTrip(values[1..]);
      assert ReadCases(blocks[1..]) == Some(CaseSummaries(values[1..]));
      assert ReadCases(blocks) == Some([CaseSummary(values[0])] + CaseSummaries(values[1..]));
    }
  }

  lemma NameNoNewline(name: string)
    requires IsName(name)
    ensures NoNewline(name)
  {
    forall i | 0 <= i < |name|
      ensures name[i] != '\n'
    {
      assert IsNameContinue(name[i]);
    }
  }

  lemma CaseLineNoNewline(v: EnumValue)
    requires IsName(v.name)
    ensures NoNewline(CaseLine(v))
  {
    CaseIdentifierIsName(v.name);
    NameNoNewline(v.name);
    NameNoNewline(CaseIdentifier(v.name));
    assert NoNewline(CasePrefix) && NoNewline(RawValuePrefix) && NoNewline(RawValueSuffix);
    assert CaseLine(v) == CasePrefix + CaseIdentifier(v.name) + RawValuePrefix + v.name + RawValueSuffix;
  }

  lemma CaseBlockNoNewline(v: EnumValue)
    requires PrintableValue(v)
    ensures forall k :: 0 <= k < |RenderCase(v)| ==> NoNewline(RenderCase(v)[k])
  {
    CaseLineNoNewline(v);
    assert NoNewline(DocPrefix) && NoNewline(AnnotationPrefix) && NoNewline(AnnotationSuffix);
    if v.description.Some? {
      assert DocLine(Indent, v.description.value) == DocPrefix + v.description.value;
    }
    assert AnnotationLine(DeprecationMessage(v)) == AnnotationPrefix + DeprecationMessage(v) + AnnotationSuffix;
  }

  lemma BodyNoNewline(values: seq<EnumValue>)
    requires forall i :: 0 <= i < |values| ==> PrintableValue(values[i])
    ensures forall k :: 0 <= k < |Body(values)| ==> NoNewline(Body(values)[k])
  {
    if values != [] {
      var blocks := RenderCases(values);
      forall i | 0 <= i < |blocks|
        ensures forall k :: 0 <= k < |blocks[i]| ==> NoNewline(blocks[i][k])
      {
        CaseBlockNoNewline(values[i]);
      }
      JoinKeeps(blocks, BlankLine);
    }
  }

  /** Every line of a join of blocks of single-line strings is a single-line string. */
  lemma {:induction false} JoinKeeps(blocks: seq<seq<string>>, sep: string)
    requires NoNewline(sep)
    requires forall i, k :: 0 <= i < |blocks| && 0 <= k < |blocks[i]| ==> NoNewline(blocks[i][k])
    ensures forall k :: 0 <= k < |Join(blocks, sep)| ==> NoNewline(Join(blocks, sep)[k])
    decreases |blocks|
  {
    if |blocks| > 1 {
      JoinKeeps(blocks[1..], sep);
      var rest := Join(blocks[1..], sep);
      assert Join(blocks, sep) == blocks[0] + [sep] + rest;
      forall k | 0 <= k < |Join(blocks, sep)|
        ensures NoNewline(Join(blocks, sep)[k])
      {
        if k < |blocks[0]| {
        } else if k > |blocks[0]| {
          assert Join(blocks, sep)[k] == rest[k - |blocks[0]| - 1];
        }
      }
    }
  }

  lemma HeaderNoNewline(t: EnumType)
    requires Printable(t)
    ensures NoNewline(DocLine("", TypeDoc(t))) && NoNewline(HeaderLine(t.name))
  {
    assert NoNewline(Conformances);
  }

  lemma LinesNoNewline(t: EnumType)
    requires Printable(t)
    ensures |Lines(t)| >= 4
    ensures forall k :: 0 <= k < |Lines(t)| ==> '\n' !in Lines(t)[k]
  {
    var values := t.enumValues;
    var lines, body := Lines(t), Body(values);
    var doc, head := DocLine("", TypeDoc(t)), HeaderLine(t.name);
    assert lines == [doc, head] + body + [ClosingBrace];
    BodyNoNewline(values);
    HeaderNoNewline(t);
    forall k | 0 <= k < |lines|
      ensures '\n' !in lines[k]
    {
      if 2 <= k < |lines| - 1 {
        assert lines[k] == body[k - 2];
      }
    }
    if values != [] {
      BodyEnds(values);
    }
  }

  /** The body reads back as the summaries of the values, and as none for an empty enum. */
  lemma BodyRoundTrip(values: seq<EnumValue>)
    requires forall i :: 0 <= i < |values| ==> IsName(values[i].name)
    ensures values == [] ==> Body(values) == [BlankLine]
    ensures values != [] ==> Body(values) != [BlankLine]
    ensures values != [] ==> ReadCases(Split(Body(values), BlankLine)) == Some(CaseSummaries(values))
  {
    if values != [] {
      BodyEnds(values);
      var blocks := RenderCases(values);
      forall i | 0 <= i < |blocks|
        ensures BlankLine !in blocks[i]
      {
        CaseBlockHasNoBlankLine(values[i]);
      }
      SplitJoin(blocks, BlankLine);
      CasesRoundTrip(values);
    }
  }

  /** The emitted text consists of exactly the lines of the declaration, separated by newlines. */
  lemma GenerateEnumLines(t: EnumType)
    requires Printable(t)
    ensures Split(GenerateEnum(t), '\n') == Lines(t)
  {
    LinesNoNewline(t);
    SplitJoin(Lines(t), '\n');
  }

  lemma ReadEnumOf(text: string, doc: string, name: string, body: seq<string>, cases: seq<CaseInfo>)
    requires Split(text, '\n') == ["/// " + doc, "enum " + name + Conformances] + body + [ClosingBrace]
    requires |body| >= 1
    requires body == [BlankLine] ==> cases == []
    requires body != [BlankLine] ==> ReadCases(Split(body, BlankLine)) == Some(cases)
    ensures ReadEnum(text) == Some(EnumInfo(doc, name, cases))
  {
    var lines := Split(text, '\n');
    AfterPrefix("/// ", doc);
    BetweenAffixes("enum ", name, Conformances);
    assert lines[2..|lines| - 1] == body;
  }

  /**
    * Reading the emitted declaration back gives the type's doc text and name and, in
    * declaration order, the summary of every value: no value is dropped, duplicated,
    * reordered or merged with another.
    */
  lemma GenerateEnumRoundTrip(t: EnumType)
    requires Printable(t)
    ensures ReadEnum(GenerateEnum(t)) == Some(EnumSummary(t))
  {
    var lines, body := Lines(t), Body(t.enumValues);
    LinesNoNewline(t);
    SplitJoin(lines, '\n');
    assert DocLine("", TypeDoc(t)) == "/// " + TypeDoc(t);
    assert lines == ["/// " + TypeDoc(t), "enum " + t.name + Conformances] + body + [ClosingBrace];
    assert forall i :: 0 <= i < |t.enumValues| ==> PrintableValue(t.enumValues[i]);
    BodyRoundTrip(t.enumValues);
    ReadEnumOf(GenerateEnum(t), TypeDoc(t), t.name, body, CaseSummaries(t.enumValues));
  }
}
