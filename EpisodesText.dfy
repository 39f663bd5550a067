/**
  * The `Episodes` inputs of the generator's unit tests and the lines the emitter produces
  * for them, each expected line assembled from the emitter's pieces.
  */
module EpisodesText {
  import opened Wrappers
  import opened GraphQL
  import opened Sequences
  import opened Codegen

  const EpisodesDescription: string := "Collection of all StarWars episodes."

  const NewHope: EnumValue := EnumValue("NEWHOPE", Some("Released in 1977."), false, None)
  const Empire: EnumValue := EnumValue("EMPIRE", None, false, None)
  const Jedi: EnumValue := EnumValue("JEDI", Some("Released in 1983."), true, Some("Was too good."))
  const Skywalker: EnumValue := EnumValue("SKYWALKER", None, true, None)

  const EmptyEpisodes: EnumType := EnumType("Episodes", Some(EpisodesDescription), [])
  const OneEpisode: EnumType := EnumType("Episodes", Some(EpisodesDescription), [NewHope])
  const AllEpisodes: EnumType := EnumType("Episodes", Some(EpisodesDescription), [NewHope, Empire, Jedi, Skywalker])

  lemma CaseIdentifierOfSkywalker()
    ensures CaseIdentifier("SKYWALKER") == "skywalker"
  {
    var d := CaseIdentifier("SKYWALKER");
    CaseIdentifierLowercases("SKYWALKER");
    assert d[..5] == "skywa" by {
      assert d[0] == 's' && d[1] == 'k' && d[2] == 'y' && d[3] == 'w' && d[4] == 'a';
    }
    assert d[5..] == "lker" by {
      assert d[5] == 'l' && d[6] == 'k' && d[7] == 'e' && d[8] == 'r';
    }
    assert d == d[..5] + d[5..];
  }

  // The expected lines of the unit tests. Where the verifier needs the steps, a line is
  // assembled from the emitter's pieces left to right, a short piece at a time.

  /** Regroups a concatenation to the left. */
  lemma Regroup(a: string, b: string, c: string)
    ensures a + (b + c) == a + b + c
  {
  }

  lemma TypeDocLine()
    ensures DocLine("", EpisodesDescription) == "/// Collection of all StarWars episodes."
  {
  }

  lemma EpisodesHeaderLine()
    ensures HeaderLine("Episodes") == "enum Episodes: String, CaseIterable, Codable {"
  {
  }

  lemma DocLine1977()
    ensures DocLine(Indent, "Released in 1977.") == "    /// Released in 1977."
  {
    assert Indent + "/// " == "    /// ";
    assert "    /// " + "Released in 1977." == "    /// Released in 1977.";
  }

  lemma DocLine1983()
    ensures DocLine(Indent, "Released in 1983.") == "    /// Released in 1983."
  {
    assert Indent + "/// " == "    /// ";
    assert "    /// " + "Released in 1983." == "    /// Released in 1983.";
  }

  lemma AnnotationOpeningPieces()
    ensures "@available(*, deprecated, message: \"" == "@available(*, " + "deprecated, " + "message: \""
  {
    assert "@available(*, " + "deprecated, " == "@available(*, deprecated, ";
  }

  lemma AnnotationOpeningText()
    ensures Indent + "@available(*, " + "deprecated, " + "message: \"" == "    @available(*, deprecated, message: \""
  {
    assert Indent + "@available(*, " == "    @available(*, ";
    assert "    @available(*, " + "deprecated, " == "    @available(*, deprecated, ";
  }

  /** Every annotation line, whatever its message. */
  lemma AnnotationLineText(message: string)
    ensures AnnotationLine(message) == "    @available(*, deprecated, message: \"" + message + "\")"
  {
    var c1, c2, c3 := "@available(*, ", "deprecated, ", "message: \"";
    AnnotationOpeningPieces();
    Regroup(Indent, c1 + c2, c3);
    Regroup(Indent, c1, c2);
    AnnotationOpeningText();
  }

  lemma AnnotationTooGood()
    ensures AnnotationLine("Was too good.") == "    @available(*, deprecated, message: \"Was too good.\")"
  {
    AnnotationLineText("Was too good.");
    assert "    @available(*, deprecated, message: \"" + "Was too good." == "    @available(*, deprecated, message: \"Was too good.";
    assert "    @available(*, deprecated, message: \"Was too good." + "\")" == "    @available(*, deprecated, message: \"Was too good.\")";
  }

  lemma AnnotationWithoutReason()
    ensures AnnotationLine("") == "    @available(*, deprecated, message: \"\")"
  {
    AnnotationLineText("");
    assert "    @available(*, deprecated, message: \"" + "" == "    @available(*, deprecated, message: \"";
    assert "    @available(*, deprecated, message: \"" + "\")" == "    @available(*, deprecated, message: \"\")";
  }

  /** Every case line, once its identifier is known. */
  lemma CaseLineText(v: EnumValue, id: string)
    requires CaseIdentifier(v.name) == id
    ensures CaseLine(v) == "    case " + id + " = \"" + v.name + "\""
  {
    assert Indent + "case " == "    case ";
  }

  lemma NewHopeCaseLine()
    ensures CaseLine(NewHope) == "    case newhope = \"NEWHOPE\""
  {
  }

  lemma EmpireCaseLine()
    ensures CaseLine(Empire) == "    case empire = \"EMPIRE\""
  {
  }

  lemma JediCaseLine()
    ensures CaseLine(Jedi) == "    case jedi = \"JEDI\""
  {
  }

  lemma SkywalkerCaseText()
    ensures "    case " + "skywalker" + " = \"" + "SKYWALKER" + "\"" == "    case skywalker = \"SKYWALKER\""
  {
    assert "    case " + "skywalker" == "    case skywalker";
    assert "    case skywalker" + " = \"" == "    case skywalker = \"";
    assert "    case skywalker = \"" + "SKYWALKER" == "    case skywalker = \"SKYWALKER";
  }

  lemma SkywalkerCaseLine()
    ensures CaseLine(Skywalker) == "    case skywalker = \"SKYWALKER\""
  {
    CaseIdentifierOfSkywalker();
    CaseLineText(Skywalker, "skywalker");
    SkywalkerCaseText();
  }

  lemma NewHopeBlock()
    ensures RenderCase(NewHope) == ["    /// Released in 1977.", "    case newhope = \"NEWHOPE\""]
  {
    assert RenderCase(NewHope) == [DocLine(Indent, "Released in 1977."), CaseLine(NewHope)];
    DocLine1977();
    NewHopeCaseLine();
  }

  lemma EmpireBlock()
    ensures RenderCase(Empire) == ["    case empire = \"EMPIRE\""]
  {
    assert RenderCase(Empire) == [CaseLine(Empire)];
    EmpireCaseLine();
  }

  lemma JediBlock()
    ensures RenderCase(Jedi) == [
      "    /// Released in 1983.",
      "    @available(*, deprecated, message: \"Was too good.\")",
      "    case jedi = \"JEDI\""]
  {
    assert RenderCase(Jedi) == [DocLine(Indent, "Released in 1983."), AnnotationLine("Was too good."), CaseLine(Jedi)];
    DocLine1983();
    AnnotationTooGood();
    JediCaseLine();
  }

  lemma SkywalkerBlock()
    ensures RenderCase(Skywalker) == [
      "    @available(*, deprecated, message: \"\")",
      "    case skywalker = \"SKYWALKER\""]
  {
    assert RenderCase(Skywalker) == [AnnotationLine(""), CaseLine(Skywalker)];
    AnnotationWithoutReason();
    SkywalkerCaseLine();
  }

  lemma EpisodeNames()
    ensures IsName("NEWHOPE") && IsName("EMPIRE") && IsName("JEDI") && IsName("SKYWALKER")
  {
    assert IsName("NEWHOPE");
    assert IsName("EMPIRE");
    assert IsName("JEDI");
    assert IsName("SKYWALKER");
  }

  lemma EpisodesHeader()
    ensures Header(EmptyEpisodes) == Header(OneEpisode) == Header(AllEpisodes) == [
      "/// Collection of all StarWars episodes.",
      "enum Episodes: String, CaseIterable, Codable {"]
  {
    TypeDocLine();
    EpisodesHeaderLine();
  }

  lemma EmptyEpisodesLines()
    ensures Lines(EmptyEpisodes) == [
      "/// Collection of all StarWars episodes.",
      "enum Episodes: String, CaseIterable, Codable {",
      "",
      "}"]
  {
    EpisodesHeader();
  }

  lemma EpisodesBody()
    ensures Body(AllEpisodes.enumValues) == [
      "    /// Released in 1977.",
      "    case newhope = \"NEWHOPE\"",
      "",
      "    case empire = \"EMPIRE\"",
      "",
      "    /// Released in 1983.",
      "    @available(*, deprecated, message: \"Was too good.\")",
      "    case jedi = \"JEDI\"",
      "",
      "    @available(*, deprecated, message: \"\")",
      "    case skywalker = \"SKYWALKER\""]
  {
    var l1, l2 := "    /// Released in 1977.", "    case newhope = \"NEWHOPE\"";
    var l3 := "    case empire = \"EMPIRE\"";
    var l4, l5, l6 := "    /// Released in 1983.", "    @available(*, deprecated, message: \"Was too good.\")", "    case jedi = \"JEDI\"";
    var l7, l8 := "    @available(*, deprecated, message: \"\")", "    case skywalker = \"SKYWALKER\"";
    BodyOfFour(NewHope, Empire, Jedi, Skywalker);
    NewHopeBlock();
    EmpireBlock();
    JediBlock();
    SkywalkerBlock();
    FlattenBlocks(l1, l2, l3, l4, l5, l6, l7, l8, "");
  }

  /** Four blocks of two, one, three and two lines, joined with a separator line. */
  lemma FlattenBlocks<T>(l1: T, l2: T, l3: T, l4: T, l5: T, l6: T, l7: T, l8: T, sep: T)
    ensures [l1, l2] + [sep] + [l3] + [sep] + [l4, l5, l6] + [sep] + [l7, l8]
      == [l1, l2, sep, l3, sep, l4, l5, l6, sep, l7, l8]
  {
  }

  /** The body of four values: their blocks, left to right, with a blank line after each but the last. */
  lemma BodyOfFour(v1: EnumValue, v2: EnumValue, v3: EnumValue, v4: EnumValue)
    ensures Body([v1, v2, v3, v4])
      == RenderCase(v1) + [BlankLine] + RenderCase(v2) + [BlankLine] + RenderCase(v3) + [BlankLine] + RenderCase(v4)
  {
    assert RenderCases([v1, v2, v3, v4]) == [RenderCase(v1), RenderCase(v2), RenderCase(v3), RenderCase(v4)];
    JoinFour(RenderCase(v1), RenderCase(v2), RenderCase(v3), RenderCase(v4), BlankLine);
  }

  lemma JoinFour<T>(a: seq<T>, b: seq<T>, c: seq<T>, d: seq<T>, sep: T)
    ensures Join([a, b, c, d], sep) == a + [sep] + b + [sep] + c + [sep] + d
  {
    assert [c, d][1..] == [d];
    assert Join([c, d], sep) == c + [sep] + d;
    assert [b, c, d][1..] == [c, d];
    assert Join([b, c, d], sep) == b + [sep] + (c + [sep] + d);
    assert [a, b, c, d][1..] == [b, c, d];
  }

  lemma AllEpisodesLines()
    ensures Lines(AllEpisodes) == [
      "/// Collection of all StarWars episodes.",
      "enum Episodes: String, CaseIterable, Codable {",
      "    /// Released in 1977.",
      "    case newhope = \"NEWHOPE\"",
      "",
      "    case empire = \"EMPIRE\"",
      "",
      "    /// Released in 1983.",
      "    @available(*, deprecated, message: \"Was too good.\")",
      "    case jedi = \"JEDI\"",
      "",
      "    @available(*, deprecated, message: \"\")",
      "    case skywalker = \"SKYWALKER\"",
      "}"]
  {
    var d, h := "/// Collection of all StarWars episodes.", "enum Episodes: String, CaseIterable, Codable {";
    var l1, l2 := "    /// Released in 1977.", "    case newhope = \"NEWHOPE\"";
    var l3 := "    case empire = \"EMPIRE\"";
    var l4, l5, l6 := "    /// Released in 1983.", "    @available(*, deprecated, message: \"Was too good.\")", "    case jedi = \"JEDI\"";
    var l7, l8 := "    @available(*, deprecated, message: \"\")", "    case skywalker = \"SKYWALKER\"";
    EpisodesHeader();
    EpisodesBody();
    Enclose(d, h, l1, l2, l3, l4, l5, l6, l7, l8, "", "}");
  }

  /** The header's two lines, the body and the closing line, as one list. */
  lemma Enclose<T>(d: T, h: T, l1: T, l2: T, l3: T, l4: T, l5: T, l6: T, l7: T, l8: T, sep: T, c: T)
    ensures [d, h] + [l1, l2, sep, l3, sep, l4, l5, l6, sep, l7, l8] + [c]
      == [d, h, l1, l2, sep, l3, sep, l4, l5, l6, sep, l7, l8, c]
  {
  }

  lemma OneEpisodeLines()
    ensures Lines(OneEpisode) == [
      "/// Collection of all StarWars episodes.",
      "enum Episodes: String, CaseIterable, Codable {",
      "    /// Released in 1977.",
      "    case newhope = \"NEWHOPE\"",
      "}"]
  {
    EpisodesHeader();
    NewHopeBlock();
    assert RenderCases(OneEpisode.enumValues) == [RenderCase(NewHope)];
  }
}
