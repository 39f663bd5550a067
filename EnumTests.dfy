/**
  * The expected outputs of the enum generator for the `Episodes` inputs of the generator's
  * unit tests. Each expected text is a Swift multi-line string literal, that is, its lines
  * joined with newlines and no trailing newline; the lemmas state the emitted text split at
  * its newlines, which by `Sequences.JoinSplit` fixes the text exactly.
  */
module EnumTests {
  import opened Wrappers
  import opened GraphQL
  import opened Sequences
  import opened Codegen
  import opened EnumReader
  import opened EpisodesText

  lemma EpisodeValuesPrintable()
    ensures PrintableValue(NewHope) && PrintableValue(Empire) && PrintableValue(Jedi) && PrintableValue(Skywalker)
  {
    EpisodeNames();
    assert NoNewline("Released in 1977.") && NoNewline("Released in 1983.") && NoNewline("Was too good.");
  }

  lemma EpisodesDocPrintable(t: EnumType)
    requires t.name == "Episodes" && t.description == Some(EpisodesDescription)
    ensures NoNewline(t.name) && NoNewline(TypeDoc(t))
  {
    assert NoNewline(EpisodesDescription) && NoNewline("Episodes");
  }

  /** An enum without values: the text between the braces is one blank line. */
  lemma GenerateEmptyEnum()
    ensures Split(GenerateEnum(EmptyEpisodes), '\n') == [
      "/// Collection of all StarWars episodes.",
      "enum Episodes: String, CaseIterable, Codable {",
      "",
      "}"]
  {
    EpisodesDocPrintable(EmptyEpisodes);
    GenerateEnumLines(EmptyEpisodes);
    EmptyEpisodesLines();
  }

  /** Four values covering every combination of description and deprecation, in order. */
  lemma GenerateEnumWithDescription()
    ensures Split(GenerateEnum(AllEpisodes), '\n') == [
      "/// Collection of all StarWars episodes.",
      "enum Episodes: String, CaseIterable, Codable {",
      "    /// Released in 1977.",
      "    case newhope = \"NEWHOPE\"",
      "",
      "    case empire = \"EMPIRE\"",
      "",
      "    /// Released in 1983.",
      "    @available(*, deprecated, message: \"Was too good.\")",
      "    case jedi = \"JEDI\"",
      "",
      "    @available(*, deprecated, message: \"\")",
      "    case skywalker = \"SKYWALKER\"",
      "}"]
  {
    EpisodesDocPrintable(AllEpisodes);
    EpisodeValuesPrintable();
    assert Printable(AllEpisodes);
    GenerateEnumLines(AllEpisodes);
    AllEpisodesLines();
  }

  /**
    * The one-value input: the case block and the braces are those the unit test expects; the
    * first line carries the type's description, where that unit test expects `/// Episodes`.
    */
  lemma GenerateEnumWithoutDescription()
    ensures Split(GenerateEnum(OneEpisode), '\n') == [
      "/// Collection of all StarWars episodes.",
      "enum Episodes: String, CaseIterable, Codable {",
      "    /// Released in 1977.",
      "    case newhope = \"NEWHOPE\"",
      "}"]
  {
    EpisodesDocPrintable(OneEpisode);
    EpisodeValuesPrintable();
    assert Printable(OneEpisode);
    GenerateEnumLines(OneEpisode);
    OneEpisodeLines();
  }
}
