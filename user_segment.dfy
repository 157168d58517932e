/**
 * The user segment: the login name and the host name, each read from the
 * system (taken as parameters here), with `?` for a name that cannot be read.
 */
module UserSegment {
  import opened Wrappers
  import opened Text
  import opened StyleModel
  import opened SegmentModel

  datatype UserConfig = UserConfig(style: Style, content: string)

  const DefaultConfig: UserConfig := UserConfig(
    Style(Named(NamedColor.White), Color.Fixed(8), []),
    " " + "{{.user}}" + "@" + "{{.host}}" + " ")

  const Patterns: seq<Pattern> := ["{{.user}}", "{{.host}}"]

  lemma PatternsArePlaceholders()
    ensures Placeholders(Patterns)
  {
    assert Patterns[0][3] != Patterns[1][3];
  }

  /** The two names, with `?` for a missing one. */
  function Replacements(username: Option<string>, hostname: Option<string>): (reps: seq<string>)
    ensures |reps| == |Patterns|
    ensures username.None? ==> reps[0] == "?"
    ensures hostname.None? ==> reps[1] == "?"
    ensures username.Some? ==> reps[0] == username.value
    ensures hostname.Some? ==> reps[1] == hostname.value
  {
    [username.GetOr("?"), hostname.GetOr("?")]
  }

  /** `UserSegmentBuilder::build`: always a segment, in the configured style. */
  function Build(username: Option<string>, hostname: Option<string>, config: UserConfig): (r: Option<Segment>)
    ensures r.Some? && r.value.style == AnsiOf(config.style)
  {
    Some(Segment(ReplaceAll(config.content, Patterns, Replacements(username, hostname)), AnsiOf(config.style)))
  }

  /** Any template of inert text and the two placeholders is filled in place. */
  lemma BuildFillsTemplate(username: Option<string>, hostname: Option<string>, config: UserConfig, parts: seq<Part>)
    requires WellFormed(parts, |Patterns|) && config.content == Fill(parts, Patterns)
    ensures Build(username, hostname, config).value.content == Fill(parts, Replacements(username, hostname))
  {
    PatternsArePlaceholders();
    ReplaceAllTemplate(parts, Patterns, Replacements(username, hostname));
  }

  const DefaultParts: seq<Part> := [Lit(" "), Hole(0), Lit("@"), Hole(1), Lit(" ")]

  lemma DefaultPartsSpellContent()
    ensures WellFormed(DefaultParts, |Patterns|)
    ensures Fill(DefaultParts, Patterns) == DefaultConfig.content
  {
    FillDefaultParts(Patterns);
  }

  lemma FillDefaultParts(strs: seq<string>)
    requires |strs| == 2
    ensures WellFormed(DefaultParts, |strs|)
    ensures Fill(DefaultParts, strs) == " " + (strs[0] + ("@" + (strs[1] + " ")))
  {
    var parts := DefaultParts;
    assert Inert(" ") && Inert("@");
    assert parts[5..] == [];
    FillFrom(parts, strs, 4);
    assert Fill(parts[4..], strs) == " ";
    FillFrom(parts, strs, 3);
    assert Fill(parts[3..], strs) == strs[1] + " ";
    FillFrom(parts, strs, 2);
    assert Fill(parts[2..], strs) == "@" + (strs[1] + " ");
    FillFrom(parts, strs, 1);
    assert Fill(parts[1..], strs) == strs[0] + ("@" + (strs[1] + " "));
    FillFrom(parts, strs, 0);
    assert parts[0..] == parts;
  }

  /** The default template: user, `@`, host, between two spaces. */
  lemma BuildDefault(username: Option<string>, hostname: Option<string>)
    ensures Build(username, hostname, DefaultConfig).value.content
      == " " + (username.GetOr("?") + ("@" + (hostname.GetOr("?") + " ")))
  {
    DefaultPartsSpellContent();
    BuildFillsTemplate(username, hostname, DefaultConfig, DefaultParts);
    FillDefaultParts(Replacements(username, hostname));
  }

  lemma BuildExamples()
    ensures Build(Some("user"), Some("host"), DefaultConfig).value.content == " user@host "
    ensures Build(None, Some("host"), DefaultConfig).value.content == " ?@host "
    ensures Build(Some("user"), None, DefaultConfig).value.content == " user@? "
  {
    BuildDefault(Some("user"), Some("host"));
    BuildDefault(None, Some("host"));
    BuildDefault(Some("user"), None);
  }
}
