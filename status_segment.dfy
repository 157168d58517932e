/**
 * The exit-status segment: the outcome of the last command, a mark when
 * the shell runs as root and a mark when background jobs are running.
 * Whether the user is root is a query of the system, taken as a parameter.
 */
module StatusSegment {
  import opened Wrappers
  import opened Text
  import opened StyleModel
  import opened SegmentModel

  datatype StatusIcons = StatusIcons(succeeded: string, failed: string, root: string, jobs: string)

  datatype StatusConfig = StatusConfig(
    icons: StatusIcons,
    succeeded: Style,
    failed: Style,
    displayExitCode: bool,
    content: string)

  const DefaultConfig: StatusConfig := StatusConfig(
    StatusIcons("\U{2713}", "\U{f06a}", "\U{e00a}", "\U{f013}"),
    Style(Named(NamedColor.Green), Named(NamedColor.White), []),
    Style(Named(NamedColor.White), Named(NamedColor.Red), []),
    true,
    " " + "{{.exit_status}}" + "{{.root}}" + "{{.jobs}}" + " ")

  const Patterns: seq<Pattern> := ["{{.exit_status}}", "{{.root}}", "{{.jobs}}"]

  lemma PatternsArePlaceholders()
    ensures Placeholders(Patterns)
  {
    forall i, j | 0 <= i < |Patterns| && 0 <= j < |Patterns| && i != j
      ensures !IsPrefix(Patterns[i], Patterns[j])
    {
      assert Patterns[i][3] != Patterns[j][3];
    }
  }

  /**
   * The outcome: the succeeded icon for status 0; otherwise the failed icon,
   * followed by one space and the status in decimal when the configuration
   * asks for the code.
   */
  function ExitStatusText(exitStatus: int, icons: StatusIcons, displayExitCode: bool): (r: string)
    ensures exitStatus == 0 ==> r == icons.succeeded
    ensures exitStatus != 0 && !displayExitCode ==> r == icons.failed
    ensures exitStatus != 0 && displayExitCode ==>
      IsPrefix(icons.failed + " ", r) && ParseInt(r[|icons.failed| + 1..]) == Some(exitStatus)
  {
    if exitStatus == 0 then icons.succeeded
    else if displayExitCode then
      var r := icons.failed + " " + IntToString(exitStatus);
      assert r[|icons.failed| + 1..] == IntToString(exitStatus);
      IntToStringRoundTrip(exitStatus);
      r
    else icons.failed
  }

  /** A mark after one space when `on`, nothing otherwise. */
  function Indicator(on: bool, icon: string): string {
    if on then " " + icon else []
  }

  function Replacements(exitStatus: int, jobs: int, isRoot: bool, config: StatusConfig): (reps: seq<string>)
    ensures |reps| == |Patterns|
  {
    [ ExitStatusText(exitStatus, config.icons, config.displayExitCode),
      Indicator(isRoot, config.icons.root),
      Indicator(jobs > 0, config.icons.jobs) ]
  }

  /**
   * `StatusSegmentBuilder::build`: always a segment, in the succeeded style
   * exactly for status 0.
   */
  function Build(exitStatus: int, jobs: int, isRoot: bool, config: StatusConfig): (r: Option<Segment>)
    ensures r.Some?
    ensures exitStatus == 0 ==> r.value.style == AnsiOf(config.succeeded)
    ensures exitStatus != 0 ==> r.value.style == AnsiOf(config.failed)
  {
    Some(Segment(
      ReplaceAll(config.content, Patterns, Replacements(exitStatus, jobs, isRoot, config)),
      AnsiOf(if exitStatus == 0 then config.succeeded else config.failed)))
  }

  /** Any template of inert text and the three placeholders is filled in place. */
  lemma BuildFillsTemplate(exitStatus: int, jobs: int, isRoot: bool, config: StatusConfig, parts: seq<Part>)
    requires WellFormed(parts, |Patterns|) && config.content == Fill(parts, Patterns)
    ensures Build(exitStatus, jobs, isRoot, config).value.content
      == Fill(parts, Replacements(exitStatus, jobs, isRoot, config))
  {
    PatternsArePlaceholders();
    ReplaceAllTemplate(parts, Patterns, Replacements(exitStatus, jobs, isRoot, config));
  }

  /** The default template taken apart. */
  const DefaultParts: seq<Part> := [Lit(" "), Hole(0), Hole(1), Hole(2), Lit(" ")]

  lemma DefaultPartsSpellContent()
    ensures WellFormed(DefaultParts, |Patterns|)
    ensures Fill(DefaultParts, Patterns) == DefaultConfig.content
  {
    FillDefaultParts(Patterns);
  }

  lemma FillDefaultParts(strs: seq<string>)
    requires |strs| == 3
    ensures WellFormed(DefaultParts, |strs|)
    ensures Fill(DefaultParts, strs) == " " + (strs[0] + (strs[1] + (strs[2] + " ")))
  {
    var parts := DefaultParts;
    assert Inert(" ");
    assert parts[5..] == [];
    FillFrom(parts, strs, 4);
    assert Fill(parts[4..], strs) == " ";
    FillFrom(parts, strs, 3);
    assert Fill(parts[3..], strs) == strs[2] + " ";
    FillFrom(parts, strs, 2);
    assert Fill(parts[2..], strs) == strs[1] + (strs[2] + " ");
    FillFrom(parts, strs, 1);
    assert Fill(parts[1..], strs) == strs[0] + (strs[1] + (strs[2] + " "));
    FillFrom(parts, strs, 0);
    assert parts[0..] == parts;
  }

  /**
   * The default template, with or without the exit code: the outcome, the
   * root mark and the jobs mark, between two spaces.
   */
  lemma BuildDefault(exitStatus: int, jobs: int, isRoot: bool, displayExitCode: bool)
    ensures var config := DefaultConfig.(displayExitCode := displayExitCode);
      Build(exitStatus, jobs, isRoot, config).value.content
        == " " + (ExitStatusText(exitStatus, config.icons, displayExitCode)
          + (Indicator(isRoot, "\U{e00a}") + (Indicator(jobs > 0, "\U{f013}") + " ")))
  {
    var config := DefaultConfig.(displayExitCode := displayExitCode);
    DefaultPartsSpellContent();
    BuildFillsTemplate(exitStatus, jobs, isRoot, config, DefaultParts);
    FillDefaultParts(Replacements(exitStatus, jobs, isRoot, config));
  }

  lemma BuildSucceeded()
    ensures Build(0, 0, false, DefaultConfig).value.content == " \U{2713} "
  {
    BuildDefault(0, 0, false, true);
  }

  lemma BuildFailedWithCode()
    ensures Build(1, 0, false, DefaultConfig).value.content == " \U{f06a} 1 "
  {
    BuildDefault(1, 0, false, true);
  }

  lemma BuildFailedWithoutCode()
    ensures Build(1, 0, false, DefaultConfig.(displayExitCode := false)).value.content == " \U{f06a} "
  {
    BuildDefault(1, 0, false, false);
  }

  lemma BuildInterruptedAsRootWithJobs()
    ensures Build(130, 1, true, DefaultConfig).value.content == " \U{f06a} 130 \U{e00a} \U{f013} "
  {
    BuildDefault(130, 1, true, true);
    assert IntToString(130) == "130" by {
      assert NatToString(13) == "13";
    }
  }
}
