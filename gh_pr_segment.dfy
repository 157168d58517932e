/**
 * The GitHub pull-request segment: the number of the branch's pull request,
 * its state and how many comments and reviews it has. The configuration
 * file of this segment is not part of this model, so it has no defaults
 * here; its fields are the ones the builder reads.
 */
module GhPullRequestSegment {
  import opened Wrappers
  import opened Text
  import opened StyleModel
  import opened GhInfo
  import opened SegmentModel

  datatype PullRequestIcons = PullRequestIcons(open: string, draft: string, closed: string, merged: string, comment: string)

  datatype GhPullRequestConfig = GhPullRequestConfig(
    icons: PullRequestIcons,
    open: Style,
    draft: Style,
    closed: Style,
    merged: Style,
    content: string)

  const Patterns: seq<Pattern> := ["{{.number}}", "{{.state}}", "{{.comments}}"]

  lemma PatternsArePlaceholders()
    ensures Placeholders(Patterns)
  {
    forall i, j | 0 <= i < |Patterns| && 0 <= j < |Patterns| && i != j
      ensures !IsPrefix(Patterns[i], Patterns[j])
    {
      assert Patterns[i][3] != Patterns[j][3];
    }
  }

  /** The four rows of the table that picks both the state icon and the style. */
  datatype Shown = ShownOpen | ShownDraft | ShownClosed | ShownMerged

  /** The row of a pull request: the draft flag matters only while it is open. */
  function ShownOf(state: PullRequestState, isDraft: bool): (r: Shown)
    ensures state == Open ==> (r == ShownDraft <==> isDraft) && (r == ShownOpen <==> !isDraft)
    ensures state == Closed ==> r == ShownClosed
    ensures state == Merged ==> r == ShownMerged
  {
    match state
    case Open => if isDraft then ShownDraft else ShownOpen
    case Closed => ShownClosed
    case Merged => ShownMerged
  }

  function StateIcon(icons: PullRequestIcons, row: Shown): string {
    match row
    case ShownOpen => icons.open
    case ShownDraft => icons.draft
    case ShownClosed => icons.closed
    case ShownMerged => icons.merged
  }

  /** `style`: the configured style of the row. */
  function StyleOf(config: GhPullRequestConfig, row: Shown): Style {
    match row
    case ShownOpen => config.open
    case ShownDraft => config.draft
    case ShownClosed => config.closed
    case ShownMerged => config.merged
  }

  /** `build_state`: the row's icon after one space, nothing when that icon is empty. */
  function StatePart(icons: PullRequestIcons, pr: PullRequest): (r: string)
    ensures var icon := StateIcon(icons, ShownOf(pr.state, pr.isDraft));
      (r == [] <==> icon == []) && (r != [] ==> r == " " + icon)
  {
    Spaced(StateIcon(icons, ShownOf(pr.state, pr.isDraft)))
  }

  /** The three replacements, in the order of the placeholders. */
  function Replacements(pr: PullRequest, icons: PullRequestIcons): (reps: seq<string>)
    ensures |reps| == |Patterns|
    ensures ParseInt(reps[0]) == Some(pr.number)
  {
    IntToStringRoundTrip(pr.number);
    [IntToString(pr.number), StatePart(icons, pr), Counted(icons.comment, pr.comments)]
  }

  /**
   * `GhPullRequestSegmentBuilder::build`: a segment exactly when there is gh
   * information, in the style of the pull request's row.
   */
  function Build(ghInfo: Option<GhInfo>, config: GhPullRequestConfig): (r: Option<Segment>)
    ensures r.None? <==> ghInfo.None?
    ensures r.Some? ==> var pr := ghInfo.value.pullRequest;
      r.value.style == AnsiOf(StyleOf(config, ShownOf(pr.state, pr.isDraft)))
  {
    match ghInfo
    case None => None
    case Some(info) =>
      var pr := info.pullRequest;
      Some(Segment(
        ReplaceAll(config.content, Patterns, Replacements(pr, config.icons)),
        AnsiOf(StyleOf(config, ShownOf(pr.state, pr.isDraft)))))
  }

  /** Any template of inert text and the three placeholders is filled in place, and only there. */
  lemma BuildFillsTemplate(info: GhInfo, config: GhPullRequestConfig, parts: seq<Part>)
    requires WellFormed(parts, |Patterns|) && config.content == Fill(parts, Patterns)
    ensures Build(Some(info), config).value.content == Fill(parts, Replacements(info.pullRequest, config.icons))
  {
    PatternsArePlaceholders();
    ReplaceAllTemplate(parts, Patterns, Replacements(info.pullRequest, config.icons));
  }

  /** The layout `" #{{.number}}{{.state}}{{.comments}} "` taken apart. */
  const HashParts: seq<Part> := [Lit(" #"), Hole(0), Hole(1), Hole(2), Lit(" ")]

  const HashLayout: string := " #" + "{{.number}}" + "{{.state}}" + "{{.comments}}" + " "

  lemma HashPartsSpellLayout()
    ensures WellFormed(HashParts, |Patterns|)
    ensures Fill(HashParts, Patterns) == HashLayout
  {
    FillHashParts(Patterns);
  }

  lemma FillHashParts(strs: seq<string>)
    requires |strs| == 3
    ensures WellFormed(HashParts, |strs|)
    ensures Fill(HashParts, strs) == " #" + (strs[0] + (strs[1] + (strs[2] + " ")))
  {
    var parts := HashParts;
    assert Inert(" ") && Inert(" #");
    assert parts[5..] == [];
    FillFrom(parts, strs, 4);
    assert Fill(parts[4..], strs) == " ";
    FillFrom(parts, strs, 3);
    assert Fill(parts[3..], strs) == strs[2] + " ";
    FillFrom(parts, strs, 2);
    assert Fill(parts[2..], strs) == strs[1] + (strs[2] + " ");
    FillFrom(parts, strs, 1);
    assert Fill(parts[1..], strs) == strs[0] + (strs[1] + (strs[2] + " "));
    FillFrom(parts, strs, 0);
    assert parts[0..] == parts;
  }

  /**
   * With that layout: `#` and the number, then the state part and the
   * comment part, between spaces.
   */
  lemma BuildHashLayout(info: GhInfo, config: GhPullRequestConfig)
    requires config.content == HashLayout
    ensures var pr := info.pullRequest;
      Build(Some(info), config).value.content
        == " #" + (IntToString(pr.number) + (StatePart(config.icons, pr)
          + (Counted(config.icons.comment, pr.comments) + " ")))
  {
    HashPartsSpellLayout();
    BuildFillsTemplate(info, config, HashParts);
    FillHashParts(Replacements(info.pullRequest, config.icons));
  }

  /** A merged pull request shows the merged icon even when it was a draft, and no comment part without comments. */
  lemma BuildMergedDraft(config: GhPullRequestConfig)
    requires config.content == HashLayout
    requires config.icons.merged == "M"
    ensures var info := GhInfo(PullRequest(12, Merged, 0, true, false), None);
      Build(Some(info), config).value == Segment(" #12 M ", AnsiOf(config.merged))
  {
    var pr := PullRequest(12, Merged, 0, true, false);
    var info := GhInfo(pr, None);
    BuildHashLayout(info, config);
    MergedDraftParts(config.icons, pr);
    assert " #" + ("12" + (" M" + ("" + " "))) == " #12 M ";
  }

  /** The three parts of that merged draft: its number, the merged icon, and no comment part. */
  lemma MergedDraftParts(icons: PullRequestIcons, pr: PullRequest)
    requires pr == PullRequest(12, Merged, 0, true, false) && icons.merged == "M"
    ensures IntToString(pr.number) == "12"
    ensures StatePart(icons, pr) == " M"
    ensures Counted(icons.comment, pr.comments) == ""
  {
    assert IntToString(12) == "12" by { assert NatToString(1) == "1"; }
  }
}
