/**
 * The GitLab merge-request segment: the number of the branch's merge
 * request, its state, its pipeline, whether it is approved and how many
 * comments it has.
 */
module GlabSegment {
  import opened Wrappers
  import opened Text
  import opened StyleModel
  import opened GlabInfo
  import opened SegmentModel

  /**
   * The icons. The configuration file declares the first five; the pipeline
   * and approval icons, which the builder reads as well, are declared here.
   */
  datatype MergeRequestIcons = MergeRequestIcons(
    open: string,
    draft: string,
    closed: string,
    merged: string,
    comment: string,
    pipelinePending: string,
    pipelineRunning: string,
    pipelineSuccess: string,
    pipelineFailed: string,
    pipelineCanceled: string,
    approved: string)

  datatype GlabMergeRequestConfig = GlabMergeRequestConfig(
    icons: MergeRequestIcons,
    open: Style,
    draft: Style,
    closed: Style,
    merged: Style,
    content: string)

  /** The defaults; the icons the configuration file does not declare are left empty. */
  const DefaultConfig: GlabMergeRequestConfig := GlabMergeRequestConfig(
    MergeRequestIcons("", "\U{f0ad}", "\U{f05e}", "\U{f419}", "\U{f41f} ", "", "", "", "", "", ""),
    Style(Named(NamedColor.Black), Color.Fixed(214), []),
    Style(Named(NamedColor.Black), Color.Fixed(249), []),
    Style(Named(NamedColor.Black), Color.Fixed(196), []),
    Style(Named(NamedColor.Black), Color.Fixed(141), []),
    " \U{f296} !" + "{{.number}}" + "{{.state}}" + "{{.comments}}" + " ")

  const Patterns: seq<Pattern> := ["{{.number}}", "{{.state}}", "{{.pipeline}}", "{{.approved}}", "{{.comments}}"]

  lemma PatternsArePlaceholders()
    ensures Placeholders(Patterns)
  {
    forall i, j | 0 <= i < |Patterns| && 0 <= j < |Patterns| && i != j
      ensures !IsPrefix(Patterns[i], Patterns[j])
    {
      assert Patterns[i][3] != Patterns[j][3];
    }
  }

  /** The four rows of the table that picks both the state icon and the style. */
  datatype Shown = ShownOpen | ShownDraft | ShownClosed | ShownMerged

  /** The row of a merge request: the draft flag matters only while it is open. */
  function ShownOf(state: MergeRequestState, isDraft: bool): (r: Shown)
    ensures state == Open ==> (r == ShownDraft <==> isDraft) && (r == ShownOpen <==> !isDraft)
    ensures state == Closed ==> r == ShownClosed
    ensures state == Merged ==> r == ShownMerged
  {
    match state
    case Open => if isDraft then ShownDraft else ShownOpen
    case Closed => ShownClosed
    case Merged => ShownMerged
  }

  function StateIcon(icons: MergeRequestIcons, row: Shown): string {
    match row
    case ShownOpen => icons.open
    case ShownDraft => icons.draft
    case ShownClosed => icons.closed
    case ShownMerged => icons.merged
  }

  /** `style`: the configured style of the row. */
  function StyleOf(config: GlabMergeRequestConfig, row: Shown): Style {
    match row
    case ShownOpen => config.open
    case ShownDraft => config.draft
    case ShownClosed => config.closed
    case ShownMerged => config.merged
  }

  /** `build_state`: the row's icon after one space, nothing when that icon is empty. */
  function StatePart(icons: MergeRequestIcons, mr: MergeRequest): (r: string)
    ensures var icon := StateIcon(icons, ShownOf(mr.state, mr.isDraft));
      (r == [] <==> icon == []) && (r != [] ==> r == " " + icon)
  {
    Spaced(StateIcon(icons, ShownOf(mr.state, mr.isDraft)))
  }

  function PipelineIcon(icons: MergeRequestIcons, p: MrPipelineState): string
    requires p != NoPipeline
  {
    match p
    case Pending => icons.pipelinePending
    case Running => icons.pipelineRunning
    case Success => icons.pipelineSuccess
    case Failed => icons.pipelineFailed
    case Canceled => icons.pipelineCanceled
  }

  /** `build_pipeline`: nothing without a pipeline, otherwise one space and the pipeline state's icon. */
  function PipelinePart(icons: MergeRequestIcons, p: MrPipelineState): (r: string)
    ensures r == [] <==> p == NoPipeline
    ensures p != NoPipeline ==> r[0] == ' ' && r[1..] == PipelineIcon(icons, p)
  {
    if p == NoPipeline then [] else " " + PipelineIcon(icons, p)
  }

  /** `build_approved`: one space and the approval icon for an approved merge request. */
  function ApprovedPart(icons: MergeRequestIcons, isApproved: bool): (r: string)
    ensures r == [] <==> !isApproved
    ensures isApproved ==> r == " " + icons.approved
  {
    if isApproved then " " + icons.approved else []
  }

  /** The five replacements, in the order of the placeholders. */
  function Replacements(mr: MergeRequest, icons: MergeRequestIcons): (reps: seq<string>)
    ensures |reps| == |Patterns|
    ensures ParseInt(reps[0]) == Some(mr.number)
  {
    IntToStringRoundTrip(mr.number);
    [ IntToString(mr.number),
      StatePart(icons, mr),
      PipelinePart(icons, mr.pipeline),
      ApprovedPart(icons, mr.isApproved),
      Counted(icons.comment, mr.comments) ]
  }

  /**
   * `GlabMergeRequestSegmentBuilder::build`: a segment exactly when there is
   * a merge request, in the style of its row.
   */
  function Build(glabInfo: Option<GlabInfo>, config: GlabMergeRequestConfig): (r: Option<Segment>)
    ensures r.None? <==> glabInfo.None?
    ensures r.Some? ==> var mr := glabInfo.value.mergeRequest;
      r.value.style == AnsiOf(StyleOf(config, ShownOf(mr.state, mr.isDraft)))
  {
    match glabInfo
    case None => None
    case Some(info) =>
      var mr := info.mergeRequest;
      Some(Segment(
        ReplaceAll(config.content, Patterns, Replacements(mr, config.icons)),
        AnsiOf(StyleOf(config, ShownOf(mr.state, mr.isDraft)))))
  }

  /** Any template of inert text and the five placeholders is filled in place. */
  lemma BuildFillsTemplate(info: GlabInfo, config: GlabMergeRequestConfig, parts: seq<Part>)
    requires WellFormed(parts, |Patterns|) && config.content == Fill(parts, Patterns)
    ensures Build(Some(info), config).value.content == Fill(parts, Replacements(info.mergeRequest, config.icons))
  {
    PatternsArePlaceholders();
    ReplaceAllTemplate(parts, Patterns, Replacements(info.mergeRequest, config.icons));
  }

  /** The default template taken apart. */
  const DefaultParts: seq<Part> := [Lit(" \U{f296} !"), Hole(0), Hole(1), Hole(4), Lit(" ")]

  lemma DefaultPartsSpellContent()
    ensures WellFormed(DefaultParts, |Patterns|)
    ensures Fill(DefaultParts, Patterns) == DefaultConfig.content
  {
    FillDefaultParts(Patterns);
  }

  lemma FillDefaultParts(strs: seq<string>)
    requires |strs| == 5
    ensures WellFormed(DefaultParts, |strs|)
    ensures Fill(DefaultParts, strs) == " \U{f296} !" + (strs[0] + (strs[1] + (strs[4] + " ")))
  {
    var parts := DefaultParts;
    assert Inert(" \U{f296} !") && Inert(" ");
    assert parts[5..] == [];
    FillFrom(parts, strs, 4);
    assert Fill(parts[4..], strs) == " ";
    FillFrom(parts, strs, 3);
    assert Fill(parts[3..], strs) == strs[4] + " ";
    FillFrom(parts, strs, 2);
    assert Fill(parts[2..], strs) == strs[1] + (strs[4] + " ");
    FillFrom(parts, strs, 1);
    assert Fill(parts[1..], strs) == strs[0] + (strs[1] + (strs[4] + " "));
    FillFrom(parts, strs, 0);
    assert parts[0..] == parts;
  }

  /**
   * The default template: the merge-request icon, `!` and the number, then
   * the state and comment parts; the pipeline and the approval are not shown.
   */
  lemma BuildDefault(info: GlabInfo)
    ensures var mr := info.mergeRequest;
      Build(Some(info), DefaultConfig).value.content
        == " \U{f296} !" + (IntToString(mr.number) + (StatePart(DefaultConfig.icons, mr)
          + (Counted("\U{f41f} ", mr.comments) + " ")))
  {
    DefaultPartsSpellContent();
    BuildFillsTemplate(info, DefaultConfig, DefaultParts);
    FillDefaultParts(Replacements(info.mergeRequest, DefaultConfig.icons));
  }

  /** An open merge request shows no state icon by default, since that icon is empty. */
  lemma BuildDefaultOpen()
    ensures Build(Some(GlabInfo(MergeRequest(42, Open, 3, Running, false, true))), DefaultConfig).value
      == Segment(" \U{f296} !42 \U{f41f} 3 ", AnsiOf(DefaultConfig.open))
  {
    var mr := MergeRequest(42, Open, 3, Running, false, true);
    BuildDefault(GlabInfo(mr));
    assert IntToString(42) == "42" by { assert NatToString(4) == "4"; }
    assert IntToString(3) == "3";
  }

  /** A draft shows the draft icon whatever its pipeline and approval. */
  lemma BuildDefaultDraft()
    ensures Build(Some(GlabInfo(MergeRequest(7, Open, 0, NoPipeline, true, false))), DefaultConfig).value
      == Segment(" \U{f296} !7 \U{f0ad} ", AnsiOf(DefaultConfig.draft))
  {
    var mr := MergeRequest(7, Open, 0, NoPipeline, true, false);
    BuildDefault(GlabInfo(mr));
    assert IntToString(7) == "7";
  }

  /** A template with the pipeline and approval placeholders shows both parts. */
  lemma BuildPipelineAndApproval(info: GlabInfo, config: GlabMergeRequestConfig)
    requires config.content == "{{.pipeline}}" + "{{.approved}}"
    ensures Build(Some(info), config).value.content
      == PipelinePart(config.icons, info.mergeRequest.pipeline) + ApprovedPart(config.icons, info.mergeRequest.isApproved)
  {
    var reps := Replacements(info.mergeRequest, config.icons);
    FillPipelineAndApproval(Patterns);
    FillPipelineAndApproval(reps);
    BuildFillsTemplate(info, config, PipelineAndApprovalParts);
  }

  const PipelineAndApprovalParts: seq<Part> := [Hole(2), Hole(3)]

  lemma FillPipelineAndApproval(strs: seq<string>)
    requires |strs| == 5
    ensures WellFormed(PipelineAndApprovalParts, |strs|)
    ensures Fill(PipelineAndApprovalParts, strs) == strs[2] + strs[3]
  {
    var parts := PipelineAndApprovalParts;
    assert parts[2..] == [];
    FillFrom(parts, strs, 1);
    assert Fill(parts[1..], strs) == strs[3];
    FillFrom(parts, strs, 0);
    assert parts[0..] == parts;
  }
}
