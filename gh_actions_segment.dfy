/** The GitHub Actions segment: the state of the branch's workflow run. */
module GhActionsSegment {
  import opened Wrappers
  import opened Text
  import opened StyleModel
  import opened GhInfo
  import opened SegmentModel

  datatype ActionsIcons = ActionsIcons(
    inProgress: string,
    success: string,
    failure: string,
    cancelled: string,
    skipped: string)

  datatype GhActionsConfig = GhActionsConfig(
    icons: ActionsIcons,
    inProgress: Style,
    success: Style,
    failure: Style,
    cancelled: Style,
    skipped: Style,
    content: string)

  const DefaultConfig: GhActionsConfig := GhActionsConfig(
    ActionsIcons("\U{f192}", "\U{f05d}", "\U{f05c}", "\U{f06a}", "\U{f10c}"),
    Style(Named(NamedColor.Black), Color.Fixed(226), []),
    Style(Named(NamedColor.White), Color.Fixed(34), []),
    Style(Named(NamedColor.White), Color.Fixed(196), []),
    Style(Named(NamedColor.White), Color.Fixed(244), []),
    Style(Named(NamedColor.White), Color.Fixed(244), []),
    " " + "{{.status}}" + " ")

  const Patterns: seq<Pattern> := ["{{.status}}"]

  /** `icon`: the icon configured for the run's state. */
  function Icon(icons: ActionsIcons, status: ActionsStatus): string {
    match status
    case InProgress => icons.inProgress
    case Success => icons.success
    case Failure => icons.failure
    case Cancelled => icons.cancelled
    case Skipped => icons.skipped
  }

  /** `style`: the style configured for the run's state. */
  function StyleOf(config: GhActionsConfig, status: ActionsStatus): Style {
    match status
    case InProgress => config.inProgress
    case Success => config.success
    case Failure => config.failure
    case Cancelled => config.cancelled
    case Skipped => config.skipped
  }

  /**
   * `GhActionsSegmentBuilder::build`: a segment exactly when there is gh
   * information with an Actions status, in that status's style.
   */
  function Build(ghInfo: Option<GhInfo>, config: GhActionsConfig): (r: Option<Segment>)
    ensures r.None? <==> ghInfo.None? || ghInfo.value.actions.None?
    ensures r.Some? ==> r.value.style == AnsiOf(StyleOf(config, ghInfo.value.actions.value.status))
  {
    match ghInfo
    case None => None
    case Some(info) =>
      match info.actions
      case None => None
      case Some(actions) =>
        Some(Segment(
          ReplaceAll(config.content, Patterns, [Icon(config.icons, actions.status)]),
          AnsiOf(StyleOf(config, actions.status))))
  }

  /** Any template of inert text and the placeholder has every placeholder replaced by the icon, and nothing else changed. */
  lemma BuildFillsTemplate(info: GhInfo, config: GhActionsConfig, parts: seq<Part>)
    requires info.actions.Some?
    requires WellFormed(parts, |Patterns|) && config.content == Fill(parts, Patterns)
    ensures Build(Some(info), config).value.content == Fill(parts, [Icon(config.icons, info.actions.value.status)])
  {
    ReplaceAllTemplate(parts, Patterns, [Icon(config.icons, info.actions.value.status)]);
  }

  /** The default template: the icon between two spaces. */
  lemma BuildDefault(info: GhInfo)
    requires info.actions.Some?
    ensures Build(Some(info), DefaultConfig).value.content
      == " " + (Icon(DefaultConfig.icons, info.actions.value.status) + " ")
  {
    var parts := [Lit(" "), Hole(0), Lit(" ")];
    var reps := [Icon(DefaultConfig.icons, info.actions.value.status)];
    assert WellFormed(parts, 1);
    assert parts[2..][1..] == [] && parts[1..][1..] == parts[2..];
    calc {
      Fill(parts, Patterns);
      " " + Fill(parts[1..], Patterns);
      " " + (Patterns[0] + Fill(parts[2..], Patterns));
      " " + (Patterns[0] + " ");
      DefaultConfig.content;
    }
    calc {
      Fill(parts, reps);
      " " + Fill(parts[1..], reps);
      " " + (reps[0] + Fill(parts[2..], reps));
      " " + (reps[0] + " ");
    }
    BuildFillsTemplate(info, DefaultConfig, parts);
  }

  /** The five default icons are distinct, so the default segment tells every run state apart. */
  lemma DefaultShowsStatus(a: ActionsStatus, b: ActionsStatus, pr: PullRequest)
    ensures (Build(Some(GhInfo(pr, Some(Actions(a)))), DefaultConfig)
      == Build(Some(GhInfo(pr, Some(Actions(b)))), DefaultConfig)) <==> a == b
  {
    BuildDefault(GhInfo(pr, Some(Actions(a))));
    BuildDefault(GhInfo(pr, Some(Actions(b))));
    var ca := Build(Some(GhInfo(pr, Some(Actions(a)))), DefaultConfig).value.content;
    var cb := Build(Some(GhInfo(pr, Some(Actions(b)))), DefaultConfig).value.content;
    assert ca[1] == Icon(DefaultConfig.icons, a)[0];
    assert cb[1] == Icon(DefaultConfig.icons, b)[0];
  }
}
