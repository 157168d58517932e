/**
 * The direnv segment: whether the directory has an `.envrc`, and whether
 * direnv loaded it or was told to refuse it. The status is what
 * `direnv status --json` reports, decoded.
 */
module DirenvSegment {
  import opened Wrappers
  import opened Text
  import opened StyleModel
  import opened SegmentModel
  import opened Process

  /** An rc file direnv knows about, with its permission code. */
  datatype Rc = Rc(allowed: int)

  datatype State = State(foundRc: Option<Rc>, loadedRc: Option<Rc>)

  datatype Status = Status(state: State)

  /** direnv's permission codes for an allowed and for a denied rc file. */
  const DirenvAllowed: int := 0
  const DirenvDenied: int := 2

  datatype DirenvIcons = DirenvIcons(loaded: string, found: string, disallowed: string)

  datatype DirenvConfig = DirenvConfig(
    icons: DirenvIcons,
    loaded: Style,
    found: Style,
    disallowed: Style,
    content: string)

  const DefaultConfig: DirenvConfig := DirenvConfig(
    DirenvIcons("\U{f444}", "\U{eba5}", "\U{f05e}"),
    Style(Named(NamedColor.White), Hex(HexColor(0x96, 0xa1, 0xb5)), []),
    Style(Named(NamedColor.White), Color.Fixed(243), []),
    Style(Named(NamedColor.White), Color.Fixed(243), []),
    " ." + "{{.status}}" + " ")

  const Patterns: seq<Pattern> := ["{{.status}}"]

  /** `load_direnv_status`: the decoded status of a successful run, none otherwise. */
  function LoadStatus(output: CommandOutput<Status>): (r: Option<Status>)
    ensures r.Some? <==> output.Exited? && output.success && output.decoded.Some?
    ensures r.Some? ==> r == output.decoded
  {
    Decoded(output)
  }

  /** The three states the segment distinguishes. */
  datatype RcState = Loaded | Found | Disallowed

  /**
   * The guarded match on the loaded rc: loaded for the allowed code,
   * disallowed for the denied code, found for every other code and when
   * nothing is loaded.
   */
  function RcStateOf(loadedRc: Option<Rc>): (r: RcState)
    ensures r == Loaded <==> loadedRc.Some? && loadedRc.value.allowed == DirenvAllowed
    ensures r == Disallowed <==> loadedRc.Some? && loadedRc.value.allowed == DirenvDenied
    ensures r == Found <==> loadedRc.None? || loadedRc.value.allowed !in {DirenvAllowed, DirenvDenied}
  {
    match loadedRc
    case Some(rc) =>
      if rc.allowed == DirenvAllowed then Loaded
      else if rc.allowed == DirenvDenied then Disallowed
      else Found
    case None => Found
  }

  function IconOf(icons: DirenvIcons, s: RcState): string {
    match s
    case Loaded => icons.loaded
    case Found => icons.found
    case Disallowed => icons.disallowed
  }

  function StyleOf(config: DirenvConfig, s: RcState): Style {
    match s
    case Loaded => config.loaded
    case Found => config.found
    case Disallowed => config.disallowed
  }

  /**
   * `DirenvSegmentBuilder::build`: no segment without a status or without a
   * found rc; otherwise the icon and the style of the rc's state.
   */
  function Build(status: Option<Status>, config: DirenvConfig): (r: Option<Segment>)
    ensures r.None? <==> status.None? || status.value.state.foundRc.None?
    ensures r.Some? ==> r.value.style == AnsiOf(StyleOf(config, RcStateOf(status.value.state.loadedRc)))
  {
    match status
    case None => None
    case Some(st) =>
      if st.state.foundRc.None? then None
      else
        var s := RcStateOf(st.state.loadedRc);
        Some(Segment(ReplaceAll(config.content, Patterns, [IconOf(config.icons, s)]), AnsiOf(StyleOf(config, s))))
  }

  /** Any template of inert text and the placeholder has each placeholder replaced by the state's icon. */
  lemma BuildFillsTemplate(st: Status, config: DirenvConfig, parts: seq<Part>)
    requires st.state.foundRc.Some?
    requires WellFormed(parts, |Patterns|) && config.content == Fill(parts, Patterns)
    ensures Build(Some(st), config).value.content == Fill(parts, [IconOf(config.icons, RcStateOf(st.state.loadedRc))])
  {
    ReplaceAllTemplate(parts, Patterns, [IconOf(config.icons, RcStateOf(st.state.loadedRc))]);
  }

  /** The default template: a dot and the state's icon between spaces. */
  lemma BuildDefault(st: Status)
    requires st.state.foundRc.Some?
    ensures Build(Some(st), DefaultConfig).value.content
      == " ." + (IconOf(DefaultConfig.icons, RcStateOf(st.state.loadedRc)) + " ")
  {
    var parts := [Lit(" ."), Hole(0), Lit(" ")];
    var reps := [IconOf(DefaultConfig.icons, RcStateOf(st.state.loadedRc))];
    assert WellFormed(parts, 1);
    assert parts[2..][1..] == [] && parts[1..][1..] == parts[2..];
    calc {
      Fill(parts, Patterns);
      " ." + Fill(parts[1..], Patterns);
      " ." + (Patterns[0] + Fill(parts[2..], Patterns));
      " ." + (Patterns[0] + " ");
      DefaultConfig.content;
    }
    calc {
      Fill(parts, reps);
      " ." + Fill(parts[1..], reps);
      " ." + (reps[0] + Fill(parts[2..], reps));
      " ." + (reps[0] + " ");
    }
    BuildFillsTemplate(st, DefaultConfig, parts);
  }

  /** With the default icons the segment tells the three states apart. */
  lemma DefaultShowsState(st1: Status, st2: Status)
    requires st1.state.foundRc.Some? && st2.state.foundRc.Some?
    ensures Build(Some(st1), DefaultConfig).value.content == Build(Some(st2), DefaultConfig).value.content
      <==> RcStateOf(st1.state.loadedRc) == RcStateOf(st2.state.loadedRc)
  {
    BuildDefault(st1);
    BuildDefault(st2);
    var c1 := Build(Some(st1), DefaultConfig).value.content;
    var c2 := Build(Some(st2), DefaultConfig).value.content;
    assert c1[2] == IconOf(DefaultConfig.icons, RcStateOf(st1.state.loadedRc))[0];
    assert c2[2] == IconOf(DefaultConfig.icons, RcStateOf(st2.state.loadedRc))[0];
  }

  /** A failed run of direnv shows no segment. */
  lemma FailedRunShowsNothing(output: CommandOutput<Status>, config: DirenvConfig)
    requires output.SpawnFailed? || !output.success
    ensures Build(LoadStatus(output), config).None?
  {
  }

  /** An rc loaded with a code other than allowed or denied is shown as merely found. */
  lemma OtherCodeIsFound(found: Rc)
    ensures Build(Some(Status(State(Some(found), Some(Rc(1))))), DefaultConfig).value
      == Segment(" ." + ("\U{eba5}" + " "), AnsiOf(DefaultConfig.found))
  {
    BuildDefault(Status(State(Some(found), Some(Rc(1)))));
  }
}
