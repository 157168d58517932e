/** The git user segment: the `user.name` of the repository's configuration. */
module GitUserSegment {
  import opened Wrappers
  import opened Text
  import opened StyleModel
  import opened GitInfo
  import opened SegmentModel

  datatype GitUserConfig = GitUserConfig(style: Style, content: string)

  const DefaultConfig: GitUserConfig := GitUserConfig(
    Style(Named(NamedColor.Black), Color.Fixed(117), []),
    " \U{f2c0} " + "{{.name}}" + " ")

  const Patterns: seq<Pattern> := ["{{.name}}"]

  /**
   * `GitUserSegmentBuilder::build`: a segment only inside a repository
   * whose configuration names a user, in the configured style.
   */
  function Build(gitInfo: Option<GitInfo>, config: GitUserConfig): (r: Option<Segment>)
    ensures r.None? <==> gitInfo.None? || gitInfo.value.user.None?
    ensures r.Some? ==> r.value.style == AnsiOf(config.style)
  {
    match gitInfo
    case None => None
    case Some(info) =>
      match info.user
      case None => None
      case Some(name) => Some(Segment(ReplaceAll(config.content, Patterns, [name]), AnsiOf(config.style)))
  }

  /** Any template of inert text and the placeholder has each placeholder replaced by the name. */
  lemma BuildFillsTemplate(info: GitInfo, config: GitUserConfig, parts: seq<Part>)
    requires info.user.Some?
    requires WellFormed(parts, |Patterns|) && config.content == Fill(parts, Patterns)
    ensures Build(Some(info), config).value.content == Fill(parts, [info.user.value])
  {
    ReplaceAllTemplate(parts, Patterns, [info.user.value]);
  }

  /** A template without the placeholder is shown as it is. */
  lemma BuildWithoutPlaceholder(info: GitInfo, config: GitUserConfig)
    requires info.user.Some? && FreeOf(config.content, Patterns)
    ensures Build(Some(info), config).value.content == config.content
  {
    ReplaceAllNoMatch(config.content, Patterns, [info.user.value]);
  }

  /** The default template: the user icon and the name between spaces. */
  lemma BuildDefault(info: GitInfo)
    requires info.user.Some?
    ensures Build(Some(info), DefaultConfig).value.content == " \U{f2c0} " + (info.user.value + " ")
  {
    var parts := [Lit(" \U{f2c0} "), Hole(0), Lit(" ")];
    var reps := [info.user.value];
    assert WellFormed(parts, 1);
    assert parts[2..][1..] == [] && parts[1..][1..] == parts[2..];
    calc {
      Fill(parts, Patterns);
      " \U{f2c0} " + Fill(parts[1..], Patterns);
      " \U{f2c0} " + (Patterns[0] + Fill(parts[2..], Patterns));
      " \U{f2c0} " + (Patterns[0] + " ");
      DefaultConfig.content;
    }
    calc {
      Fill(parts, reps);
      " \U{f2c0} " + Fill(parts[1..], reps);
      " \U{f2c0} " + (reps[0] + Fill(parts[2..], reps));
      " \U{f2c0} " + (reps[0] + " ");
    }
    BuildFillsTemplate(info, DefaultConfig, parts);
  }
}
