/**
 * The path segment: the working directory, shortened, in the normal style
 * when it is an existing directory and in the error style otherwise. The
 * working directory and the directory test are queries of the system,
 * taken as parameters.
 */
module PathSegment {
  import opened Wrappers
  import opened Text
  import opened StyleModel
  import opened Paths
  import opened PathShrink
  import opened SegmentModel

  datatype PathConfig = PathConfig(
    normal: Style,
    error: Style,
    shrinkEnabled: bool,
    shrinkLength: nat,
    aliases: seq<PathAlias>,
    content: string)

  const DefaultConfig: PathConfig := PathConfig(
    Style(Named(NamedColor.Black), Named(NamedColor.Blue), []),
    Style(Named(NamedColor.Black), Named(NamedColor.Red), []),
    true,
    1,
    [PathAlias("~", "~")],
    " " + "{{.path}}" + " ")

  const Patterns: seq<Pattern> := ["{{.path}}"]

  /**
   * The text shown for the working directory: the three-argument
   * `shrink_path` of the builder, which passes neither a home directory, nor
   * a project root, nor the configured aliases; `<unknown>` when the working
   * directory cannot be determined.
   */
  function ShownPath(cwd: Option<Path>, config: PathConfig): string {
    match cwd
    case None => "<unknown>"
    case Some(p) => Shrunk(p, None, None, [], config.shrinkEnabled, config.shrinkLength)
  }

  /**
   * `PathSegmentBuilder::build`: always a segment; the normal style exactly
   * when the working directory is known and is a directory.
   */
  function Build(cwd: Option<Path>, isDir: Path -> bool, config: PathConfig): (r: Option<Segment>)
    ensures r.Some?
    ensures cwd.Some? && isDir(cwd.value) ==> r.value.style == AnsiOf(config.normal)
    ensures cwd.None? || !isDir(cwd.value) ==> r.value.style == AnsiOf(config.error)
  {
    var isDirectory := cwd.Some? && isDir(cwd.value);
    Some(Segment(
      ReplaceAll(config.content, Patterns, [ShownPath(cwd, config)]),
      AnsiOf(if isDirectory then config.normal else config.error)))
  }

  /** The default template: the shown path between two spaces. */
  lemma BuildDefault(cwd: Option<Path>, isDir: Path -> bool)
    ensures Build(cwd, isDir, DefaultConfig).value.content == " " + (ShownPath(cwd, DefaultConfig) + " ")
  {
    var parts := [Lit(" "), Hole(0), Lit(" ")];
    var reps := [ShownPath(cwd, DefaultConfig)];
    assert WellFormed(parts, 1);
    assert parts[2..][1..] == [] && parts[1..][1..] == parts[2..];
    calc {
      Fill(parts, Patterns);
      " " + Fill(parts[1..], Patterns);
      " " + (Patterns[0] + Fill(parts[2..], Patterns));
      " " + (Patterns[0] + " ");
      DefaultConfig.content;
    }
    calc {
      Fill(parts, reps);
      " " + Fill(parts[1..], reps);
      " " + (reps[0] + Fill(parts[2..], reps));
      " " + (reps[0] + " ");
    }
    ReplaceAllTemplate(parts, Patterns, reps);
  }

  lemma BuildUnknown(isDir: Path -> bool)
    ensures Build(None, isDir, DefaultConfig).value.content == " <unknown> "
  {
    BuildDefault(None, isDir);
  }

  /** With shortening disabled, an absolute working directory is shown in full. */
  lemma DisabledShowsWholePath(p: Path, config: PathConfig)
    requires p.absolute && !config.shrinkEnabled
    ensures ShownPath(Some(p), config) == PathToString(p)
  {
    DisabledShowsPath(p, ExpandAliases([], None), None, config.shrinkLength);
  }

  /** `/home/ayaka/repos/github.com/Ryooooooga/croque/src`. */
  const CroqueSrc: Path := Path(true, ["home", "ayaka", "repos", "github.com", "Ryooooooga", "croque", "src"])

  /** Without a project root, a directory above the leaf is its own name shortened. */
  lemma InnerTextShrinks(p: Path, i: nat, n: nat)
    requires i < |p.components|
    ensures InnerText(p, i, None, true, n) == ShrinkFileName(p.components[i], n)
  {
    assert FileName(Prefix(p, i + 1)) == p.components[i];
  }

  lemma CroqueSrcInner()
    ensures InnerTexts(CroqueSrc, 6, None, true, 1) == ["h", "a", "r", "g", "R", "c"]
  {
    var p := CroqueSrc;
    var r := InnerTexts(p, 6, None, true, 1);
    forall i | 0 <= i < 6
      ensures r[i] == ShrinkFileName(p.components[i], 1)
    {
      InnerTextShrinks(p, i, 1);
    }
    assert r[0] == ShrinkFileName("home", 1) == "h";
    assert r[1] == ShrinkFileName("ayaka", 1) == "a";
    assert r[2] == ShrinkFileName("repos", 1) == "r";
    assert r[3] == ShrinkFileName("github.com", 1) == "g";
    assert r[4] == ShrinkFileName("Ryooooooga", 1) == "R";
    assert r[5] == ShrinkFileName("croque", 1) == "c";
  }

  lemma CroqueSrcSegments()
    ensures Segments(CroqueSrc, [], None, true, 1, true) == ["", "h", "a", "r", "g", "R", "c", "src"]
  {
    WalkWithoutAlias(CroqueSrc, [], None, true, 1);
    CroqueSrcInner();
    assert FileName(CroqueSrc) == "src";
    assert [""] + ["h", "a", "r", "g", "R", "c"] + ["src"] == ["", "h", "a", "r", "g", "R", "c", "src"];
  }

  lemma CroqueSrcJoined()
    ensures Join(["", "h", "a", "r", "g", "R", "c", "src"], "/") == "/h/a/r/g/R/c/src"
  {
    var segs: seq<string> := ["", "h", "a", "r", "g", "R", "c", "src"];
    assert Join(segs[7..], "/") == "src";
    assert Join(segs[6..], "/") == "c/src";
    assert Join(segs[5..], "/") == "R/c/src";
    assert Join(segs[4..], "/") == "g/R/c/src";
    assert Join(segs[3..], "/") == "r/g/R/c/src";
    assert Join(segs[2..], "/") == "a/r/g/R/c/src";
    assert Join(segs[1..], "/") == "h/a/r/g/R/c/src";
  }

  lemma ShownCroqueSrc()
    ensures ShownPath(Some(CroqueSrc), DefaultConfig) == "/h/a/r/g/R/c/src"
  {
    assert ExpandAliases([], None) == [];
    CroqueSrcSegments();
    CroqueSrcJoined();
  }

  /** The example of the builder's test: each directory above the leaf cut to one character. */
  lemma BuildCroqueSrc(isDir: Path -> bool)
    ensures Build(Some(CroqueSrc), isDir, DefaultConfig).value.content == " " + "/h/a/r/g/R/c/src" + " "
  {
    ShownCroqueSrc();
    BuildShows(CroqueSrc, isDir, "/h/a/r/g/R/c/src");
  }

  lemma BuildShows(p: Path, isDir: Path -> bool, shown: string)
    requires ShownPath(Some(p), DefaultConfig) == shown
    ensures Build(Some(p), isDir, DefaultConfig).value.content == " " + shown + " "
  {
    BuildDefault(Some(p), isDir);
    assert " " + (shown + " ") == " " + shown + " ";
  }
}
