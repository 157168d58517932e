/**
 * Shortening of the working directory for the path segment: `~` expansion of
 * the configured aliases, shortening of one file name, and the walk from the
 * leaf to the root that collects the displayed segments.
 */
module PathShrink {
  import opened Wrappers
  import opened Text
  import opened Paths

  /** A configured alias: a path that may start with `~`, and the text shown for it. */
  datatype PathAlias = PathAlias(path: string, alias: string)

  /** An alias whose path has had `~` expanded. */
  datatype ExpandedAlias = ExpandedAlias(path: Path, alias: string)

  /**
   * `expand_tilde`: with a home directory, `~` is the home directory and
   * `~/rest` is `rest` below it; every other text is taken as a path as is.
   */
  function ExpandTilde(path: string, home: Option<Path>): (r: Path)
    ensures home.None? ==> r == ParsePath(path)
    ensures (|path| == 0 || path[0] != '~') ==> r == ParsePath(path)
    ensures home.Some? && path == "~" ==> r == home.value
    ensures home.Some? && |path| >= 2 && path[..2] == "~/" ==> r == Push(home.value, ParsePath(path[2..]))
    ensures home.Some? && |path| >= 2 && path[0] == '~' && path[1] != '/' ==> r == ParsePath(path)
  {
    match home
    case None => ParsePath(path)
    case Some(h) =>
      if path == "~" then h
      else if |path| >= 2 && path[..2] == "~/" then Push(h, ParsePath(path[2..]))
      else ParsePath(path)
  }

  const AyakaHome: Path := Path(true, ["home", "ayaka"])

  /** The examples of the `expand_tilde` tests, with `/home/ayaka` as home. */
  lemma ExpandTildeExamples()
    ensures ExpandTilde("~", Some(AyakaHome)) == AyakaHome
    ensures ExpandTilde("~/a", Some(AyakaHome)) == Path(true, ["home", "ayaka", "a"])
    ensures ExpandTilde("/~/a", Some(AyakaHome)) == Path(true, ["~", "a"])
    ensures ExpandTilde("~/a", None) == Path(false, ["~", "a"])
    ensures ExpandTilde("~a", Some(AyakaHome)) == Path(false, ["~a"])
  {
    ParseRoundTrip(Path(false, ["a"]));
    assert PathToString(Path(false, ["a"])) == "a";
    assert "~/a"[2..] == "a" && "~/a"[..2] == "~/";
    ParseRoundTrip(Path(true, ["~", "a"]));
    assert PathToString(Path(true, ["~", "a"])) == "/~/a";
    ParseRoundTrip(Path(false, ["~", "a"]));
    assert PathToString(Path(false, ["~", "a"])) == "~/a";
    ParseRoundTrip(Path(false, ["~a"]));
    assert PathToString(Path(false, ["~a"])) == "~a";
    assert "~a"[..2] != "~/";
  }

  /**
   * `shrink_file_name`: the first `n` characters of the name, one more when
   * the name starts with a dot, and nothing at all when `n` is 0.
   */
  function ShrinkFileName(name: string, n: nat): (r: string)
    ensures n == 0 ==> r == []
    ensures IsPrefix(r, name)
    ensures n > 0 ==> |r| == Min(if |name| > 0 && name[0] == '.' then n + 1 else n, |name|)
  {
    if n == 0 then []
    else
      var k := if |name| > 0 && name[0] == '.' then n + 1 else n;
      name[..Min(k, |name|)]
  }

  /** The examples of the `shrink_file_name` tests; the length counts characters. */
  lemma ShrinkFileNameExamples()
    ensures ShrinkFileName("home", 1) == "h" && ShrinkFileName("home", 2) == "ho"
    ensures ShrinkFileName("home", 4) == "home" && ShrinkFileName("home", 5) == "home"
    ensures ShrinkFileName("home", 0) == ""
    ensures ShrinkFileName("あいう", 1) == "あ"
    ensures ShrinkFileName(".config", 1) == ".c" && ShrinkFileName(".config", 2) == ".co"
    ensures ShrinkFileName(".config", 7) == ".config" && ShrinkFileName(".config", 10) == ".config"
    ensures ShrinkFileName(".config", 0) == ""
    ensures ShrinkFileName("", 1) == ""
  {
  }

  /** The aliases with `~` expanded against `home`, in configured order. */
  function ExpandAliases(aliases: seq<PathAlias>, home: Option<Path>): (r: seq<ExpandedAlias>)
    ensures |r| == |aliases|
    ensures forall i :: 0 <= i < |r| ==> r[i] == ExpandedAlias(ExpandTilde(aliases[i].path, home), aliases[i].alias)
  {
    if aliases == [] then []
    else [ExpandedAlias(ExpandTilde(aliases[0].path, home), aliases[0].alias)] + ExpandAliases(aliases[1..], home)
  }

  /** The first alias at or after `from`, in list order, whose path is `p`. */
  function FindAlias(aliases: seq<ExpandedAlias>, p: Path, from: nat): (r: Option<nat>)
    requires from <= |aliases|
    ensures r.Some? ==> from <= r.value < |aliases| && aliases[r.value].path == p
    ensures r.Some? ==> forall j :: from <= j < r.value ==> aliases[j].path != p
    ensures r.None? ==> forall j :: from <= j < |aliases| ==> aliases[j].path != p
    decreases |aliases| - from
  {
    if from == |aliases| then None
    else if aliases[from].path == p then Some(from)
    else FindAlias(aliases, p, from + 1)
  }

  /** The text shown for the last component of `p`: shortened unless it is the leaf or the project root. */
  function ComponentText(p: Path, projectRoot: Option<Path>, enabled: bool, n: nat, first: bool): string {
    var base := FileName(p);
    if enabled && !first && Some(p) != projectRoot then ShrinkFileName(base, n) else base
  }

  /**
   * The segments the walk from `p` up to the root collects, root first:
   * the text of the first alias matching `p` ends the walk; so does the
   * root, shown as itself when nothing was collected before it and as the
   * empty segment otherwise.
   */
  function Segments(p: Path, aliases: seq<ExpandedAlias>, projectRoot: Option<Path>, enabled: bool, n: nat, first: bool): (r: seq<string>)
    ensures 1 <= |r| <= |p.components| + 1
    decreases |p.components|
  {
    match FindAlias(aliases, p, 0)
    case Some(i) => [aliases[i].alias]
    case None =>
      if p.components == [] then [if first then PathToString(p) else ""]
      else Segments(Parent(p).value, aliases, projectRoot, enabled, n, false) + [ComponentText(p, projectRoot, enabled, n, first)]
  }

  /** One step of the walk: a path no alias matches, below the root. */
  lemma SegmentsStep(p: Path, aliases: seq<ExpandedAlias>, projectRoot: Option<Path>, enabled: bool, n: nat, first: bool)
    requires FindAlias(aliases, p, 0).None? && p.components != []
    ensures Parent(p).Some?
    ensures Segments(p, aliases, projectRoot, enabled, n, first)
         == Segments(Parent(p).value, aliases, projectRoot, enabled, n, false) + [ComponentText(p, projectRoot, enabled, n, first)]
  {
  }

  /** Pushing the segment of one step keeps the walk's account of what remains. */
  lemma PushStep(whole: seq<string>, here: seq<string>, rest: seq<string>, x: string, reversed: seq<string>)
    requires whole == here + Reverse(reversed) && here == rest + [x]
    ensures whole == rest + Reverse(reversed + [x])
  {
    ReverseAppend(reversed, x);
  }

  /** The text of the walk from `path` with already expanded aliases. */
  function ShrunkWith(path: Path, aliases: seq<ExpandedAlias>, projectRoot: Option<Path>, enabled: bool, n: nat): string {
    Join(Segments(path, aliases, projectRoot, enabled, n, true), "/")
  }

  /** What `shrink_path` returns: the collected segments joined by `/`. */
  function Shrunk(path: Path, home: Option<Path>, projectRoot: Option<Path>, aliases: seq<PathAlias>, enabled: bool, n: nat): string {
    ShrunkWith(path, ExpandAliases(aliases, home), projectRoot, enabled, n)
  }

  /**
   * `path_segments.reverse()` at the end of `shrink_path`
   * (`src/segment/path/shrink.rs:152-153`): `Vec::reverse` turns the segments,
   * collected from the last component up, into path order, in place.
   */
  method ReverseInPlace<T>(a: array<T>)
    modifies a
    ensures a[..] == Reverse(old(a[..]))
  {
    ghost var s := a[..];
    var n := a.Length;
    for i := 0 to n / 2
      invariant forall k :: 0 <= k < i ==> a[k] == s[n - 1 - k] && a[n - 1 - k] == s[k]
      invariant forall k :: i <= k < n - i ==> a[k] == s[k]
    {
      a[i], a[n - 1 - i] := a[n - 1 - i], a[i];
    }
    forall k | 0 <= k < n
      ensures a[k] == Reverse(s)[k]
    {
      ReverseIndex(s, k);
    }
  }

  /**
   * `shrink_path`: walks from the leaf to the root pushing one segment per
   * step, stops at the first alias or at the root, then reverses the
   * collected segments and joins them with `/`.
   */
  method ShrinkPath(path: Path, home: Option<Path>, projectRoot: Option<Path>, aliases: seq<PathAlias>, enabled: bool, n: nat)
    returns (s: string)
    ensures s == Shrunk(path, home, projectRoot, aliases, enabled, n)
  {
    var expanded := ExpandAliases(aliases, home);
    ghost var whole := Segments(path, expanded, projectRoot, enabled, n, true);
    var reversed: seq<string> := [];
    var p := path;
    var done := false;
    while !done
      invariant !done ==> whole == Segments(p, expanded, projectRoot, enabled, n, reversed == []) + Reverse(reversed)
      invariant done ==> whole == Reverse(reversed)
      decreases if done then 0 else |p.components| + 1
    {
      var found := FindAlias(expanded, p, 0);
      if found.Some? {
        ReverseAppend(reversed, expanded[found.value].alias);
        reversed := reversed + [expanded[found.value].alias];
        done := true;
      } else {
        var parent := Parent(p);
        if parent.None? {
          var root := if reversed == [] then PathToString(p) else "";
          ReverseAppend(reversed, root);
          reversed := reversed + [root];
          done := true;
        } else {
          var isFirst := reversed == [];
          var isProjectRoot := Some(p) == projectRoot;
          var shouldShrink := enabled && !isFirst && !isProjectRoot;
          var basename := FileName(p);
          var shrunk := if shouldShrink then ShrinkFileName(basename, n) else basename;
          SegmentsStep(p, expanded, projectRoot, enabled, n, isFirst);
          PushStep(whole, Segments(p, expanded, projectRoot, enabled, n, isFirst),
                   Segments(parent.value, expanded, projectRoot, enabled, n, false), shrunk, reversed);
          reversed := reversed + [shrunk];
          p := parent.value;
        }
      }
    }
    var segments := new string[|reversed|];
    forall i | 0 <= i < |reversed| {
      segments[i] := reversed[i];
    }
    assert segments[..] == reversed;
    ReverseInPlace(segments);
    s := Join(segments[..], "/");
  }

  // ---------------------------------------------------------------------------
  // Properties of the walk
  // ---------------------------------------------------------------------------

  /** The first `k` components of `p`: the ancestor the walk visits `|p| - k` steps up. */
  function Prefix(p: Path, k: nat): Path
    requires k <= |p.components|
  {
    Path(p.absolute, p.components[..k])
  }

  /** No alias matches `p` or any of its ancestors. */
  predicate NoAliasOnWalk(p: Path, aliases: seq<ExpandedAlias>) {
    forall k :: 0 <= k <= |p.components| ==> FindAlias(aliases, Prefix(p, k), 0).None?
  }

  /** The text of component `i` of `p` (0-based) when it is not the leaf of the walk. */
  function InnerText(p: Path, i: nat, projectRoot: Option<Path>, enabled: bool, n: nat): string
    requires i < |p.components|
  {
    ComponentText(Prefix(p, i + 1), projectRoot, enabled, n, false)
  }

  /** The texts of the first `k` components of `p`, none of them the leaf. */
  function InnerTexts(p: Path, k: nat, projectRoot: Option<Path>, enabled: bool, n: nat): (r: seq<string>)
    requires k <= |p.components|
    ensures |r| == k
    ensures forall i :: 0 <= i < k ==> r[i] == InnerText(p, i, projectRoot, enabled, n)
  {
    if k == 0 then [] else InnerTexts(p, k - 1, projectRoot, enabled, n) + [InnerText(p, k - 1, projectRoot, enabled, n)]
  }

  lemma PrefixOfPrefix(p: Path, k: nat, j: nat)
    requires j <= k <= |p.components|
    ensures Prefix(Prefix(p, k), j) == Prefix(p, j)
  {
    assert p.components[..k][..j] == p.components[..j];
  }

  /**
   * Without an alias on the way, the walk from an ancestor that is not the
   * leaf yields the empty root segment followed by every component, each
   * shortened unless it is the project root or shortening is disabled.
   */
  lemma {:induction false} InnerSegments(p: Path, k: nat, aliases: seq<ExpandedAlias>, projectRoot: Option<Path>, enabled: bool, n: nat)
    requires k <= |p.components| && NoAliasOnWalk(p, aliases)
    ensures Segments(Prefix(p, k), aliases, projectRoot, enabled, n, false)
         == [""] + InnerTexts(p, k, projectRoot, enabled, n)
    decreases k
  {
    var q := Prefix(p, k);
    assert FindAlias(aliases, q, 0).None?;
    if k > 0 {
      InnerSegments(p, k - 1, aliases, projectRoot, enabled, n);
      InnerSegmentsStep(p, k, aliases, projectRoot, enabled, n);
    }
  }

  /** One step of `InnerSegments`: the walk from `k` components extends the walk from `k - 1` by one inner text. */
  lemma InnerSegmentsStep(p: Path, k: nat, aliases: seq<ExpandedAlias>, projectRoot: Option<Path>, enabled: bool, n: nat)
    requires 0 < k <= |p.components| && FindAlias(aliases, Prefix(p, k), 0).None?
    requires Segments(Prefix(p, k - 1), aliases, projectRoot, enabled, n, false)
          == [""] + InnerTexts(p, k - 1, projectRoot, enabled, n)
    ensures Segments(Prefix(p, k), aliases, projectRoot, enabled, n, false)
         == [""] + InnerTexts(p, k, projectRoot, enabled, n)
  {
    ParentOfPrefix(p, k);
    SegmentsStep(Prefix(p, k), aliases, projectRoot, enabled, n, false);
    assert InnerTexts(p, k, projectRoot, enabled, n)
        == InnerTexts(p, k - 1, projectRoot, enabled, n) + [InnerText(p, k - 1, projectRoot, enabled, n)];
  }

  /** The walk from the first `k` components steps up to the first `k - 1`. */
  lemma ParentOfPrefix(p: Path, k: nat)
    requires 0 < k <= |p.components|
    ensures Prefix(p, k).components != []
    ensures Parent(Prefix(p, k)) == Some(Prefix(p, k - 1))
  {
    PrefixOfPrefix(p, k, k - 1);
  }

  /**
   * The whole walk without an alias: a root-only path shows as itself;
   * otherwise the empty root segment, every inner component shortened
   * (unless it is the project root or shortening is disabled), and the leaf
   * in full. Joined by `/`, the result starts with `/` for an absolute path.
   */
  lemma WalkWithoutAlias(p: Path, aliases: seq<ExpandedAlias>, projectRoot: Option<Path>, enabled: bool, n: nat)
    requires NoAliasOnWalk(p, aliases)
    ensures p.components == [] ==> Segments(p, aliases, projectRoot, enabled, n, true) == [PathToString(p)]
    ensures p.components != [] ==>
      Segments(p, aliases, projectRoot, enabled, n, true)
        == [""] + InnerTexts(p, |p.components| - 1, projectRoot, enabled, n) + [FileName(p)]
  {
    var m := |p.components|;
    assert p == Prefix(p, m);
    assert FindAlias(aliases, Prefix(p, m), 0).None?;
    if m > 0 {
      InnerSegments(p, m - 1, aliases, projectRoot, enabled, n);
      assert Parent(p).value == Prefix(p, m - 1);
    }
  }

  /** Joining the empty root segment and the components gives the absolute path text. */
  lemma JoinRooted(cs: seq<string>)
    requires cs != []
    ensures Join([""] + cs, "/") == "/" + Join(cs, "/")
  {
    assert ([""] + cs)[1..] == cs;
  }

  /**
   * With shortening disabled and no alias on the way, `shrink_path` shows the
   * absolute path exactly as the path itself renders.
   */
  lemma DisabledShowsPath(p: Path, aliases: seq<ExpandedAlias>, projectRoot: Option<Path>, n: nat)
    requires p.absolute && NoAliasOnWalk(p, aliases)
    ensures Join(Segments(p, aliases, projectRoot, false, n, true), "/") == PathToString(p)
  {
    WalkWithoutAlias(p, aliases, projectRoot, false, n);
    var m := |p.components|;
    if m > 0 {
      var inner := InnerTexts(p, m - 1, projectRoot, false, n);
      DisabledTextsAreComponents(p, projectRoot, n);
      assert [""] + inner + [FileName(p)] == [""] + (inner + [FileName(p)]);
      JoinRooted(p.components);
    }
  }

  /** With shortening disabled, the texts of the walk are the components themselves. */
  lemma DisabledTextsAreComponents(p: Path, projectRoot: Option<Path>, n: nat)
    requires p.components != []
    ensures InnerTexts(p, |p.components| - 1, projectRoot, false, n) + [FileName(p)] == p.components
  {
    var m := |p.components|;
    var cs := InnerTexts(p, m - 1, projectRoot, false, n) + [FileName(p)];
    forall i | 0 <= i < m - 1 ensures cs[i] == p.components[i] {
      assert FileName(Prefix(p, i + 1)) == p.components[..i + 1][i];
    }
    assert cs[m - 1] == p.components[m - 1];
  }

  /** An alias matching the path itself replaces the whole path. */
  lemma AliasAtPath(p: Path, aliases: seq<ExpandedAlias>, i: nat, projectRoot: Option<Path>, enabled: bool, n: nat, first: bool)
    requires i < |aliases| && aliases[i].path == p
    requires forall j :: 0 <= j < i ==> aliases[j].path != p
    ensures Segments(p, aliases, projectRoot, enabled, n, first) == [aliases[i].alias]
  {
  }

  // ---------------------------------------------------------------------------
  // The examples of the `shrink_path` tests
  // ---------------------------------------------------------------------------

  /** The aliases of the tests: `~/.Trash` shown as nothing, and `~` as `~`. */
  const TestAliases: seq<PathAlias> := [PathAlias("~/.Trash", ""), PathAlias("~", "~")]

  const TrashPath: Path := Path(true, ["home", "ayaka", ".Trash"])

  lemma ExpandTestAliases()
    ensures ExpandAliases(TestAliases, Some(AyakaHome)) == TestExpanded
  {
    ExpandTrash();
    var e := ExpandAliases(TestAliases, Some(AyakaHome));
    assert e[0] == ExpandedAlias(TrashPath, "");
    assert e[1] == ExpandedAlias(AyakaHome, "~");
  }

  /** `~/.Trash` below `/home/ayaka`. */
  lemma ExpandTrash()
    ensures ExpandTilde("~/.Trash", Some(AyakaHome)) == TrashPath
  {
    ParseRoundTrip(Path(false, [".Trash"]));
    assert "~/.Trash"[2..] == ".Trash" && "~/.Trash"[..2] == "~/";
    assert PathToString(Path(false, [".Trash"])) == ".Trash";
  }

  const TestExpanded: seq<ExpandedAlias> := [ExpandedAlias(TrashPath, ""), ExpandedAlias(AyakaHome, "~")]

  lemma ParentOf(absolute: bool, cs: seq<string>, c: string)
    ensures Parent(Path(absolute, cs + [c])) == Some(Path(absolute, cs))
    ensures FileName(Path(absolute, cs + [c])) == c
  {
    assert (cs + [c])[..|cs|] == cs;
  }

  lemma NoTestAlias(p: Path)
    requires p != TrashPath && p != AyakaHome
    ensures FindAlias(TestExpanded, p, 0).None?
  {
    assert TestExpanded[0].path != p && TestExpanded[1].path != p;
  }

  /** The walk reaches `~` one step above `p`. */
  lemma StepToHome(p: Path, projectRoot: Option<Path>, enabled: bool, n: nat, first: bool)
    requires p != TrashPath && p != AyakaHome && p.components != [] && Parent(p) == Some(AyakaHome)
    ensures Segments(p, TestExpanded, projectRoot, enabled, n, first)
         == ["~", ComponentText(p, projectRoot, enabled, n, first)]
  {
    NoTestAlias(p);
    SegmentsStep(p, TestExpanded, projectRoot, enabled, n, first);
    assert TestExpanded[1].path == AyakaHome;
  }

  const Repos: Path := Path(true, ["home", "ayaka", "repos"])
  const RepoA: Path := Path(true, ["home", "ayaka", "repos", "repo_a"])

  /** `shrink_path` with the aliases of the tests is the join of their walk. */
  lemma TestShrunk(path: Path, projectRoot: Option<Path>, enabled: bool, n: nat)
    ensures Shrunk(path, Some(AyakaHome), projectRoot, TestAliases, enabled, n)
         == ShrunkWith(path, TestExpanded, projectRoot, enabled, n)
  {
    ExpandTestAliases();
  }

  lemma ReposSegments(projectRoot: Option<Path>, enabled: bool)
    requires projectRoot != Some(Repos)
    ensures Segments(Repos, TestExpanded, projectRoot, enabled, 1, false) == ["~", if enabled then "r" else "repos"]
  {
    ParentOf(true, ["home", "ayaka"], "repos");
    assert ["home", "ayaka"] + ["repos"] == Repos.components;
    StepToHome(Repos, projectRoot, enabled, 1, false);
    assert ComponentText(Repos, projectRoot, enabled, 1, false) == if enabled then "r" else "repos";
  }

  lemma RepoASegments(projectRoot: Option<Path>, enabled: bool, first: bool)
    requires projectRoot != Some(Repos)
    requires !first ==> projectRoot == Some(RepoA)
    ensures Segments(RepoA, TestExpanded, projectRoot, enabled, 1, first) == ["~", if enabled then "r" else "repos", "repo_a"]
  {
    ParentOf(true, ["home", "ayaka", "repos"], "repo_a");
    assert ["home", "ayaka", "repos"] + ["repo_a"] == RepoA.components;
    ReposSegments(projectRoot, enabled);
    NoTestAlias(RepoA);
    SegmentsStep(RepoA, TestExpanded, projectRoot, enabled, 1, first);
  }

  lemma ShrinkRepoA()
    ensures ShrunkWith(RepoA, TestExpanded, None, true, 1) == "~/r/repo_a"
  {
    RepoASegments(None, true, true);
    JoinThree("~", "r", "repo_a");
  }

  lemma ShrinkRepoADisabled()
    ensures ShrunkWith(RepoA, TestExpanded, None, false, 1) == "~/repos/repo_a"
  {
    RepoASegments(None, false, true);
    JoinThree("~", "repos", "repo_a");
  }

  /** Three segments joined by `/`. */
  lemma JoinThree(a: string, b: string, c: string)
    ensures Join([a, b, c], "/") == a + "/" + b + "/" + c
  {
    assert [a, b, c][1..] == [b, c];
    assert [b, c][1..] == [c];
    assert Join([b, c], "/") == b + "/" + c;
    assert a + "/" + (b + "/" + c) == a + "/" + b + "/" + c;
  }

  const RepoSrc: Path := Path(true, ["home", "ayaka", "repos", "repo_a", "src"])

  lemma RepoSrcSegments()
    ensures Segments(RepoSrc, TestExpanded, Some(RepoA), true, 1, true) == ["~", "r", "repo_a", "src"]
  {
    ParentOf(true, ["home", "ayaka", "repos", "repo_a"], "src");
    assert ["home", "ayaka", "repos", "repo_a"] + ["src"] == RepoSrc.components;
    RepoASegments(Some(RepoA), true, false);
    NoTestAlias(RepoSrc);
    SegmentsStep(RepoSrc, TestExpanded, Some(RepoA), true, 1, true);
  }

  lemma ShrinkProjectRoot()
    ensures ShrunkWith(RepoSrc, TestExpanded, Some(RepoA), true, 1) == "~/r/repo_a/src"
  {
    RepoSrcSegments();
    JoinFour("~", "r", "repo_a", "src");
  }

  /** Four segments joined by `/`. */
  lemma JoinFour(a: string, b: string, c: string, d: string)
    ensures Join([a, b, c, d], "/") == a + "/" + b + "/" + c + "/" + d
  {
    assert [a, b, c, d][1..] == [b, c, d];
    JoinThree(b, c, d);
    assert a + "/" + (b + "/" + c + "/" + d) == a + "/" + b + "/" + c + "/" + d;
  }

  const ConfigDir: Path := Path(true, ["home", "ayaka", ".config"])
  const CroqueDir: Path := Path(true, ["home", "ayaka", ".config", "croque"])

  lemma CroqueSegments()
    ensures Segments(CroqueDir, TestExpanded, None, true, 2, true) == ["~", ".co", "croque"]
  {
    ParentOf(true, ["home", "ayaka"], ".config");
    assert ["home", "ayaka"] + [".config"] == ConfigDir.components;
    ParentOf(true, ["home", "ayaka", ".config"], "croque");
    assert ["home", "ayaka", ".config"] + ["croque"] == CroqueDir.components;
    StepToHome(ConfigDir, None, true, 2, false);
    assert ShrinkFileName(".config", 2) == ".co";
    NoTestAlias(CroqueDir);
    SegmentsStep(CroqueDir, TestExpanded, None, true, 2, true);
  }

  lemma ShrinkDotDirectory()
    ensures ShrunkWith(CroqueDir, TestExpanded, None, true, 2) == "~/.co/croque"
  {
    CroqueSegments();
    assert Join(["~", ".co", "croque"], "/") == "~/.co/croque";
  }

  const MenuDir: Path := Path(true, ["home", "ayaka", "今日の献立"])
  const DayDir: Path := Path(true, ["home", "ayaka", "今日の献立", "2023 02 14"])

  lemma DaySegments()
    ensures Segments(DayDir, TestExpanded, None, true, 2, true) == ["~", "今日", "2023 02 14"]
  {
    ParentOf(true, ["home", "ayaka"], "今日の献立");
    assert ["home", "ayaka"] + ["今日の献立"] == MenuDir.components;
    ParentOf(true, ["home", "ayaka", "今日の献立"], "2023 02 14");
    assert ["home", "ayaka", "今日の献立"] + ["2023 02 14"] == DayDir.components;
    StepToHome(MenuDir, None, true, 2, false);
    assert ShrinkFileName("今日の献立", 2) == "今日";
    NoTestAlias(DayDir);
    SegmentsStep(DayDir, TestExpanded, None, true, 2, true);
  }

  lemma ShrinkMultibyteName()
    ensures ShrunkWith(DayDir, TestExpanded, None, true, 2) == "~/今日/2023 02 14"
  {
    DaySegments();
    assert Join(["~", "今日", "2023 02 14"], "/") == "~/今日/2023 02 14";
  }

  const TrashItem: Path := Path(true, ["home", "ayaka", ".Trash", "a"])

  lemma TrashItemSegments()
    ensures Segments(TrashItem, TestExpanded, None, true, 2, true) == ["", "a"]
  {
    ParentOf(true, ["home", "ayaka", ".Trash"], "a");
    assert ["home", "ayaka", ".Trash"] + ["a"] == TrashItem.components;
    assert Segments(TrashPath, TestExpanded, None, true, 2, false) == [""];
    NoTestAlias(TrashItem);
    SegmentsStep(TrashItem, TestExpanded, None, true, 2, true);
  }

  lemma ShrinkHiddenByAlias()
    ensures ShrunkWith(TrashItem, TestExpanded, None, true, 2) == "/a"
  {
    TrashItemSegments();
    assert Join(["", "a"], "/") == "/a";
  }

  const RootPath: Path := Path(true, [])
  const HomeDir: Path := Path(true, ["home"])
  const NyanDir: Path := Path(true, ["home", "nyan"])

  lemma ShrinkRoot()
    ensures ShrunkWith(RootPath, TestExpanded, None, true, 1) == "/"
  {
    NoTestAlias(RootPath);
    assert PathToString(RootPath) == "/";
    assert Segments(RootPath, TestExpanded, None, true, 1, true) == ["/"];
  }

  lemma HomeDirSegments(first: bool)
    ensures Segments(HomeDir, TestExpanded, None, true, 1, first) == ["", if first then "home" else "h"]
  {
    NoTestAlias(RootPath);
    NoTestAlias(HomeDir);
    ParentOf(true, [], "home");
    assert [] + ["home"] == HomeDir.components;
    assert Segments(RootPath, TestExpanded, None, true, 1, false) == [""];
    SegmentsStep(HomeDir, TestExpanded, None, true, 1, first);
    assert ComponentText(HomeDir, None, true, 1, first) == if first then "home" else "h";
  }

  lemma ShrinkHomeDir()
    ensures ShrunkWith(HomeDir, TestExpanded, None, true, 1) == "/home"
  {
    HomeDirSegments(true);
    assert Join(["", "home"], "/") == "/home";
  }

  lemma NyanSegments()
    ensures Segments(NyanDir, TestExpanded, None, true, 1, true) == ["", "h", "nyan"]
  {
    NoTestAlias(NyanDir);
    ParentOf(true, ["home"], "nyan");
    assert ["home"] + ["nyan"] == NyanDir.components;
    HomeDirSegments(false);
    SegmentsStep(NyanDir, TestExpanded, None, true, 1, true);
  }

  lemma ShrinkOtherUser()
    ensures ShrunkWith(NyanDir, TestExpanded, None, true, 1) == "/h/nyan"
  {
    NyanSegments();
    assert Join(["", "h", "nyan"], "/") == "/h/nyan";
  }
}
