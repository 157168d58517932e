/**
 * The git status segment: the head (branch, tag or short commit id), one
 * mark per kind of change in the working tree, the distance to the
 * upstream, and a style chosen by how far the changes have got.
 */
module GitStatusSegment {
  import opened Wrappers
  import opened Text
  import opened StyleModel
  import opened GitInfo
  import opened SegmentModel

  datatype GitStatusIcons = GitStatusIcons(
    branch: string,
    tag: string,
    commit: string,
    modified: string,
    added: string,
    deleted: string,
    renamed: string,
    conflicted: string,
    behind: string,
    ahead: string)

  /** An icon shown for remotes whose URL contains `pattern`; the builder does not use it. */
  datatype RemoteConfig = RemoteConfig(pattern: string, icon: string)

  datatype GitStatusConfig = GitStatusConfig(
    icons: GitStatusIcons,
    clean: Style,
    unstaged: Style,
    staged: Style,
    conflicted: Style,
    remotes: seq<RemoteConfig>,
    displayMaster: bool,
    commitHashLength: nat,
    content: string)

  const DefaultIcons: GitStatusIcons := GitStatusIcons(
    "\U{e725}", "\U{f412}", "\U{f417}", "\U{2026}", "+", "-", "\U{2192}", "\U{f47f}", "\U{f175}", "\U{f176}")

  const DefaultConfig: GitStatusConfig := GitStatusConfig(
    DefaultIcons,
    Style(Named(NamedColor.Black), Named(NamedColor.Green), []),
    Style(Named(NamedColor.Black), Named(NamedColor.Yellow), []),
    Style(Named(NamedColor.Black), Named(NamedColor.Green), []),
    Style(Named(NamedColor.Black), Named(NamedColor.Red), []),
    [RemoteConfig("github.com", "\U{eba1} "), RemoteConfig("", "\U{f0c2} ")],
    true,
    7,
    " " + "{{.remote}}" + "{{.head}}" + "{{.working_tree}}" + "{{.upstream}}" + " ")

  /** The placeholders of the template, in the order of their replacements. */
  const Patterns: seq<Pattern> := ["{{.remote}}", "{{.head}}", "{{.working_tree}}", "{{.upstream}}"]

  lemma PatternsArePlaceholders()
    ensures Placeholders(Patterns)
  {
    forall i, j | 0 <= i < |Patterns| && 0 <= j < |Patterns| && i != j
      ensures !IsPrefix(Patterns[i], Patterns[j])
    {
      assert Patterns[i][3] != Patterns[j][3];
    }
  }

  // ---------------------------------------------------------------------------
  // The head
  // ---------------------------------------------------------------------------

  /** `shorten_hash`: at most the first `maxLength` characters of the id. */
  function ShortenHash(hash: string, maxLength: nat): (r: string)
    ensures IsPrefix(r, hash)
    ensures |r| == Min(|hash|, maxLength)
  {
    if |hash| > maxLength then hash[..maxLength] else hash
  }

  /** A name after its icon: the bare name when the icon is empty, otherwise icon, space, name. */
  function Labelled(icon: string, name: string): (r: string)
    ensures icon == [] ==> r == name
    ensures icon != [] ==> IsPrefix(icon + " ", r) && r[|icon| + 1..] == name
  {
    if icon == [] then name else icon + " " + name
  }

  /** A default branch whose name the configuration hides. */
  predicate HiddenBranch(head: Head, displayMaster: bool) {
    head.Branch? && !displayMaster && (head.name == "master" || head.name == "main")
  }

  /** The name the head shows: a commit id shortened, any other name in full. */
  function ShownName(head: Head, commitHashLength: nat): string {
    if head.Commit? then ShortenHash(head.name, commitHashLength) else head.name
  }

  function HeadIcon(head: Head, icons: GitStatusIcons): string {
    match head
    case Branch(_) => icons.branch
    case Tag(_) => icons.tag
    case Commit(_) => icons.commit
  }

  /** `build_head_status`. */
  function HeadText(head: Head, icons: GitStatusIcons, displayMaster: bool, commitHashLength: nat): string {
    match head
    case Branch(branch) =>
      if !displayMaster && (branch == "master" || branch == "main") then icons.branch
      else Labelled(icons.branch, branch)
    case Tag(tag) => Labelled(icons.tag, tag)
    case Commit(hash) => Labelled(icons.commit, ShortenHash(hash, commitHashLength))
  }

  /**
   * A hidden default branch shows its icon alone; every other head shows
   * its name, after its own icon and one space unless that icon is empty.
   */
  lemma HeadTextShape(head: Head, icons: GitStatusIcons, displayMaster: bool, commitHashLength: nat)
    ensures var r := HeadText(head, icons, displayMaster, commitHashLength);
      && (HiddenBranch(head, displayMaster) ==> r == icons.branch)
      && (!HiddenBranch(head, displayMaster) && HeadIcon(head, icons) == [] ==> r == ShownName(head, commitHashLength))
      && (!HiddenBranch(head, displayMaster) && HeadIcon(head, icons) != [] ==>
            IsPrefix(HeadIcon(head, icons) + " ", r)
            && r[|HeadIcon(head, icons)| + 1..] == ShownName(head, commitHashLength))
  {
  }

  lemma HeadExamples()
    ensures HeadText(Branch("main"), DefaultIcons, false, 7) == "\U{e725}"
    ensures HeadText(Branch("main"), DefaultIcons, true, 7) == "\U{e725} main"
    ensures HeadText(Branch("feature"), DefaultIcons, false, 7) == "\U{e725} feature"
    ensures HeadText(Tag("v1.0"), DefaultIcons.(tag := ""), true, 7) == "v1.0"
    ensures HeadText(Commit("0123456789abcdef"), DefaultIcons, true, 7) == "\U{f417} 0123456"
  {
    assert "0123456789abcdef"[..7] == "0123456";
  }

  // ---------------------------------------------------------------------------
  // The working tree
  // ---------------------------------------------------------------------------

  /** The marks of the kinds of change present, in the order added, deleted, modified, renamed, conflicted. */
  function ChangeMarks(w: WorkingTreeStatus, icons: GitStatusIcons): string {
    (if w.HasNew() then icons.added else "")
    + (if w.HasDeleted() then icons.deleted else "")
    + (if w.HasModified() then icons.modified else "")
    + (if w.HasRenamed() then icons.renamed else "")
    + (if w.HasConflict() then icons.conflicted else "")
  }

  /** The working-tree part: the marks after one space, or nothing when there is no mark. */
  function WorkingTreeText(w: WorkingTreeStatus, icons: GitStatusIcons): string {
    var marks := ChangeMarks(w, icons);
    if marks == [] then [] else " " + marks
  }

  /** `build_working_tree_status`: appends the mark of each kind of change present. */
  method BuildWorkingTreeStatus(w: WorkingTreeStatus, icons: GitStatusIcons) returns (status: string)
    ensures status == WorkingTreeText(w, icons)
  {
    status := "";
    if w.HasNew() {
      status := status + icons.added;
    }
    ghost var marks := if w.HasNew() then icons.added else "";
    assert status == marks;
    if w.HasDeleted() {
      status := status + icons.deleted;
    }
    marks := marks + (if w.HasDeleted() then icons.deleted else "");
    assert status == marks;
    if w.HasModified() {
      status := status + icons.modified;
    }
    marks := marks + (if w.HasModified() then icons.modified else "");
    assert status == marks;
    if w.HasRenamed() {
      status := status + icons.renamed;
    }
    marks := marks + (if w.HasRenamed() then icons.renamed else "");
    assert status == marks;
    if w.HasConflict() {
      status := status + icons.conflicted;
    }
    marks := marks + (if w.HasConflict() then icons.conflicted else "");
    assert status == marks == ChangeMarks(w, icons);
    if status != "" {
      status := " " + status;
    }
  }

  /** The rank of a default mark in the fixed order; the leading space comes first. */
  function MarkRank(c: char): nat {
    if c == ' ' then 0
    else if c == '+' then 1
    else if c == '-' then 2
    else if c == '\U{2026}' then 3
    else if c == '\U{2192}' then 4
    else if c == '\U{f47f}' then 5
    else 6
  }

  /** Ranks strictly increasing from left to right: every mark at most once, in order. */
  predicate Ascending(s: string) {
    forall i :: 0 <= i < |s| - 1 ==> MarkRank(s[i]) < MarkRank(s[i + 1])
  }

  /** Every rank in `s` lies in `lo .. hi - 1`. */
  predicate RanksIn(s: string, lo: nat, hi: nat) {
    forall i :: 0 <= i < |s| ==> lo <= MarkRank(s[i]) < hi
  }

  lemma RanksConcat(s: string, t: string, lo: nat, hi: nat)
    requires RanksIn(s, lo, hi) && RanksIn(t, lo, hi)
    ensures RanksIn(s + t, lo, hi)
  {
    var st := s + t;
    forall i | 0 <= i < |st| ensures lo <= MarkRank(st[i]) < hi {
      if i < |s| {
        assert st[i] == s[i];
      } else {
        assert st[i] == t[i - |s|];
      }
    }
  }

  /** Two ascending runs, the second ranked above the first, make one. */
  lemma AscendingConcat(s: string, t: string, k: nat)
    requires Ascending(s) && Ascending(t) && RanksIn(s, 0, k) && RanksIn(t, k, 7)
    ensures Ascending(s + t)
  {
    var st := s + t;
    forall i | 0 <= i < |st| - 1 ensures MarkRank(st[i]) < MarkRank(st[i + 1]) {
      if i < |s| - 1 {
        assert st[i] == s[i] && st[i + 1] == s[i + 1];
      } else if i == |s| - 1 {
        assert st[i] == s[i] && st[i + 1] == t[0];
      } else {
        assert st[i] == t[i - |s|] && st[i + 1] == t[i + 1 - |s|];
      }
    }
  }

  /** One default mark, present or not. */
  function Mark(present: bool, c: char): (r: string)
    ensures c in r <==> present
    ensures |r| <= 1
  {
    if present then [c] else []
  }

  lemma DefaultMarks(w: WorkingTreeStatus)
    ensures ChangeMarks(w, DefaultIcons)
      == Mark(w.HasNew(), '+') + Mark(w.HasDeleted(), '-') + Mark(w.HasModified(), '\U{2026}')
        + Mark(w.HasRenamed(), '\U{2192}') + Mark(w.HasConflict(), '\U{f47f}')
  {
  }

  /** The five marks in order, each present or not. */
  lemma MarksFacts(a: bool, b: bool, c: bool, d: bool, e: bool)
    ensures var m := Mark(a, '+') + Mark(b, '-') + Mark(c, '\U{2026}') + Mark(d, '\U{2192}') + Mark(e, '\U{f47f}');
      && ('+' in m <==> a) && ('-' in m <==> b) && ('\U{2026}' in m <==> c)
      && ('\U{2192}' in m <==> d) && ('\U{f47f}' in m <==> e)
      && (m == [] <==> !(a || b || c || d || e))
      && ' ' !in m
  {
  }

  lemma MarkRanked(present: bool, c: char, lo: nat, hi: nat)
    requires lo <= MarkRank(c) < hi
    ensures Ascending(Mark(present, c)) && RanksIn(Mark(present, c), lo, hi)
  {
  }

  lemma AppendMark(s: string, present: bool, c: char, k: nat)
    requires Ascending(s) && RanksIn(s, 1, k) && 1 <= k <= MarkRank(c) < 6
    ensures Ascending(s + Mark(present, c)) && RanksIn(s + Mark(present, c), 1, MarkRank(c) + 1)
  {
    MarkRanked(present, c, k, MarkRank(c) + 1);
    AscendingConcat(s, Mark(present, c), k);
    MarkRanked(present, c, 1, MarkRank(c) + 1);
    RanksConcat(s, Mark(present, c), 1, MarkRank(c) + 1);
  }

  lemma MarksAscending(a: bool, b: bool, c: bool, d: bool, e: bool)
    ensures var m := Mark(a, '+') + Mark(b, '-') + Mark(c, '\U{2026}') + Mark(d, '\U{2192}') + Mark(e, '\U{f47f}');
      Ascending(m) && RanksIn(m, 1, 7)
  {
    MarkRanked(a, '+', 1, 2);
    var m1 := Mark(a, '+');
    AppendMark(m1, b, '-', 2);
    var m2 := m1 + Mark(b, '-');
    AppendMark(m2, c, '\U{2026}', 3);
    var m3 := m2 + Mark(c, '\U{2026}');
    AppendMark(m3, d, '\U{2192}', 4);
    var m4 := m3 + Mark(d, '\U{2192}');
    AppendMark(m4, e, '\U{f47f}', 5);
  }

  /**
   * With the default marks, each mark appears exactly when its kind of
   * change is present, and the part opens with one space unless it is empty.
   */
  lemma DefaultWorkingTreeText(w: WorkingTreeStatus)
    ensures var r := WorkingTreeText(w, DefaultIcons);
      && ('+' in r <==> w.HasNew())
      && ('-' in r <==> w.HasDeleted())
      && ('\U{2026}' in r <==> w.HasModified())
      && ('\U{2192}' in r <==> w.HasRenamed())
      && ('\U{f47f}' in r <==> w.HasConflict())
      && (r == [] <==> !(w.HasNew() || w.HasDeleted() || w.HasModified() || w.HasRenamed() || w.HasConflict()))
      && (r != [] ==> r[0] == ' ' && ' ' !in r[1..])
  {
    DefaultMarks(w);
    MarksFacts(w.HasNew(), w.HasDeleted(), w.HasModified(), w.HasRenamed(), w.HasConflict());
    var m := ChangeMarks(w, DefaultIcons);
    if m != [] {
      assert (" " + m)[1..] == m;
    }
  }

  /** With the default marks, every mark appears at most once and in the fixed order. */
  lemma DefaultWorkingTreeOrder(w: WorkingTreeStatus)
    ensures Ascending(WorkingTreeText(w, DefaultIcons))
  {
    DefaultMarks(w);
    MarksAscending(w.HasNew(), w.HasDeleted(), w.HasModified(), w.HasRenamed(), w.HasConflict());
    var m := ChangeMarks(w, DefaultIcons);
    if m != [] {
      AscendingConcat(" ", m, 1);
    }
  }

  /**
   * Read against the status entries the counters come from: a default mark
   * appears exactly when some entry carries that kind of change, in the
   * work tree or in the index.
   */
  lemma WorkingTreeTextOfEntries(entries: seq<set<StatusFlag>>)
    ensures var r := WorkingTreeText(Tally(entries), DefaultIcons);
      && ('+' in r <==> AnyWith(entries, {WtNew, IndexNew}))
      && ('-' in r <==> AnyWith(entries, {WtDeleted, IndexDeleted}))
      && ('\U{2026}' in r <==> AnyWith(entries, {WtModified, WtTypechange, IndexModified, IndexTypechange}))
      && ('\U{2192}' in r <==> AnyWith(entries, {WtRenamed, IndexRenamed}))
      && ('\U{f47f}' in r <==> AnyWith(entries, {Conflicted}))
  {
    TallyKinds(entries);
    DefaultWorkingTreeText(Tally(entries));
  }

  // ---------------------------------------------------------------------------
  // The upstream
  // ---------------------------------------------------------------------------

  /** `build_upstream_status`: behind count, then ahead count, each after its icon. */
  function UpstreamText(u: UpstreamStatus, icons: GitStatusIcons): (r: Option<string>)
    ensures r.None? <==> u.behind == 0 && u.ahead == 0
  {
    match (u.behind, u.ahead)
    case (0, 0) => None
    case (behind, 0) => Some(" " + icons.behind + NatToString(behind))
    case (0, ahead) => Some(" " + icons.ahead + NatToString(ahead))
    case (behind, ahead) => Some(" " + icons.behind + NatToString(behind) + icons.ahead + NatToString(ahead))
  }

  /** The upstream part of the template: nothing without an upstream or without a distance. */
  function UpstreamPart(upstream: Option<UpstreamStatus>, icons: GitStatusIcons): (r: string)
    ensures upstream.None? ==> r == []
  {
    match upstream
    case None => []
    case Some(u) => UpstreamText(u, icons).GetOr([])
  }

  /** A count after its icon, or nothing for a zero count. */
  function Distance(icon: string, n: nat): string {
    if n > 0 then icon + NatToString(n) else []
  }

  /**
   * One rule for all four cases: a space, then the behind count after its
   * icon if there is one, then the ahead count after its icon if there is one.
   */
  lemma UpstreamUniform(u: UpstreamStatus, icons: GitStatusIcons)
    ensures u.behind == 0 && u.ahead == 0 ==> UpstreamPart(Some(u), icons) == []
    ensures u.behind > 0 || u.ahead > 0 ==>
      UpstreamPart(Some(u), icons) == " " + Distance(icons.behind, u.behind) + Distance(icons.ahead, u.ahead)
  {
  }

  lemma UpstreamExamples()
    ensures UpstreamPart(Some(UpstreamStatus(0, 0)), DefaultIcons) == ""
    ensures UpstreamPart(Some(UpstreamStatus(0, 3)), DefaultIcons) == " \U{f175}3"
    ensures UpstreamPart(Some(UpstreamStatus(12, 0)), DefaultIcons) == " \U{f176}12"
    ensures UpstreamPart(Some(UpstreamStatus(1, 2)), DefaultIcons) == " \U{f175}2\U{f176}1"
  {
  }

  // ---------------------------------------------------------------------------
  // The style
  // ---------------------------------------------------------------------------

  /** How far the changes of the working tree have got. */
  datatype Progress = Clean | Staged | Unstaged | InConflict

  /** Conflicts first, then unstaged changes, then staged changes. */
  function ProgressOf(w: WorkingTreeStatus): (p: Progress)
    ensures p == InConflict <==> w.HasConflict()
    ensures p == Unstaged <==> !w.HasConflict() && w.HasUnstagedChanges()
    ensures p == Staged <==> !w.HasConflict() && !w.HasUnstagedChanges() && w.HasStagedChanges()
    ensures p == Clean <==> !w.HasConflict() && !w.HasUnstagedChanges() && !w.HasStagedChanges()
  {
    if w.HasConflict() then InConflict
    else if w.HasUnstagedChanges() then Unstaged
    else if w.HasStagedChanges() then Staged
    else Clean
  }

  function StyleOf(p: Progress, config: GitStatusConfig): Style {
    match p
    case Clean => config.clean
    case Staged => config.staged
    case Unstaged => config.unstaged
    case InConflict => config.conflicted
  }

  /**
   * Read against the status entries: the tree is clean exactly when no
   * entry carries a change or a conflict in the work tree or the index.
   */
  lemma ProgressOfEntries(entries: seq<set<StatusFlag>>)
    ensures ProgressOf(Tally(entries)) == InConflict <==> AnyWith(entries, {Conflicted})
    ensures ProgressOf(Tally(entries)) == Clean <==>
      && !AnyWith(entries, {Conflicted})
      && !AnyWith(entries, {WtNew, WtDeleted, WtModified, WtTypechange, WtRenamed})
      && !AnyWith(entries, {IndexNew, IndexDeleted, IndexModified, IndexTypechange, IndexRenamed})
  {
    TallyKinds(entries);
    TallyStages(entries);
  }

  // ---------------------------------------------------------------------------
  // The segment
  // ---------------------------------------------------------------------------

  /** The four replacements: the remote part is always empty. */
  function Replacements(info: GitInfo, config: GitStatusConfig): (reps: seq<string>)
    ensures |reps| == |Patterns| && reps[0] == []
  {
    [ [],
      HeadText(info.head, config.icons, config.displayMaster, config.commitHashLength),
      WorkingTreeText(info.workingTree, config.icons),
      UpstreamPart(info.upstream, config.icons) ]
  }

  /** `GitStatusSegmentBuilder::build`: no segment outside a repository. */
  function Build(gitInfo: Option<GitInfo>, config: GitStatusConfig): (r: Option<Segment>)
    ensures r.None? <==> gitInfo.None?
    ensures r.Some? ==> r.value.style == AnsiOf(StyleOf(ProgressOf(gitInfo.value.workingTree), config))
  {
    match gitInfo
    case None => None
    case Some(info) =>
      Some(Segment(
        ReplaceAll(config.content, Patterns, Replacements(info, config)),
        AnsiOf(StyleOf(ProgressOf(info.workingTree), config))))
  }

  /**
   * For any template made of text without `{` and the four placeholders,
   * the content is the template with each placeholder filled in, the
   * remote one by nothing.
   */
  lemma BuildFillsTemplate(info: GitInfo, config: GitStatusConfig, parts: seq<Part>)
    requires WellFormed(parts, |Patterns|) && config.content == Fill(parts, Patterns)
    ensures Build(Some(info), config).value.content == Fill(parts, Replacements(info, config))
  {
    PatternsArePlaceholders();
    ReplaceAllTemplate(parts, Patterns, Replacements(info, config));
  }

  /** The default template taken apart. */
  const DefaultParts: seq<Part> := [Lit(" "), Hole(0), Hole(1), Hole(2), Hole(3), Lit(" ")]

  lemma DefaultPartsSpellContent()
    ensures WellFormed(DefaultParts, |Patterns|)
    ensures Fill(DefaultParts, Patterns) == DefaultConfig.content
  {
    FillDefaultParts(Patterns);
  }

  lemma FillDefaultParts(strs: seq<string>)
    requires |strs| == 4
    ensures WellFormed(DefaultParts, |strs|)
    ensures Fill(DefaultParts, strs) == " " + (strs[0] + (strs[1] + (strs[2] + (strs[3] + " "))))
  {
    var parts := DefaultParts;
    assert Inert(" ");
    assert parts[6..] == [];
    FillFrom(parts, strs, 5);
    assert Fill(parts[5..], strs) == " ";
    FillFrom(parts, strs, 4);
    assert Fill(parts[4..], strs) == strs[3] + " ";
    FillFrom(parts, strs, 3);
    assert Fill(parts[3..], strs) == strs[2] + (strs[3] + " ");
    FillFrom(parts, strs, 2);
    assert Fill(parts[2..], strs) == strs[1] + (strs[2] + (strs[3] + " "));
    FillFrom(parts, strs, 1);
    assert Fill(parts[1..], strs) == strs[0] + (strs[1] + (strs[2] + (strs[3] + " ")));
    FillFrom(parts, strs, 0);
    assert parts[0..] == parts;
  }

  /** The default template: head, working tree and upstream between two spaces. */
  lemma BuildDefault(info: GitInfo)
    ensures Build(Some(info), DefaultConfig).value.content
      == " " + (HeadText(info.head, DefaultIcons, true, 7)
        + (WorkingTreeText(info.workingTree, DefaultIcons)
        + (UpstreamPart(info.upstream, DefaultIcons) + " ")))
  {
    DefaultPartsSpellContent();
    BuildFillsTemplate(info, DefaultConfig, DefaultParts);
    var reps := Replacements(info, DefaultConfig);
    FillDefaultParts(reps);
    assert reps[0] + (reps[1] + (reps[2] + (reps[3] + " "))) == reps[1] + (reps[2] + (reps[3] + " "));
  }
}
