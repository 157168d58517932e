/**
 * Assembling the prompt: each configured segment kind is built by its own
 * builder, the kinds whose builder shows nothing are dropped, and the rows
 * are handed to the presenter, left prompt or right prompt.
 */
module PromptSegments {
  import opened Wrappers
  import opened SegmentModel
  import opened PromptConfig
  import Text
  import Shells
  import Paths
  import Process
  import GitInfo
  import GhInfo
  import GlabInfo
  import OsSegment
  import UserSegment
  import PathSegment
  import StatusSegment
  import GitStatusSegment
  import GitUserSegment
  import GhPullRequestSegment
  import GhActionsSegment
  import GlabSegment
  import DirenvSegment

  /**
   * The answers of the system the builders query. The duration and time
   * segments are not part of this model; what their builders return is
   * given here as well.
   */
  datatype System = System(
    osRelease: Option<string>,
    isRoot: bool,
    username: Option<string>,
    hostname: Option<string>,
    cwd: Option<Paths.Path>,
    isDir: Paths.Path -> bool,
    direnv: Process.CommandOutput<DirenvSegment.Status>,
    duration: Option<Segment>,
    time: Option<Segment>)

  /** `Context`: the configuration, the command-line arguments and the decoded information. */
  datatype Context = Context(
    config: Config,
    right: bool,
    exitStatus: int,
    jobs: int,
    shell: Shells.Shell,
    gitInfo: Option<GitInfo.GitInfo>,
    ghInfo: Option<GhInfo.GhInfo>,
    glabInfo: Option<GlabInfo.GlabInfo>,
    system: System)

  /** `detect_distribution` on the head of `/etc/os-release`; nothing when the file cannot be read. */
  function Detected(osRelease: Option<string>): Option<OsSegment.Distribution> {
    match osRelease
    case None => None
    case Some(head) => OsSegment.Scan(Text.Split(head, '\n'), "ID")
  }

  /**
   * `build_segment`: the builder of the kind. The system, user, path and
   * status segments are always shown; every other one only when what it
   * reports on is there.
   */
  function BuildSegment(ctx: Context, kind: SegmentKind): (r: Option<Segment>)
    ensures kind in {Os, Path, Status, User} ==> r.Some?
    ensures kind == Duration ==> r == ctx.system.duration
    ensures kind == Time ==> r == ctx.system.time
    ensures kind == GitStatus ==> (r.None? <==> ctx.gitInfo.None?)
    ensures kind == GitUser ==> (r.None? <==> ctx.gitInfo.None? || ctx.gitInfo.value.user.None?)
    ensures kind == GhPullRequest ==> (r.None? <==> ctx.ghInfo.None?)
    ensures kind == GhActions ==> (r.None? <==> ctx.ghInfo.None? || ctx.ghInfo.value.actions.None?)
    ensures kind == GlabMergeRequest ==> (r.None? <==> ctx.glabInfo.None?)
    ensures kind == Direnv ==> var st := DirenvSegment.LoadStatus(ctx.system.direnv);
      (r.None? <==> st.None? || st.value.state.foundRc.None?)
  {
    var c := ctx.config;
    var sys := ctx.system;
    match kind
    case Duration => sys.duration
    case Os => OsSegment.Build(Detected(sys.osRelease), c.os)
    case Path => PathSegment.Build(sys.cwd, sys.isDir, c.path)
    case Status => StatusSegment.Build(ctx.exitStatus, ctx.jobs, sys.isRoot, c.status)
    case Time => sys.time
    case User => UserSegment.Build(sys.username, sys.hostname, c.user)
    case GitStatus => GitStatusSegment.Build(ctx.gitInfo, c.gitStatus)
    case GitUser => GitUserSegment.Build(ctx.gitInfo, c.gitUser)
    case GhPullRequest => GhPullRequestSegment.Build(ctx.ghInfo, c.ghPullRequest)
    case GhActions => GhActionsSegment.Build(ctx.ghInfo, c.ghActions)
    case GlabMergeRequest => GlabSegment.Build(ctx.glabInfo, c.glabMergeRequest)
    case Direnv => DirenvSegment.Build(DirenvSegment.LoadStatus(sys.direnv), c.direnv)
  }

  /** The number of kinds whose builder shows a segment. */
  function Shown(ctx: Context, kinds: seq<SegmentKind>): (n: nat)
    ensures n <= |kinds|
  {
    if kinds == [] then 0 else (if BuildSegment(ctx, kinds[0]).Some? then 1 else 0) + Shown(ctx, kinds[1..])
  }

  /**
   * `build_segments`: the segments of the kinds, in the order of the kinds,
   * without the ones that show nothing.
   */
  function BuildSegments(ctx: Context, kinds: seq<SegmentKind>): (r: seq<Segment>)
    ensures |r| == Shown(ctx, kinds) <= |kinds|
  {
    if kinds == [] then []
    else
      (match BuildSegment(ctx, kinds[0]) case Some(s) => [s] case None => [])
      + BuildSegments(ctx, kinds[1..])
  }

  /** Building a list is building its two halves, one after the other: the order of the kinds is kept. */
  lemma {:induction false} BuildSegmentsAppend(ctx: Context, a: seq<SegmentKind>, b: seq<SegmentKind>)
    ensures BuildSegments(ctx, a + b) == BuildSegments(ctx, a) + BuildSegments(ctx, b)
    decreases |a|
  {
    if a == [] {
      assert a + b == b;
    } else {
      assert (a + b)[0] == a[0] && (a + b)[1..] == a[1..] + b;
      BuildSegmentsAppend(ctx, a[1..], b);
      var head := match BuildSegment(ctx, a[0]) case Some(s) => [s] case None => [];
      assert head + (BuildSegments(ctx, a[1..]) + BuildSegments(ctx, b))
        == (head + BuildSegments(ctx, a[1..])) + BuildSegments(ctx, b);
    }
  }

  /** When every kind shows a segment, the list has one segment per kind, each from its own kind. */
  lemma {:induction false} BuildSegmentsAllShown(ctx: Context, kinds: seq<SegmentKind>)
    requires forall i :: 0 <= i < |kinds| ==> BuildSegment(ctx, kinds[i]).Some?
    ensures |BuildSegments(ctx, kinds)| == |kinds|
    ensures forall i :: 0 <= i < |kinds| ==> BuildSegments(ctx, kinds)[i] == BuildSegment(ctx, kinds[i]).value
    decreases |kinds|
  {
    if kinds != [] {
      assert BuildSegment(ctx, kinds[0]).Some?;
      forall i | 0 <= i < |kinds[1..]| ensures BuildSegment(ctx, kinds[1..][i]).Some? {
        assert kinds[1..][i] == kinds[i + 1];
      }
      BuildSegmentsAllShown(ctx, kinds[1..]);
      forall i | 1 <= i < |kinds| ensures BuildSegments(ctx, kinds)[i] == BuildSegment(ctx, kinds[i]).value {
        assert kinds[1..][i - 1] == kinds[i];
      }
    }
  }

  /** The calls `print_segments` makes on the presenter. */
  datatype Call =
    | NextLine
    | DisplayLine(left: seq<Segment>, right: seq<Segment>)
    | FinishLeft
    | DisplayRight(right: seq<Segment>)

  /** The row at index `row` of the left prompt: its left segments, and its right ones unless it is the last row. */
  function RowLine(ctx: Context, rows: seq<Line>, row: nat): Call
    requires row < |rows|
  {
    DisplayLine(
      BuildSegments(ctx, rows[row].left),
      if row == |rows| - 1 then [] else BuildSegments(ctx, rows[row].right))
  }

  /** The row calls of the left prompt, one per row. */
  function RowLines(ctx: Context, rows: seq<Line>): (r: seq<Call>)
    ensures |r| == |rows|
    ensures forall i :: 0 <= i < |rows| ==> r[i] == RowLine(ctx, rows, i)
  {
    seq(|rows|, i requires 0 <= i < |rows| => RowLine(ctx, rows, i))
  }

  /** Row calls in order, with a line break before each row but the first. */
  function Joined(lines: seq<Call>): seq<Call> {
    if lines == [] then []
    else Joined(lines[..|lines| - 1]) + (if |lines| > 1 then [NextLine] else []) + [lines[|lines| - 1]]
  }

  /**
   * What `print_segments` asks of the presenter: for the left prompt every
   * row, then `finish_left`; for the right prompt the right segments of the
   * last row, and nothing when there is no row.
   */
  function PrintTrace(ctx: Context): seq<Call> {
    var rows := ctx.config.segments;
    if !ctx.right then Joined(RowLines(ctx, rows)) + [FinishLeft]
    else if rows == [] then []
    else [DisplayRight(BuildSegments(ctx, rows[|rows| - 1].right))]
  }

  /** `print_segments`: the loop over the rows. */
  method PrintSegments(ctx: Context) returns (calls: seq<Call>)
    ensures calls == PrintTrace(ctx)
  {
    var segments := ctx.config.segments;
    ghost var lines := RowLines(ctx, segments);
    calls := [];
    if !ctx.right {
      var row := 0;
      while row < |segments|
        invariant 0 <= row <= |segments|
        invariant calls == Joined(lines[..row])
      {
        if row > 0 {
          calls := calls + [NextLine];
        }
        var left := BuildSegments(ctx, segments[row].left);
        var right := if row == |segments| - 1 then [] else BuildSegments(ctx, segments[row].right);
        calls := calls + [DisplayLine(left, right)];
        JoinedPrefix(lines, row);
        row := row + 1;
      }
      assert lines[..row] == lines;
      calls := calls + [FinishLeft];
    } else if |segments| > 0 {
      var lastLine := segments[|segments| - 1];
      calls := [DisplayRight(BuildSegments(ctx, lastLine.right))];
    }
  }

  /** `n` row calls give `2 n - 1` calls, and the line breaks add no `finish_left`. */
  lemma {:induction false} JoinedShape(lines: seq<Call>)
    requires lines != [] && FinishLeft !in lines
    ensures |Joined(lines)| == 2 * |lines| - 1
    ensures FinishLeft !in Joined(lines)
    decreases |lines|
  {
    var init := lines[..|lines| - 1];
    if |lines| == 1 {
      assert Joined(init) == [];
    } else {
      assert forall c :: c in init ==> c in lines;
      JoinedShape(init);
      assert Joined(lines) == Joined(init) + [NextLine] + [lines[|lines| - 1]];
    }
  }

  /** Joining `n` row calls gives `2 n - 1` calls. */
  lemma {:induction false} JoinedLength(lines: seq<Call>)
    ensures |Joined(lines)| == if lines == [] then 0 else 2 * |lines| - 1
    decreases |lines|
  {
    if lines != [] {
      JoinedLength(lines[..|lines| - 1]);
    }
  }

  /** Row `i` is the call at `2 i`. */
  lemma {:induction false} JoinedRowAt(lines: seq<Call>, i: nat)
    requires i < |lines|
    ensures |Joined(lines)| == 2 * |lines| - 1
    ensures Joined(lines)[2 * i] == lines[i]
    decreases |lines|
  {
    var init := lines[..|lines| - 1];
    JoinedLength(lines);
    JoinedLength(init);
    if i < |lines| - 1 {
      JoinedRowAt(init, i);
      assert Joined(lines)[2 * i] == Joined(init)[2 * i];
    }
  }

  /** The call just before row `i`, for `i > 0`, is a line break. */
  lemma {:induction false} JoinedBreakAt(lines: seq<Call>, i: nat)
    requires 0 < i < |lines|
    ensures |Joined(lines)| == 2 * |lines| - 1
    ensures Joined(lines)[2 * i - 1] == NextLine
    decreases |lines|
  {
    var init := lines[..|lines| - 1];
    JoinedLength(lines);
    JoinedLength(init);
    if i < |lines| - 1 {
      JoinedBreakAt(init, i);
      assert Joined(lines)[2 * i - 1] == Joined(init)[2 * i - 1];
    }
  }

  /** The row calls of the first `k + 1` rows: those of the first `k`, a line break unless `k` is 0, then row `k`. */
  lemma JoinedPrefix(lines: seq<Call>, k: nat)
    requires k < |lines|
    ensures Joined(lines[..k + 1]) == Joined(lines[..k]) + (if k > 0 then [NextLine] else []) + [lines[k]]
  {
    assert lines[..k + 1][..k] == lines[..k];
  }

  /**
   * The left prompt: one row call per row, a line break between rows, the
   * right segments only on rows other than the last, and `finish_left`
   * once, at the end.
   */
  lemma LeftPrompt(ctx: Context)
    requires !ctx.right && ctx.config.segments != []
    ensures var rows := ctx.config.segments; var t := PrintTrace(ctx);
      && |t| == 2 * |rows|
      && t[|t| - 1] == FinishLeft
      && (forall i :: 0 <= i < |t| - 1 ==> t[i] != FinishLeft)
      && (forall i :: 0 <= i < |rows| ==> t[2 * i] == DisplayLine(BuildSegments(ctx, rows[i].left),
           if i == |rows| - 1 then [] else BuildSegments(ctx, rows[i].right)))
      && (forall i :: 0 < i < |rows| ==> t[2 * i - 1] == NextLine)
  {
    var rows := ctx.config.segments;
    var lines := RowLines(ctx, rows);
    assert forall i :: 0 <= i < |lines| ==> lines[i].DisplayLine?;
    FinishedLayout(lines);
  }

  /** Joined row calls followed by `finish_left`: the rows at even positions, line breaks between, one `finish_left` at the end. */
  lemma FinishedLayout(lines: seq<Call>)
    requires lines != [] && FinishLeft !in lines
    ensures var t := Joined(lines) + [FinishLeft];
      && |t| == 2 * |lines|
      && t[|t| - 1] == FinishLeft
      && (forall i :: 0 <= i < |t| - 1 ==> t[i] != FinishLeft)
      && (forall i :: 0 <= i < |lines| ==> t[2 * i] == lines[i])
      && (forall i :: 0 < i < |lines| ==> t[2 * i - 1] == NextLine)
  {
    JoinedShape(lines);
    var calls := Joined(lines);
    var t := calls + [FinishLeft];
    forall i | 0 <= i < |t| - 1 ensures t[i] != FinishLeft {
      assert t[i] == calls[i] && calls[i] in calls;
    }
    forall i | 0 <= i < |lines| ensures t[2 * i] == lines[i] {
      JoinedRowAt(lines, i);
      assert t[2 * i] == calls[2 * i];
    }
    forall i | 0 < i < |lines| ensures t[2 * i - 1] == NextLine {
      JoinedBreakAt(lines, i);
      assert t[2 * i - 1] == calls[2 * i - 1];
    }
  }

  /** The right prompt: only the last row's right segments, and nothing at all without rows. */
  lemma RightPrompt(ctx: Context)
    requires ctx.right
    ensures var rows := ctx.config.segments;
      (PrintTrace(ctx) == [] <==> rows == [])
      && (rows != [] ==> PrintTrace(ctx) == [DisplayRight(BuildSegments(ctx, rows[|rows| - 1].right))])
  {
  }

  /**
   * The default rows: the system, user and path segments with the time on
   * the right, a line break, then the status and duration segments.
   */
  lemma DefaultLeftPrompt(ctx: Context)
    requires !ctx.right && ctx.config.segments == DefaultSegments
    ensures PrintTrace(ctx) == [
      DisplayLine(BuildSegments(ctx, [Os, User, Path]), BuildSegments(ctx, [Time])),
      NextLine,
      DisplayLine(BuildSegments(ctx, [Status, Duration]), []),
      FinishLeft]
  {
    TwoRowPrompt(ctx);
    DefaultRowLines(ctx);
  }

  /** A left prompt of two rows: the first row, a line break, the last row, then `finish_left`. */
  lemma TwoRowPrompt(ctx: Context)
    requires !ctx.right && |ctx.config.segments| == 2
    ensures var rows := ctx.config.segments;
      PrintTrace(ctx) == [RowLine(ctx, rows, 0), NextLine, RowLine(ctx, rows, 1), FinishLeft]
  {
    var lines := RowLines(ctx, ctx.config.segments);
    assert lines[..1][..0] == [] && lines[..1] == lines[..|lines| - 1];
    assert Joined(lines[..1]) == [lines[0]];
  }

  /** The two default rows: the first keeps its right side, the last does not. */
  lemma DefaultRowLines(ctx: Context)
    ensures RowLine(ctx, DefaultSegments, 0) == DisplayLine(BuildSegments(ctx, [Os, User, Path]), BuildSegments(ctx, [Time]))
    ensures RowLine(ctx, DefaultSegments, 1) == DisplayLine(BuildSegments(ctx, [Status, Duration]), [])
  {
  }

  /** The system, user and path segments are always shown. */
  lemma AlwaysShown(ctx: Context)
    ensures |BuildSegments(ctx, [Os, User, Path])| == 3
  {
    var kinds := [Os, User, Path];
    assert BuildSegment(ctx, kinds[0]).Some? && BuildSegment(ctx, kinds[1]).Some? && BuildSegment(ctx, kinds[2]).Some?;
    BuildSegmentsAllShown(ctx, kinds);
  }
}
