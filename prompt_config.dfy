/**
 * The prompt's top-level configuration: which segments each row shows on
 * its left and right, the separator glyphs, and the configuration of each
 * segment. The configuration file lists six segment kinds; the dispatcher
 * matches twelve, and the kinds and per-segment configurations it reads
 * are declared here.
 */
module PromptConfig {
  import OsSegment
  import UserSegment
  import PathSegment
  import StatusSegment
  import GitStatusSegment
  import GitUserSegment
  import GhPullRequestSegment
  import GhActionsSegment
  import GlabSegment
  import DirenvSegment

  datatype SegmentKind =
    | Duration | Os | Path | Status | Time | User
    | GitStatus | GitUser | GhPullRequest | GhActions | GlabMergeRequest | Direnv

  /** One row of the prompt: the segments drawn on its left and on its right. */
  datatype Line = Line(left: seq<SegmentKind>, right: seq<SegmentKind>)

  datatype SegmentSeparators = SegmentSeparators(
    solidLeft: string,
    wireLeft: string,
    solidRight: string,
    wireRight: string)

  const DefaultSeparators: SegmentSeparators := SegmentSeparators("\U{e0b0}", "\U{e0b1}", "\U{e0b2}", "\U{e0b3}")

  /** Two rows: system, user and path on the first with the time on its right; status and duration on the second. */
  const DefaultSegments: seq<Line> := [
    Line([Os, User, Path], [Time]),
    Line([Status, Duration], [])
  ]

  datatype Config = Config(
    os: OsSegment.OsConfig,
    user: UserSegment.UserConfig,
    path: PathSegment.PathConfig,
    status: StatusSegment.StatusConfig,
    gitStatus: GitStatusSegment.GitStatusConfig,
    gitUser: GitUserSegment.GitUserConfig,
    ghPullRequest: GhPullRequestSegment.GhPullRequestConfig,
    ghActions: GhActionsSegment.GhActionsConfig,
    glabMergeRequest: GlabSegment.GlabMergeRequestConfig,
    direnv: DirenvSegment.DirenvConfig,
    segmentSeparators: SegmentSeparators,
    segments: seq<Line>)
}
