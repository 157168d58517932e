/**
 * What the GitLab CLI reports about the current branch's merge request
 * (`glab mr view --output=json --comments`). The record `glab` prints is
 * taken as already decoded; the model keeps the mapping from that record
 * to the merge request the segment reads.
 */
module GlabInfo {
  import opened Wrappers
  import opened Process

  datatype MergeRequestState = Open | Closed | Merged

  /** The state of the merge request's pipeline; `NoPipeline` when it has none. */
  datatype MrPipelineState = NoPipeline | Pending | Running | Success | Failed | Canceled

  datatype MergeRequest = MergeRequest(
    number: int,
    state: MergeRequestState,
    comments: int,
    pipeline: MrPipelineState,
    isDraft: bool,
    isApproved: bool)

  datatype GlabInfo = GlabInfo(mergeRequest: MergeRequest)

  datatype MrComment = MrComment(body: string, system: bool)

  datatype MrPipeline = MrPipeline(status: string)

  /** The decoded output of `glab mr view`. */
  datatype MrResult = MrResult(
    iid: int,
    state: string,
    draft: bool,
    userNotesCount: int,
    pipeline: Option<MrPipeline>,
    notes: seq<MrComment>)

  /** The state names GitLab reports: `merged`, `closed`, and anything else is taken as open. */
  function StateOf(name: string): (r: MergeRequestState)
    ensures r == Merged <==> name == "merged"
    ensures r == Closed <==> name == "closed"
    ensures r == Open <==> name != "merged" && name != "closed"
  {
    match name
    case "merged" => Merged
    case "closed" => Closed
    case _ => Open
  }

  /** The name GitLab gives a state (`opened` for an open one). */
  function StateName(s: MergeRequestState): string {
    match s
    case Open => "opened"
    case Closed => "closed"
    case Merged => "merged"
  }

  lemma StateNameRoundTrip(s: MergeRequestState)
    ensures StateOf(StateName(s)) == s
  {
    assert "opened"[0] != "merged"[0] && "opened"[0] != "closed"[0];
  }

  /**
   * The pipeline status names: `running`, `success`, `failed` and `canceled`
   * map to their states, every other name to pending, and no pipeline to
   * `NoPipeline`.
   */
  function PipelineOf(pipeline: Option<MrPipeline>): (r: MrPipelineState)
    ensures r == NoPipeline <==> pipeline.None?
    ensures r == Running <==> pipeline.Some? && pipeline.value.status == "running"
    ensures r == Success <==> pipeline.Some? && pipeline.value.status == "success"
    ensures r == Failed <==> pipeline.Some? && pipeline.value.status == "failed"
    ensures r == Canceled <==> pipeline.Some? && pipeline.value.status == "canceled"
  {
    match pipeline
    case None => NoPipeline
    case Some(p) =>
      match p.status
      case "running" => Running
      case "success" => Success
      case "failed" => Failed
      case "canceled" => Canceled
      case _ => Pending
  }

  /** A status GitLab reports before a job starts, such as `created`, is pending. */
  lemma UnknownStatusIsPending()
    ensures PipelineOf(Some(MrPipeline("created"))) == Pending
    ensures PipelineOf(Some(MrPipeline("manual"))) == Pending
  {
    assert "created"[0] != "running"[0] && "created"[0] != "success"[0];
    assert "created"[0] != "failed"[0] && "created"[1] != "canceled"[1];
    assert "manual"[0] != "running"[0] && "manual"[0] != "success"[0];
    assert "manual"[0] != "failed"[0] && "manual"[0] != "canceled"[0];
  }

  /** The body of the system note GitLab adds when someone approves. */
  const ApprovalNote: string := "approved this merge request"

  predicate IsApproval(note: MrComment) {
    note.system && note.body == ApprovalNote
  }

  /** `notes.iter().any(..)`: whether some note is an approval. */
  function AnyApproval(notes: seq<MrComment>): (r: bool)
    ensures r <==> exists i :: 0 <= i < |notes| && IsApproval(notes[i])
  {
    if notes == [] then false
    else if IsApproval(notes[0]) then true
    else
      var r := AnyApproval(notes[1..]);
      assert forall i :: 1 <= i < |notes| ==> notes[i] == notes[1..][i - 1];
      r
  }

  /**
   * The mapping in `load_merge_request`: the number is the `iid`, the comment
   * count the number of user notes, the draft flag is copied, and the state,
   * the pipeline and the approval are derived as above.
   */
  function MergeRequestOf(result: MrResult): (mr: MergeRequest)
    ensures mr.number == result.iid && mr.comments == result.userNotesCount && mr.isDraft == result.draft
    ensures mr.state == StateOf(result.state) && mr.pipeline == PipelineOf(result.pipeline)
    ensures mr.isApproved <==> exists i :: 0 <= i < |result.notes| && IsApproval(result.notes[i])
  {
    MergeRequest(
      result.iid,
      StateOf(result.state),
      result.userNotesCount,
      PipelineOf(result.pipeline),
      result.draft,
      AnyApproval(result.notes))
  }

  /** A user's comment with the approval text, or a different system note, approves nothing. */
  lemma OnlySystemApprovalApproves(result: MrResult)
    requires forall i :: 0 <= i < |result.notes| ==> !result.notes[i].system || result.notes[i].body != ApprovalNote
    ensures !MergeRequestOf(result).isApproved
  {
  }

  /** Adding an approval note to any result makes the merge request approved. */
  lemma ApprovalNoteApproves(result: MrResult)
    ensures MergeRequestOf(result.(notes := result.notes + [MrComment(ApprovalNote, true)])).isApproved
  {
    var notes := result.notes + [MrComment(ApprovalNote, true)];
    assert IsApproval(notes[|notes| - 1]);
  }

  /** `load_merge_request`: the mapped record of a successful run, none otherwise. */
  function LoadMergeRequest(output: CommandOutput<MrResult>): (r: Option<MergeRequest>)
    ensures r.Some? <==> output.Exited? && output.success && output.decoded.Some?
    ensures r.Some? ==> r.value == MergeRequestOf(output.decoded.value)
  {
    match Decoded(output)
    case None => None
    case Some(result) => Some(MergeRequestOf(result))
  }

  /** `load_glab_info`: present exactly when the merge request loads. */
  function LoadGlabInfo(output: CommandOutput<MrResult>): (r: Option<GlabInfo>)
    ensures r.Some? <==> LoadMergeRequest(output).Some?
    ensures r.Some? ==> r.value.mergeRequest == LoadMergeRequest(output).value
  {
    match LoadMergeRequest(output)
    case None => None
    case Some(mr) => Some(GlabInfo(mr))
  }
}
