/**
 * The outcome of running one of the external tools (`gh`, `glab`, `direnv`)
 * and decoding its standard output as JSON. Spawning the process and the
 * JSON decoder are outside the model: a run is described by its outcome.
 */
module Process {
  import opened Wrappers

  /**
   * Either the command could not be started, or it exited, successfully or
   * not, and its output decoded to a record or failed to decode.
   */
  datatype CommandOutput<T> = SpawnFailed | Exited(success: bool, decoded: Option<T>)

  /**
   * `Command::output().ok()?`, the check of the exit status and
   * `serde_json::from_slice(..).ok()?`: the record only for a successful run
   * whose output decodes.
   */
  function Decoded<T>(output: CommandOutput<T>): (r: Option<T>)
    ensures r.Some? <==> output.Exited? && output.success && output.decoded.Some?
    ensures r.Some? ==> r == output.decoded
  {
    match output
    case SpawnFailed => None
    case Exited(success, decoded) => if success then decoded else None
  }
}
