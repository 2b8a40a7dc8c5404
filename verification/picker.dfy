/** The gateway to the external picker (`anyrun`). Spawning the process,
    writing the serialized title and description to it, waiting for it and
    reading its output are I/O; what the model keeps is the outcome of one
    such run, described by the stage at which it ended, and the exact reply
    the helper derives from that outcome. */
module Picker {
  import opened Text
  import opened Encoder

  /** How one picker run ended. Each failing stage carries the error text
      the failing call reported. */
  datatype Run =
    | SpawnFailed(reason: string)     // the process could not be started
    | ConfigRejected(reason: string)  // the title/description could not be serialized
    | WaitFailed(reason: string)      // waiting for the process to exit failed
    | ReadFailed(reason: string)      // its first output line could not be read
    | Answered(line: string)          // it printed a first line
    | Silent                          // it exited without printing any line

  /** The identifier the helper writes for every failed stage: the literal
      text "ERR", so the line reads `ERR ERR <reason>`. */
  const StageFailedId: string := "ERR"

  /** The identifier and text written when the picker stays silent, which
      is how it reports that the user cancelled. */
  const CancelledId: string := "83886179"
  const CancelledText: string := "Operation cancelled <pinentry-anyrun>"

  /** The secret, or the error reply, that one picker run yields. A printed
      line is the secret verbatim; a silent run is a cancellation; every
      failed stage is reported with its own reason. */
  function Anyrun(run: Run): (r: Result<string, Response>)
    ensures r.Success? <==> run.Answered?
    ensures r.Success? ==> r.value == run.line
    ensures r.Failure? ==> r.error.Err? && ' ' !in r.error.id
    ensures r.Failure? ==> (r.error.id == CancelledId <==> run.Silent?)
    ensures r.Failure? && !run.Silent? ==> r.error.desc == run.reason
  {
    match run
    case SpawnFailed(e) => Failure(Err(StageFailedId, e))
    case ConfigRejected(e) => Failure(Err(StageFailedId, e))
    case WaitFailed(e) => Failure(Err(StageFailedId, e))
    case ReadFailed(e) => Failure(Err(StageFailedId, e))
    case Answered(v) => Success(v)
    case Silent => Failure(Err(CancelledId, CancelledText))
  }

  /** The exact wire text of the cancellation reply. */
  lemma CancelledLine()
    ensures Render(Err(CancelledId, CancelledText)) == "ERR 83886179 " + CancelledText
  {
    assert "ERR " + "83886179" == "ERR 83886179";
    assert "ERR 83886179" + " " == "ERR 83886179 ";
  }
}
