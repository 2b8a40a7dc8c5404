/** The body of the helper's command loop: given the current configuration
    and one parsed request, the new configuration, the reply lines written
    and whether the loop goes on. Percent-decoding is a parameter (`decode`,
    `None` on failure) and the picker is represented by the outcome of its
    run, so the step is a pure function. */
module Dispatch {
  import opened Text
  import opened Parser
  import Encoder
  import Picker

  /** The session configuration handed to the picker (`ConfigRon`). */
  datatype Config = Config(title: Option<string>, description: Option<string>)

  /** `ConfigRon::default()`: neither field set. */
  const Default: Config := Config(None, None)

  /** The two configuration fields, so that one statement covers both. */
  datatype Field = Title | Description

  function Get(c: Config, f: Field): Option<string> {
    match f
    case Title => c.title
    case Description => c.description
  }

  /** The request that stores its argument in field `f`. */
  predicate Sets(cmd: Command, f: Field) {
    match f
    case Title => cmd.SetTitle?
    case Description => cmd.SetDesc?
  }

  /** The raw argument of a field-setting request. */
  function Argument(cmd: Command): string
    requires cmd.SetTitle? || cmd.SetDesc?
  {
    if cmd.SetTitle? then cmd.title else cmd.desc
  }

  /** The decoded text, or the raw text itself when decoding fails. */
  function DecodeOr(decode: string -> Option<string>, raw: string): string {
    match decode(raw)
    case Some(text) => text
    case None => raw
  }

  /** Why the loop stopped, if it did: `Closed` after `BYE`, `InputFailed`
      after a read error, `PickerFailed` after a failed picker run, and
      `Panicked` when the helper aborts on a slice fault or a `todo!()`. */
  datatype Status = Running | Closed | InputFailed | PickerFailed | Panicked(cause: Panic)

  datatype Panic = SliceOutOfRange | NotImplemented

  /** The outcome of one request. */
  datatype Transition = Transition(config: Config, emitted: seq<string>, next: Status)

  const Acknowledge: string := Encoder.Render(Encoder.Ok(None))

  /** Handles one request. `run` is how the picker run would end; it is
      consulted by `GETPIN` only. Every request that lets the loop go on is
      answered by a final `OK` (comments get no answer at all); a field
      changes only through its own setter or a reset; the loop stops only on
      `BYE`, a failed picker run, or the unimplemented `END`/`HELP`. */
  function Step(decode: string -> Option<string>, cfg: Config, cmd: Command, run: Picker.Run): (t: Transition)
    ensures |t.emitted| <= 2
    ensures t.config.title != cfg.title ==> cmd.Reset? || cmd.SetTitle?
    ensures t.config.description != cfg.description ==> cmd.Reset? || cmd.SetDesc?
    ensures t.next.Running? ==> (t.emitted == [] <==> cmd.Comment?)
    ensures t.next.Running? && t.emitted != [] ==> t.emitted[|t.emitted| - 1] == "OK"
    ensures !t.next.Running? ==> cmd.Bye? || cmd.End? || cmd.Help? || (cmd.GetPin? && !run.Answered?)
  {
    match cmd
    case Comment => Transition(cfg, [], Running)
    case Bye => Transition(cfg, [Encoder.Render(Encoder.Ok(Some("closing connection")))], Closed)
    case Reset => Transition(Default, [Acknowledge], Running)
    case End => Transition(cfg, [], Panicked(NotImplemented))
    case Help => Transition(cfg, [], Panicked(NotImplemented))
    case SetOption(_, _) => Transition(cfg, [Acknowledge], Running)
    case Nop => Transition(cfg, [Acknowledge], Running)
    case GetPin => (
      match Picker.Anyrun(run)
      case Success(secret) => Transition(cfg, [secret, Acknowledge], Running)
      case Failure(e) => Transition(cfg, [Encoder.Render(e)], PickerFailed))
    case SetDesc(d) => Transition(cfg.(description := Some(DecodeOr(decode, d))), [Acknowledge], Running)
    case SetTitle(t) => Transition(cfg.(title := Some(DecodeOr(decode, t))), [Acknowledge], Running)
    case SetPrompt(_) => Transition(cfg, [Acknowledge], Running)
    case Unknown(v) => Transition(cfg, [Encoder.Render(Encoder.Comment(Some(v))), Acknowledge], Running)
  }

  /** What a step leaves in each field: its setter stores the decoded
      argument (the raw argument when decoding fails), a reset clears it,
      and every other request keeps it. */
  lemma StepField(decode: string -> Option<string>, cfg: Config, cmd: Command, run: Picker.Run, f: Field)
    ensures Get(Step(decode, cfg, cmd, run).config, f)
         == if Sets(cmd, f) then Some(DecodeOr(decode, Argument(cmd)))
            else if cmd.Reset? then None
            else Get(cfg, f)
  {
  }

  /** `SETTITLE`/`SETDESC` store the decoded text, or the raw text when
      decoding fails, leave the other field alone and answer exactly `OK`. */
  lemma SetFieldAcknowledged(decode: string -> Option<string>, cfg: Config, raw: string, run: Picker.Run)
    ensures var t := Step(decode, cfg, SetTitle(raw), run);
      && t.config.title == Some(if decode(raw).Some? then decode(raw).value else raw)
      && t.config.description == cfg.description
      && t.emitted == ["OK"] && t.next == Running
    ensures var t := Step(decode, cfg, SetDesc(raw), run);
      && t.config.description == Some(if decode(raw).Some? then decode(raw).value else raw)
      && t.config.title == cfg.title
      && t.emitted == ["OK"] && t.next == Running
  {
  }

  /** `RESET` restores the default configuration whatever it was before, and
      answers `OK`. */
  lemma ResetRestoresDefault(decode: string -> Option<string>, cfg: Config, run: Picker.Run)
    ensures var t := Step(decode, cfg, Reset, run);
      t.config == Config(None, None) && t.emitted == ["OK"] && t.next == Running
  {
  }

  /** Options, `NOP` and `SETPROMPT` are acknowledged with `OK` and change
      nothing; a comment changes nothing and is not answered. */
  lemma InertRequests(decode: string -> Option<string>, cfg: Config, cmd: Command, run: Picker.Run)
    requires cmd.SetOption? || cmd.Nop? || cmd.SetPrompt? || cmd.Comment?
    ensures var t := Step(decode, cfg, cmd, run);
      && t.config == cfg && t.next == Running
      && t.emitted == if cmd.Comment? then [] else ["OK"]
  {
  }

  /** An unrecognised line is echoed back as a comment and then acknowledged;
      nothing else changes. */
  lemma UnknownEchoed(decode: string -> Option<string>, cfg: Config, line: string, run: Picker.Run)
    ensures var t := Step(decode, cfg, Unknown(line), run);
      t.config == cfg && t.emitted == ["# " + line, "OK"] && t.next == Running
  {
  }

  /** `BYE` answers `OK closing connection` and stops the loop. */
  lemma ByeCloses(decode: string -> Option<string>, cfg: Config, run: Picker.Run)
    ensures var t := Step(decode, cfg, Bye, run);
      t.config == cfg && t.emitted == ["OK closing connection"] && t.next == Closed
  {
    assert "OK " + "closing connection" == "OK closing connection";
  }

  /** `END` and `HELP` reach `todo!()`: the helper aborts without a reply. */
  lemma UnimplementedPanics(decode: string -> Option<string>, cfg: Config, run: Picker.Run)
    ensures Step(decode, cfg, End, run) == Transition(cfg, [], Panicked(NotImplemented))
    ensures Step(decode, cfg, Help, run) == Transition(cfg, [], Panicked(NotImplemented))
  {
  }

  /** `GETPIN` with a picker that prints a line: that line is written
      verbatim, with no `D ` prefix, then `OK`, and the loop goes on. */
  lemma GetPinAnswered(decode: string -> Option<string>, cfg: Config, secret: string)
    ensures var t := Step(decode, cfg, GetPin, Picker.Answered(secret));
      t.config == cfg && t.emitted == [secret, "OK"] && t.next == Running
  {
  }

  /** `GETPIN` with a silent picker: exactly the cancellation error, never a
      data line, and the loop stops. */
  lemma GetPinCancelled(decode: string -> Option<string>, cfg: Config)
    ensures var t := Step(decode, cfg, GetPin, Picker.Silent);
      && t.config == cfg
      && t.emitted == ["ERR 83886179 " + Picker.CancelledText]
      && t.next == PickerFailed
  {
    Picker.CancelledLine();
  }

  /** `GETPIN` with a picker run that failed at some stage: exactly one
      error line carrying the stage's reason, and the loop stops. */
  lemma GetPinStageFailed(decode: string -> Option<string>, cfg: Config, run: Picker.Run)
    requires !run.Answered? && !run.Silent?
    ensures var t := Step(decode, cfg, GetPin, run);
      t.config == cfg && t.emitted == ["ERR ERR " + run.reason] && t.next == PickerFailed
  {
    assert "ERR " + "ERR" + " " + run.reason == "ERR ERR " + run.reason;
  }
}
