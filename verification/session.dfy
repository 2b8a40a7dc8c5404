/** The helper's whole command loop (`main`): the greeting, then one step
    per input line until the loop stops or the input ends. Input arrives as
    a sequence of framed lines, each either a line of text or a read error;
    output is the sequence of lines written. Percent-decoding and the picker
    are the environment's: the picker is asked, per `GETPIN`, with the
    configuration at that point and the number of earlier picker runs. */
module Session {
  import opened Text
  import opened Parser
  import opened Dispatch
  import Encoder
  import Picker

  /** One item the line reader yields. */
  datatype Input = Line(text: string) | ReadError(message: string)

  /** What the loop depends on but does not compute. */
  datatype Env = Env(decode: string -> Option<string>, picker: (Config, nat) -> Picker.Run)

  /** The loop's state: the configuration, everything written so far,
      whether the loop still runs, and how many picker runs there were. */
  datatype State = State(config: Config, out: seq<string>, status: Status, runs: nat)

  /** The identifier written with a read error. */
  const ReadErrorId: string := "536871187"

  /** Before reading anything: the default configuration and the greeting. */
  function Start(): State {
    State(Default, [Encoder.Render(Encoder.Ok(Some("Pleased to meet you")))], Running, 0)
  }

  /** One turn of the loop. A stopped loop reads nothing more. A read error
      is reported and stops the loop; a line the classifier cannot slice
      aborts it; any other line is classified and handled by `Step`. */
  function Advance(env: Env, st: State, input: Input): (st': State)
    ensures !st.status.Running? ==> st' == st
    ensures st.out <= st'.out
    ensures st'.runs == st.runs || st'.runs == st.runs + 1
  {
    if !st.status.Running? then st
    else match input
      case ReadError(message) =>
        st.(out := st.out + [Encoder.Render(Encoder.Err(ReadErrorId, message))], status := InputFailed)
      case Line(text) =>
        if !Sliceable(text) then st.(status := Panicked(SliceOutOfRange))
        else
          var cmd := Parse(text);
          var t := Step(env.decode, st.config, cmd, env.picker(st.config, st.runs));
          State(t.config, st.out + t.emitted, t.next, if cmd.GetPin? then st.runs + 1 else st.runs)
  }

  /** The state after the loop has been offered `inputs` in order. The
      greeting is always the first line written. */
  function Run(env: Env, inputs: seq<Input>): (st: State)
    ensures |st.out| > 0 && st.out[0] == "OK Pleased to meet you"
    decreases |inputs|
  {
    if |inputs| == 0 then Start()
    else Advance(env, Run(env, inputs[..|inputs| - 1]), inputs[|inputs| - 1])
  }

  /** Shorthand: `input` is a line that classifies as `cmd`. */
  predicate Carries(input: Input, cmd: Command) {
    input.Line? && Sliceable(input.text) && Parse(input.text) == cmd
  }

  /** `input` is a line that sets field `f`, with raw argument `raw`. */
  predicate SetsWith(input: Input, f: Field, raw: string) {
    match f
    case Title => Carries(input, SetTitle(raw))
    case Description => Carries(input, SetDesc(raw))
  }

  /** `input` is a line that sets field `f` to anything. */
  predicate SetsAny(input: Input, f: Field) {
    input.Line? && Sliceable(input.text) && Sets(Parse(input.text), f)
  }

  /** A stopped loop stays stopped and processes nothing more: no later
      input changes the state. */
  lemma {:induction false} StoppedIsFinal(env: Env, inputs: seq<Input>, later: seq<Input>)
    requires !Run(env, inputs).status.Running?
    ensures Run(env, inputs + later) == Run(env, inputs)
    decreases |later|
  {
    if |later| > 0 {
      var all := inputs + later;
      assert all[..|all| - 1] == inputs + later[..|later| - 1];
      StoppedIsFinal(env, inputs, later[..|later| - 1]);
    } else {
      assert inputs + later == inputs;
    }
  }

  /** A loop still running after `inputs` was running after every prefix. */
  lemma {:induction false} RunningBefore(env: Env, inputs: seq<Input>, k: nat)
    requires k <= |inputs|
    requires Run(env, inputs).status.Running?
    ensures Run(env, inputs[..k]).status.Running?
  {
    assert inputs[..k] + inputs[k..] == inputs;
    if !Run(env, inputs[..k]).status.Running? {
      StoppedIsFinal(env, inputs[..k], inputs[k..]);
    }
  }

  /** Output is written as the loop goes: what has been written after a
      prefix of the input is a prefix of what is written after all of it. */
  lemma {:induction false} OutputGrowsByPrefix(env: Env, inputs: seq<Input>, k: nat)
    requires k <= |inputs|
    ensures Run(env, inputs[..k]).out <= Run(env, inputs).out
    decreases |inputs| - k
  {
    if k < |inputs| {
      var front := inputs[..|inputs| - 1];
      assert inputs[..k] == front[..k];
      OutputGrowsByPrefix(env, front, k);
    } else {
      assert inputs[..k] == inputs;
    }
  }

  /** `BYE` answers `OK closing connection`, and no input after it is
      processed, however much is pending. */
  lemma ByeEndsSession(env: Env, before: seq<Input>, after: seq<Input>, line: string)
    requires Run(env, before).status.Running?
    requires Carries(Line(line), Bye)
    ensures Run(env, before + [Line(line)]).out == Run(env, before).out + ["OK closing connection"]
    ensures Run(env, before + [Line(line)] + after) == Run(env, before + [Line(line)])
  {
    var upTo := before + [Line(line)];
    assert upTo[..|upTo| - 1] == before;
    ByeCloses(env.decode, Run(env, before).config, env.picker(Run(env, before).config, Run(env, before).runs));
    StoppedIsFinal(env, upTo, after);
  }

  /** A read error is reported as `ERR 536871187 <message>` and stops the
      loop; nothing after it is processed. */
  lemma ReadErrorEndsSession(env: Env, before: seq<Input>, after: seq<Input>, message: string)
    requires Run(env, before).status.Running?
    ensures Run(env, before + [ReadError(message)]).out == Run(env, before).out + ["ERR 536871187 " + message]
    ensures Run(env, before + [ReadError(message)]).status == InputFailed
    ensures Run(env, before + [ReadError(message)] + after) == Run(env, before + [ReadError(message)])
  {
    var upTo := before + [ReadError(message)];
    assert upTo[..|upTo| - 1] == before;
    assert "ERR " + "536871187" + " " + message == "ERR 536871187 " + message;
    StoppedIsFinal(env, upTo, after);
  }

  /** A line the classifier cannot slice (empty, or starting with a
      character longer than one UTF-8 byte) aborts the helper without a
      reply. */
  lemma UnsliceableLineAborts(env: Env, before: seq<Input>, line: string)
    requires Run(env, before).status.Running?
    requires !Sliceable(line)
    ensures Run(env, before + [Line(line)]).out == Run(env, before).out
    ensures Run(env, before + [Line(line)]).status == Panicked(SliceOutOfRange)
  {
    var upTo := before + [Line(line)];
    assert upTo[..|upTo| - 1] == before;
  }

  /** The picker is asked with the configuration the preceding lines built:
      a `GETPIN` line's output is what `Step` makes of that run. */
  lemma PickerSeesCurrentConfig(env: Env, before: seq<Input>, line: string)
    requires Run(env, before).status.Running?
    requires Carries(Line(line), GetPin)
    ensures var st := Run(env, before);
      var run := env.picker(st.config, st.runs);
      && Run(env, before + [Line(line)]).out
         == st.out + (if run.Answered? then [run.line, "OK"] else [Encoder.Render(Picker.Anyrun(run).error)])
      && Run(env, before + [Line(line)]).runs == st.runs + 1
  {
    var upTo := before + [Line(line)];
    assert upTo[..|upTo| - 1] == before;
  }

  /** While the loop runs, a field holds the decoded argument of the latest
      line that set it, provided no reset or other setter of that field came
      after that line. */
  lemma {:induction false} FieldIsLatest(env: Env, inputs: seq<Input>, f: Field, i: nat, raw: string)
    requires i < |inputs| && SetsWith(inputs[i], f, raw)
    requires forall j :: i < j < |inputs| ==> !SetsAny(inputs[j], f) && !Carries(inputs[j], Reset)
    ensures Run(env, inputs).status.Running? ==> Get(Run(env, inputs).config, f) == Some(DecodeOr(env.decode, raw))
    decreases |inputs|
  {
    if Run(env, inputs).status.Running? {
      var front := inputs[..|inputs| - 1];
      RunningBefore(env, inputs, |inputs| - 1);
      var st := Run(env, front);
      var last := inputs[|inputs| - 1];
      assert last.Line? && Sliceable(last.text);
      var cmd := Parse(last.text);
      assert Run(env, inputs) == Advance(env, st, last);
      StepField(env.decode, st.config, cmd, env.picker(st.config, st.runs), f);
      if i < |inputs| - 1 {
        assert front[i] == inputs[i];
        assert forall j :: i < j < |front| ==> front[j] == inputs[j];
        FieldIsLatest(env, front, f, i, raw);
      }
    }
  }

  /** While the loop runs, a field is unset when no line set it since the
      last reset (or since the start). */
  lemma {:induction false} FieldUnsetSinceReset(env: Env, inputs: seq<Input>, f: Field, k: nat)
    requires Run(env, inputs).status.Running?
    requires k <= |inputs| && (k == 0 || Carries(inputs[k - 1], Reset))
    requires forall j :: k <= j < |inputs| ==> !SetsAny(inputs[j], f)
    ensures Get(Run(env, inputs).config, f) == None
    decreases |inputs|
  {
    if |inputs| > 0 {
      var front := inputs[..|inputs| - 1];
      RunningBefore(env, inputs, |inputs| - 1);
      var st := Run(env, front);
      var last := inputs[|inputs| - 1];
      assert last.Line? && Sliceable(last.text);
      var cmd := Parse(last.text);
      StepField(env.decode, st.config, cmd, env.picker(st.config, st.runs), f);
      if k < |inputs| {
        FieldUnsetSinceReset(env, front, f, k);
      }
    }
  }

  /** `RESET` restores the default configuration whatever came before. */
  lemma ResetForgetsHistory(env: Env, before: seq<Input>, line: string)
    requires Run(env, before).status.Running?
    requires Carries(Line(line), Reset)
    ensures Run(env, before + [Line(line)]).config == Config(None, None)
    ensures Run(env, before + [Line(line)]).out == Run(env, before).out + ["OK"]
    ensures Run(env, before + [Line(line)]).status == Running
  {
    var upTo := before + [Line(line)];
    assert upTo[..|upTo| - 1] == before;
  }

  /** An unrecognised line is echoed as `# <line>` and acknowledged with
      `OK`; the configuration is unchanged and the loop goes on. */
  lemma UnknownLineEchoed(env: Env, before: seq<Input>, line: string)
    requires Run(env, before).status.Running?
    requires Carries(Line(line), Unknown(line))
    ensures Run(env, before + [Line(line)]).config == Run(env, before).config
    ensures Run(env, before + [Line(line)]).out == Run(env, before).out + ["# " + line, "OK"]
    ensures Run(env, before + [Line(line)]).status == Running
  {
    var upTo := before + [Line(line)];
    assert upTo[..|upTo| - 1] == before;
  }
}
