# pinentry-anyrun protocol engine, modelled in Dafny

pinentry-anyrun is a pinentry helper. GnuPG's agent talks to it over stdin
and stdout in the Assuan line protocol. When asked for a PIN, it runs the
`anyrun` picker and relays the line the picker prints. This project models
the helper's protocol engine in `src/main.rs`:

- `Parser` (parser.dfy) holds the client requests (`IpcIn`). `Parse` is the
  line classifier (`impl From<&str> for IpcIn`).
- `Encoder` (encoder.dfy) holds the replies (`IpcOut`). `Render` produces
  their exact wire text (`impl fmt::Display for IpcOut`). `ReadResponse` is
  how a client reads such a line back.
- `Picker` (picker.dfy) models `anyrun`. A picker run is given as the stage
  at which it ended. `Anyrun` maps that outcome to the secret or to the
  error reply.
- `Dispatch` (dispatch.dfy) holds the configuration (`ConfigRon`) and
  `Step`, one pass of the body of `main`'s loop.
- `Session` (session.dfy) models `main` as a whole. `Run` is a fold over the
  input lines that starts with the greeting.
- `Text` (text.dfy) holds `Option`, `Result` and Rust's `str::split_once`.

Two things come from the environment and are parameters. Percent-decoding
is `decode: string -> Option<string>`, with the code's fallback to the raw
text. The picker is `picker(config, n)`: it is asked with the current
configuration and the number of earlier runs, because each `GETPIN`
starts a fresh process.

The model follows the code wherever the code differs from the protocol
design it was written against:

- An unrecognised line is answered with `# <line>` and then `OK`, not with
  an `ERR`.
- `BYE` is answered with `OK closing connection`.
- `END` and `HELP` reach `todo!()`. The helper aborts with no reply
  (`Status.Panicked(NotImplemented)`).
- The classifier starts with `&command[..1]`. On an empty line that slice
  panics. It also panics on a line whose first character takes more than
  one UTF-8 byte, because byte 1 is then not a character boundary. Both
  cases abort the helper (`Panicked(SliceOutOfRange)`); neither is treated
  as a comment.
- The cosmetic `SET*` requests (`SETOK`, `SETCANCEL`, `SETERROR`, …) and
  `CONFIRM`/`MESSAGE` have no case in the code. They classify as `Unknown`
  and are echoed and acknowledged.
- Every failed picker stage is reported with the literal identifier `ERR`,
  so the line reads `ERR ERR <reason>`. Only a silent picker yields the
  cancellation code `83886179`.
- The exit status of the picker process is not checked; only a failure to
  wait for it is.

## Model

| member | source | states |
|---|---|---|
| Text.SplitOnce | src/main.rs:79 | `split_once` splits at the first occurrence of the separator. The result is `None` exactly when the separator is absent. Otherwise the line is the part before it, the separator, then the rest, and the first part is free of the separator. |
| Text.SplitOnceOfJoin | src/main.rs:79 | Splitting undoes joining when the left part does not contain the separator. |
| Parser.SplitVerb | src/main.rs:79 | The verb is the text before the first space and holds no space. The remainder is the text after that space, or `""` when the line has no space. |
| Parser.Parse | src/main.rs:75-100 | The classifier is defined on every line it can slice. The result is a comment exactly when the first character is `#`. It is `Unknown` exactly when the line is not a comment and its verb is none of the ten keywords. `Unknown` carries the whole original line. |
| Parser.SplitVerbIs | src/main.rs:79 | The verb found is `v` exactly when the line is `v` alone or starts with `v` and a space. A bare verb has an empty remainder. |
| Parser.SplitVerbOfJoin | src/main.rs:79 | A space-free verb, one space and any remainder split back into the same verb and remainder. |
| Parser.ParseBareVerb | src/main.rs:80-86 | `BYE`, `RESET`, `END`, `HELP`, `NOP` and `GETPIN` are recognised exactly on lines that are the verb or start with the verb and a space. Verbs match case-sensitively and the remainder is ignored. |
| Parser.ParseTextVerb | src/main.rs:87-89 | `SETDESC`, `SETTITLE` and `SETPROMPT` carry `a` exactly when the line is the verb, a space, then `a`, or the bare verb with `a` empty. The argument is kept raw, with no decoding. |
| Parser.ParseOptionWithValue | src/main.rs:91-92 | `OPTION` yields `(k, Some(v))` exactly when the remainder is `k=v` and `k` holds no `=`, so the split is at the first `=`. |
| Parser.ParseOptionWithoutValue | src/main.rs:91-94 | `OPTION` yields `(k, None)` exactly when the remainder is `k` and it holds no `=`. |
| Encoder.Render | src/main.rs:52-73 | Every reply renders to one line, with no line break, whenever its fields contain none. |
| Encoder.ReadRender | src/main.rs:52-73 | Every reply whose error id has no space and whose option name has no `=` is read back from its wire text as itself. So `OK`/`OK a`, `ERR id desc`, `OPTION k`/`OPTION k=v`, `D a`, `END`, `#`/`# a` and `BYE`/`BYE v` are each distinct and exact. |
| Encoder.ReadRenderErr | src/main.rs:58 | `ERR id desc` splits back into the id and the description. |
| Encoder.ReadRenderOption | src/main.rs:60-61 | `OPTION k` and `OPTION k=v` split back into the name and the optional value. |
| Encoder.RenderRead | src/main.rs:52-73 | Conversely, every line a client reads as a reply is exactly that reply's rendering. |
| Encoder.ErrIdWithSpaceIsAmbiguous | src/main.rs:58 | An error id that contains a space makes the wire text ambiguous, so the read-back side condition is needed. |
| Picker.Anyrun | src/main.rs:209-248 | A run succeeds exactly when the picker printed a line, and the secret is that line verbatim. Every failure is an `ERR` reply whose id holds no space. The id is the cancellation code exactly when the picker printed nothing. A failed stage reports its own error text. |
| Picker.CancelledLine | src/main.rs:244-247 | A silent picker produces the wire text `ERR 83886179 Operation cancelled <pinentry-anyrun>`. |
| Dispatch.Step | src/main.rs:119-205 | At most two lines are written per request. A field changes only through its own setter or `RESET`. A request that continues the loop is answered by a final `OK`, and only comments get no answer. The loop stops only on `BYE`, a failed picker run, or `END`/`HELP`. |
| Dispatch.StepField | src/main.rs:160-184 | After a step, each field holds one of three values. After its setter it holds the decoded argument, or the raw argument when decoding fails. After `RESET` it is `None`. After any other request it is unchanged. |
| Dispatch.SetFieldAcknowledged | src/main.rs:160-184 | `SETTITLE`/`SETDESC` store the decoded text, or the raw text when decoding fails. The other field is left alone, the answer is exactly `OK`, and the loop continues. |
| Dispatch.ResetRestoresDefault | src/main.rs:128-131 | `RESET` gives the default configuration whatever it was before, and answers `OK`. |
| Dispatch.InertRequests | src/main.rs:141-147 | `OPTION`, `NOP` and `SETPROMPT` answer `OK`, and a comment answers nothing. None of them changes the configuration or stops the loop. The `SETPROMPT` and comment cases are lines 186-188 and 121. |
| Dispatch.UnknownEchoed | src/main.rs:190-192 | An unknown line yields exactly `# <line>` then `OK`. The configuration is unchanged and the loop continues. |
| Dispatch.ByeCloses | src/main.rs:123-126 | `BYE` writes exactly `OK closing connection` and stops. |
| Dispatch.UnimplementedPanics | src/main.rs:133-139 | `END` and `HELP` abort without a reply. |
| Dispatch.GetPinAnswered | src/main.rs:149-153 | When the picker prints a line, that line is written verbatim with no `D ` prefix. `OK` follows and the loop continues. |
| Dispatch.GetPinCancelled | src/main.rs:154-157 | When the picker prints nothing, exactly one line is written: the cancellation error. It is never a data line, and the loop stops. |
| Dispatch.GetPinStageFailed | src/main.rs:154-157 | When a picker stage fails, exactly one `ERR ERR <reason>` line is written and the loop stops. |
| Session.Advance | src/main.rs:110-119 | A stopped loop ignores further input. Output is only ever appended. Each turn makes at most one picker run. |
| Session.Run | src/main.rs:109-110 | The first line written is always `OK Pleased to meet you`, whatever the input. |
| Session.StoppedIsFinal | src/main.rs:110-126 | Once the loop has stopped, no later input changes anything. |
| Session.OutputGrowsByPrefix | src/main.rs:106-110 | What has been written after a prefix of the input is a prefix of what is written after all of it. |
| Session.ByeEndsSession | src/main.rs:123-126 | `BYE` appends `OK closing connection`, and no later line is processed, however many are pending. |
| Session.ReadErrorEndsSession | src/main.rs:111-116 | A read error appends `ERR 536871187 <message>`, stops the loop, and nothing after it is processed. |
| Session.UnsliceableLineAborts | src/main.rs:77 | An empty line, or one starting with a multi-byte character, aborts the helper without writing anything. |
| Session.PickerSeesCurrentConfig | src/main.rs:149-158 | `GETPIN` asks the picker with the configuration the earlier lines built. Its output is the verbatim line plus `OK`, or the single error line. |
| Session.FieldIsLatest | src/main.rs:160-184 | While the loop runs, a field holds the decoded argument of the last line that set it. This holds as long as no reset or other setter of that field came after. |
| Session.FieldUnsetSinceReset | src/main.rs:128-131 | While the loop runs, a field is `None` when no line has set it since the last `RESET` or since the start. |
| Session.ResetForgetsHistory | src/main.rs:128-131 | After any history, a `RESET` line gives the default configuration, appends `OK`, and the loop continues. |
| Session.UnknownLineEchoed | src/main.rs:190-192 | An unknown line appends `# <line>` and `OK`. The configuration is unchanged and the loop continues. |

## Left out

- Process spawning, piping, waiting and reading in `anyrun` (src/main.rs:209-248). These are subprocess I/O. The model is given how the run ended and keeps only the mapping from that outcome to the reply.
- Serializing the configuration with `ron::to_string` is a foreign serializer. Its failure is kept only as the `ConfigRejected` outcome.
- `percent_decode_str` and `decode_utf8` are an external library. They are the `decode` parameter, and both of their failures become `None`, which selects the raw text.
- The async plumbing (`BufReader::lines`, `writeln!`, `.await`) is I/O. Input is a sequence of framed lines or read errors, and output is a sequence of lines. Write failures are ignored by the code (`let _ =`), so they are not modelled.
- The model does not say whether lines written before a panic reach the peer; that depends on stdout buffering.
- The `IpcOut::End`, `IpcOut::Option` and `IpcOut::Bye` replies are never written by the code. They are modelled in `Render` only.
