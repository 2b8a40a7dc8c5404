/** The request side of the Assuan line protocol: the closed set of client
    requests the helper understands (`IpcIn`) and the classifier that maps
    one input line to one of them (`impl From<&str> for IpcIn`). */
module Parser {
  import opened Text

  /** One client request. Arguments are the raw text of the line: nothing
      is percent-decoded here. */
  datatype Command =
    | Comment
    | Bye
    | Reset
    | End
    | Help
    | SetOption(key: string, value: Option<string>)
    | Nop
    | GetPin
    | SetPrompt(prompt: string)
    | SetDesc(desc: string)
    | SetTitle(title: string)
    | Unknown(line: string)

  /** The verbs the classifier recognises, matched case-sensitively. */
  const Verbs: set<string> :=
    {"BYE", "RESET", "END", "HELP", "NOP", "GETPIN", "SETDESC", "SETTITLE", "SETPROMPT", "OPTION"}

  /** The classifier starts by slicing off the first byte of the line. That
      slice only exists when the line is non-empty and its first character
      is encoded in one UTF-8 byte (a code point below 0x80); on any other
      line the slice panics. */
  predicate Sliceable(line: string) {
    |line| > 0 && line[0] as int < 0x80
  }

  /** The verb is the text before the first space; the remainder is the
      text after it, or "" when the line has no space. */
  function SplitVerb(line: string): (r: (string, string))
    ensures ' ' !in r.0
    ensures ' ' in line ==> line == r.0 + " " + r.1
    ensures ' ' !in line ==> r == (line, "")
  {
    match SplitOnce(line, ' ')
    case Some(parts) => parts
    case None => (line, "")
  }

  /** Classifies one line. A leading `#` makes a comment; otherwise the verb
      selects the request (see `Classify`). */
  function Parse(line: string): (c: Command)
    requires Sliceable(line)
    ensures c.Comment? <==> line[0] == '#'
    ensures c.Unknown? <==> line[0] != '#' && SplitVerb(line).0 !in Verbs
    ensures c.Unknown? ==> c.line == line
  {
    if line[0] == '#' then Comment
    else Classify(SplitVerb(line), line)
  }

  /** The request a verb and remainder stand for: the argumentless verbs
      ignore the remainder, the text verbs carry it raw, `OPTION` splits it
      at its first `=`, and any other verb gives `Unknown` with the whole
      line. */
  function Classify(parts: (string, string), line: string): Command {
    var (verb, rest) := parts;
    if verb == "BYE" then Bye
    else if verb == "RESET" then Reset
    else if verb == "END" then End
    else if verb == "HELP" then Help
    else if verb == "NOP" then Nop
    else if verb == "GETPIN" then GetPin
    else if verb == "SETDESC" then SetDesc(rest)
    else if verb == "SETTITLE" then SetTitle(rest)
    else if verb == "SETPROMPT" then SetPrompt(rest)
    else if verb == "OPTION" then
      match SplitOnce(rest, '=')
      case Some((key, value)) => SetOption(key, Some(value))
      case None => SetOption(rest, None)
    else Unknown(line)
  }

  /** A line that carries a verb not starting with `#` is not a comment. */
  lemma NotComment(line: string, verb: string)
    requires Sliceable(line) && |verb| > 0 && verb[0] != '#'
    requires HasVerb(line, verb)
    ensures Parse(line) == Classify(SplitVerb(line), line)
  {
    if line != verb {
      assert line[0] == (verb + " ")[0];
    }
  }

  /** A line carries `verb` when it is exactly the verb, or the verb
      followed by a space and anything at all. */
  predicate HasVerb(line: string, verb: string) {
    line == verb || verb + " " <= line
  }

  /** The verb `SplitVerb` finds is `verb` exactly when the line carries
      `verb` in the sense of `HasVerb`; the bare verb leaves no remainder. */
  lemma SplitVerbIs(line: string, verb: string)
    requires ' ' !in verb
    ensures SplitVerb(line).0 == verb <==> HasVerb(line, verb)
    ensures line == verb ==> SplitVerb(line).1 == ""
  {
    if verb + " " <= line {
      assert line == verb + " " + line[|verb| + 1..];
      SplitVerbOfJoin(verb, line[|verb| + 1..]);
    }
  }

  /** Joining a space-free verb and any remainder with one space splits
      back into the same two parts. */
  lemma SplitVerbOfJoin(verb: string, rest: string)
    requires ' ' !in verb
    ensures SplitVerb(verb + " " + rest) == (verb, rest)
  {
    SplitOnceOfJoin(verb, ' ', rest);
  }

  /** The argumentless requests are recognised exactly on lines that carry
      their verb, whatever follows it. */
  lemma ParseBareVerb(line: string)
    requires Sliceable(line)
    ensures Parse(line) == Bye <==> HasVerb(line, "BYE")
    ensures Parse(line) == Reset <==> HasVerb(line, "RESET")
    ensures Parse(line) == End <==> HasVerb(line, "END")
    ensures Parse(line) == Help <==> HasVerb(line, "HELP")
    ensures Parse(line) == Nop <==> HasVerb(line, "NOP")
    ensures Parse(line) == GetPin <==> HasVerb(line, "GETPIN")
  {
    var parts := SplitVerb(line);
    ClassifyBare(parts, line);
    BareVerb(line, "BYE");
    BareVerb(line, "RESET");
    BareVerb(line, "END");
    BareVerb(line, "HELP");
    BareVerb(line, "NOP");
    BareVerb(line, "GETPIN");
  }

  /** Which verbs give the argumentless requests. */
  lemma ClassifyBare(parts: (string, string), line: string)
    ensures Classify(parts, line) == Bye <==> parts.0 == "BYE"
    ensures Classify(parts, line) == Reset <==> parts.0 == "RESET"
    ensures Classify(parts, line) == End <==> parts.0 == "END"
    ensures Classify(parts, line) == Help <==> parts.0 == "HELP"
    ensures Classify(parts, line) == Nop <==> parts.0 == "NOP"
    ensures Classify(parts, line) == GetPin <==> parts.0 == "GETPIN"
  {
  }

  /** A keyword verb is found exactly on the lines that carry it, and such a
      line is classified by its verb. */
  lemma BareVerb(line: string, verb: string)
    requires Sliceable(line) && ' ' !in verb && |verb| > 0 && verb[0] != '#'
    ensures SplitVerb(line).0 == verb <==> HasVerb(line, verb)
    ensures HasVerb(line, verb) ==> Parse(line) == Classify(SplitVerb(line), line)
  {
    SplitVerbIs(line, verb);
    if HasVerb(line, verb) {
      NotComment(line, verb);
    }
  }

  /** `verb` followed by the argument `arg`, or the bare verb when `arg` is
      empty. */
  predicate CarriesArg(line: string, verb: string, arg: string) {
    line == verb + " " + arg || (line == verb && arg == "")
  }

  /** The text requests are recognised exactly on lines that carry their
      verb, and carry everything after the first space verbatim. */
  lemma ParseTextVerb(line: string, arg: string)
    requires Sliceable(line)
    ensures Parse(line) == SetDesc(arg) <==> CarriesArg(line, "SETDESC", arg)
    ensures Parse(line) == SetTitle(arg) <==> CarriesArg(line, "SETTITLE", arg)
    ensures Parse(line) == SetPrompt(arg) <==> CarriesArg(line, "SETPROMPT", arg)
  {
    ClassifyText(SplitVerb(line), line, arg);
    TextVerb(line, "SETDESC", arg);
    TextVerb(line, "SETTITLE", arg);
    TextVerb(line, "SETPROMPT", arg);
  }

  /** Which verbs give the text requests, and with which argument. */
  lemma ClassifyText(parts: (string, string), line: string, arg: string)
    ensures Classify(parts, line) == SetDesc(arg) <==> parts == ("SETDESC", arg)
    ensures Classify(parts, line) == SetTitle(arg) <==> parts == ("SETTITLE", arg)
    ensures Classify(parts, line) == SetPrompt(arg) <==> parts == ("SETPROMPT", arg)
  {
  }

  /** A keyword verb and an argument are found exactly on the lines that
      carry them, and such a line is classified by its verb. */
  lemma TextVerb(line: string, verb: string, arg: string)
    requires Sliceable(line) && ' ' !in verb && |verb| > 0 && verb[0] != '#'
    ensures SplitVerb(line) == (verb, arg) <==> CarriesArg(line, verb, arg)
    ensures CarriesArg(line, verb, arg) ==> Parse(line) == Classify(SplitVerb(line), line)
  {
    SplitVerbCarries(line, verb, arg);
    if CarriesArg(line, verb, arg) {
      assert HasVerb(line, verb) by {
        if line != verb {
          assert line == verb + " " + arg;
          assert verb + " " <= line;
        }
      }
      NotComment(line, verb);
    }
  }

  /** The line splits into `verb` and `arg` exactly when it carries `arg`
      after `verb`. */
  lemma SplitVerbCarries(line: string, verb: string, arg: string)
    requires ' ' !in verb
    ensures SplitVerb(line) == (verb, arg) <==> CarriesArg(line, verb, arg)
  {
    if ' ' in line {
      SplitVerbOfJoin(SplitVerb(line).0, arg);
    }
    SplitVerbIs(line, verb);
  }

  /** How `OPTION` splits its remainder. */
  lemma ClassifyOption(parts: (string, string), line: string, key: string, value: Option<string>)
    ensures Classify(parts, line) == SetOption(key, value)
        <==> parts.0 == "OPTION"
             && match value
                case Some(v) => SplitOnce(parts.1, '=') == Some((key, v))
                case None => '=' !in parts.1 && parts.1 == key
  {
  }

  /** `OPTION key=value` splits at the first `=`: the key is everything up
      to it and can never contain `=`, the value everything after it. */
  lemma ParseOptionWithValue(line: string, key: string, value: string)
    requires Sliceable(line)
    ensures Parse(line) == SetOption(key, Some(value))
        <==> '=' !in key && CarriesArg(line, "OPTION", key + "=" + value)
  {
    var (verb, rest) := SplitVerb(line);
    ClassifyOption((verb, rest), line, key, Some(value));
    TextVerb(line, "OPTION", rest);
    TextVerb(line, "OPTION", key + "=" + value);
    if '=' !in key && rest == key + "=" + value {
      SplitOnceOfJoin(key, '=', value);
    }
  }

  /** `OPTION key` without any `=` carries the whole remainder as the key
      and no value. */
  lemma ParseOptionWithoutValue(line: string, key: string)
    requires Sliceable(line)
    ensures Parse(line) == SetOption(key, None)
        <==> '=' !in key && CarriesArg(line, "OPTION", key)
  {
    var (verb, rest) := SplitVerb(line);
    ClassifyOption((verb, rest), line, key, None);
    TextVerb(line, "OPTION", rest);
    TextVerb(line, "OPTION", key);
  }
}
