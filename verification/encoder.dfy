/** The response side of the Assuan line protocol: the helper's replies
    (`IpcOut`) and their exact wire text (`impl fmt::Display for IpcOut`).
    `ReadResponse` is the reading a client does of such a line; it is the
    partner that shows the rendering loses nothing. */
module Encoder {
  import opened Text

  /** One reply line. `Err` carries the numeric error identifier as text,
      exactly as the helper writes it. */
  datatype Response =
    | Comment(note: Option<string>)
    | Bye(farewell: Option<string>)
    | Ok(info: Option<string>)
    | Err(id: string, desc: string)
    | D(data: string)
    | End
    | OptionEcho(name: string, setting: Option<string>)

  /** No field of the response holds a line break. */
  predicate NoLineBreak(r: Response) {
    match r
    case Comment(a) => a.None? || '\n' !in a.value
    case Bye(a) => a.None? || '\n' !in a.value
    case Ok(a) => a.None? || '\n' !in a.value
    case Err(id, desc) => '\n' !in id && '\n' !in desc
    case D(a) => '\n' !in a
    case End => true
    case OptionEcho(n, v) => '\n' !in n && (v.None? || '\n' !in v.value)
  }

  /** The wire text of one response; it is a single line whenever its
      fields are. */
  function Render(r: Response): (line: string)
    ensures NoLineBreak(r) ==> '\n' !in line
  {
    match r
    case Ok(None) => "OK"
    case Ok(Some(a)) => "OK " + a
    case Err(id, desc) => "ERR " + id + " " + desc
    case OptionEcho(n, None) => "OPTION " + n
    case OptionEcho(n, Some(v)) => "OPTION " + n + "=" + v
    case D(a) => "D " + a
    case End => "END"
    case Comment(None) => "#"
    case Comment(Some(a)) => "# " + a
    case Bye(None) => "BYE"
    case Bye(Some(a)) => "BYE " + a
  }

  /** The responses whose rendering can be read back unambiguously: an
      error identifier without spaces and an option name without `=`. */
  predicate Unambiguous(r: Response) {
    match r
    case Err(id, _) => ' ' !in id
    case OptionEcho(n, _) => '=' !in n
    case _ => true
  }

  /** How a client reads one reply line: the keyword before the first space
      picks the response, an `ERR` splits its identifier off at the next
      space, an `OPTION` splits its name off at the first `=`. */
  function ReadResponse(line: string): Option<Response> {
    match SplitOnce(line, ' ')
    case None => ReadBare(line)
    case Some((keyword, rest)) => ReadTagged(keyword, rest)
  }

  /** A reply line without any space is one of the argumentless responses. */
  function ReadBare(line: string): Option<Response> {
    if line == "OK" then Some(Ok(None))
    else if line == "#" then Some(Comment(None))
    else if line == "BYE" then Some(Bye(None))
    else if line == "END" then Some(End)
    else None
  }

  /** A reply line with a keyword and the text after its first space. */
  function ReadTagged(keyword: string, rest: string): Option<Response> {
    if keyword == "OK" then Some(Ok(Some(rest)))
    else if keyword == "#" then Some(Comment(Some(rest)))
    else if keyword == "BYE" then Some(Bye(Some(rest)))
    else if keyword == "D" then Some(D(rest))
    else if keyword == "ERR" then
      match SplitOnce(rest, ' ')
      case Some((id, desc)) => Some(Err(id, desc))
      case None => None
    else if keyword == "OPTION" then
      match SplitOnce(rest, '=')
      case Some((n, v)) => Some(OptionEcho(n, Some(v)))
      case None => Some(OptionEcho(rest, None))
    else None
  }

  /** Every unambiguous response is read back from its wire text as itself. */
  lemma ReadRender(r: Response)
    requires Unambiguous(r)
    ensures ReadResponse(Render(r)) == Some(r)
  {
    match r
    case Ok(None) =>
    case Comment(None) =>
    case Bye(None) =>
    case End =>
    case Ok(Some(a)) => ReadTaggedRender("OK", a, r);
    case Comment(Some(a)) => ReadTaggedRender("#", a, r);
    case Bye(Some(a)) => ReadTaggedRender("BYE", a, r);
    case D(a) => ReadTaggedRender("D", a, r);
    case Err(id, desc) => ReadRenderErr(id, desc);
    case OptionEcho(n, v) => ReadRenderOption(n, v);
  }

  /** The error line splits back into its space-free identifier and its
      description. */
  lemma ReadRenderErr(id: string, desc: string)
    requires ' ' !in id
    ensures ReadResponse(Render(Err(id, desc))) == Some(Err(id, desc))
  {
    SplitOnceOfJoin(id, ' ', desc);
    assert Render(Err(id, desc)) == "ERR" + " " + (id + " " + desc);
    ReadTaggedRender("ERR", id + " " + desc, Err(id, desc));
  }

  /** The option line splits back into its `=`-free name and its setting. */
  lemma ReadRenderOption(n: string, v: Option<string>)
    requires '=' !in n
    ensures ReadResponse(Render(OptionEcho(n, v))) == Some(OptionEcho(n, v))
  {
    if v.Some? {
      ReadRenderOptionSetting(n, v.value);
    } else {
      assert Render(OptionEcho(n, v)) == "OPTION" + " " + n;
      ReadTaggedRender("OPTION", n, OptionEcho(n, v));
    }
  }

  /** The `OPTION name=value` line: the first `=` is the one after the name. */
  lemma ReadRenderOptionSetting(n: string, value: string)
    requires '=' !in n
    ensures ReadResponse(Render(OptionEcho(n, Some(value)))) == Some(OptionEcho(n, Some(value)))
  {
    SplitOnceOfJoin(n, '=', value);
    assert Render(OptionEcho(n, Some(value))) == "OPTION" + " " + (n + "=" + value);
    ReadTaggedRender("OPTION", n + "=" + value, OptionEcho(n, Some(value)));
  }

  /** A line made of a space-free keyword, one space and a remainder is read
      through `ReadTagged` on exactly those two parts. */
  lemma ReadTaggedRender(keyword: string, rest: string, r: Response)
    requires ' ' !in keyword
    requires Render(r) == keyword + " " + rest
    requires ReadTagged(keyword, rest) == Some(r)
    ensures ReadResponse(Render(r)) == Some(r)
  {
    SplitOnceOfJoin(keyword, ' ', rest);
  }

  /** Conversely, every line a client reads as a response is exactly that
      response's wire text, and the response is unambiguous. */
  lemma RenderRead(line: string, r: Response)
    requires ReadResponse(line) == Some(r)
    ensures Unambiguous(r) && Render(r) == line
  {
    match SplitOnce(line, ' ')
    case None =>
      assert ReadBare(line) == Some(r);
    case Some((keyword, rest)) =>
      RenderReadTagged(keyword, rest, r);
  }

  /** A keyword and remainder read as `r` are `r`'s wire text, split at its
      first space. */
  lemma RenderReadTagged(keyword: string, rest: string, r: Response)
    requires ReadTagged(keyword, rest) == Some(r)
    ensures Unambiguous(r) && Render(r) == keyword + " " + rest
  {
    if keyword == "ERR" {
      var (id, desc) := SplitOnce(rest, ' ').value;
      assert r == Err(id, desc);
      assert "ERR " + id + " " + desc == "ERR" + " " + (id + " " + desc);
    } else if keyword == "OPTION" {
      if '=' in rest {
        var (n, v) := SplitOnce(rest, '=').value;
        assert r == OptionEcho(n, Some(v));
        assert "OPTION " + n + "=" + v == "OPTION" + " " + (n + "=" + v);
      }
    }
  }

  /** Without the side condition the wire text is ambiguous: an identifier
      holding a space renders like a shorter identifier with a longer
      description. */
  lemma ErrIdWithSpaceIsAmbiguous()
    ensures Render(Err("1 2", "x")) == Render(Err("1", "2 x"))
  {
  }
}
