/** The lines of the side channel (plugin/wire.go, plugin/wireserver.go): what is written on one side is what is
    understood on the other, which is what lets the hand-off be modelled on messages. */
module WireFraming {
  import opened GoStrings

  datatype FromPlugin = Boot | Handled | Splice | Error(text: string) | Unexpected(line: string)

  datatype FromHost = Backend(socket: string) | BootFail(reason: string)

  // ---- strings and bufio

  /** unicode.IsSpace. */
  predicate IsSpace(c: char)
  {
    || '\t' <= c <= '\r' || c == ' ' || c == '\U{85}' || c == '\U{A0}' || c == '\U{1680}'
    || '\U{2000}' <= c <= '\U{200A}' || c in {'\U{2028}', '\U{2029}', '\U{202F}', '\U{205F}', '\U{3000}'}
  }

  function TrimRight(s: string): string
  {
    if s != "" && IsSpace(s[|s| - 1]) then TrimRight(s[..|s| - 1]) else s
  }

  function TrimLeft(s: string): string
  {
    if s != "" && IsSpace(s[0]) then TrimLeft(s[1..]) else s
  }

  function TrimSpace(s: string): string { TrimLeft(TrimRight(s)) }

  /** strings.ReplaceAll of newlines by spaces. */
  function OneLine(s: string): (r: string)
    ensures |r| == |s| && '\n' !in r
    ensures forall i :: 0 <= i < |s| ==> r[i] == if s[i] == '\n' then ' ' else s[i]
  {
    if s == "" then "" else [if s[0] == '\n' then ' ' else s[0]] + OneLine(s[1..])
  }

  /** bufio's ReadString('\n'): the line with its newline, and what follows; None is an end of file first. */
  function ReadString(stream: string): Option<(string, string)>
  {
    if stream == "" then None
    else if stream[0] == '\n' then Some(("\n", stream[1..]))
    else
      var r := ReadString(stream[1..]);
      if r.None? then None else Some(([stream[0]] + r.value.0, r.value.1))
  }

  // ---- Writing and reading

  function Written(m: FromPlugin): string
    requires !m.Unexpected?
  {
    match m
    case Boot => "boot\n"
    case Handled => "handled\n"
    case Splice => "splice\n"
    case Error(text) => "error " + OneLine(text) + "\n"
  }

  function WrittenByHost(m: FromHost): string
  {
    match m
    case Backend(socket) => "backend " + socket + "\n"
    case BootFail(reason) => "bootfail " + OneLine(reason) + "\n"
  }

  /** Handoff's switch on a line. */
  function Dispatch(line: string): FromPlugin
  {
    if line == "handled" then Handled
    else if line == "boot" then Boot
    else if line == "splice" then Splice
    else if HasPrefix(line, "error ") then Error(line[6..])
    else Unexpected(line)
  }

  function HostReads(raw: string): FromPlugin { Dispatch(TrimSpace(raw)) }

  /** handle's reading of the reply: the socket, or None to give up. */
  function PluginReads(raw: string): Option<string>
  {
    var line := TrimSpace(raw);
    if HasPrefix(line, "backend ") then Some(line[8..]) else None
  }

  // ---- Facts

  lemma {:induction false} ReadStringStops(line: string, rest: string)
    requires '\n' !in line
    ensures ReadString(line + "\n" + rest) == Some((line + "\n", rest))
  {
    var stream := line + "\n" + rest;
    if line == "" {
      assert stream == "\n" + rest && line + "\n" == "\n";
      assert stream[1..] == rest;
    } else {
      ReadStringStops(line[1..], rest);
      assert line == [line[0]] + line[1..];
      assert stream[1..] == line[1..] + "\n" + rest;
      assert [stream[0]] + (line[1..] + "\n") == line + "\n";
    }
  }

  lemma {:induction false} TrimRightKeepsHead(head: string, tail: string)
    requires head != "" && !IsSpace(head[|head| - 1])
    ensures TrimRight(head + tail) == head + TrimRight(tail)
  {
    var s := head + tail;
    if tail == "" {
      assert s == head;
    } else {
      var shorter := tail[..|tail| - 1];
      assert s[..|s| - 1] == head + shorter && s[|s| - 1] == tail[|tail| - 1];
      TrimRightKeepsHead(head, shorter);
    }
  }

  /** Trimming a line whose first word is `word`. */
  lemma TrimWord(word: string, tail: string)
    requires word != "" && !IsSpace(word[0]) && !IsSpace(word[|word| - 1])
    ensures TrimSpace(word + tail) == word + TrimRight(tail)
  {
    TrimRightKeepsHead(word, tail);
    assert (word + TrimRight(tail))[0] == word[0];
  }

  lemma {:induction false} TrimRightExact(s: string)
    ensures TrimRight(s) == s <==> s == "" || !IsSpace(s[|s| - 1])
    ensures |TrimRight(s)| <= |s| && s[..|TrimRight(s)|] == TrimRight(s)
    ensures TrimRight(s) == "" <==> forall i :: 0 <= i < |s| ==> IsSpace(s[i])
  {
    if s != "" && IsSpace(s[|s| - 1]) {
      TrimRightExact(s[..|s| - 1]);
    }
  }

  lemma TrimRightNewline(s: string)
    ensures TrimRight(s + "\n") == TrimRight(s)
  {
    assert (s + "\n")[..|s|] == s;
  }

  /** Boot, handled and splice arrive as themselves; an error arrives as an error, less trailing space, exactly when it
      has something other than space in it, and otherwise as an unexpected line; never as another message. */
  lemma HostUnderstands(m: FromPlugin)
    requires !m.Unexpected?
    ensures !m.Error? ==> HostReads(Written(m)) == m
    ensures m.Error? ==>
      if exists c :: c in OneLine(m.text) && !IsSpace(c)
      then HostReads(Written(m)) == Error(TrimRight(OneLine(m.text)))
      else HostReads(Written(m)) == Unexpected("error")
  {
    match m
    case Boot => PlainLine("boot"); assert "boot" + "\n" == "boot\n";
    case Handled => PlainLine("handled"); assert "handled" + "\n" == "handled\n";
    case Splice => PlainLine("splice"); assert "splice" + "\n" == "splice\n";
    case Error(text) => HostReadsError(OneLine(text));
  }

  /** The lines both sides were built to, to the letter. */
  lemma KnownLines(text: string)
    requires text != "" && !IsSpace(text[|text| - 1])
    ensures HostReads("boot\n") == Boot && HostReads("handled\n") == Handled && HostReads("splice\n") == Splice
    ensures HostReads("error " + text + "\n") == Error(text)
    ensures PluginReads("backend " + text + "\n") == Some(text)
  {
    TrimRightExact(text);
    PlainLine("boot");
    PlainLine("handled");
    PlainLine("splice");
    assert "boot" + "\n" == "boot\n" && "handled" + "\n" == "handled\n" && "splice" + "\n" == "splice\n";
    HostReadsError(text);
    assert text[|text| - 1] in text;
    PluginReadsBackend(text);
  }

  lemma PlainLine(word: string)
    requires word != "" && !IsSpace(word[0]) && !IsSpace(word[|word| - 1])
    ensures TrimSpace(word + "\n") == word
  {
    TrimWord(word, "\n");
    TrimRightNewline("");
    assert word + "" == word;
  }

  lemma HostReadsError(t: string)
    ensures HostReads("error " + t + "\n") == if exists c :: c in t && !IsSpace(c) then Error(TrimRight(t))
      else Unexpected("error")
  {
    TextAfterWord("error", t);
    Reword("error", t);
    TrimRightExact(t);
    assert "error" + " " == "error ";
    if TrimRight(t) != "" {
      HeadOfWord("error", TrimRight(t));
      DispatchError("error " + TrimRight(t));
      var i :| 0 <= i < |t| && !IsSpace(t[i]);
      assert t[i] in t;
    } else {
      DispatchBareError();
    }
  }

  lemma DispatchError(line: string)
    requires HasPrefix(line, "error ")
    ensures Dispatch(line) == Error(line[6..])
  {
    assert line[..6][0] == 'e';
  }

  lemma DispatchBareError()
    ensures Dispatch("error") == Unexpected("error")
  {
  }

  lemma Reword(word: string, text: string)
    ensures word + " " + text + "\n" == word + (" " + text + "\n")
  {
    Regroup(word, " ", text);
    Regroup(word, " " + text, "\n");
  }

  lemma HeadOfWord(word: string, text: string)
    requires word != ""
    ensures var line := word + " " + text;
      line[0] == word[0] && HasPrefix(line, word + " ") && line[|word| + 1..] == text
  {
  }

  /** `word text` comes out of trimming as `word text` with the text trimmed, or as the bare word when
      there is no text. */
  lemma TextAfterWord(word: string, text: string)
    requires word != "" && !IsSpace(word[0]) && !IsSpace(word[|word| - 1])
    ensures TrimSpace(word + (" " + text + "\n")) == if TrimRight(text) == "" then word
      else word + " " + TrimRight(text)
  {
    TrimWord(word, " " + text + "\n");
    TrimRightNewline(" " + text);
    TrimRightAfterSpace(text);
    if TrimRight(text) == "" {
      assert word + "" == word;
    } else {
      Regroup(word, " ", TrimRight(text));
    }
  }

  lemma {:induction false} TrimRightAfterSpace(text: string)
    ensures TrimRight(" " + text) == if TrimRight(text) == "" then "" else " " + TrimRight(text)
  {
    var s := " " + text;
    if text == "" {
      assert s[..0] == "";
    } else {
      assert s[..|s| - 1] == " " + text[..|text| - 1] && s[|s| - 1] == text[|text| - 1];
      if IsSpace(text[|text| - 1]) { TrimRightAfterSpace(text[..|text| - 1]); }
    }
  }

  /** The plugin dials the very socket the host named exactly when its path is not empty, has no newline in it and
      does not end in space; a failed boot is never taken for a socket. */
  lemma PluginUnderstands(socket: string, rest: string)
    ensures
      var line := ReadString(WrittenByHost(Backend(socket)) + rest);
      (line.Some? && PluginReads(line.value.0) == Some(socket)) <==>
      socket != "" && '\n' !in socket && !IsSpace(socket[|socket| - 1])
  {
    var first := Cut(socket, '\n').0;
    CutStops(socket, '\n');
    var stream := WrittenByHost(Backend(socket)) + rest;
    var after := if '\n' in socket then socket[|first| + 1..] + "\n" + rest else rest;
    assert stream == ("backend " + first) + "\n" + after by {
      if '\n' in socket { assert socket == first + "\n" + socket[|first| + 1..]; }
    }
    ReadStringStops("backend " + first, after);
    PluginReadsBackend(first);
    TrimRightExact(first);
  }

  lemma PluginReadsBackend(t: string)
    ensures PluginReads("backend " + t + "\n") == if TrimRight(t) == "" then None else Some(TrimRight(t))
  {
    TextAfterWord("backend", t);
    Reword("backend", t);
    assert "backend" + " " == "backend ";
    if TrimRight(t) != "" { HeadOfWord("backend", TrimRight(t)); }
  }

  lemma {:induction false} CutStops(s: string, sep: char)
    ensures var first := Cut(s, sep).0;
      && sep !in first && |first| <= |s| && s[..|first|] == first
      && (sep in s <==> first != s) && (sep in s ==> |first| < |s| && s[|first|] == sep)
  {
    if s != "" && s[0] != sep {
      CutStops(s[1..], sep);
      assert s == [s[0]] + s[1..];
    }
  }

  lemma BootFailIsNoSocket(reason: string)
    ensures PluginReads(WrittenByHost(BootFail(reason))) == None
  {
    var t := OneLine(reason);
    TextAfterWord("bootfail", t);
    assert "bootfail " + t + "\n" == "bootfail" + (" " + t + "\n");
    assert TrimSpace(WrittenByHost(BootFail(reason)))[1] == 'o';
  }

  // ---- Whole conversations

  function Stream(ms: seq<FromPlugin>): string
    requires forall i :: 0 <= i < |ms| ==> !ms[i].Unexpected?
  {
    if ms == [] then "" else Written(ms[0]) + Stream(ms[1..])
  }

  function ReadAll(stream: string): seq<FromPlugin>
    decreases |stream|
  {
    var r := ReadString(stream);
    if r.None? || |r.value.1| >= |stream| then [] else [HostReads(r.value.0)] + ReadAll(r.value.1)
  }

  lemma WrittenIsOneLine(m: FromPlugin)
    requires !m.Unexpected?
    ensures exists line :: '\n' !in line && Written(m) == line + "\n"
  {
    match m
    case Boot => assert Written(m) == "boot" + "\n";
    case Handled => assert Written(m) == "handled" + "\n";
    case Splice => assert Written(m) == "splice" + "\n";
    case Error(text) =>
      var line := "error " + OneLine(text);
      assert '\n' !in line;
  }

  /** However many lines lie in the channel, the host reads message after message as they were written. */
  lemma {:induction false} ChannelIsAQueue(ms: seq<FromPlugin>)
    requires forall i :: 0 <= i < |ms| ==> !ms[i].Unexpected?
    ensures |ReadAll(Stream(ms))| == |ms|
    ensures forall i :: 0 <= i < |ms| ==> ReadAll(Stream(ms))[i] == HostReads(Written(ms[i]))
  {
    if ms != [] {
      ChannelIsAQueue(ms[1..]);
      WrittenIsOneLine(ms[0]);
      var line :| '\n' !in line && Written(ms[0]) == line + "\n";
      ReadStringStops(line, Stream(ms[1..]));
    }
  }
}
