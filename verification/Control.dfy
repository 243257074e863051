/** Command lines as the server reads them, and pipelined commands read one after the other. */
module Control {
  import opened Defs
  import opened Strings
  import opened LineReader
  import opened Reply

  datatype Input = Eof | TooLong | Command(text: string)

  /** Without the CRs at the end. */
  function TrimCr(s: string): (r: string)
    ensures r <= s && !EndsCr(r)
  {
    if EndsCr(s) then TrimCr(s[..|s| - 1]) else s
  }

  /** What a line of the stream means: NUL stands for LF, and CRs at the end do not count. */
  function Meaning(line: string): string {
    TrimCr(MapChar(line, '\0', '\n'))
  }

  /** What the next call returns for the rest of the stream, and how much of it the call uses up. */
  function Next(stream: string): (Input, nat) {
    var t := IndexOf(stream, '\n');
    if t < |stream| && t < MAX_COMMAND_LINE then (Command(Meaning(stream[..t])), t + 1)
    else if |stream| >= MAX_COMMAND_LINE then (TooLong, MAX_COMMAND_LINE)
    else (Eof, |stream|)
  }

  /** In terms of the stream: the end without a line, a line that is too long, or a command with its NULs turned and the
      CRs at its end gone. */
  lemma NextMeans(stream: string)
    ensures var (input, used) := Next(stream);
      && (input.Eof? <==> '\n' !in stream && |stream| < 4096)
      && (input.TooLong? <==> |stream| >= 4096 && '\n' !in stream[..4096])
      && (input.Eof? ==> used == |stream|) && (input.TooLong? ==> used == 4096)
      && (input.Command? ==>
            && 0 < used <= |stream| && used <= 4096
            && stream[used - 1] == '\n' && '\n' !in stream[..used - 1]
            && var text := input.text;
               && |text| < used && (text != "" ==> text[|text| - 1] != '\r')
               && (forall k :: 0 <= k < |text| ==> text[k] == if stream[k] == '\0' then '\n' else stream[k])
               && (forall k :: |text| <= k < used - 1 ==> stream[k] == '\r'))
  {
    hide IndexOf, TrimCr;
    var t := IndexOf(stream, '\n');
    assert t == |stream| ==> '\n' !in stream;
    assert '\n' !in stream[..t];
    if t < |stream| && t < 4096 {
      assert stream[t] == '\n';
      var line := MapChar(stream[..t], '\0', '\n');
      assert forall k :: 0 <= k < t ==> line[k] == if stream[k] == '\0' then '\n' else stream[k];
      TrimmedAre(line);
    } else if |stream| >= 4096 {
      assert '\n' !in stream[..4096] by { assert stream[..4096] <= stream[..t]; }
    }
  }

  /** Only CRs are cut off. */
  lemma {:induction false} TrimmedAre(s: string)
    ensures TrimCr(s) <= s && forall k :: |TrimCr(s)| <= k < |s| ==> s[k] == '\r'
  {
    if EndsCr(s) {
      var front := s[..|s| - 1];
      TrimmedAre(front);
      assert forall k :: 0 <= k < |front| ==> front[k] == s[k];
    }
  }

  /** control_getline. */
  method ControlGetline(stream: string, wishes: nat -> nat) returns (input: Input, consumed: nat)
    ensures (input, consumed) == Next(stream)
  {
    hide IndexOf, TrimCr;
    var ret, line;
    ret, line, consumed := ReadLine(stream, '\n', MAX_COMMAND_LINE, wishes);
    if ret == 0 {
      return Eof, consumed;
    }
    if ret < 0 {
      return TooLong, consumed;
    }
    var buf := new char[|line|](i requires 0 <= i < |line| => line[i]);
    assert buf[..] == line;
    ReplaceChar(buf, '\0', '\n');
    var trimmed := StripTrailing(buf);
    input := Command(trimmed);
  }

  /** The loop that cuts one CR after the other off the end. */
  method StripTrailing(buf: array<char>) returns (text: string)
    ensures text == TrimCr(buf[..])
  {
    var len := buf.Length;
    assert buf[..len] == buf[..];
    while len > 0 && buf[len - 1] == '\r'
      invariant 0 <= len <= buf.Length
      invariant TrimCr(buf[..len]) == TrimCr(buf[..])
    {
      assert buf[..len][..len - 1] == buf[..len - 1];
      len := len - 1;
    }
    text := buf[..len];
  }

  // ------------------------------------------------------------ what a client sends

  /** LF sent as NUL, and the line end of the protocol. */
  function Frame(command: string): string {
    MapChar(command, '\n', '\0') + "\r\n"
  }

  lemma FrameShape(command: string, rest: string)
    ensures var stream := Frame(command) + rest;
      && IndexOf(stream, '\n') == |command| + 1 < |stream|
      && stream[..|command| + 1] == MapChar(command, '\n', '\0') + "\r"
      && stream[|command| + 2..] == rest
  {
    var stream, line := Frame(command) + rest, MapChar(command, '\n', '\0') + "\r";
    assert stream == line + ("\n" + rest);
    assert stream[..|command| + 1] == line;
    assert '\n' !in line;
    TermAt(stream, '\n', |command| + 1);
  }

  /** A command that can be sent: within the limit, without NUL, and not ending in CR. */
  predicate Sendable(command: string) {
    |command| + 2 <= MAX_COMMAND_LINE && '\0' !in command && !EndsCr(command)
  }

  /** Exactly such a command is read back from its frame, and then nothing beyond the frame is used up. */
  lemma FrameRoundTrip(command: string, rest: string)
    ensures Next(Frame(command) + rest) == (Command(command), |Frame(command)|) <==> Sendable(command)
  {
    hide IndexOf;
    FrameShape(command, rest);
    var line := MapChar(command, '\n', '\0');
    var back := MapChar(line, '\0', '\n');
    assert MapChar(line + "\r", '\0', '\n') == back + "\r";
    assert (back + "\r")[..|back|] == back;
    assert Meaning(line + "\r") == TrimCr(back);
    Reply.MapBack(command);
    if back == command {
      assert TrimCr(command) == command <==> !EndsCr(command);
    } else {
      SameLength(back, command);
    }
  }

  /** A text as long as the command is trimmed to the command only if it is the command. */
  lemma SameLength(back: string, command: string)
    requires |back| == |command| && back != command
    ensures TrimCr(back) != command
  {
  }

  function Frames(commands: seq<string>): string {
    if commands == [] then "" else Frame(commands[0]) + Frames(commands[1..])
  }

  /** Commands sent in one go, however the network cuts them up, are read one by one, each as it was sent. */
  method ReadAll(stream: string, wishes: (nat, nat) -> nat, ghost sent: seq<string>) returns (commands: seq<string>)
    ensures stream == Frames(sent) && (forall c :: c in sent ==> Sendable(c)) ==> commands == sent
  {
    hide Frame, Next, Sendable;
    commands := [];
    var pos := 0;
    ghost var todo := sent;
    ghost var asSent := stream == Frames(sent) && forall c :: c in sent ==> Sendable(c);
    while true
      invariant pos <= |stream|
      invariant asSent ==> stream[pos..] == Frames(todo) && commands + todo == sent && forall c :: c in todo ==> Sendable(c)
      decreases |stream| - pos
    {
      var rest := stream[pos..];
      var input, consumed := ControlGetline(rest, i => wishes(pos, i));
      NextFacts(rest);
      ghost var before := todo;
      if asSent {
        OneCommand(before);
      }
      if !input.Command? {
        return;
      }
      commands := commands + [input.text];
      pos := pos + consumed;
      if asSent {
        todo := before[1..];
        assert stream[pos..] == rest[consumed..];
        assert commands + todo == sent;
      }
    }
  }

  lemma NextFacts(stream: string)
    ensures Next(stream).0.Command? ==> 0 < Next(stream).1 <= |stream|
  {
  }

  lemma OneCommand(todo: seq<string>)
    requires forall c :: c in todo ==> Sendable(c)
    ensures todo == [] ==> Next(Frames(todo)).0 == Eof
    ensures todo != [] ==>
              && Next(Frames(todo)) == (Command(todo[0]), |Frame(todo[0])|)
              && |Frame(todo[0])| <= |Frames(todo)|
              && Frames(todo)[|Frame(todo[0])|..] == Frames(todo[1..])
  {
    hide Frame;
    if todo != [] {
      assert todo[0] in todo;
      FrameRoundTrip(todo[0], Frames(todo[1..]));
    }
  }
}
