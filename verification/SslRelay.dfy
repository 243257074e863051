/** The relay between the FTP process (consumer) and the process that owns the SSL handles (slave):
    two step machines joined by two first-in first-out channels. */
module SslRelay {
  import opened Defs

  type Bytes = seq<bv8>

  // ------------------------------------------------------------ the wire

  datatype Cmd = GetUserCmd | WriteUserResp | SslHandshake | SslClose | SslRead | SslWrite

  /** What one read primitive takes off a channel. */
  datatype Msg = CmdMsg(cmd: Cmd) | IntMsg(i: int) | BytesMsg(b: Bytes) | FdMsg | ResultMsg(ok: bool)

  /** A counted string: its length, then its bytes unless there are none. */
  function Str(b: Bytes): seq<Msg> {
    [IntMsg(|b|)] + (if b == [] then [] else [BytesMsg(b)])
  }

  // ---------------------------------------------------- requests and answers

  datatype Op =
    | GetLine
    | WriteReply(text: Bytes)
    | Handshake
    | Read(len: int)
    | Write(data: Bytes)
    | Close

  datatype Answer =
    | Line(ret: int, text: Bytes)
    | Count(n: int)
    | Data(ret: int, bytes: Bytes)
    | Flag(ok: bool)

  function Request(op: Op): seq<Msg> {
    match op
    case GetLine => [CmdMsg(GetUserCmd)]
    case WriteReply(text) => [CmdMsg(WriteUserResp)] + Str(text)
    case Handshake => [CmdMsg(SslHandshake), FdMsg]
    case Read(len) => [CmdMsg(SslRead), IntMsg(len)]
    case Write(data) => [CmdMsg(SslWrite)] + Str(data)
    case Close => [CmdMsg(SslClose)]
  }

  function Response(a: Answer): seq<Msg> {
    match a
    case Line(ret, text) => [IntMsg(ret)] + (if ret >= 0 then Str(text) else [])
    case Count(n) => [IntMsg(n)]
    case Data(ret, bytes) => [IntMsg(ret)] + Str(bytes)
    case Flag(ok) => [ResultMsg(ok)]
  }

  /** What the local operations of the slave promise: the line reader, SSL_read, SSL_write, SSL_accept. */
  predicate Possible(op: Op, a: Answer) {
    match op
    case GetLine => a.Line? && |a.text| <= MAX_COMMAND_LINE && (a.ret < 0 ==> a.text == [])
    case WriteReply(_) => a.Count?
    case Handshake => a.Flag?
    case Read(len) => a.Data? && a.ret <= len && |a.bytes| == if a.ret >= 0 then a.ret else 0
    case Write(_) => a.Count?
    case Close => a.Flag?
  }

  /** The chunk size the transfer loops ask for. */
  function ChunkSize(tunable: int): int {
    if 0 < tunable < DATA_BUFSIZE then (if tunable < 4096 then 4096 else tunable) else DATA_BUFSIZE
  }

  // ------------------------------------------------------------- the consumer

  /** The data connection as the consumer's command handlers drive it. */
  datatype Phase = NoData | Opened | Secured | Failed

  datatype Consumer =
    | Ready
    | Sending(op: Op, rest: seq<Msg>)
    | WantInt(op: Op)
    | WantLen(op: Op, ret: int)
    | WantBody(op: Op, ret: int, len: int)
    | WantResult(op: Op)
    | ConsumerDead

  /** When a handler may issue an operation: commands are read only between transfers, a handshake follows the
      opening of the connection, transfers follow a good handshake, and the connection is closed exactly once. */
  predicate InOrder(phase: Phase, op: Op) {
    match op
    case GetLine => phase == NoData
    case WriteReply(_) => true
    case Handshake => phase == Opened
    case Read(_) => phase == Secured
    case Write(_) => phase == Secured
    case Close => phase == Secured || phase == Failed
  }

  /** Within the limits of the slave: chunks fit its buffer, strings the maximum of the channel. */
  predicate InLimits(op: Op) {
    match op
    case Read(len) => 0 < len <= DATA_BUFSIZE
    case WriteReply(text) => |text| <= PRIVSOCK_MAXSTR
    case Write(data) => |data| <= PRIVSOCK_MAXSTR
    case _ => true
  }

  function FirstWait(op: Op): Consumer {
    match op
    case Handshake => WantResult(op)
    case Close => WantResult(op)
    case _ => WantInt(op)
  }

  // ---------------------------------------------------------------- the slave

  datatype Slave =
    | Idle
    | WantReplyLen
    | WantReplyBody(len: int)
    | WantFd
    | WantSize
    | WantDataLen
    | WantDataBody(len: int)
    | Acting(op: Op)
    | Answering(rest: seq<Msg>)
    | SlaveDead

  datatype State = State(
    consumer: Consumer, phase: Phase,
    slave: Slave, fd: bool, ssl: bool, allocBytes: int,
    requests: seq<Msg>, replies: seq<Msg>,
    asked: seq<(Op, Answer)>, done: seq<(Op, Answer)>)

  const INIT := State(Ready, NoData, Idle, false, false, DATA_BUFSIZE + 1, [], [], [], [])

  // --------------------------------------------------------------- the steps

  datatype Event = OpenData | Start(op: Op) | ConsumerStep | SlaveStep | SlaveAct(answer: Answer)

  function Finish(s: State, op: Op, a: Answer): State {
    var phase :=
      if op == Handshake then (if a == Flag(true) then Secured else Failed)
      else if op == Close then NoData
      else s.phase;
    s.(consumer := Ready, phase := phase, asked := s.asked + [(op, a)])
  }

  /** The consumer takes one message; a message of another kind, or a length beyond its buffer, kills it. */
  function Receive(s: State, m: Msg): State {
    match s.consumer
    case WantInt(op) =>
      if !m.IntMsg? then s.(consumer := ConsumerDead)
      else if op.GetLine? then
        if m.i >= 0 then s.(consumer := WantLen(op, m.i)) else Finish(s, op, Line(m.i, []))
      else if op.Read? then s.(consumer := WantLen(op, m.i))
      else Finish(s, op, Count(m.i))
    case WantLen(op, ret) =>
      if !m.IntMsg? then s.(consumer := ConsumerDead)
      else if m.i < 0 || m.i > (if op.Read? then op.len else PRIVSOCK_MAXSTR) then s.(consumer := ConsumerDead)
      else if m.i == 0 then Finish(s, op, Assemble(op, ret, []))
      else s.(consumer := WantBody(op, ret, m.i))
    case WantBody(op, ret, len) =>
      if !m.BytesMsg? || |m.b| != len then s.(consumer := ConsumerDead) else Finish(s, op, Assemble(op, ret, m.b))
    case WantResult(op) =>
      if !m.ResultMsg? then s.(consumer := ConsumerDead) else Finish(s, op, Flag(m.ok))
    case _ => s
  }

  function Assemble(op: Op, ret: int, b: Bytes): Answer {
    if op.Read? then Data(ret, b) else Line(ret, b)
  }

  /** The slave takes one message of a request; its own checks kill it where the source calls bug() or die(). */
  function Accept(s: State, m: Msg): State {
    match s.slave
    case Idle =>
      if !m.CmdMsg? then s.(slave := SlaveDead)
      else (match m.cmd
        case GetUserCmd => s.(slave := Acting(GetLine))
        case WriteUserResp => s.(slave := WantReplyLen)
        case SslHandshake => s.(slave := if s.fd || s.ssl then SlaveDead else WantFd)
        case SslRead => s.(slave := WantSize)
        case SslWrite => s.(slave := if !s.fd || !s.ssl then SlaveDead else WantDataLen)
        case SslClose =>
          if !s.fd && !s.ssl then s.(slave := Answering(Response(Flag(true))), done := s.done + [(Close, Flag(true))])
          else s.(slave := if !s.fd || !s.ssl then SlaveDead else Acting(Close)))
    case WantReplyLen =>
      if !m.IntMsg? || m.i < 0 || m.i > PRIVSOCK_MAXSTR then s.(slave := SlaveDead)
      else s.(slave := if m.i == 0 then Acting(WriteReply([])) else WantReplyBody(m.i))
    case WantReplyBody(len) =>
      s.(slave := if !m.BytesMsg? || |m.b| != len then SlaveDead else Acting(WriteReply(m.b)))
    case WantFd =>
      if !m.FdMsg? then s.(slave := SlaveDead) else s.(slave := Acting(Handshake), fd := true)
    case WantSize =>
      if !m.IntMsg? || m.i <= 0 || m.i > DATA_BUFSIZE || !s.fd || !s.ssl || m.i >= s.allocBytes
      then s.(slave := SlaveDead)
      else s.(slave := Acting(Read(m.i)))
    case WantDataLen =>
      if !m.IntMsg? || m.i < 0 || m.i > PRIVSOCK_MAXSTR then s.(slave := SlaveDead)
      else if m.i == 0 then s.(slave := Acting(Write([])))
      else s.(slave := WantDataBody(m.i), allocBytes := if s.allocBytes < m.i + 1 then m.i + 1 else s.allocBytes)
    case WantDataBody(len) =>
      s.(slave := if !m.BytesMsg? || |m.b| != len then SlaveDead else Acting(Write(m.b)))
    case _ => s
  }

  /** The slave performs the operation it has read and has `a` to report. */
  function Act(s: State, op: Op, a: Answer): State {
    var open := if op == Handshake then a == Flag(true) else if op == Close then false else s.fd;
    var ssl := if op == Handshake then a == Flag(true) else if op == Close then false else s.ssl;
    s.(slave := Answering(Response(a)), fd := open, ssl := ssl, done := s.done + [(op, a)])
  }

  /** One step of the system; an event that is not possible changes nothing. */
  function Step(s: State, e: Event): State {
    match e
    case OpenData =>
      if s.consumer == Ready && s.phase == NoData then s.(phase := Opened) else s
    case Start(op) =>
      if s.consumer == Ready && InOrder(s.phase, op) then s.(consumer := Sending(op, Request(op))) else s
    case ConsumerStep =>
      if s.consumer.Sending? && s.consumer.rest != [] then
        var rest := s.consumer.rest[1..];
        s.(requests := s.requests + [s.consumer.rest[0]],
           consumer := if rest == [] then FirstWait(s.consumer.op) else Sending(s.consumer.op, rest))
      else if Waiting(s.consumer) && s.replies != [] then
        Receive(s.(replies := s.replies[1..]), s.replies[0])
      else s
    case SlaveStep =>
      if s.slave.Answering? && s.slave.rest != [] then
        var rest := s.slave.rest[1..];
        s.(replies := s.replies + [s.slave.rest[0]], slave := if rest == [] then Idle else Answering(rest))
      else if Reading(s.slave) && s.requests != [] then
        Accept(s.(requests := s.requests[1..]), s.requests[0])
      else s
    case SlaveAct(a) =>
      if s.slave.Acting? && Possible(s.slave.op, a) then Act(s, s.slave.op, a) else s
  }

  predicate Waiting(c: Consumer) { c.WantInt? || c.WantLen? || c.WantBody? || c.WantResult? }

  predicate Reading(v: Slave) {
    v.Idle? || v.WantReplyLen? || v.WantReplyBody? || v.WantFd? || v.WantSize? || v.WantDataLen? || v.WantDataBody?
  }

  function Run(s: State, events: seq<Event>): State {
    if events == [] then s else Step(Run(s, events[..|events| - 1]), events[|events| - 1])
  }

  // ------------------------------------------------------------ the invariant

  /** The slave is part-way through the request of `op`. */
  predicate ReadingFor(v: Slave, op: Op) {
    match v
    case Idle => true
    case WantReplyLen => op.WriteReply?
    case WantReplyBody(len) => op.WriteReply? && len == |op.text| > 0
    case WantFd => op.Handshake?
    case WantSize => op.Read?
    case WantDataLen => op.Write?
    case WantDataBody(len) => op.Write? && len == |op.data| > 0
    case Acting(o) => o == op
    case _ => false
  }

  /** What the slave has still to take off the channel before it has read all of `op`. */
  function Unread(v: Slave, op: Op): seq<Msg> {
    match v
    case Idle => Request(op)
    case WantReplyLen => if op.WriteReply? then Str(op.text) else []
    case WantReplyBody(_) => if op.WriteReply? then [BytesMsg(op.text)] else []
    case WantFd => [FdMsg]
    case WantSize => if op.Read? then [IntMsg(op.len)] else []
    case WantDataLen => if op.Write? then Str(op.data) else []
    case WantDataBody(_) => if op.Write? then [BytesMsg(op.data)] else []
    case _ => []
  }

  /** The consumer is part-way through the answer `a`. */
  predicate ReceivingFor(c: Consumer, a: Answer) {
    match c
    case WantInt(op) => Possible(op, a) && !op.Handshake? && !op.Close?
    case WantLen(op, ret) => Possible(op, a) && ((a.Line? && a.ret == ret >= 0) || (a.Data? && a.ret == ret))
    case WantBody(op, ret, len) =>
      Possible(op, a) && ((a.Line? && a.ret == ret && len == |a.text| > 0) || (a.Data? && a.ret == ret && len == |a.bytes| > 0))
    case WantResult(op) => Possible(op, a) && a.Flag?
    case _ => false
  }

  /** What the consumer has still to take off the channel before it has read all of `a`. */
  function Unreceived(c: Consumer, a: Answer): seq<Msg> {
    match c
    case WantInt(_) => Response(a)
    case WantLen(_, _) => if a.Line? then Str(a.text) else if a.Data? then Str(a.bytes) else []
    case WantBody(_, _, _) => if a.Line? then [BytesMsg(a.text)] else if a.Data? then [BytesMsg(a.bytes)] else []
    case WantResult(_) => Response(a)
    case _ => []
  }

  /** The slave's data descriptor and handle, by the consumer's phase. */
  predicate DataMatches(phase: Phase, fd: bool, ssl: bool) {
    fd == ssl == (phase == Secured)
  }

  /** No request is under way. */
  predicate Quiet(s: State) {
    && s.slave == Idle && s.requests == [] && s.replies == [] && s.done == s.asked
    && DataMatches(s.phase, s.fd, s.ssl)
  }

  /** The slave has not yet acted on `op`, of which the consumer has `rest` still to send. */
  predicate Asking(s: State, op: Op, rest: seq<Msg>) {
    && InOrder(s.phase, op) && InLimits(op)
    && s.done == s.asked && s.replies == []
    && ReadingFor(s.slave, op) && s.requests + rest == Unread(s.slave, op)
    && (if s.slave == Acting(Handshake) then s.fd && !s.ssl else DataMatches(s.phase, s.fd, s.ssl))
    && (s.slave == Acting(Close) ==> s.phase == Secured)
  }

  /** What the slave has still to send. */
  function Unsent(v: Slave): seq<Msg> {
    if v.Answering? then v.rest else []
  }

  /** The slave has acted on `op` and the consumer has not yet received all of the answer. */
  predicate Answered(s: State, op: Op) {
    && InOrder(s.phase, op) && InLimits(op)
    && |s.done| == |s.asked| + 1 && s.done[..|s.asked|] == s.asked && s.done[|s.asked|].0 == op
    && s.requests == [] && (s.slave.Idle? || (s.slave.Answering? && s.slave.rest != []))
    && var a := s.done[|s.asked|].1;
       && ReceivingFor(s.consumer, a)
       && s.replies + Unsent(s.slave) == Unreceived(s.consumer, a)
       && (op == Handshake ==> s.fd == s.ssl == (a == Flag(true)))
       && (op == Close ==> !s.fd && !s.ssl && (s.phase == Failed ==> a == Flag(true)))
       && (op != Handshake && op != Close ==> DataMatches(s.phase, s.fd, s.ssl))
  }

  ghost predicate Inv(s: State) {
    && s.allocBytes > DATA_BUFSIZE
    && match s.consumer
       case Ready => Quiet(s)
       case Sending(op, rest) => rest != [] && Asking(s, op, rest)
       case ConsumerDead => false
       case _ => (s.consumer == FirstWait(s.consumer.op) && Asking(s, s.consumer.op, [])) || Answered(s, s.consumer.op)
  }

  // ----------------------------------------------------- every step keeps it

  lemma StartKeeps(s: State, op: Op)
    requires Inv(s) && InLimits(op)
    ensures Inv(Step(s, Start(op)))
  {
    assert [] + Request(op) == Request(op);
  }

  lemma SendKeeps(s: State)
    requires Inv(s) && s.consumer.Sending?
    ensures Inv(Step(s, ConsumerStep))
  {
    hide ReadingFor, Unread, Answered, Quiet, InOrder, InLimits;
    var op, rest := s.consumer.op, s.consumer.rest;
    var t := Step(s, ConsumerStep);
    assert s.requests + [rest[0]] + rest[1..] == s.requests + rest;
    assert Asking(t, op, rest[1..]);
  }

  /** The first message in a channel is the first one still to be read. */
  lemma Head<T>(a: seq<T>, b: seq<T>, whole: seq<T>)
    requires a + b == whole && a != []
    ensures a[0] == whole[0] && a[1..] + b == whole[1..]
  {
    assert a[1..] + b == (a + b)[1..];
  }

  /** One message of a request: the slave is left expecting exactly the rest, or is about to act. */
  predicate Parsed(s: State, t: State, op: Op) {
    && t == s.(slave := t.slave, fd := t.fd, allocBytes := t.allocBytes) && t.allocBytes > DATA_BUFSIZE
    && ReadingFor(t.slave, op) && Unread(s.slave, op) != [] && Unread(s.slave, op)[1..] == Unread(t.slave, op)
    && (if t.slave == Acting(Handshake) then t.fd && !t.ssl else t.fd == s.fd)
    && (t.slave == Acting(Close) ==> s.fd)
  }

  lemma AcceptsCommand(s: State, op: Op)
    requires s.allocBytes > DATA_BUFSIZE && s.slave == Idle && InOrder(s.phase, op) && DataMatches(s.phase, s.fd, s.ssl)
    ensures var t := Accept(s, Request(op)[0]);
      if op == Close && !s.fd then t == s.(slave := Answering([ResultMsg(true)]), done := s.done + [(Close, Flag(true))])
      else Parsed(s, t, op)
  {
  }

  lemma AcceptsArgument(s: State, op: Op)
    requires s.allocBytes > DATA_BUFSIZE && InOrder(s.phase, op) && InLimits(op) && DataMatches(s.phase, s.fd, s.ssl)
    requires ReadingFor(s.slave, op) && !s.slave.Idle? && !s.slave.Acting?
    ensures Unread(s.slave, op) != [] && Parsed(s, Accept(s, Unread(s.slave, op)[0]), op)
  {
  }

  lemma AcceptKeepsAsking(s: State, op: Op, rest: seq<Msg>)
    requires s.allocBytes > DATA_BUFSIZE && Asking(s, op, rest) && s.requests != []
    ensures var t := Accept(s.(requests := s.requests[1..]), s.requests[0]);
      && t.consumer == s.consumer && t.phase == s.phase && t.asked == s.asked && t.allocBytes > DATA_BUFSIZE
      && (Asking(t, op, rest)
          || (rest == [] && op == Close && t == s.(requests := [], slave := Answering([ResultMsg(true)]), done := s.done + [(Close, Flag(true))])
              && !s.fd && !s.ssl))
  {
    hide Accept, InLimits, InOrder;
    var whole := Unread(s.slave, op);
    Head(s.requests, rest, whole);
    var r := s.(requests := s.requests[1..]);
    if s.slave.Idle? { AcceptsCommand(r, op); } else { AcceptsArgument(r, op); }
    var t := Accept(r, s.requests[0]);
    if !Parsed(r, t, op) {
      assert whole == [CmdMsg(SslClose)];
    }
  }

  lemma AcceptKeeps(s: State)
    requires Inv(s) && Reading(s.slave) && s.requests != []
    ensures Inv(Step(s, SlaveStep))
  {
    hide ReadingFor, Unread, Accept, Response, Request;
    var t := Step(s, SlaveStep);
    var op := s.consumer.op;
    var rest := if s.consumer.Sending? then s.consumer.rest else [];
    AcceptKeepsAsking(s, op, rest);
    if !Asking(t, op, rest) {
      CloseAnswered(s, t);
    }
  }

  /** A close with nothing open is answered at once. */
  lemma CloseAnswered(s: State, t: State)
    requires s.consumer == WantResult(Close) && InOrder(s.phase, Close) && s.done == s.asked && s.replies == []
    requires !s.fd && !s.ssl
    requires t == s.(requests := [], slave := Answering([ResultMsg(true)]), done := s.done + [(Close, Flag(true))])
    ensures Answered(t, Close)
  {
    assert t.done[..|t.asked|] == t.asked;
    assert [] + [ResultMsg(true)] == [ResultMsg(true)];
  }

  lemma ReplyKeeps(s: State)
    requires Inv(s) && s.slave.Answering?
    ensures Inv(Step(s, SlaveStep))
  {
    hide ReceivingFor, Unreceived;
    var rest := s.slave.rest;
    assert Answered(s, s.consumer.op);
    assert s.replies + [rest[0]] + rest[1..] == s.replies + rest;
    assert Answered(Step(s, SlaveStep), s.consumer.op);
  }

  lemma ActingFacts(s: State)
    requires Inv(s) && s.slave.Acting?
    ensures s.consumer == FirstWait(s.slave.op) && s.consumer.op == s.slave.op && |s.done| == |s.asked|
    ensures Asking(s, s.slave.op, [])
  {
    hide InOrder, InLimits, Request;
  }

  lemma ActAnswers(s: State, op: Op, a: Answer)
    requires s.slave == Acting(op) && s.consumer == FirstWait(op) && Asking(s, op, []) && Possible(op, a)
    ensures Answered(Act(s, op, a), op)
  {
    hide InLimits, Response;
    var t := Act(s, op, a);
    assert s.requests == [];
    assert t.done[..|t.asked|] == t.asked;
    assert [] + Response(a) == Response(a) == Unreceived(s.consumer, a);
    ResponseShort(a);
  }

  lemma ActKeeps(s: State, a: Answer)
    requires Inv(s)
    ensures Inv(Step(s, SlaveAct(a)))
  {
    hide Asking, Answered, Quiet, Possible, Response;
    if s.slave.Acting? && Possible(s.slave.op, a) {
      ActingFacts(s);
      ActAnswers(s, s.slave.op, a);
    }
  }

  /** One message of an answer: the consumer either has it all, or is left expecting exactly the rest. */
  lemma ReceiveParses(s: State, a: Answer)
    requires Waiting(s.consumer) && ReceivingFor(s.consumer, a) && InLimits(s.consumer.op)
    ensures Unreceived(s.consumer, a) != []
    ensures var m, rest := Unreceived(s.consumer, a)[0], Unreceived(s.consumer, a)[1..];
      var t := Receive(s, m);
      if rest == [] then t == Finish(s, s.consumer.op, a)
      else
        && t == s.(consumer := t.consumer) && Waiting(t.consumer) && t.consumer.op == s.consumer.op
        && ReceivingFor(t.consumer, a) && Unreceived(t.consumer, a) == rest
  {
    hide Finish;
    var u := Unreceived(s.consumer, a);
    match s.consumer
    case WantInt(op) =>
      if a.Line? && a.ret >= 0 {
        assert u[1..] == Str(a.text);
      } else if a.Data? {
        assert u[1..] == Str(a.bytes);
      } else {
        assert u[1..] == [];
      }
    case WantLen(op, ret) =>
      var b := if a.Line? then a.text else a.bytes;
      assert u[0] == IntMsg(|b|) && u[1..] == if b == [] then [] else [BytesMsg(b)];
      assert Assemble(op, ret, b) == a;
      assert |b| <= if op.Read? then op.len else PRIVSOCK_MAXSTR;
    case WantBody(_, _, _) => assert u[1..] == [];
    case WantResult(_) => assert u[1..] == [];
    case _ =>
  }

  lemma ReceiveKeeps(s: State)
    requires Inv(s) && Waiting(s.consumer) && s.replies != []
    ensures Inv(Step(s, ConsumerStep))
  {
    hide ReceivingFor, Unreceived, Receive, Asking, Possible;
    assert !Asking(s, s.consumer.op, []) by { NotAsking(s); }
    var op := s.consumer.op;
    var a := s.done[|s.asked|].1;
    ReceiveParses(s.(replies := s.replies[1..]), a);
    Head(s.replies, Unsent(s.slave), Unreceived(s.consumer, a));
    var t := Step(s, ConsumerStep);
    assert s.asked + [(op, a)] == s.done;
    if s.replies[1..] + Unsent(s.slave) == [] {
      FinishQuiet(s.(replies := []), op, a);
    } else {
      assert Answered(t, op);
    }
  }

  lemma NotAsking(s: State)
    requires s.replies != []
    ensures forall op, rest :: !Asking(s, op, rest)
  {}

  lemma FinishQuiet(s: State, op: Op, a: Answer)
    requires Waiting(s.consumer) && s.consumer.op == op && ReceivingFor(s.consumer, a) && InOrder(s.phase, op)
    requires s.slave == Idle && s.requests == [] && s.replies == [] && s.done == s.asked + [(op, a)]
    requires op == Handshake ==> s.fd == s.ssl == (a == Flag(true))
    requires op == Close ==> !s.fd && !s.ssl
    requires op != Handshake && op != Close ==> DataMatches(s.phase, s.fd, s.ssl)
    ensures Quiet(Finish(s, op, a)) && Finish(s, op, a).consumer == Ready
  {}

  /** Every event but an oversized request keeps the invariant. */
  lemma StepKeeps(s: State, e: Event)
    requires Inv(s) && (e.Start? ==> InLimits(e.op))
    ensures Inv(Step(s, e))
  {
    hide Asking, Answered, Quiet;
    match e
    case OpenData => OpenKeeps(s);
    case Start(op) => StartKeeps(s, op);
    case ConsumerStep =>
      if s.consumer.Sending? { SendKeeps(s); }
      else if Waiting(s.consumer) && s.replies != [] { ReceiveKeeps(s); }
    case SlaveStep =>
      if s.slave.Answering? { ReplyKeeps(s); }
      else if Reading(s.slave) && s.requests != [] { AcceptKeeps(s); }
    case SlaveAct(a) => ActKeeps(s, a);
  }

  lemma OpenKeeps(s: State)
    requires Inv(s)
    ensures Inv(Step(s, OpenData))
  {}

  predicate Limited(events: seq<Event>) {
    forall e :: e in events && e.Start? ==> InLimits(e.op)
  }

  lemma {:induction false} RunKeeps(s: State, events: seq<Event>)
    requires Inv(s) && Limited(events)
    ensures Inv(Run(s, events))
  {
    hide Inv, Step, InLimits;
    if events != [] {
      var n := |events| - 1;
      assert events[n] in events;
      RunKeeps(s, events[..n]);
      StepKeeps(Run(s, events[..n]), events[n]);
    }
  }

  /** In every interleaving, whatever the outcomes of the local operations: each message is read with the kind and size
      it was sent with, and none of the bug() and die() checks of either side fires. */
  lemma RelaySafe(events: seq<Event>)
    requires Limited(events)
    ensures Inv(Run(INIT, events))
    ensures Run(INIT, events).consumer != ConsumerDead && Run(INIT, events).slave != SlaveDead
  {
    hide Inv, Run;
    InitInv();
    RunKeeps(INIT, events);
    InvAlive(Run(INIT, events));
  }

  lemma InitInv()
    ensures Inv(INIT)
  {}

  lemma InvAlive(s: State)
    requires Inv(s)
    ensures s.consumer != ConsumerDead && s.slave != SlaveDead
  {}

  // ----------------------------------------------------------- what it yields

  /** Transparency: whenever the consumer is between operations, the operations the slave carried out, with their
      arguments and results, are exactly those the consumer asked for and saw answered. */
  lemma Transparent(events: seq<Event>)
    requires Limited(events)
    ensures var s := Run(INIT, events);
      && s.asked <= s.done && |s.done| <= |s.asked| + 1
      && (s.consumer == Ready ==> s.asked == s.done && s.requests == [] && s.replies == [])
  {
    RelaySafe(events);
    hide ReadingFor, Unread, ReceivingFor, Unreceived, Run;
    var s := Run(INIT, events);
    if s.consumer != Ready && s.done != s.asked {
      assert s.done[..|s.asked|] == s.asked;
    }
  }

  /** Between commands, or asking for the next one. */
  predicate AtCommandBoundary(c: Consumer) {
    c == Ready || c == WantInt(GetLine) || (c.Sending? && c.op == GetLine)
  }

  /** At every command boundary the slave holds neither a data descriptor nor an SSL handle. */
  lemma CleanBetweenCommands(events: seq<Event>)
    requires Limited(events)
    ensures var s := Run(INIT, events);
      && (s.phase == NoData && AtCommandBoundary(s.consumer) ==> !s.fd && !s.ssl)
      && (s.consumer == Ready ==> s.fd == s.ssl == (s.phase == Secured))
  {
    RelaySafe(events);
    hide ReceivingFor, Unreceived, Run;
  }

  /** Steps the current operation still needs, at most. */
  function Rank(s: State): nat {
    if s.consumer == Ready || s.consumer == ConsumerDead then 0
    else if |s.done| == |s.asked| then
      (if s.consumer.Sending? then |s.consumer.rest| else 0) + |Unread(s.slave, s.consumer.op)| + 7
    else |Unsent(s.slave)| + (if |s.done| > |s.asked| then |Unreceived(s.consumer, s.done[|s.asked|].1)| else 0)
  }

  /** Whether an event changes the state. */
  predicate Enabled(s: State, e: Event) { Step(s, e) != s }

  lemma RankBound(s: State)
    requires Inv(s)
    ensures Rank(s) <= 13
  {
    assert forall b: Bytes :: |Str(b)| <= 2;
  }

  lemma SendRank(s: State)
    requires Inv(s) && s.consumer.Sending?
    ensures Rank(Step(s, ConsumerStep)) < Rank(s)
  {
    hide Unread, ReadingFor;
  }

  lemma ReceiveRank(s: State)
    requires Inv(s) && Waiting(s.consumer) && s.replies != []
    ensures Rank(Step(s, ConsumerStep)) < Rank(s)
  {
    hide ReceivingFor, Unreceived, Receive, Asking, Possible;
    assert !Asking(s, s.consumer.op, []) by { NotAsking(s); }
    var a := s.done[|s.asked|].1;
    ReceiveParses(s.(replies := s.replies[1..]), a);
    Head(s.replies, Unsent(s.slave), Unreceived(s.consumer, a));
  }

  lemma ReplyRank(s: State)
    requires Inv(s) && s.slave.Answering?
    ensures Rank(Step(s, SlaveStep)) < Rank(s)
  {
    hide ReceivingFor, Unreceived;
    assert Answered(s, s.consumer.op);
  }

  lemma ResponseShort(a: Answer)
    ensures 0 < |Response(a)| <= 3
  {
  }

  lemma ActRank(s: State, a: Answer)
    requires Inv(s) && s.slave.Acting? && Possible(s.slave.op, a)
    ensures Rank(Step(s, SlaveAct(a))) < Rank(s)
  {
    hide Inv, Response, Possible, Unread;
    ResponseShort(a);
    ActingFacts(s);
  }

  lemma AcceptRank(s: State)
    requires Inv(s) && Reading(s.slave) && s.requests != []
    ensures Rank(Step(s, SlaveStep)) < Rank(s)
  {
    hide ReadingFor, Unread, Accept, ReceivingFor;
    var op := s.consumer.op;
    var rest := if s.consumer.Sending? then s.consumer.rest else [];
    AcceptKeepsAsking(s, op, rest);
    AcceptShrinks(s, op, rest);
  }

  lemma AcceptShrinks(s: State, op: Op, rest: seq<Msg>)
    requires s.allocBytes > DATA_BUFSIZE && Asking(s, op, rest) && s.requests != []
    ensures var t := Accept(s.(requests := s.requests[1..]), s.requests[0]);
      t.done == s.done ==> |Unread(t.slave, op)| < |Unread(s.slave, op)|
  {
    Head(s.requests, rest, Unread(s.slave, op));
  }

  /** Every step of an operation brings it nearer its end, so an operation takes at most 13 steps. */
  lemma Progress(s: State, e: Event)
    requires Inv(s) && Enabled(s, e) && !e.Start? && !e.OpenData?
    ensures Rank(Step(s, e)) < Rank(s) <= 13
  {
    hide Asking, Answered, Quiet, Rank;
    RankBound(s);
    match e
    case ConsumerStep => if s.consumer.Sending? { SendRank(s); } else { ReceiveRank(s); }
    case SlaveStep => if s.slave.Answering? { ReplyRank(s); } else { AcceptRank(s); }
    case SlaveAct(a) => ActRank(s, a);
  }

  /** Steps within one operation, each of which changes the state. */
  predicate Effective(s: State, events: seq<Event>)
    decreases |events|
  {
    events == []
    || (!events[0].Start? && !events[0].OpenData? && Enabled(s, events[0]) && Effective(Step(s, events[0]), events[1..]))
  }

  /** However the two sides are scheduled, an operation is over after at most 13 effective steps. */
  lemma {:induction false} OperationEnds(s: State, events: seq<Event>)
    requires Inv(s) && Effective(s, events)
    ensures |events| <= Rank(s) <= 13
    decreases |events|
  {
    hide Step, Rank, Inv;
    RankBound(s);
    if events != [] {
      Progress(s, events[0]);
      StepKeeps(s, events[0]);
      OperationEnds(Step(s, events[0]), events[1..]);
    }
  }

  /** The consumer never waits for a reply that will not come: until the operation is over, one side can move. */
  lemma NeverStuck(s: State)
    requires Inv(s) && s.consumer != Ready
    ensures Enabled(s, ConsumerStep) || Enabled(s, SlaveStep)
         || (s.slave.Acting? && forall a :: Possible(s.slave.op, a) ==> Enabled(s, SlaveAct(a)))
  {
    hide ReceivingFor, Unreceived, Receive, Accept, Possible, Response;
    var c := s.consumer;
    if c.Sending? {
      assert |Step(s, ConsumerStep).requests| == |s.requests| + 1;
    } else if s.replies != [] {
      ReceiveDrains(s);
    } else if |s.done| > |s.asked| {
      ReceiveParses(s, s.done[|s.asked|].1);
      assert s.slave.Answering?;
      assert |Step(s, SlaveStep).replies| == |s.replies| + 1;
    } else if !s.slave.Acting? {
      UnreadNonempty(s.slave, c.op);
      AcceptDrains(s);
    } else {
      assert forall a :: Act(s, s.slave.op, a).slave.Answering?;
    }
  }

  lemma UnreadNonempty(v: Slave, op: Op)
    requires ReadingFor(v, op) && !v.Acting?
    ensures Unread(v, op) != [] && Reading(v)
  {}

  lemma ReceiveDrains(s: State)
    requires Waiting(s.consumer) && s.replies != []
    ensures |Step(s, ConsumerStep).replies| == |s.replies| - 1
  {}

  lemma AcceptDrains(s: State)
    requires Reading(s.slave) && s.requests != []
    ensures |Step(s, SlaveStep).requests| == |s.requests| - 1
  {}

  /** A tunable from 4096 up is asked for as it is, a smaller positive one as 4096, and any other as the whole buffer; the
      slave takes each of these. */
  lemma ChunkSizeInLimits(tunable: int)
    ensures InLimits(Read(ChunkSize(tunable)))
    ensures 4096 <= tunable < 65536 ==> ChunkSize(tunable) == tunable
    ensures 0 < tunable < 4096 ==> ChunkSize(tunable) == 4096
    ensures tunable <= 0 || tunable >= 65536 ==> ChunkSize(tunable) == 65536
  {}

  /** The length or size that the request of a limited operation announces. */
  function Announced(op: Op): int {
    match op
    case Read(len) => len
    case WriteReply(text) => |text|
    case Write(data) => |data|
    case _ => 0
  }

  function Command(op: Op): Cmd {
    if op.Read? then SslRead else if op.Write? then SslWrite else WriteUserResp
  }

  lemma RequestShape(op: Op)
    requires !InLimits(op)
    ensures |Request(op)| >= 2 && Request(op)[0] == CmdMsg(Command(op)) && Request(op)[1] == IntMsg(Announced(op))
  {
  }

  /** What is left of a request when its first two messages are on the way. */
  lemma SendTwo(s: State, op: Op)
    requires !InLimits(op) && s.consumer == Sending(op, Request(op)) && s.requests == []
    ensures Step(Step(s, ConsumerStep), ConsumerStep)
         == s.(requests := [CmdMsg(Command(op)), IntMsg(Announced(op))],
               consumer := if |Request(op)| == 2 then FirstWait(op) else Sending(op, Request(op)[2..]))
  {
    hide Request, InLimits, FirstWait;
    RequestShape(op);
    var s1 := Step(s, ConsumerStep);
    assert s1.requests == [CmdMsg(Command(op))];
    assert Request(op)[1..][1..] == Request(op)[2..];
    assert Step(s1, ConsumerStep).requests == [CmdMsg(Command(op)), IntMsg(Announced(op))];
  }

  /** A slave in a good state dies on the second message of a request beyond its limits. */
  lemma TakeTwo(t: State, op: Op)
    requires !InLimits(op) && t.slave == Idle && t.requests == [CmdMsg(Command(op)), IntMsg(Announced(op))]
    requires op.WriteReply? || (t.fd && t.ssl)
    ensures Step(Step(t, SlaveStep), SlaveStep).slave == SlaveDead
  {
    var t1 := Step(t, SlaveStep);
    assert t1.requests == [IntMsg(Announced(op))];
    assert t1.slave == if op.Read? then WantSize else if op.Write? then WantDataLen else WantReplyLen;
  }

  const KILLING: seq<Event> := [ConsumerStep, ConsumerStep, SlaveStep, SlaveStep]

  /** A request beyond the limits makes the slave die two messages into it. */
  lemma OversizeKills(s: State, op: Op)
    requires Inv(s) && s.consumer == Ready && InOrder(s.phase, op) && !InLimits(op)
    ensures Run(Step(s, Start(op)), KILLING).slave == SlaveDead
  {
    hide Run, Request, FirstWait, InLimits;
    var s1 := Step(s, Start(op));
    SendTwo(s1, op);
    var s3 := Step(Step(s1, ConsumerStep), ConsumerStep);
    SecuredForTransfer(s, op);
    TakeTwo(s3, op);
    RunFour(s1, ConsumerStep, ConsumerStep, SlaveStep, SlaveStep);
  }

  lemma SecuredForTransfer(s: State, op: Op)
    requires Inv(s) && s.consumer == Ready && InOrder(s.phase, op)
    ensures s.slave == Idle && s.requests == []
    ensures op.Read? || op.Write? ==> s.fd && s.ssl
    ensures !InLimits(op) ==> op.Read? || op.Write? || op.WriteReply?
  {
  }

  /** The limits are exact: an operation is safe in every schedule, whatever limited operations follow, exactly when it
      keeps to them. */
  lemma LimitsExact(s: State, op: Op)
    requires Inv(s) && s.consumer == Ready && InOrder(s.phase, op)
    ensures InLimits(op) <==> forall events :: Limited(events) ==> Run(Step(s, Start(op)), events).slave != SlaveDead
  {
    hide Inv, Run, Step, InLimits, InOrder;
    var t := Step(s, Start(op));
    if InLimits(op) {
      StepKeeps(s, Start(op));
      forall events | Limited(events)
        ensures Run(t, events).slave != SlaveDead
      {
        RunKeeps(t, events);
        InvAlive(Run(t, events));
      }
    } else {
      OversizeKills(s, op);
      assert Limited(KILLING);
    }
  }

  /** The limits in bytes. */
  lemma LimitsInBytes(op: Op)
    ensures InLimits(op) <==>
      && (op.Read? ==> 1 <= op.len <= 65536)
      && (op.Write? ==> |op.data| <= 131072)
      && (op.WriteReply? ==> |op.text| <= 131072)
  {
  }

  lemma RunFour(s: State, a: Event, b: Event, c: Event, d: Event)
    ensures Run(s, [a, b, c, d]) == Step(Step(Step(Step(s, a), b), c), d)
  {
    hide Step;
    assert [a, b, c, d][..3] == [a, b, c] && [a, b, c][..2] == [a, b] && [a, b][..1] == [a] && [a][..0] == [];
    assert Run(s, [a]) == Step(Run(s, []), a);
    assert Run(s, [a, b]) == Step(Run(s, [a]), b);
    assert Run(s, [a, b, c]) == Step(Run(s, [a, b]), c);
  }
}
