/** The two-process model: the session process has its privileged calls made by a parent, over two first-in first-out
    channels. Whatever the schedule, it sees what it would have seen making the calls itself. */
module Broker {
  import opened Defs

  datatype Call = Active | Cleanup | Listen | Accept | GetSocket(port: int) | Chown

  datatype Answer = IsActive(on: bool) | Bound(port: int) | Done | Socket | Refused(code: int)

  // ------------------------------------------------------------ direct calls

  datatype Effect = Dies | Gives(listening: bool, answer: Answer)

  /** What a privileged call may do, given whether the process listens. Its own checks, and a failing bind, kill it. */
  predicate Possible(listening: bool, c: Call, e: Effect) {
    match c
    case Active => e == Gives(listening, IsActive(listening))
    case Cleanup => e == Gives(false, Done)
    case Listen => e == Dies || (!listening && e.Gives? && e.listening && e.answer.Bound?)
    case Accept =>
      if !listening then e == Dies
      else e == Gives(true, Socket) || e == Gives(true, Refused(-1)) || e == Gives(true, Refused(-2))
    case GetSocket(port) =>
      e == Dies || (!listening && port >= PORT_RESERVED && (e == Gives(false, Socket) || e == Gives(false, Refused(-1))))
    case Chown => e == Gives(listening, Done)
  }

  /** One process making the calls itself, from a start without a listener, may get these answers and end up so. */
  ghost predicate Direct(calls: seq<(Call, Answer)>, listening: bool) {
    if calls == [] then !listening
    else
      var n := |calls| - 1;
      exists before :: Direct(calls[..n], before) && Possible(before, calls[n].0, Gives(listening, calls[n].1))
  }

  // ---------------------------------------------------------------- the wire

  datatype Cmd = PasvActive | PasvCleanup | PasvListen | PasvAccept | GetDataSock | ChownFile

  datatype Msg = CmdMsg(cmd: Cmd) | IntMsg(i: int) | ResultMsg(ok: bool) | FdMsg

  function Request(c: Call): (r: seq<Msg>)
    ensures 0 < |r| <= 2
  {
    match c
    case Active => [CmdMsg(PasvActive)]
    case Cleanup => [CmdMsg(PasvCleanup)]
    case Listen => [CmdMsg(PasvListen)]
    case Accept => [CmdMsg(PasvAccept)]
    case GetSocket(port) => [CmdMsg(GetDataSock), IntMsg(port)]
    case Chown => [CmdMsg(ChownFile), FdMsg]
  }

  function Response(c: Call, a: Answer): (r: seq<Msg>)
    ensures 0 < |r| <= 2
  {
    match a
    case IsActive(on) => [IntMsg(if on then 1 else 0)]
    case Bound(port) => [IntMsg(port)]
    case Done => [ResultMsg(true)]
    case Socket => [ResultMsg(true), FdMsg]
    case Refused(code) => if c == Accept then [ResultMsg(false), IntMsg(code)] else [ResultMsg(false)]
  }

  datatype Parse<T> = More | Whole(value: T) | Bad

  /** What the parent makes of the messages of a request so far. */
  function ParseRequest(got: seq<Msg>): Parse<Call> {
    if got == [] then More
    else if !got[0].CmdMsg? then Bad
    else if |got| == 1 then
      match got[0].cmd
      case PasvActive => Whole(Active)
      case PasvCleanup => Whole(Cleanup)
      case PasvListen => Whole(Listen)
      case PasvAccept => Whole(Accept)
      case _ => More
    else if |got| == 2 && got[0].cmd == GetDataSock && got[1].IntMsg? then Whole(GetSocket(got[1].i))
    else if |got| == 2 && got[0].cmd == ChownFile && got[1].FdMsg? then Whole(Chown)
    else Bad
  }

  /** What the child makes of the messages of an answer so far. */
  function ParseAnswer(c: Call, seen: seq<Msg>): Parse<Answer> {
    if seen == [] then More
    else if |seen| == 1 then
      match c
      case Active => if seen[0].IntMsg? then Whole(IsActive(seen[0].i != 0)) else Bad
      case Listen => if seen[0].IntMsg? then Whole(Bound(seen[0].i)) else Bad
      case Cleanup => if seen[0] == ResultMsg(true) then Whole(Done) else Bad
      case Chown => if seen[0] == ResultMsg(true) then Whole(Done) else Bad
      case Accept => if seen[0].ResultMsg? then More else Bad
      case GetSocket(_) =>
        if !seen[0].ResultMsg? then Bad else if seen[0].ok then More else Whole(Refused(-1))
    else if |seen| == 2 && (c.Accept? || c.GetSocket?) && seen[0] == ResultMsg(true) && seen[1].FdMsg? then Whole(Socket)
    else if |seen| == 2 && c.Accept? && seen[0] == ResultMsg(false) && seen[1].IntMsg? then Whole(Refused(seen[1].i))
    else Bad
  }

  /** Each side knows from what it has read whether there is more to come. */
  lemma RequestParses(c: Call, got: seq<Msg>, rest: seq<Msg>)
    requires got + rest == Request(c)
    ensures ParseRequest(got) == if rest == [] then Whole(c) else More
  {
    assert got == Request(c)[..|got|];
  }

  lemma AnswerParses(listening: bool, c: Call, e: Effect, seen: seq<Msg>, rest: seq<Msg>)
    requires e.Gives? && Possible(listening, c, e) && seen + rest == Response(c, e.answer)
    ensures ParseAnswer(c, seen) == if rest == [] then Whole(e.answer) else More
  {
    assert seen == Response(c, e.answer)[..|seen|];
  }

  // ------------------------------------------------------------- the machine

  datatype Child = Ready | Sending(call: Call, rest: seq<Msg>) | Reading(call: Call, seen: seq<Msg>) | ChildDead

  datatype Parent = Taking(got: seq<Msg>) | Acting(call: Call) | Answering(rest: seq<Msg>) | ParentDead

  /** `done` lists what the parent has carried out, `asked` what the child has seen answered. */
  datatype State = State(
    child: Child, parent: Parent, listening: bool, requests: seq<Msg>, replies: seq<Msg>,
    done: seq<(Call, Answer)>, asked: seq<(Call, Answer)>)

  const INIT := State(Ready, Taking([]), false, [], [], [], [])

  datatype Event = Start(call: Call) | ChildStep | ParentStep | ParentAct(effect: Effect)

  /** The child takes one message. */
  function Receive(s: State, m: Msg): State
    requires s.child.Reading?
  {
    var c, seen := s.child.call, s.child.seen + [m];
    match ParseAnswer(c, seen)
    case More => s.(child := Reading(c, seen))
    case Whole(a) => s.(child := Ready, asked := s.asked + [(c, a)])
    case Bad => s.(child := ChildDead)
  }

  /** The parent takes one message. */
  function Take(s: State, m: Msg): State
    requires s.parent.Taking?
  {
    var got := s.parent.got + [m];
    match ParseRequest(got)
    case More => s.(parent := Taking(got))
    case Whole(c) => s.(parent := Acting(c))
    case Bad => s.(parent := ParentDead)
  }

  /** One step of the two processes; an event that is not possible changes nothing. */
  function Step(s: State, e: Event): State {
    match e
    case Start(c) => if s.child == Ready then s.(child := Sending(c, Request(c))) else s
    case ChildStep =>
      if s.child.Sending? && s.child.rest != [] then
        var rest := s.child.rest[1..];
        s.(requests := s.requests + [s.child.rest[0]],
           child := if rest == [] then Reading(s.child.call, []) else Sending(s.child.call, rest))
      else if s.child.Reading? && s.replies != [] then
        Receive(s.(replies := s.replies[1..]), s.replies[0])
      else s
    case ParentStep =>
      if s.parent.Taking? && s.requests != [] then
        Take(s.(requests := s.requests[1..]), s.requests[0])
      else if s.parent.Answering? && s.parent.rest != [] then
        var rest := s.parent.rest[1..];
        s.(replies := s.replies + [s.parent.rest[0]], parent := if rest == [] then Taking([]) else Answering(rest))
      else s
    case ParentAct(effect) =>
      if s.parent.Acting? && Possible(s.listening, s.parent.call, effect) then
        match effect
        case Dies => s.(parent := ParentDead)
        case Gives(listening, a) =>
          s.(listening := listening, parent := Answering(Response(s.parent.call, a)), done := s.done + [(s.parent.call, a)])
      else s
  }

  function Run(s: State, events: seq<Event>): State {
    if events == [] then s else Step(Run(s, events[..|events| - 1]), events[|events| - 1])
  }

  // ----------------------------------------------------------- the invariant

  /** The parent has not yet acted on `c`, of which the child has `rest` still to send. */
  predicate Asking(s: State, c: Call, rest: seq<Msg>) {
    && s.done == s.asked && s.replies == []
    && match s.parent
       case Taking(got) => got + s.requests + rest == Request(c) && s.requests + rest != []
       case Acting(call) => call == c && s.requests == [] && rest == []
       case _ => false
  }

  function Unsent(p: Parent): seq<Msg> { if p.Answering? then p.rest else [] }

  /** The parent has acted on `c` and the child has seen part of the answer. */
  ghost predicate Answered(s: State, c: Call, seen: seq<Msg>) {
    && s.requests == [] && (s.parent == Taking([]) || (s.parent.Answering? && s.parent.rest != []))
    && |s.done| == |s.asked| + 1 && s.done[..|s.asked|] == s.asked && s.done[|s.asked|].0 == c
    && var a := s.done[|s.asked|].1;
       && (exists l, k :: Possible(l, c, Gives(k, a)))
       && seen + s.replies + Unsent(s.parent) == Response(c, a)
       && s.replies + Unsent(s.parent) != []
  }

  ghost predicate Inv(s: State) {
    && Direct(s.done, s.listening)
    && match s.child
       case Ready => s.parent == Taking([]) && s.requests == [] && s.replies == [] && s.done == s.asked
       case Sending(c, rest) => rest != [] && Asking(s, c, rest)
       case Reading(c, seen) => (seen == [] && Asking(s, c, [])) || Answered(s, c, seen)
       case ChildDead => false
  }

  lemma StartKeeps(s: State, c: Call)
    requires Inv(s)
    ensures Inv(Step(s, Start(c)))
  {
    assert [] + [] + Request(c) == Request(c);
  }

  lemma SendKeeps(s: State)
    requires Inv(s) && s.child.Sending?
    ensures Inv(Step(s, ChildStep))
  {
    hide Direct;
    var rest := s.child.rest;
    assert s.requests + [rest[0]] + rest[1..] == s.requests + rest;
    if s.parent.Taking? {
      assert s.parent.got + (s.requests + [rest[0]]) + rest[1..] == s.parent.got + s.requests + rest;
    }
  }

  lemma TakeAsks(s: State, c: Call, rest: seq<Msg>)
    requires Asking(s, c, rest) && s.parent.Taking? && s.requests != []
    ensures var t := Take(s.(requests := s.requests[1..]), s.requests[0]);
      Asking(t, c, rest) && t == s.(requests := t.requests, parent := t.parent) && t.parent != ParentDead
  {
    hide ParseRequest, Request;
    var got, more := s.parent.got + [s.requests[0]], s.requests[1..] + rest;
    assert s.requests == [s.requests[0]] + s.requests[1..];
    assert got + more == s.parent.got + s.requests + rest;
    RequestParses(c, got, more);
    assert got + s.requests[1..] + rest == got + more;
  }

  /** Requests on the way mean that the parent has not yet acted. */
  lemma RequestsMeanAsking(s: State)
    requires Inv(s) && s.requests != []
    ensures s.child.Sending? ==> Asking(s, s.child.call, s.child.rest)
    ensures !s.child.Sending? ==> s.child.Reading? && s.child.seen == [] && Asking(s, s.child.call, [])
  {
  }

  lemma TakeKeeps(s: State)
    requires Inv(s) && s.parent.Taking? && s.requests != []
    ensures Inv(Step(s, ParentStep)) && Step(s, ParentStep).parent != ParentDead
  {
    hide Direct, Asking, Answered, Take;
    RequestsMeanAsking(s);
    TakeAsks(s, s.child.call, if s.child.Sending? then s.child.rest else []);
  }

  lemma ReplyAnswers(s: State, c: Call, seen: seq<Msg>)
    requires Answered(s, c, seen) && s.parent.Answering?
    ensures Answered(Step(s, ParentStep), c, seen)
  {
    hide Response, Possible;
    var rest := s.parent.rest;
    assert s.replies + [rest[0]] + rest[1..] == s.replies + rest;
    assert seen + (s.replies + [rest[0]]) + rest[1..] == seen + s.replies + rest;
    assert s.replies + [rest[0]] + [] == s.replies + [rest[0]];
  }

  lemma AnsweringMeansAnswered(s: State)
    requires Inv(s) && s.parent.Answering?
    ensures s.child.Reading? && Answered(s, s.child.call, s.child.seen)
  {
  }

  lemma ReplyKeeps(s: State)
    requires Inv(s) && s.parent.Answering? && s.parent.rest != []
    ensures Inv(Step(s, ParentStep))
  {
    hide Direct, Asking, Answered;
    AnsweringMeansAnswered(s);
    ReplyAnswers(s, s.child.call, s.child.seen);
  }

  lemma DirectGrows(calls: seq<(Call, Answer)>, before: bool, c: Call, a: Answer, listening: bool)
    requires Direct(calls, before) && Possible(before, c, Gives(listening, a))
    ensures Direct(calls + [(c, a)], listening)
  {
    assert (calls + [(c, a)])[..|calls|] == calls;
  }

  lemma ActKeeps(s: State, e: Effect)
    requires Inv(s) && e.Gives?
    ensures Inv(Step(s, ParentAct(e)))
  {
    hide Direct, Possible;
    if s.parent.Acting? && Possible(s.listening, s.parent.call, e) {
      var c, t := s.parent.call, Step(s, ParentAct(e));
      DirectGrows(s.done, s.listening, c, e.answer, e.listening);
      assert t.done[..|t.asked|] == t.asked;
      assert [] + [] + Response(c, e.answer) == Response(c, e.answer);
      assert [] + Response(c, e.answer) == Response(c, e.answer);
      assert Possible(s.listening, c, Gives(e.listening, e.answer));
      assert Answered(t, c, []);
    }
  }

  lemma ReceiveKeeps(s: State)
    requires Inv(s) && s.child.Reading? && s.replies != []
    ensures Inv(Step(s, ChildStep))
  {
    hide Direct, ParseAnswer, Response, Possible;
    var c, m := s.child.call, s.replies[0];
    assert Answered(s, c, s.child.seen);
    var a := s.done[|s.asked|].1;
    var l, k :| Possible(l, c, Gives(k, a));
    var seen, rest := s.child.seen + [m], s.replies[1..] + Unsent(s.parent);
    assert s.replies == [m] + s.replies[1..];
    assert seen + rest == s.child.seen + s.replies + Unsent(s.parent);
    AnswerParses(l, c, Gives(k, a), seen, rest);
    if rest == [] {
      assert s.done == s.done[..|s.asked|] + [s.done[|s.asked|]];
    } else {
      assert seen + s.replies[1..] + Unsent(s.parent) == seen + rest;
    }
  }

  /** Every step keeps the invariant, as long as the parent's call does not kill it. */
  lemma StepKeeps(s: State, e: Event)
    requires Inv(s) && e != ParentAct(Dies)
    ensures Inv(Step(s, e))
  {
    match e
    case Start(c) => StartKeeps(s, c);
    case ChildStep =>
      hide Inv;
      if s.child.Sending? { SendKeeps(s); } else if s.child.Reading? && s.replies != [] { ReceiveKeeps(s); }
    case ParentStep =>
      hide Inv;
      if s.parent.Taking? && s.requests != [] { TakeKeeps(s); }
      else if s.parent.Answering? && s.parent.rest != [] { ReplyKeeps(s); }
    case ParentAct(effect) => ActKeeps(s, effect);
  }

  lemma {:induction false} RunKeeps(events: seq<Event>)
    requires ParentAct(Dies) !in events
    ensures Inv(Run(INIT, events))
  {
    hide Inv, Step;
    if events == [] {
      InitInv();
    } else {
      var n := |events| - 1;
      assert events[n] in events;
      RunKeeps(events[..n]);
      StepKeeps(Run(INIT, events[..n]), events[n]);
    }
  }

  lemma InitInv()
    ensures Inv(INIT)
  {
  }

  lemma InvAlive(s: State)
    requires Inv(s)
    ensures s.child != ChildDead && s.parent != ParentDead && s.asked <= s.done
    ensures s.child == Ready ==> s.asked == s.done
  {
    hide Direct;
    if s.child.Reading? && Answered(s, s.child.call, s.child.seen) {
      assert s.asked == s.done[..|s.asked|];
    }
  }

  /** Two processes are as good as one: in every interleaving in which no privileged call kills the parent, neither side
      reads a message as something it is not, and the calls with their answers, and the listener left behind, are what a
      single process making those calls could have got. */
  lemma TwoProcessesAreDirect(events: seq<Event>)
    requires ParentAct(Dies) !in events
    ensures var s := Run(INIT, events);
      && s.child != ChildDead && s.parent != ParentDead
      && Direct(s.done, s.listening) && s.asked <= s.done
      && (s.child == Ready ==> Direct(s.asked, s.listening))
  {
    hide Run, Direct;
    RunKeeps(events);
    InvAlive(Run(INIT, events));
  }

  // ---------------------------------------------------------------- progress

  /** Steps that the current call still needs, at most. */
  function Rank(s: State): nat {
    if !s.child.Sending? && !s.child.Reading? then 0
    else if |s.done| == |s.asked| then
      (if s.child.Sending? then 2 * |s.child.rest| else 0) + |s.requests| + (if s.parent.Taking? then 6 else 5)
    else 2 * |Unsent(s.parent)| + |s.replies|
  }

  predicate Enabled(s: State, e: Event) { Step(s, e) != s }

  /** Until the call is over one side can move: nobody waits for a message that will not come. */
  lemma NeverStuck(s: State)
    requires Inv(s) && s.child != Ready
    ensures Enabled(s, ChildStep) || Enabled(s, ParentStep) || s.parent.Acting?
  {
    hide Direct, ParseAnswer, ParseRequest;
    if s.child.Reading? && s.replies != [] {
      assert |Step(s, ChildStep).replies| == |s.replies| - 1;
    } else if s.parent.Taking? && s.requests != [] {
      assert |Step(s, ParentStep).requests| == |s.requests| - 1;
    }
  }

  lemma AskingBound(s: State)
    requires Inv(s)
    ensures Rank(s) <= 10
  {
    hide Direct;
  }

  lemma SendRank(s: State)
    requires Inv(s) && s.child.Sending?
    ensures Rank(Step(s, ChildStep)) < Rank(s)
  {
    hide Direct, Answered, Request;
  }

  lemma ReceiveRank(s: State)
    requires Inv(s) && s.child.Reading? && s.replies != []
    ensures Rank(Step(s, ChildStep)) < Rank(s)
  {
    hide Direct, ParseAnswer, Response, Possible, Request;
    assert Answered(s, s.child.call, s.child.seen);
  }

  lemma TakeRank(s: State)
    requires Inv(s) && s.parent.Taking? && s.requests != []
    ensures Rank(Step(s, ParentStep)) < Rank(s)
  {
    hide Direct, ParseRequest, Request;
    assert |s.done| == |s.asked|;
  }

  lemma ReplyRank(s: State)
    requires Inv(s) && s.parent.Answering? && s.parent.rest != []
    ensures Rank(Step(s, ParentStep)) < Rank(s)
  {
    hide Direct, Response, Possible, Request;
    assert |s.done| == |s.asked| + 1;
  }

  lemma ActRank(s: State, e: Effect)
    requires Inv(s) && s.parent.Acting? && e.Gives? && Possible(s.listening, s.parent.call, e)
    ensures Rank(Step(s, ParentAct(e))) < Rank(s)
  {
    hide Direct, Response, Possible, Request;
    assert s.child.Reading? && s.replies == [];
  }

  /** Every step of a call brings it nearer its end, so a call takes at most ten. */
  lemma Progress(s: State, e: Event)
    requires Inv(s) && Enabled(s, e) && !e.Start? && e != ParentAct(Dies)
    ensures Rank(Step(s, e)) < Rank(s) <= 10
  {
    hide Inv, Rank;
    AskingBound(s);
    match e
    case ChildStep => if s.child.Reading? { ReceiveRank(s); } else { SendRank(s); }
    case ParentStep => if s.parent.Taking? { TakeRank(s); } else { ReplyRank(s); }
    case ParentAct(effect) => ActRank(s, effect);
  }

  // ------------------------------------------------------------- completeness

  /** Some schedule in which no call kills the parent leads from one state to the other. */
  ghost predicate Reaches(s: State, t: State) {
    exists events :: ParentAct(Dies) !in events && Run(s, events) == t
  }

  lemma ReachesSelf(s: State)
    ensures Reaches(s, s)
  {
    var none: seq<Event> := [];
    assert ParentAct(Dies) !in none && Run(s, none) == s;
  }

  lemma ReachesNext(s: State, t: State, e: Event)
    requires Reaches(s, t) && e != ParentAct(Dies)
    ensures Reaches(s, Step(t, e))
  {
    hide Step;
    var events :| ParentAct(Dies) !in events && Run(s, events) == t;
    var more := events + [e];
    assert more[..|events|] == events;
    assert ParentAct(Dies) !in more && Run(s, more) == Step(t, e);
  }

  /** A message sent and taken at once. */
  lemma PassOn(z: State, s: State)
    requires Reaches(z, s) && s.child.Sending? && s.child.rest != [] && s.parent.Taking? && s.requests == []
    ensures var rest := s.child.rest[1..];
      Reaches(z, Take(s.(child := if rest == [] then Reading(s.child.call, []) else Sending(s.child.call, rest)), s.child.rest[0]))
  {
    hide Take, Reaches;
    var t := Step(s, ChildStep);
    ReachesNext(z, s, ChildStep);
    assert t.requests == [s.child.rest[0]];
    ReachesNext(z, t, ParentStep);
    assert t.(requests := t.requests[1..])
        == s.(child := if s.child.rest[1..] == [] then Reading(s.child.call, []) else Sending(s.child.call, s.child.rest[1..]));
  }

  lemma WholeRequest(z: State, s: State, c: Call)
    requires Reaches(z, s) && s.child == Sending(c, Request(c)) && s.parent == Taking([]) && s.requests == []
    ensures Reaches(z, s.(child := Reading(c, []), parent := Acting(c)))
  {
    hide Reaches;
    var r := Request(c);
    PassOn(z, s);
    assert [] + [r[0]] == [r[0]];
    if |r| == 2 {
      var t := s.(child := Sending(c, r[1..]), parent := Taking([r[0]]));
      PassOn(z, t);
      assert [r[0]] + [r[1]] == r && r[1..][1..] == [];
    }
  }

  /** A message of the answer sent and received at once. */
  lemma PassBack(z: State, s: State)
    requires Reaches(z, s) && s.child.Reading? && s.parent.Answering? && s.parent.rest != [] && s.replies == []
    ensures var rest := s.parent.rest[1..];
      Reaches(z, Receive(s.(parent := if rest == [] then Taking([]) else Answering(rest)), s.parent.rest[0]))
  {
    hide Receive, Reaches;
    var t := Step(s, ParentStep);
    ReachesNext(z, s, ParentStep);
    assert t.replies == [s.parent.rest[0]];
    ReachesNext(z, t, ChildStep);
    assert t.(replies := t.replies[1..])
        == s.(parent := if s.parent.rest[1..] == [] then Taking([]) else Answering(s.parent.rest[1..]));
  }

  lemma WholeAnswer(z: State, s: State, l: bool, c: Call, e: Effect)
    requires e.Gives? && Possible(l, c, e)
    requires Reaches(z, s) && s.child == Reading(c, []) && s.parent == Answering(Response(c, e.answer)) && s.replies == []
    ensures Reaches(z, s.(child := Ready, parent := Taking([]), asked := s.asked + [(c, e.answer)]))
  {
    hide Reaches, ParseAnswer, Possible, Response;
    var r := Response(c, e.answer);
    AnswerParses(l, c, e, [r[0]], r[1..]);
    PassBack(z, s);
    assert [] + [r[0]] == [r[0]];
    if |r| == 2 {
      var t := s.(child := Reading(c, [r[0]]), parent := Answering(r[1..]));
      AnswerParses(l, c, e, r, []);
      PassBack(z, t);
      assert [r[0]] + [r[1]] == r && r[1..][1..] == [];
    }
  }

  /** The state between calls. */
  function Between(calls: seq<(Call, Answer)>, listening: bool): State {
    State(Ready, Taking([]), listening, [], [], calls, calls)
  }

  lemma OneCall(z: State, calls: seq<(Call, Answer)>, before: bool, c: Call, a: Answer, listening: bool)
    requires Reaches(z, Between(calls, before)) && Possible(before, c, Gives(listening, a))
    ensures Reaches(z, Between(calls + [(c, a)], listening))
  {
    hide Reaches, Possible, Response, Request;
    var s := Between(calls, before);
    ReachesNext(z, s, Start(c));
    WholeRequest(z, Step(s, Start(c)), c);
    var t := s.(child := Reading(c, []), parent := Acting(c));
    ReachesNext(z, t, ParentAct(Gives(listening, a)));
    WholeAnswer(z, Step(t, ParentAct(Gives(listening, a))), before, c, Gives(listening, a));
  }

  lemma {:induction false} DirectIsReached(calls: seq<(Call, Answer)>, listening: bool)
    requires Direct(calls, listening)
    ensures Reaches(INIT, Between(calls, listening))
  {
    hide Reaches, Possible;
    if calls == [] {
      ReachesSelf(INIT);
    } else {
      var n := |calls| - 1;
      var before :| Direct(calls[..n], before) && Possible(before, calls[n].0, Gives(listening, calls[n].1));
      DirectIsReached(calls[..n], before);
      OneCall(INIT, calls[..n], before, calls[n].0, calls[n].1, listening);
      assert calls == calls[..n] + [(calls[n].0, calls[n].1)];
    }
  }

  /** Exactly: two processes can end up, between calls, with these answers and this listener if and only if one can. */
  lemma ExactlyDirect(calls: seq<(Call, Answer)>, listening: bool)
    ensures Direct(calls, listening) <==>
              exists s :: Reaches(INIT, s) && s.child == Ready && s.asked == calls && s.listening == listening
  {
    hide Direct, Run;
    if Direct(calls, listening) {
      DirectIsReached(calls, listening);
    }
    forall s | Reaches(INIT, s) && s.child == Ready && s.asked == calls && s.listening == listening
      ensures Direct(calls, listening)
    {
      var events :| ParentAct(Dies) !in events && Run(INIT, events) == s;
      TwoProcessesAreDirect(events);
    }
  }
}
