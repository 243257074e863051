/** The order in which a session uses the SSL slave, and that the relay serves every session that keeps to it. */
module RelayOrder {
  import opened Wrappers
  import opened SslRelay

  /** What a session does with the relay, replies aside: it opens a data connection, or it has an operation done. The
      mark tells the outcome of a handshake and of a close. */
  datatype Use = DataOpened | Used(op: Op, ok: bool)

  /** Closing after a failed handshake finds nothing open and succeeds. */
  predicate Allowed(phase: Phase, u: Use) {
    match u
    case DataOpened => phase == NoData
    case Used(op, ok) =>
      && InOrder(phase, op) && !op.WriteReply?
      && (op.Handshake? || (op.Close? && phase == Secured) || ok)
  }

  function NextPhase(phase: Phase, u: Use): Phase {
    match u
    case DataOpened => Opened
    case Used(op, ok) =>
      if op == Handshake then (if ok then Secured else Failed) else if op == Close then NoData else phase
  }

  /** The phase after a series of uses, if each was allowed when it happened. */
  function PhaseAfter(uses: seq<Use>): Option<Phase> {
    if uses == [] then Some(NoData)
    else
      var u := uses[|uses| - 1];
      match PhaseAfter(uses[..|uses| - 1])
      case None => None
      case Some(phase) => if Allowed(phase, u) then Some(NextPhase(phase, u)) else None
  }

  /** A session's record: in order, and within the slave's limits. */
  ghost predicate Orderly(uses: seq<Use>) {
    PhaseAfter(uses).Some? && forall u :: u in uses && u.Used? ==> InLimits(u.op)
  }

  lemma OneMoreUse(uses: seq<Use>, phase: Phase, u: Use)
    requires PhaseAfter(uses) == Some(phase)
    ensures PhaseAfter(uses + [u]) == if Allowed(phase, u) then Some(NextPhase(phase, u)) else None
  {
    assert (uses + [u])[..|uses|] == uses;
  }

  lemma {:induction false} AllowedSoFar(uses: seq<Use>, n: nat)
    requires PhaseAfter(uses).Some? && n < |uses|
    ensures PhaseAfter(uses[..n]).Some? && Allowed(PhaseAfter(uses[..n]).value, uses[n])
    decreases |uses|
  {
    var m := |uses| - 1;
    if n < m {
      AllowedSoFar(uses[..m], n);
      assert uses[..m][..n] == uses[..n];
    }
  }

  // ------------------------------------------------------ what a run completes

  function UseOf(op: Op, a: Answer): Use {
    Used(op, op.Handshake? || op.Close? ==> a == Flag(true))
  }

  function Finished(op: Op, a: Answer): seq<Use> {
    if op.WriteReply? then [] else [UseOf(op, a)]
  }

  /** What one step of a run completes; a reply may be sent at any time and is not counted. */
  function TraceStep(s: State, e: Event): seq<Use> {
    var t := Step(s, e);
    if |t.asked| > |s.asked| then
      var (op, a) := t.asked[|t.asked| - 1];
      Finished(op, a)
    else if e == OpenData && t != s then [DataOpened]
    else []
  }

  /** The uses that a run has completed. */
  function Trace(events: seq<Event>): seq<Use> {
    if events == [] then []
    else
      var n := |events| - 1;
      Trace(events[..n]) + TraceStep(Run(INIT, events[..n]), events[n])
  }

  lemma FinishTraces(s: State, op: Op, a: Answer)
    ensures var t := Finish(s, op, a);
      && t.asked == s.asked + [(op, a)] && t.done == s.done && t.consumer == Ready
      && t.phase == if op.WriteReply? then s.phase else NextPhase(s.phase, UseOf(op, a))
  {
  }

  /** A message either completes the consumer's operation or leaves the phase alone. */
  lemma ReceiveTraces(s: State, m: Msg)
    requires Waiting(s.consumer)
    ensures var t := Receive(s, m);
      && t.done == s.done
      && if t.asked == s.asked then t.phase == s.phase && t.consumer != Ready
         else exists a :: t == Finish(s, s.consumer.op, a)
    ensures var t := Receive(s, m); t.asked == s.asked && t.consumer != ConsumerDead ==> Waiting(t.consumer) && t.consumer.op == s.consumer.op
  {
  }

  lemma AcceptTraces(s: State, m: Msg)
    ensures var t := Accept(s, m); t.asked == s.asked && t.phase == s.phase && t.consumer == s.consumer
  {
  }

  lemma BusyInOrder(s: State)
    requires Inv(s) && Waiting(s.consumer) && s.replies != []
    ensures InOrder(s.phase, s.consumer.op)
    ensures |s.done| == |s.asked| + 1 && s.done == s.asked + [s.done[|s.asked|]] && s.done[|s.asked|].0 == s.consumer.op
    ensures s.consumer.op == Close && s.phase == Failed ==> s.done[|s.asked|].1 == Flag(true)
  {
    hide InOrder, InLimits;
    NotAsking(s);
    assert Answered(s, s.consumer.op);
  }

  /** The answer that completes an operation is the one the slave gave. */
  lemma ReceivedAnswer(s: State)
    requires Inv(s) && Waiting(s.consumer) && s.replies != []
    ensures var t := Step(s, ConsumerStep);
      && t.done == s.done
      && (if t.consumer == Ready then t == Finish(s.(replies := s.replies[1..]), s.consumer.op, s.done[|s.asked|].1)
          else t.asked == s.asked && t.phase == s.phase && Waiting(t.consumer) && t.consumer.op == s.consumer.op)
  {
    hide Inv, Receive, Finish, InOrder;
    var r, t := s.(replies := s.replies[1..]), Step(s, ConsumerStep);
    BusyInOrder(s);
    ReceiveTraces(r, s.replies[0]);
    ReceiveKeeps(s);
    InvAlive(t);
    if t.asked != s.asked {
      var a :| t == Finish(r, s.consumer.op, a);
      FinishTraces(r, s.consumer.op, a);
      ReadyQuiet(t);
      assert (s.asked + [(s.consumer.op, a)])[|s.asked|] == s.done[|s.asked|];
    }
  }

  lemma ReadyQuiet(s: State)
    requires Inv(s) && s.consumer == Ready
    ensures Quiet(s)
  {
  }

  lemma StepTraces(s: State, e: Event)
    requires Inv(s)
    ensures var u := TraceStep(s, e);
      if u == [] then Step(s, e).phase == s.phase
      else |u| == 1 && Allowed(s.phase, u[0]) && Step(s, e).phase == NextPhase(s.phase, u[0])
  {
    hide Inv, Receive, Accept, Finish, InOrder;
    match e
    case OpenData =>
    case Start(_) =>
    case ConsumerStep =>
      if Waiting(s.consumer) && s.replies != [] {
        BusyInOrder(s);
        ReceivedAnswer(s);
        FinishTraces(s.(replies := s.replies[1..]), s.consumer.op, s.done[|s.asked|].1);
        MarkAllowed(s.phase, s.consumer.op, s.done[|s.asked|].1);
      }
    case SlaveStep =>
      if Reading(s.slave) && s.requests != [] {
        AcceptTraces(s.(requests := s.requests[1..]), s.requests[0]);
      }
    case SlaveAct(_) =>
  }

  lemma MarkAllowed(phase: Phase, op: Op, a: Answer)
    requires InOrder(phase, op) && (op == Close && phase == Failed ==> a == Flag(true))
    ensures !op.WriteReply? ==> Allowed(phase, UseOf(op, a))
  {
  }

  /** The phase of a run is the one its uses lead to. */
  lemma {:induction false} PhaseIsTraced(events: seq<Event>)
    requires Limited(events)
    ensures PhaseAfter(Trace(events)) == Some(Run(INIT, events).phase)
  {
    hide Inv, Step, Allowed, NextPhase, TraceStep, InLimits;
    if events != [] {
      var n := |events| - 1;
      var front, e := events[..n], events[n];
      PhaseIsTraced(front);
      RelaySafe(front);
      var s := Run(INIT, front);
      StepTraces(s, e);
      var u := TraceStep(s, e);
      if u == [] {
        assert Trace(events) == Trace(front);
      } else {
        assert u == [u[0]];
        OneMoreUse(Trace(front), s.phase, u[0]);
      }
    } else {
      assert INIT.phase == NoData;
    }
  }

  /** The relay never holds an orderly session up: after any run that has completed the first of its uses, with any
      replies in between, the relay takes the next; and if that is the next command, the slave holds nothing. */
  lemma NextUseTaken(events: seq<Event>, uses: seq<Use>)
    requires Limited(events) && Orderly(uses) && Trace(events) < uses && Run(INIT, events).consumer == Ready
    ensures var s, u := Run(INIT, events), uses[|Trace(events)|];
      && (u.DataOpened? ==> Step(s, OpenData) == s.(phase := Opened))
      && (u.Used? ==> Step(s, Start(u.op)) == s.(consumer := Sending(u.op, Request(u.op))))
      && (u.Used? && u.op == GetLine ==> !s.fd && !s.ssl)
  {
    hide PhaseAfter, Run, Trace;
    PhaseIsTraced(events);
    CleanBetweenCommands(events);
    var n := |Trace(events)|;
    AllowedSoFar(uses, n);
    assert uses[..n] == Trace(events);
  }

  // --------------------------------------------------- every session is served

  /** Some limited run completes these uses and ends in this state. */
  ghost predicate Serves(s: State, uses: seq<Use>) {
    exists events :: Limited(events) && Run(INIT, events) == s && Trace(events) == uses
  }

  lemma ServesInv(s: State, uses: seq<Use>)
    requires Serves(s, uses)
    ensures Inv(s) && PhaseAfter(uses) == Some(s.phase)
  {
    hide Inv, Run, Trace, PhaseAfter;
    var events :| Limited(events) && Run(INIT, events) == s && Trace(events) == uses;
    RelaySafe(events);
    PhaseIsTraced(events);
  }

  lemma ServesNext(s: State, uses: seq<Use>, e: Event)
    requires Serves(s, uses) && (e.Start? ==> InLimits(e.op))
    ensures Serves(Step(s, e), uses + TraceStep(s, e))
  {
    hide Step, TraceStep, InLimits;
    var events :| Limited(events) && Run(INIT, events) == s && Trace(events) == uses;
    var more := events + [e];
    assert more[..|events|] == events;
    assert Limited(more) && Run(INIT, more) == Step(s, e) && Trace(more) == uses + TraceStep(s, e);
  }

  /** The consumer is waiting for `op` to be done, and `a` is, or may be, the answer. */
  ghost predicate Expected(s: State, op: Op, a: Answer) {
    && Inv(s) && (s.consumer.Sending? || Waiting(s.consumer)) && s.consumer.op == op
    && if |s.done| == |s.asked| then Possible(op, a) && (op == Close && s.phase == Failed ==> a == Flag(true))
       else s.done == s.asked + [(op, a)]
  }

  lemma ConsumerExpected(s: State, op: Op, a: Answer)
    requires Expected(s, op, a) && Enabled(s, ConsumerStep)
    ensures var t := Step(s, ConsumerStep);
      if t.consumer == Ready then t.asked == s.asked + [(op, a)] else Expected(t, op, a) && t.asked == s.asked
  {
    hide Inv, Possible, Receive, Finish, Request;
    StepKeeps(s, ConsumerStep);
    if Waiting(s.consumer) {
      BusyInOrder(s);
      ReceivedAnswer(s);
      FinishTraces(s.(replies := s.replies[1..]), op, s.done[|s.asked|].1);
    }
  }

  lemma AcceptExpected(s: State, op: Op, a: Answer)
    requires Expected(s, op, a) && Reading(s.slave) && s.requests != []
    ensures var t := Step(s, SlaveStep); Expected(t, op, a) && t.asked == s.asked
  {
    hide Accept, Possible, Request, Response, ReadingFor, Unread;
    StepKeeps(s, SlaveStep);
    var rest := if s.consumer.Sending? then s.consumer.rest else [];
    AcceptKeepsAsking(s, op, rest);
    AcceptTraces(s.(requests := s.requests[1..]), s.requests[0]);
  }

  lemma SlaveExpected(s: State, op: Op, a: Answer)
    requires Expected(s, op, a) && Enabled(s, SlaveStep)
    ensures var t := Step(s, SlaveStep); Expected(t, op, a) && t.asked == s.asked
  {
    hide Inv, Accept, Possible;
    StepKeeps(s, SlaveStep);
    if Reading(s.slave) && s.requests != [] { AcceptExpected(s, op, a); }
  }

  lemma ActExpected(s: State, op: Op, a: Answer)
    requires Expected(s, op, a) && s.slave.Acting?
    ensures Possible(s.slave.op, a)
    ensures var t := Step(s, SlaveAct(a)); Expected(t, op, a) && t.asked == s.asked
  {
    hide Inv, Possible, Response;
    ActingFacts(s);
    StepKeeps(s, SlaveAct(a));
    AskingDone(s);
  }

  lemma AskingDone(s: State)
    requires Inv(s) && s.slave.Acting?
    ensures s.done == s.asked
  {
    hide InOrder, InLimits, Request;
  }

  /** An operation that is under way can be brought to its end with any answer the slave may give. */
  lemma {:induction false} Completes(s: State, uses: seq<Use>, op: Op, a: Answer)
    requires Serves(s, uses) && Expected(s, op, a) && !op.WriteReply?
    ensures exists t :: Serves(t, uses + [UseOf(op, a)]) && t.consumer == Ready
    decreases Rank(s)
  {
    hide Inv, Serves, Step, Rank, Possible, Allowed, Expected;
    var e := ChooseStep(s, op, a);
    ServesNext(s, uses, e);
    Progress(s, e);
    var t := Step(s, e);
    if t.consumer == Ready {
      assert TraceStep(s, e) == [UseOf(op, a)];
    } else {
      assert TraceStep(s, e) == [];
      assert uses + [] == uses;
      Completes(t, uses, op, a);
    }
  }

  lemma ChooseStep(s: State, op: Op, a: Answer) returns (e: Event)
    requires Expected(s, op, a)
    ensures Inv(s) && Enabled(s, e) && !e.Start? && !e.OpenData?
    ensures var t := Step(s, e);
      if t.consumer == Ready then t.asked == s.asked + [(op, a)] else Expected(t, op, a) && t.asked == s.asked
  {
    hide Inv, Step, Possible;
    NeverStuck(s);
    if Enabled(s, ConsumerStep) {
      e := ConsumerStep;
      ConsumerExpected(s, op, a);
    } else if Enabled(s, SlaveStep) {
      e := SlaveStep;
      SlaveExpected(s, op, a);
      ExpectedBusy(Step(s, SlaveStep), op, a);
    } else {
      e := SlaveAct(a);
      ActExpected(s, op, a);
      ExpectedBusy(Step(s, SlaveAct(a)), op, a);
    }
  }

  lemma ExpectedBusy(s: State, op: Op, a: Answer)
    requires Expected(s, op, a)
    ensures s.consumer != Ready
  {
  }

  /** An answer with the mark that the session recorded. */
  function AnswerFor(op: Op, ok: bool): Answer {
    match op
    case GetLine => Line(0, [])
    case WriteReply(_) => Count(0)
    case Handshake => Flag(ok)
    case Read(_) => Data(0, [])
    case Write(_) => Count(0)
    case Close => Flag(ok)
  }

  lemma AnswerForUse(phase: Phase, op: Op, ok: bool)
    requires Allowed(phase, Used(op, ok)) && InLimits(op)
    ensures var a := AnswerFor(op, ok);
      Possible(op, a) && UseOf(op, a) == Used(op, ok) && (op == Close && phase == Failed ==> a == Flag(true))
  {
  }

  lemma OneUse(s: State, uses: seq<Use>, u: Use)
    requires Serves(s, uses) && s.consumer == Ready && Allowed(s.phase, u) && (u.Used? ==> InLimits(u.op))
    ensures exists t :: Serves(t, uses + [u]) && t.consumer == Ready
  {
    hide Inv, Serves, InOrder, InLimits, Possible, Request;
    ServesInv(s, uses);
    match u
    case DataOpened =>
      ServesNext(s, uses, OpenData);
      assert TraceStep(s, OpenData) == [DataOpened];
      assert Step(s, OpenData).consumer == Ready;
    case Used(op, ok) =>
      ServesNext(s, uses, Start(op));
      AnswerForUse(s.phase, op, ok);
      var t := Step(s, Start(op));
      assert TraceStep(s, Start(op)) == [] && uses + [] == uses;
      StepKeeps(s, Start(op));
      ReadyQuiet(s);
      assert Expected(t, op, AnswerFor(op, ok));
      Completes(t, uses, op, AnswerFor(op, ok));
  }

  /** Every orderly session is served: some run of the two processes completes exactly its uses, with the outcomes it
      recorded, and ends between operations with the slave holding a connection just when the session has one. */
  lemma {:induction false} SessionServed(uses: seq<Use>)
    requires Orderly(uses)
    ensures exists s :: Serves(s, uses) && s.consumer == Ready && s.phase == PhaseAfter(uses).value
              && s.fd == s.ssl == (s.phase == Secured)
  {
    hide Inv, Serves, Allowed, Step;
    var s: State;
    if uses == [] {
      ServesNothing();
      s := INIT;
    } else {
      var n := |uses| - 1;
      var front, u := uses[..n], uses[n];
      assert u in uses;
      SessionServed(front);
      var r :| Serves(r, front) && r.consumer == Ready && r.phase == PhaseAfter(front).value;
      AllowedSoFar(uses, n);
      OneUse(r, front, u);
      assert uses == front + [u];
      s :| Serves(s, uses) && s.consumer == Ready;
    }
    ServesInv(s, uses);
    ReadyQuiet(s);
  }

  lemma ServesNothing()
    ensures Serves(INIT, []) && INIT.consumer == Ready
  {
    var none: seq<Event> := [];
    assert Limited(none) && Run(INIT, none) == INIT && Trace(none) == [];
  }
}
