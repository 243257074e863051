/** A logged-in session: who may open the data connection, what each command leaves behind, and what is asked of the SSL
    slave and of the privileged code on the way. */
module Session {
  import opened Wrappers
  import opened Defs
  import opened SessionSpec
  import Broker
  import SslRelay
  import RelayOrder

  // --------------------------------------------- port_active and pasv_active

  /** The two tests call each other; they return because at most one kind of connection is set up. */
  function PortActive(port: bool, pasv: bool): (active: bool)
    requires !(port && pasv)
    ensures active == port
    decreases port
  {
    if port then
      var both := PasvActive(port, pasv);
      assert !both;
      true
    else false
  }

  function PasvActive(port: bool, pasv: bool): (active: bool)
    requires !(port && pasv)
    ensures active == pasv
    decreases pasv
  {
    if pasv then
      var both := PortActive(port, pasv);
      assert !both;
      true
    else false
  }

  datatype Call = InPort | InPasv | Returned

  /** One more call of the chain that starts in one of the tests. */
  function Next(c: Call, port: bool, pasv: bool): Call {
    match c
    case InPort => if port then InPasv else Returned
    case InPasv => if pasv then InPort else Returned
    case Returned => Returned
  }

  function Chain(c: Call, port: bool, pasv: bool, n: nat): Call {
    if n == 0 then c else Next(Chain(c, port, pasv, n - 1), port, pasv)
  }

  /** The chain of calls ends exactly when not both kinds are set up. */
  lemma {:induction false} ChainEndsIff(c: Call, port: bool, pasv: bool)
    requires c != Returned
    ensures !(port && pasv) <==> exists n :: Chain(c, port, pasv, n) == Returned
  {
    if port && pasv {
      forall n: nat ensures Chain(c, port, pasv, n) != Returned { NeverReturns(c, n); }
    } else {
      assert Chain(c, port, pasv, 1) == Next(Chain(c, port, pasv, 0), port, pasv);
      assert Chain(c, port, pasv, 2) == Next(Chain(c, port, pasv, 1), port, pasv);
      assert Chain(c, port, pasv, 2) == Returned;
    }
  }

  lemma {:induction false} NeverReturns(c: Call, n: nat)
    requires c != Returned
    ensures Chain(c, true, true, n) != Returned
  {
    if n > 0 { NeverReturns(c, n - 1); }
  }

  // ------------------------------------------------------- resource journal

  /** What a session opens and has to close again. */
  datatype Kind = Listener | Connection | Tls | Entry

  datatype Event = Open(kind: Kind) | Close(kind: Kind, note: Note)

  /** What is open at some moment. */
  datatype Held = Held(listener: bool, connection: bool, tls: bool, entry: bool)

  const NOTHING := Held(false, false, false, false)

  predicate Has(h: Held, k: Kind) {
    match k
    case Listener => h.listener
    case Connection => h.connection
    case Tls => h.tls
    case Entry => h.entry
  }

  function With(h: Held, k: Kind, on: bool): (r: Held)
    ensures Has(r, k) == on
    ensures forall other :: other != k ==> Has(r, other) == Has(h, other)
  {
    match k
    case Listener => h.(listener := on)
    case Connection => h.(connection := on)
    case Tls => h.(tls := on)
    case Entry => h.(entry := on)
  }

  /** An open thing is not opened again, a closed one not closed again, and TLS lives inside a connection. */
  predicate Legal(h: Held, e: Event) {
    match e
    case Open(k) => !Has(h, k) && (k == Tls ==> h.connection)
    case Close(k, _) => Has(h, k) && (k == Connection ==> !h.tls)
  }

  /** What is open after a journal of events, if every event was legal when it happened. */
  function Replay(journal: seq<Event>): Option<Held> {
    if journal == [] then Some(NOTHING)
    else
      var e := journal[|journal| - 1];
      match Replay(journal[..|journal| - 1])
      case None => None
      case Some(h) => if Legal(h, e) then Some(With(h, e.kind, e.Open?)) else None
  }

  lemma Extend(journal: seq<Event>, h: Held, e: Event)
    requires Replay(journal) == Some(h)
    ensures Replay(journal + [e]) == (if Legal(h, e) then Some(With(h, e.kind, e.Open?)) else None)
    ensures Notes(journal + [e]) == Notes(journal) + (if e.Close? && e.kind == Entry then [e.note] else [])
  {
    assert (journal + [e])[..|journal|] == journal;
  }

  function Opens(journal: seq<Event>, k: Kind): nat {
    if journal == [] then 0
    else Opens(journal[..|journal| - 1], k) + (if journal[|journal| - 1] == Open(k) then 1 else 0)
  }

  function Closes(journal: seq<Event>, k: Kind): nat {
    if journal == [] then 0
    else
      var e := journal[|journal| - 1];
      Closes(journal[..|journal| - 1], k) + (if e.Close? && e.kind == k then 1 else 0)
  }

  /** How the log entries ended, in order. */
  function Notes(journal: seq<Event>): seq<Note> {
    if journal == [] then []
    else
      var e := journal[|journal| - 1];
      Notes(journal[..|journal| - 1]) + (if e.Close? && e.kind == Entry then [e.note] else [])
  }

  /** A legal journal closes each thing exactly as often as it opens it, but for the one still open; the same holds of
      every earlier moment, so nothing is ever open twice. */
  lemma {:induction false} LegalBalances(journal: seq<Event>, k: Kind, n: nat)
    requires Replay(journal).Some? && n <= |journal|
    ensures Replay(journal[..n]).Some?
    ensures Opens(journal[..n], k) == Closes(journal[..n], k) + (if Has(Replay(journal[..n]).value, k) then 1 else 0)
    decreases |journal|
  {
    var m := |journal|;
    assert journal[..m] == journal;
    if m > 0 {
      var front := journal[..m - 1];
      if n < m {
        LegalBalances(front, k, n);
        assert front[..n] == journal[..n];
      } else {
        LegalBalances(front, k, m - 1);
        assert front[..m - 1] == front;
      }
    }
  }

  class Session {
    const cfg: Config
    var port: PortAddr
    var pasvListening: bool
    var dataOpen: bool
    var dataSsl: bool
    var useSsl: bool
    var epsvAll: bool
    var logOpen: bool
    var restartPos: nat
    var ascii: bool
    var rnfrGiven: bool
    var timedOut: bool
    var status: Status
    ghost var journal: seq<Event>
    ghost var calls: Calls
    ghost var uses: seq<RelayOrder.Use>
    ghost var phase: SslRelay.Phase

    ghost function Holding(): Held
      reads this`pasvListening, this`dataOpen, this`dataSsl, this`logOpen
    {
      Held(pasvListening, dataOpen, dataSsl, logOpen)
    }

    ghost function Now(): Prompt
      reads this`port, this`pasvListening, this`useSsl, this`epsvAll, this`restartPos, this`ascii, this`rnfrGiven
    {
      Prompt(port, pasvListening, useSsl, epsvAll, restartPos, ascii, rnfrGiven)
    }

    /** The journal is legal and tells what is open. */
    ghost predicate Journaled()
      reads this`journal, this`pasvListening, this`dataOpen, this`dataSsl, this`logOpen
    {
      Replay(journal) == Some(Holding())
    }

    /** The privileged calls made so far are those of a process that ends up listening or not, as this one does. */
    ghost predicate Brokered()
      reads this`calls, this`pasvListening
    {
      Broker.Direct(calls, pasvListening)
    }

    /** A data connection that the slave is to secure. */
    ghost predicate OnSlave()
      reads this`useSsl, this`dataOpen
    {
      cfg.slaveActive && useSsl && dataOpen
    }

    /** What was asked of the SSL slave came in order and within its limits, and has led to where the session stands. */
    ghost predicate Relayed()
      reads this`uses, this`phase, this`useSsl, this`dataOpen, this`dataSsl
    {
      && RelayOrder.PhaseAfter(uses) == Some(phase)
      && (forall u :: u in uses && u.Used? ==> SslRelay.InLimits(u.op))
      && (if OnSlave() then phase != SslRelay.NoData && (dataSsl <==> phase == SslRelay.Secured) else phase == SslRelay.NoData)
    }

    /** All records are in order; PORT and PASV are never set up together; a reserved port is there only if the
        configuration allows any. */
    ghost predicate Valid()
      reads this
    {
      Journaled() && Sane(cfg, Now()) && (dataSsl ==> dataOpen) && Relayed() && Brokered()
    }

    /** Between commands nothing but a passive listener is open. */
    ghost predicate AtPrompt()
      reads this
    {
      Valid() && !dataOpen && !dataSsl && !logOpen && !timedOut
    }

    constructor (cfg: Config)
      ensures AtPrompt() && status == Running && this.cfg == cfg
      ensures Now() == Prompt(NoPort, false, false, false, 0, false, false)
      ensures journal == [] && uses == [] && calls == []
    {
      this.cfg := cfg;
      port, pasvListening, dataOpen, dataSsl, useSsl, epsvAll, logOpen := NoPort, false, false, false, false, false, false;
      restartPos, ascii, rnfrGiven, timedOut := 0, false, false, false;
      status := Running;
      journal := [];
      uses, phase, calls := [], SslRelay.NoData, [];
    }

    /** A privileged call has been answered; before it the process listened or not, as `before` says. */
    ghost method Called(before: bool, c: Broker.Call, a: Broker.Answer)
      requires Broker.Direct(calls, before) && Broker.Possible(before, c, Broker.Gives(pasvListening, a))
      modifies this`calls
      ensures Brokered() && calls == old(calls) + [(c, a)]
    {
      Broker.DirectGrows(calls, before, c, a, pasvListening);
      calls := calls + [(c, a)];
    }

    /** Something is asked of the slave. */
    ghost method Ask(u: RelayOrder.Use)
      requires cfg.slaveActive && RelayOrder.PhaseAfter(uses) == Some(phase) && RelayOrder.Allowed(phase, u)
      requires u.Used? ==> SslRelay.InLimits(u.op)
      modifies this`uses, this`phase
      ensures RelayOrder.PhaseAfter(uses) == Some(phase)
      ensures uses == old(uses) + [u] && phase == RelayOrder.NextPhase(old(phase), u)
    {
      RelayOrder.OneMoreUse(uses, phase, u);
      uses, phase := uses + [u], RelayOrder.NextPhase(phase, u);
    }

    // ------------------------------------------------------------- log entries

    /** vsf_log_start_entry. */
    method StartLog()
      requires status == Running && Valid()
      modifies this`status, this`logOpen, this`journal
      ensures status == (if old(logOpen) then CheckFailed else Running)
      ensures Valid() && logOpen && Notes(journal) == Notes(old(journal))
      ensures journal == old(journal) + if old(logOpen) then [] else [Open(Entry)]
    {
      hide Replay, Notes, Relayed, Brokered;
      if logOpen {
        status := CheckFailed;
        return;
      }
      Extend(journal, Holding(), Open(Entry));
      logOpen := true;
      journal := journal + [Open(Entry)];
    }

    /** vsf_log_do_log and vsf_log_clear_entry. Neither looks whether an entry is open: the caller has to know. */
    method EndLog(note: Note)
      requires Valid() && logOpen
      modifies this`logOpen, this`journal
      ensures Valid() && !logOpen
      ensures journal == old(journal) + [Close(Entry, note)] && Notes(journal) == Notes(old(journal)) + [note]
    {
      hide Replay, Notes, Relayed, Brokered;
      Extend(journal, Holding(), Close(Entry, note));
      logOpen := false;
      journal := journal + [Close(Entry, note)];
    }

    // ---------------------------------------------------- choosing a connection

    /** The test for PASV: a privileged call. */
    method TestPasv() returns (active: bool)
      requires Valid()
      modifies this`calls
      ensures Valid() && active == pasvListening && calls == old(calls) + Test(Now())
    {
      hide Journaled, Relayed, Broker.Direct;
      Called(pasvListening, Broker.Active, Broker.IsActive(pasvListening));
      active := PasvActive(port.PortAddr?, pasvListening);
    }

    /** The test for PORT, which makes that call only if there is an address. */
    method TestPort() returns (active: bool)
      requires Valid()
      modifies this`calls
      ensures Valid() && active == port.PortAddr?
      ensures calls == old(calls) + if port.PortAddr? then Test(Now()) else []
    {
      hide Journaled, Relayed, Broker.Direct;
      if port.PortAddr? {
        Called(pasvListening, Broker.Active, Broker.IsActive(pasvListening));
      }
      active := PortActive(port.PortAddr?, pasvListening);
    }

    /** Both tests, the second only if the first fails. */
    method TestBoth() returns (active: bool)
      requires Valid()
      modifies this`calls
      ensures Valid() && active == Armed(Now()) && calls == old(calls) + Tests(Now())
    {
      hide Journaled, Relayed, Brokered;
      active := TestPasv();
      if !active {
        active := TestPort();
      }
    }

    /** port_cleanup and pasv_cleanup. */
    method Cleanup()
      requires Valid()
      modifies this`port, this`pasvListening, this`journal, this`calls
      ensures Valid() && port == NoPort && !pasvListening
      ensures journal == old(journal) + if old(pasvListening) then [Close(Listener, Silent)] else []
      ensures Notes(journal) == Notes(old(journal)) && calls == old(calls) + CLEANED
    {
      hide Replay, Notes, Relayed, Broker.Direct;
      ghost var before := pasvListening;
      port := NoPort;
      if pasvListening {
        Extend(journal, Holding(), Close(Listener, Silent));
        pasvListening := false;
        journal := journal + [Close(Listener, Silent)];
      }
      Called(before, Broker.Cleanup, Broker.Done);
    }

    /** vsf_privop_pasv_listen: each failed attempt gives its socket back before the next. */
    method Listen(bind: int -> Bind, chosen: nat)
      requires status == Running && Valid() && port == NoPort
      modifies this`pasvListening, this`status, this`journal, this`calls
      ensures status == if old(pasvListening) then CheckFailed else if Binds(bind) then Running else Exited
      ensures status == Running ==> Valid() && pasvListening && Notes(journal) == Notes(old(journal))
      ensures status == Running ==> calls == old(calls) + [(Broker.Listen, Broker.Bound(chosen))]
    {
      hide Replay, Notes, Relayed, Broker.Direct;
      if pasvListening {
        status := CheckFailed;
        return;
      }
      TryBind(bind);
      if status == Running {
        Called(false, Broker.Listen, Broker.Bound(chosen));
      }
    }

    /** The attempts to bind. */
    method TryBind(bind: int -> Bind)
      requires status == Running && Journaled() && !pasvListening
      modifies this`pasvListening, this`status, this`journal
      ensures status == if Binds(bind) then Running else Exited
      ensures status == Running ==> Journaled() && pasvListening && Notes(journal) == Notes(old(journal))
    {
      hide Replay, Notes;
      var retries := 9;
      while retries > 0
        invariant 0 <= retries <= BIND_TRIES && status == Running && !pasvListening
        invariant Journaled() && Notes(journal) == Notes(old(journal))
        invariant forall i: nat :: i < BIND_TRIES - retries ==> bind(i) == InUse
        decreases retries
      {
        Extend(journal, Holding(), Open(Listener));
        pasvListening := true;
        journal := journal + [Open(Listener)];
        var outcome := bind(BIND_TRIES - retries);
        if outcome == Bound {
          break;
        }
        if outcome == Failed {
          status := Exited;
          return;
        }
        Extend(journal, Holding(), Close(Listener, Silent));
        pasvListening := false;
        journal := journal + [Close(Listener, Silent)];
        retries := retries - 1;
      }
      if retries == 0 {
        status := Exited;
      }
    }

    /** handle_pasv, for PASV and EPSV. */
    method HandlePasv(isEpsv: bool, all: bool, badProtocol: bool, bind: int -> Bind, chosen: nat)
      requires status == Running && AtPrompt()
      modifies this`epsvAll, this`port, this`pasvListening, this`status, this`journal, this`calls
      ensures epsvAll == (old(epsvAll) || (isEpsv && all))
      ensures isEpsv && (all || badProtocol) ==>
                status == Running && port == old(port) && pasvListening == old(pasvListening) && calls == old(calls)
      ensures !(isEpsv && (all || badProtocol)) ==> status == (if Binds(bind) then Running else Exited) && port == NoPort
      ensures !(isEpsv && (all || badProtocol)) && status == Running ==>
                pasvListening && calls == old(calls) + CLEANED + [(Broker.Listen, Broker.Bound(chosen))]
      ensures status == Running ==> AtPrompt() && Notes(journal) == Notes(old(journal))
    {
      hide Replay, Notes, Relayed, Brokered;
      if isEpsv && all {
        epsvAll := true;
        return;
      }
      if isEpsv && badProtocol {
        return;
      }
      Cleanup();
      Listen(bind, chosen);
    }

    /** handle_port and handle_eprt. A refused command leaves no setup at all, not the one from before. */
    method HandlePort(parsed: bool, number: nat, sameAddress: bool)
      requires status == Running && AtPrompt()
      modifies this`port, this`pasvListening, this`journal, this`calls
      ensures AtPrompt() && !pasvListening && Notes(journal) == Notes(old(journal)) && calls == old(calls) + CLEANED
      ensures port == if parsed && (cfg.promiscuous || (sameAddress && number >= 1024)) then PortAddr(number) else NoPort
    {
      hide Replay, Notes, Relayed, Brokered;
      Cleanup();
      if !parsed {
        return;
      }
      port := PortAddr(number);
      if !cfg.promiscuous {
        if !sameAddress || number < PORT_RESERVED {
          port := NoPort;
          return;
        }
      }
    }

    // --------------------------------------------------------- data connections

    /** init_data_sock_params. */
    method OpenData()
      requires status == Running && Valid()
      modifies this`dataOpen, this`status, this`journal, this`uses, this`phase
      ensures !old(dataOpen) && OnSlave() ==> phase == SslRelay.Opened
      ensures status == (if old(dataOpen) then CheckFailed else Running)
      ensures Valid() && dataOpen && Notes(journal) == Notes(old(journal))
      ensures journal == old(journal) + if old(dataOpen) then [] else [Open(Connection)]
      ensures uses == old(uses) + if !old(dataOpen) && cfg.slaveActive && useSsl then [RelayOrder.DataOpened] else []
    {
      hide Replay, Notes, RelayOrder.PhaseAfter, Brokered;
      if dataOpen {
        status := CheckFailed;
        return;
      }
      Extend(journal, Holding(), Open(Connection));
      dataOpen := true;
      journal := journal + [Open(Connection)];
      if cfg.slaveActive && useSsl {
        Ask(RelayOrder.DataOpened);
      }
    }

    /** The closing itself: TLS first, if there is any. */
    method Release()
      requires Journaled() && dataOpen
      modifies this`dataOpen, this`dataSsl, this`journal
      ensures Journaled() && !dataOpen && !dataSsl && Notes(journal) == Notes(old(journal))
    {
      hide Replay, Notes;
      if dataSsl {
        Extend(journal, Holding(), Close(Tls, Silent));
        dataSsl := false;
        journal := journal + [Close(Tls, Silent)];
      }
      Extend(journal, Holding(), Close(Connection, Silent));
      dataOpen := false;
      journal := journal + [Close(Connection, Silent)];
    }

    /** vsf_ftpdataio_dispose_transfer_fd: TLS goes first, and an abort or a time-out makes the result a failure. */
    method DisposeData(luck: Luck) returns (ok: bool)
      requires status == Running && Valid() && (OnSlave() ==> phase != SslRelay.Opened)
      modifies this`dataOpen, this`dataSsl, this`status, this`journal, this`uses, this`phase
      ensures status == (if old(dataOpen) then Running else CheckFailed)
      ensures Valid() && !dataOpen && Notes(journal) == Notes(old(journal))
      ensures old(dataOpen) ==> !dataSsl && ok == (luck.closeOk && !luck.abort && !timedOut)
      ensures uses == old(uses) + if old(OnSlave()) then [RelayOrder.Used(SslRelay.Close, luck.closeOk || !old(dataSsl))] else []
    {
      hide Replay, Notes, RelayOrder.PhaseAfter, Brokered;
      if !dataOpen {
        status := CheckFailed;
        ok := false;
        return;
      }
      if cfg.slaveActive && useSsl {
        Ask(RelayOrder.Used(SslRelay.Close, luck.closeOk || !dataSsl));
      }
      Release();
      ok := luck.closeOk && !luck.abort && !timedOut;
    }

    /** vsf_ftpdataio_get_pasv_fd and vsf_ftpdataio_get_port_fd with the privileged calls behind them. */
    method Connect(luck: Luck, pasv: bool) returns (ok: bool)
      requires status == Running && Valid() && !dataOpen && Armed(Now()) && pasv == pasvListening
      modifies this`dataOpen, this`status, this`journal, this`uses, this`phase, this`calls
      ensures status == if Reserved(Now()) then CheckFailed
                        else if port.PortAddr? && !luck.portBound then Exited
                        else Running
      ensures status == Running ==> Valid() && ok == dataOpen == Made(Now(), luck) && (OnSlave() ==> phase == SslRelay.Opened)
      ensures status == Running ==> Notes(journal) == Notes(old(journal)) && calls == old(calls) + ConnectCalls(cfg, Now(), luck)
      ensures status == Running ==> uses == old(uses) + if ok && cfg.slaveActive && useSsl then [RelayOrder.DataOpened] else []
    {
      hide Replay, Notes, Relayed, Broker.Direct;
      ok := false;
      if pasv {
        var answer :=
          if !luck.connected then Broker.Refused(-1) else if luck.badAddress then Broker.Refused(-2) else Broker.Socket;
        Called(true, Broker.Accept, answer);
        if answer != Broker.Socket { return; }
      } else {
        if port.number < PORT_RESERVED {
          status := CheckFailed;
          return;
        }
        if !luck.portBound {
          status := Exited;
          return;
        }
        if !cfg.promiscuous {
          Called(false, Broker.GetSocket(port.number), if luck.connected then Broker.Socket else Broker.Refused(-1));
        }
        if !luck.connected { return; }
      }
      OpenData();
      ok := true;
    }

    /** vsf_ftpdataio_post_mark_connect with ssl_accept. */
    method Secure(luck: Luck) returns (ok: bool)
      requires status == Running && Valid() && dataOpen && (OnSlave() && !dataSsl ==> phase == SslRelay.Opened)
      modifies this`dataSsl, this`status, this`journal, this`uses, this`phase
      ensures OnSlave() ==> phase != SslRelay.Opened
      ensures status == CheckFailed <==> useSsl && old(dataSsl)
      ensures status == Exited <==> useSsl && !old(dataSsl) && !luck.handshake && cfg.requireReuse
      ensures ok <==> status == Running && (useSsl ==> luck.handshake)
      ensures Valid() && dataSsl == (old(dataSsl) || (ok && useSsl)) && Notes(journal) == Notes(old(journal))
      ensures uses == old(uses) + if OnSlave() && !old(dataSsl) then [RelayOrder.Used(SslRelay.Handshake, luck.handshake)] else []
    {
      hide Replay, Notes, RelayOrder.PhaseAfter, Brokered;
      if !useSsl {
        return true;
      }
      ok := false;
      if dataSsl {
        status := CheckFailed;
        return;
      }
      if cfg.slaveActive {
        Ask(RelayOrder.Used(SslRelay.Handshake, luck.handshake));
      }
      if luck.handshake {
        Extend(journal, Holding(), Open(Tls));
        dataSsl := true;
        journal := journal + [Open(Tls)];
        ok := true;
      } else if cfg.requireReuse {
        status := Exited;
      }
    }

    /** get_remote_transfer_fd: on success the connection is open, and secured if asked for; on failure it is not there. */
    method GetRemoteFd(luck: Luck) returns (ok: bool)
      requires status == Running && Valid() && !dataOpen && !dataSsl && !timedOut
      modifies this`dataOpen, this`dataSsl, this`status, this`timedOut, this`journal, this`uses, this`phase, this`calls
      ensures status == if Armed(Now()) then TransferStatus(cfg, Now(), luck) else CheckFailed
      ensures status == Running ==> Valid() && ok == dataOpen && dataSsl == (ok && useSsl)
      ensures status == Running ==> (ok <==> Made(Now(), luck) && SessionSpec.Secure(Now(), luck))
      ensures status == Running ==> timedOut == (Made(Now(), luck) && luck.timeout) && Notes(journal) == Notes(old(journal))
      ensures status == Running ==> calls == old(calls) + (Tests(Now()) + Test(Now()) + ConnectCalls(cfg, Now(), luck))
      ensures status == Running ==> uses == old(uses) + StartUses(cfg, Now(), luck)
    {
      hide Journaled, Notes, Relayed, Brokered, Tests, Test, ConnectCalls, StartUses, TransferStatus, Made;
      ok := false;
      var active := TestBoth();
      if !active {
        status := CheckFailed;
        return;
      }
      var pasv := TestPasv();
      ok := OpenSecured(luck, pasv);
    }

    /** The connection and its handshake. */
    method OpenSecured(luck: Luck, pasv: bool) returns (ok: bool)
      requires status == Running && Valid() && !dataOpen && !dataSsl && !timedOut && Armed(Now()) && pasv == pasvListening
      modifies this`dataOpen, this`dataSsl, this`status, this`timedOut, this`journal, this`uses, this`phase, this`calls
      ensures status == TransferStatus(cfg, Now(), luck)
      ensures status == Running ==> Valid() && ok == dataOpen && dataSsl == (ok && useSsl)
      ensures status == Running ==> (ok <==> Made(Now(), luck) && SessionSpec.Secure(Now(), luck))
      ensures status == Running ==> timedOut == (Made(Now(), luck) && luck.timeout) && Notes(journal) == Notes(old(journal))
      ensures status == Running ==> calls == old(calls) + ConnectCalls(cfg, Now(), luck)
      ensures status == Running ==> uses == old(uses) + StartUses(cfg, Now(), luck)
    {
      hide Journaled, Notes, Relayed, Brokered, ConnectCalls, StartUses, HandshakeUses, Sane, Reserved, Made;
      StartJoined(cfg, Now(), luck, uses);
      ok := Connect(luck, pasv);
      if status != Running || !ok { return; }
      timedOut := luck.timeout;
      ok := SecureOrDrop(luck);
    }

    /** The handshake, after whose failure the connection is closed. */
    method SecureOrDrop(luck: Luck) returns (ok: bool)
      requires status == Running && Valid() && dataOpen && !dataSsl && (OnSlave() ==> phase == SslRelay.Opened)
      modifies this`dataOpen, this`dataSsl, this`status, this`journal, this`uses, this`phase
      ensures status == if useSsl && !luck.handshake && cfg.requireReuse then Exited else Running
      ensures status == Running ==> Valid() && ok == dataOpen == (useSsl ==> luck.handshake) && dataSsl == (ok && useSsl)
      ensures status == Running ==> Notes(journal) == Notes(old(journal))
      ensures status == Running ==> uses == old(uses) + HandshakeUses(cfg, Now(), luck)
    {
      hide Journaled, Notes, Relayed, Brokered;
      ok := Secure(luck);
      if status == Running && !ok {
        var disposed := DisposeData(luck);
      }
    }

    /** data_transfer_checks_ok. */
    method ChecksOk() returns (ok: bool)
      requires Valid()
      modifies this`calls
      ensures Valid() && calls == old(calls) + Tests(Now())
      ensures ok <==> Armed(Now()) && (cfg.forceSsl ==> useSsl)
    {
      hide Journaled, Relayed, Brokered, Tests;
      var active := TestBoth();
      ok := active && (!cfg.forceSsl || useSsl);
    }

    /** The transfer loop: one operation of the slave for each chunk, if it is in charge of the connection. */
    method Move(luck: Luck, upload: bool)
      requires Valid() && dataOpen && dataSsl == useSsl
      modifies this`uses, this`phase
      ensures Valid() && phase == old(phase) && (OnSlave() ==> phase == SslRelay.Secured)
      ensures uses == old(uses) + if OnSlave() then Moves(cfg, luck.chunks, upload) else []
    {
      hide Journaled, RelayOrder.PhaseAfter, Brokered;
      ghost var before := uses;
      assert luck.chunks[..0] == [];
      var i := 0;
      while i < |luck.chunks|
        invariant 0 <= i <= |luck.chunks| && Valid() && phase == old(phase)
        invariant uses == before + if OnSlave() then Moves(cfg, luck.chunks[..i], upload) else []
      {
        if cfg.slaveActive && useSsl {
          SslRelay.ChunkSizeInLimits(cfg.chunkTunable);
          ghost var chunk := luck.chunks[i];
          Ask(RelayOrder.Used(if upload then SslRelay.Read(SslRelay.ChunkSize(cfg.chunkTunable)) else SslRelay.Write(chunk), true));
          assert luck.chunks[..i + 1] == luck.chunks[..i] + [luck.chunks[i]];
        }
        i := i + 1;
      }
      assert luck.chunks[..i] == luck.chunks;
    }

    /** The common course of a transfer: connect, move the data, dispose, and forget the PORT or PASV setup. An open log
        entry is closed as a success exactly when everything went well. */
    method TransferAndCleanup(luck: Luck, upload: bool)
      requires status == Running && Valid() && !dataOpen && !dataSsl && Armed(Now()) && !timedOut
      modifies this`dataOpen, this`dataSsl, this`status, this`timedOut, this`port, this`pasvListening, this`logOpen,
               this`journal, this`uses, this`phase, this`calls
      ensures status == TransferStatus(cfg, old(Now()), luck)
      ensures status == Running ==> Valid() && !dataOpen && !dataSsl && port == NoPort && !pasvListening
      ensures status == Running ==> (logOpen <==> old(logOpen) && !Delivered(old(Now()), luck))
      ensures status == Running ==> timedOut == (Made(old(Now()), luck) && luck.timeout)
      ensures status == Running ==>
                Notes(journal) == Notes(old(journal)) + if old(logOpen) && Delivered(old(Now()), luck) then [Success] else []
      ensures status == Running ==> calls == old(calls) + TransferCalls(cfg, old(Now()), luck)
      ensures status == Running ==> uses == old(uses) + TransferUses(cfg, old(Now()), luck, upload)
    {
      hide Valid, Notes, Tests, Test, ConnectCalls, StartUses, TransferUses, TransferStatus, Made, Armed;
      var ok := GetRemoteFd(luck);
      if status != Running { return; }
      UsesSplit(cfg, old(Now()), luck, upload);
      if ok {
        MoveAndClose(luck, upload);
      }
      Cleanup();
    }

    /** The transfer over an open connection. */
    method MoveAndClose(luck: Luck, upload: bool)
      requires status == Running && Valid() && dataOpen && dataSsl == useSsl
      modifies this`dataOpen, this`dataSsl, this`status, this`logOpen, this`journal, this`uses, this`phase
      ensures status == Running && Valid() && !dataOpen && !dataSsl
      ensures var good := luck.transferOk && luck.closeOk && !luck.abort && !timedOut;
        && logOpen == (old(logOpen) && !good)
        && Notes(journal) == Notes(old(journal)) + if old(logOpen) && good then [Success] else []
      ensures uses == old(uses) + if cfg.slaveActive && useSsl
                                  then Moves(cfg, luck.chunks, upload) + [RelayOrder.Used(SslRelay.Close, luck.closeOk)] else []
    {
      hide Journaled, Notes, Relayed, Brokered, Moves;
      Move(luck, upload);
      var disposed := DisposeData(luck);
      if logOpen && luck.transferOk && disposed {
        EndLog(Success);
      }
    }

    // ---------------------------------------------------------------- handlers

    /** What a command may have left for the end of the loop: an entry that still has to be written as a failure. */
    ghost predicate AfterHandler(notes: seq<Note>)
      reads this
    {
      Valid() && !dataOpen && !dataSsl && notes == Notes(journal) + if logOpen then [Failure] else []
    }

    /** The restart position is good for one transfer only, whatever becomes of it. */
    method TakeRestart() returns (offset: nat)
      requires AtPrompt()
      modifies this`restartPos
      ensures AtPrompt() && restartPos == 0 && offset == old(restartPos)
    {
      hide Journaled, Relayed, Brokered;
      offset := restartPos;
      restartPos := 0;
    }

    /** handle_retr. A failure before the connection keeps the PORT or PASV setup for the next command. */
    method HandleRetr(before: Before, luck: Luck)
      requires status == Running && AtPrompt()
      modifies this`dataOpen, this`dataSsl, this`status, this`timedOut, this`port, this`pasvListening, this`logOpen,
               this`journal, this`restartPos, this`uses, this`phase, this`calls
      ensures var p, c := old(Now()), Retr(before, luck);
        status == HandlerStatus(cfg, p, c)
        && (status == Running ==>
              && Now() == After(cfg, p, c) && timedOut == TimesOut(cfg, p, c)
              && AfterHandler(Notes(old(journal)) + Logs(cfg, p, c))
              && calls == old(calls) + CallsOf(cfg, p, c) && uses == old(uses) + UsesOf(cfg, p, c))
    {
      hide Valid, Notes, Tests, TransferCalls, TransferUses, TransferStatus, Made, Delivered, Reaches, Checked, Armed,
           HandlerStatus, TimesOut, After, CallsOf, UsesOf, Logs;
      ghost var p, c, start := Now(), Retr(before, luck), calls;
      RetrMeans(cfg, p, before, luck);
      SameSetup(cfg, p, p.(restartPos := 0), luck);
      var offset := TakeRestart();
      var ok := ChecksOk();
      if !ok || (ascii && offset != 0) {
        NoTransfer(cfg, p, c);
        return;
      }
      RetrFile(before, luck);
      if before == Proceeds {
        TransferMeans(cfg, p, c);
        JoinCalls(start, p, c);
      } else {
        NoTransfer(cfg, p, c);
      }
    }

    /** Tests, owner and transfer, one behind the other. */
    lemma JoinCalls(start: Calls, p: Prompt, c: Command)
      requires c.Retr? || c.Upload? || c.List?
      ensures ((start + Tests(p)) + OwnerCalls(cfg, c)) + TransferCalls(cfg, p, c.luck)
           == start + (Tests(p) + (OwnerCalls(cfg, c) + TransferCalls(cfg, p, c.luck)))
      ensures !c.Upload? ==>
                (start + Tests(p)) + TransferCalls(cfg, p, c.luck)
                == start + (Tests(p) + (OwnerCalls(cfg, c) + TransferCalls(cfg, p, c.luck)))
    {
      hide Tests, TransferCalls;
    }

    /** The rest of it, with its log entry. */
    method RetrFile(before: Before, luck: Luck)
      requires status == Running && AtPrompt() && Armed(Now())
      modifies this`dataOpen, this`dataSsl, this`status, this`timedOut, this`port, this`pasvListening, this`logOpen,
               this`journal, this`uses, this`phase, this`calls
      ensures before != Proceeds ==>
                && status == Running && Now() == old(Now()) && !timedOut && calls == old(calls) && uses == old(uses)
                && AfterHandler(Notes(old(journal)) + [if before == Directory then Silent else Failure])
      ensures before == Proceeds ==> status == TransferStatus(cfg, old(Now()), luck)
      ensures before == Proceeds && status == Running ==>
                && Now() == old(Now()).(port := NoPort, listening := false)
                && timedOut == (Made(old(Now()), luck) && luck.timeout)
                && AfterHandler(Notes(old(journal)) + [if Delivered(old(Now()), luck) then Success else Failure])
                && calls == old(calls) + TransferCalls(cfg, old(Now()), luck)
                && uses == old(uses) + TransferUses(cfg, old(Now()), luck, false)
    {
      hide Journaled, Notes, Relayed, Brokered, TransferCalls, TransferUses, TransferStatus, Made, Delivered;
      StartLog();
      if before == NoAccess || before == NoFile { return; }
      if before == Directory {
        EndLog(Silent);
        return;
      }
      if before == Special || before == NotReadable { return; }
      TransferAndCleanup(luck, false);
    }

    /** The call that gives an upload to another owner. */
    method ChangeOwner()
      requires Valid()
      modifies this`calls
      ensures Valid() && calls == old(calls) + if cfg.chownUploads then [(Broker.Chown, Broker.Done)] else []
    {
      hide Journaled, Relayed, Broker.Direct;
      if cfg.chownUploads {
        Called(pasvListening, Broker.Chown, Broker.Done);
      }
    }

    /** handle_upload_common. */
    method HandleUpload(before: Before, luck: Luck)
      requires status == Running && AtPrompt()
      modifies this`dataOpen, this`dataSsl, this`status, this`timedOut, this`port, this`pasvListening, this`logOpen,
               this`journal, this`restartPos, this`uses, this`phase, this`calls
      ensures var p, c := old(Now()), Upload(before, luck);
        status == HandlerStatus(cfg, p, c)
        && (status == Running ==>
              && Now() == After(cfg, p, c) && timedOut == TimesOut(cfg, p, c)
              && AfterHandler(Notes(old(journal)) + Logs(cfg, p, c))
              && calls == old(calls) + CallsOf(cfg, p, c) && uses == old(uses) + UsesOf(cfg, p, c))
    {
      hide Valid, Notes, Tests, TransferCalls, TransferUses, TransferStatus, Made, Delivered, Reaches, Checked, Armed,
           HandlerStatus, TimesOut, After, CallsOf, UsesOf, Logs;
      ghost var p, c, start := Now(), Upload(before, luck), calls;
      UploadMeans(cfg, p, before, luck);
      SameSetup(cfg, p, p.(restartPos := 0), luck);
      var offset := TakeRestart();
      var ok := ChecksOk();
      if !ok {
        NoTransfer(cfg, p, c);
        return;
      }
      UploadFile(before, luck);
      if before == NoAccess || before == NoFile {
        NoTransfer(cfg, p, c);
      } else {
        TransferMeans(cfg, p, c);
        JoinCalls(start, p, c);
      }
    }

    /** The rest of it, with its log entry. */
    method UploadFile(before: Before, luck: Luck)
      requires status == Running && AtPrompt() && Armed(Now())
      modifies this`dataOpen, this`dataSsl, this`status, this`timedOut, this`port, this`pasvListening, this`logOpen,
               this`journal, this`uses, this`phase, this`calls
      ensures before == NoAccess || before == NoFile ==>
                && status == Running && Now() == old(Now()) && !timedOut && calls == old(calls) && uses == old(uses)
                && AfterHandler(Notes(old(journal)) + [Failure])
      ensures before != NoAccess && before != NoFile ==> status == TransferStatus(cfg, old(Now()), luck)
      ensures before != NoAccess && before != NoFile && status == Running ==>
                && Now() == old(Now()).(port := NoPort, listening := false)
                && timedOut == (Made(old(Now()), luck) && luck.timeout)
                && AfterHandler(Notes(old(journal)) + [if Delivered(old(Now()), luck) then Success else Failure])
                && calls == (old(calls) + OwnerCalls(cfg, Upload(before, luck))) + TransferCalls(cfg, old(Now()), luck)
                && uses == old(uses) + TransferUses(cfg, old(Now()), luck, true)
    {
      hide Journaled, Notes, Relayed, Brokered, TransferCalls, TransferUses, TransferStatus, Made, Delivered;
      StartLog();
      if before == NoAccess || before == NoFile { return; }
      ChangeOwner();
      TransferAndCleanup(luck, true);
    }

    /** handle_dir_common for LIST and NLST. */
    method HandleList(allowed: bool, luck: Luck)
      requires status == Running && AtPrompt()
      modifies this`dataOpen, this`dataSsl, this`status, this`timedOut, this`port, this`pasvListening, this`logOpen,
               this`journal, this`uses, this`phase, this`calls
      ensures var p, c := old(Now()), List(allowed, luck);
        status == HandlerStatus(cfg, p, c)
        && (status == Running ==>
              && Now() == After(cfg, p, c) && timedOut == TimesOut(cfg, p, c)
              && AfterHandler(Notes(old(journal)) + Logs(cfg, p, c))
              && calls == old(calls) + CallsOf(cfg, p, c) && uses == old(uses) + UsesOf(cfg, p, c))
    {
      hide Valid, Notes, Tests, TransferCalls, TransferUses, TransferStatus, Made, Delivered, Reaches, Checked, Armed,
           HandlerStatus, TimesOut, After, CallsOf, UsesOf, Logs;
      ghost var p, c, start := Now(), List(allowed, luck), calls;
      ListMeans(cfg, p, allowed, luck);
      var ok := ChecksOk();
      if !ok || !allowed {
        NoTransfer(cfg, p, c);
        return;
      }
      TransferAndCleanup(luck, false);
      TransferMeans(cfg, p, c);
      JoinCalls(start, p, c);
    }

    /** MKD, RMD, DELE and SITE CHMOD. */
    method HandleLogged(succeeded: bool)
      requires status == Running && AtPrompt()
      modifies this`status, this`logOpen, this`journal
      ensures status == Running && AfterHandler(Notes(old(journal)) + [if succeeded then Success else Failure])
    {
      hide Replay, Notes, Relayed, Brokered;
      StartLog();
      if succeeded {
        EndLog(Success);
      }
    }

    /** handle_rest. */
    method HandleRest(value: int)
      requires AtPrompt()
      modifies this`restartPos
      ensures AtPrompt() && restartPos == if value < 0 then 0 else value
    {
      hide Journaled, Relayed, Brokered;
      restartPos := if value < 0 then 0 else value;
    }

    /** handle_type. */
    method HandleType(toAscii: bool)
      requires AtPrompt()
      modifies this`ascii
      ensures AtPrompt() && ascii == toAscii
    {
      hide Journaled, Relayed, Brokered;
      ascii := toAscii;
    }

    /** handle_prot, on a secured control connection. */
    method HandleProt(private: bool)
      requires AtPrompt()
      modifies this`useSsl
      ensures AtPrompt() && useSsl == private
    {
      hide Replay, Notes, Brokered;
      useSsl := private;
    }

    /** handle_rnfr: the name is remembered only if it exists and may be touched. */
    method HandleRnfr(access: bool, found: bool)
      requires status == Running && AtPrompt()
      modifies this`status, this`logOpen, this`journal, this`rnfrGiven
      ensures status == Running && rnfrGiven == (access && found)
      ensures AfterHandler(Notes(old(journal)) + if access && found then [] else [Failure])
    {
      hide Replay, Notes, Relayed, Brokered;
      rnfrGiven := false;
      if !access {
        StartLog();
        return;
      }
      if found {
        rnfrGiven := true;
      } else {
        StartLog();
      }
    }

    /** handle_rnto: an attempt uses the name up, a refusal does not. */
    method HandleRnto(access: bool, renamed: bool)
      requires status == Running && AtPrompt()
      modifies this`status, this`logOpen, this`journal, this`rnfrGiven
      ensures status == Running && rnfrGiven == (old(rnfrGiven) && !access)
      ensures AfterHandler(Notes(old(journal))
                           + if !old(rnfrGiven) then [] else if access && renamed then [Success] else [Failure])
    {
      hide Replay, Notes, Relayed, Brokered;
      if !rnfrGiven { return; }
      StartLog();
      if !access { return; }
      rnfrGiven := false;
      if renamed {
        EndLog(Success);
      }
    }

    // ------------------------------------------------------------ command loop

    /** The handler of one command. */
    method Dispatch(c: Command)
      requires status == Running && AtPrompt()
      modifies this
      ensures var p := old(Now());
        status == HandlerStatus(cfg, p, c)
        && (status == Running ==>
              && Now() == After(cfg, p, c) && timedOut == TimesOut(cfg, p, c)
              && AfterHandler(Notes(old(journal)) + Logs(cfg, p, c))
              && calls == old(calls) + CallsOf(cfg, p, c) && uses == old(uses) + UsesOf(cfg, p, c))
    {
      hide Journaled, Notes, Relayed, Brokered, HandlerStatus, After, Logs, CallsOf, UsesOf, TimesOut, Binds;
      if c.Epsv? || c.Pasv? || c.Port? || c.Eprt? {
        DispatchSetup(c);
        return;
      }
      if Minor(c) {
        DispatchMinor(c);
        return;
      }
      if c.Retr? {
        HandleRetr(c.before, c.luck);
      } else if c.Upload? {
        HandleUpload(c.before, c.luck);
      } else if c.List? {
        HandleList(c.allowed, c.luck);
      } else {
        QuitMeans(cfg, Now());
        status := Exited;
      }
    }

    /** The commands that set a connection up. */
    method DispatchSetup(c: Command)
      requires status == Running && AtPrompt() && (c.Epsv? || c.Pasv? || c.Port? || c.Eprt?)
      modifies this`epsvAll, this`port, this`pasvListening, this`status, this`journal, this`calls
      ensures var p := old(Now());
        status == HandlerStatus(cfg, p, c)
        && (status == Running ==>
              && Now() == After(cfg, p, c) && !TimesOut(cfg, p, c) && UsesOf(cfg, p, c) == []
              && AfterHandler(Notes(old(journal)) + Logs(cfg, p, c)) && calls == old(calls) + CallsOf(cfg, p, c))
    {
      hide Journaled, Notes, Relayed, Brokered, HandlerStatus, After, Logs, CallsOf, UsesOf, TimesOut, Binds;
      SetupMeans(cfg, Now(), c);
      match c {
        case Epsv(all, badProtocol, bind, chosen) => HandlePasv(true, all, badProtocol, bind, chosen);
        case Pasv(bind, chosen) => if !epsvAll { HandlePasv(false, false, false, bind, chosen); }
        case Port(parsed, number, sameAddress) => if !epsvAll { HandlePort(parsed, number, sameAddress); }
        case Eprt(parsed, number, sameAddress) => HandlePort(parsed, number, sameAddress);
      }
    }

    /** The commands that leave connections alone. */
    method DispatchMinor(c: Command)
      requires status == Running && AtPrompt() && Minor(c)
      modifies this`restartPos, this`ascii, this`rnfrGiven, this`useSsl, this`status, this`logOpen, this`journal
      ensures var p := old(Now());
        && status == Running == HandlerStatus(cfg, p, c)
        && Now() == After(cfg, p, c) && !TimesOut(cfg, p, c) && CallsOf(cfg, p, c) == [] && UsesOf(cfg, p, c) == []
        && AfterHandler(Notes(old(journal)) + Logs(cfg, p, c))
    {
      hide Valid, Notes, HandlerStatus, After, CallsOf, UsesOf, TimesOut;
      MinorMeans(cfg, Now(), c);
      match c {
        case Rest(value) => HandleRest(value);
        case Type(toAscii) => HandleType(toAscii);
        case Rnfr(access, found) => HandleRnfr(access, found);
        case Rnto(access, renamed) => HandleRnto(access, renamed);
        case Logged(succeeded) => HandleLogged(succeeded);
        case Prot(private) => HandleProt(private);
        case Plain =>
      }
    }

    /** One turn of the command loop: how the process fares, the state at the next prompt, the lines of the log, the
        privileged calls and what is asked of the slave are those that the command means; and at the next prompt nothing
        is open that should not be. */
    method Execute(c: Command)
      requires status == Running && AtPrompt()
      modifies this
      ensures var p := old(Now());
        status == Verdict(cfg, p, c)
        && (status == Running ==>
              && AtPrompt() && Now() == After(cfg, p, c)
              && Notes(journal) == Notes(old(journal)) + Logs(cfg, p, c)
              && calls == old(calls) + CallsOf(cfg, p, c)
              && uses == old(uses) + (if cfg.slaveActive then [RelayOrder.Used(SslRelay.GetLine, true)] else []) + UsesOf(cfg, p, c))
    {
      hide Replay, Notes, RelayOrder.PhaseAfter, Brokered, HandlerStatus, After, Logs, CallsOf, UsesOf, TimesOut;
      if cfg.slaveActive {
        Ask(RelayOrder.Used(SslRelay.GetLine, true));
      }
      Dispatch(c);
      if status != Running { return; }
      if logOpen {
        EndLog(Failure);
      }
      if timedOut {
        status := Exited;
      }
    }

    /** Every command sequence, whatever the outcomes. The commands are executed one after the other until one of them ends
        the process; if none does, all are. At each prompt no data connection, TLS state or log entry is open, PORT and
        PASV are not both set up, each entry and each connection has been closed exactly once, and no consistency check
        stops the process unless the configuration lets clients name reserved ports. */
    method Run(commands: seq<Command>) returns (executed: nat)
      requires status == Running && AtPrompt()
      modifies this
      ensures executed <= |commands|
      ensures status == Running ==> AtPrompt() && executed == |commands| && Now() == StateAt(cfg, old(Now()), commands, executed)
      ensures status != Running ==> executed > 0 && VerdictAt(cfg, old(Now()), commands, executed - 1) == status
      ensures forall i :: 0 <= i < executed - 1 ==> VerdictAt(cfg, old(Now()), commands, i) == Running
      ensures status == Running <==> forall i :: 0 <= i < |commands| ==> VerdictAt(cfg, old(Now()), commands, i) == Running
      ensures status == Running ==> Opens(journal, Entry) == Closes(journal, Entry)
      ensures status == Running ==> Opens(journal, Connection) == Closes(journal, Connection)
      ensures status == Running ==> RelayOrder.Orderly(uses) && RelayOrder.PhaseAfter(uses) == Some(SslRelay.NoData)
      ensures status == Running ==> Broker.Direct(calls, pasvListening)
      ensures status == Running ==> ServedBySlave() && ServedByParent()
      ensures status == CheckFailed ==> cfg.promiscuous
    {
      hide Replay, Notes, RelayOrder.PhaseAfter, Broker.Direct, Verdict, After, Logs, CallsOf, UsesOf, StateAt, VerdictAt;
      ghost var start := Now();
      executed := CommandLoop(commands);
      if status == Running {
        LegalBalances(journal, Entry, |journal|);
        LegalBalances(journal, Connection, |journal|);
        assert journal[..|journal|] == journal;
        ShowServed();
      } else {
        StaysSane(cfg, start, commands, executed - 1);
        NextState(cfg, start, commands, executed - 1);
        CheckFailsIff(cfg, StateAt(cfg, start, commands, executed - 1), commands[executed - 1]);
      }
    }

    /** The loop alone. */
    method CommandLoop(commands: seq<Command>) returns (executed: nat)
      requires status == Running && AtPrompt()
      modifies this
      ensures executed <= |commands|
      ensures status == Running ==> AtPrompt() && executed == |commands| && Now() == StateAt(cfg, old(Now()), commands, executed)
      ensures status != Running ==> executed > 0 && VerdictAt(cfg, old(Now()), commands, executed - 1) == status
      ensures forall i :: 0 <= i < executed - 1 ==> VerdictAt(cfg, old(Now()), commands, i) == Running
      ensures status == Running ==> forall i :: 0 <= i < |commands| ==> VerdictAt(cfg, old(Now()), commands, i) == Running
    {
      hide Journaled, Notes, Relayed, Brokered, Verdict, After, Logs, CallsOf, UsesOf, StateAt, VerdictAt, Sane;
      executed := 0;
      ghost var start := Now();
      StateZero(cfg, start, commands);
      while executed < |commands| && status == Running
        invariant 0 <= executed <= |commands|
        invariant status == Running ==> AtPrompt() && Now() == StateAt(cfg, start, commands, executed)
        invariant status == Running ==> forall i :: 0 <= i < executed ==> VerdictAt(cfg, start, commands, i) == Running
        invariant status != Running ==>
          && executed > 0 && VerdictAt(cfg, start, commands, executed - 1) == status
          && forall i :: 0 <= i < executed - 1 ==> VerdictAt(cfg, start, commands, i) == Running
        decreases |commands| - executed
      {
        NextState(cfg, start, commands, executed);
        Execute(commands[executed]);
        executed := executed + 1;
      }
    }

    /** Some run of the relay does exactly what the session asked, with the outcomes it saw, and leaves the slave clean. */
    ghost predicate ServedBySlave()
      reads this`uses
    {
      exists r :: RelayOrder.Serves(r, uses) && r.consumer == SslRelay.Ready && !r.fd && !r.ssl
    }

    /** Some run of the two-process model gives exactly the answers the session saw, and the same listener. */
    ghost predicate ServedByParent()
      reads this`calls, this`pasvListening
    {
      exists r ::
        Broker.Reaches(Broker.INIT, r) && r.child == Broker.Ready && r.asked == calls && r.listening == pasvListening
    }

    lemma ShowServed()
      requires RelayOrder.Orderly(uses) && RelayOrder.PhaseAfter(uses) == Some(SslRelay.NoData)
      requires Broker.Direct(calls, pasvListening)
      ensures ServedBySlave() && ServedByParent()
    {
      hide Broker.Direct, Broker.Reaches, RelayOrder.Serves, RelayOrder.PhaseAfter;
      RelayOrder.SessionServed(uses);
      Broker.ExactlyDirect(calls, pasvListening);
    }
  }

  /** The condition is needed: with promiscuous ports, every reserved port and every later listing stop the process. */
  lemma ReservedPortStops(cfg: Config, p: Prompt, number: nat, luck: Luck)
    requires cfg.promiscuous && !cfg.forceSsl && number < 1024
    ensures var commands := [Eprt(true, number, false), List(true, luck)];
      VerdictAt(cfg, p, commands, 0) == Running && VerdictAt(cfg, p, commands, 1) == CheckFailed
  {
    var commands := [Eprt(true, number, false), List(true, luck)];
    assert StateAt(cfg, p, commands, 1) == After(cfg, StateAt(cfg, p, commands, 0), commands[0]);
  }
}
