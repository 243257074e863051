/** What each command of a session means, from prompt to prompt, as functions of the configuration, the state at the prompt
    and what the kernel and the client do meanwhile. */
module SessionSpec {
  import opened Defs
  import Broker
  import SslRelay
  import RelayOrder

  // ------------------------------------------------------ commands and luck

  datatype Bind = Bound | InUse | Failed

  /** What one write of a transfer loop may carry. */
  type Chunk = b: SslRelay.Bytes | |b| <= PRIVSOCK_MAXSTR

  /** What the kernel and the client do during one data connection, and the chunks that are moved. */
  datatype Luck = Luck(
    connected: bool, badAddress: bool, portBound: bool, handshake: bool, chunks: seq<Chunk>,
    transferOk: bool, closeOk: bool, abort: bool, timeout: bool)

  /** How far a transfer gets before it needs its data connection. */
  datatype Before = NoAccess | NoFile | Directory | Special | NotReadable | Proceeds

  datatype Command =
    | Epsv(all: bool, badProtocol: bool, bind: int -> Bind, chosen: nat)
    | Pasv(bind: int -> Bind, chosen: nat)
    | Port(parsed: bool, number: nat, sameAddress: bool)
    | Eprt(parsed: bool, number: nat, sameAddress: bool)
    | Retr(before: Before, luck: Luck)
    | Upload(before: Before, luck: Luck)
    | List(allowed: bool, luck: Luck)
    | Rest(value: int)
    | Type(ascii: bool)
    | Rnfr(access: bool, found: bool)
    | Rnto(access: bool, renamed: bool)
    | Logged(succeeded: bool)
    | Prot(private: bool)
    | Plain
    | Quit

  /** Running, gone in a normal way, or stopped by one of the program's own consistency checks. */
  datatype Status = Running | Exited | CheckFailed

  /** How a log entry ended: silently dropped, or written as a success or a failure. */
  datatype Note = Silent | Success | Failure

  datatype PortAddr = NoPort | PortAddr(number: nat)

  /** Whether promiscuous ports are allowed, TLS sessions must be reused, data must be encrypted, a slave process does the
      SSL work, the configured size of a chunk, and whether uploads change their owner. */
  datatype Config = Config(
    promiscuous: bool, requireReuse: bool, forceSsl: bool, slaveActive: bool, chunkTunable: int, chownUploads: bool)

  /** The state at a prompt. */
  datatype Prompt = Prompt(
    port: PortAddr, listening: bool, useSsl: bool, epsvAll: bool, restartPos: nat, ascii: bool, rnfrGiven: bool)

  /** privops.c counts down from ten before each attempt. */
  const BIND_TRIES := 9

  /** The first attempt that is not "address in use" decides; nine of those in a row end the process. */
  predicate Binds(bind: int -> Bind) {
    exists n: nat :: n < BIND_TRIES && bind(n) == Bound && forall i: nat :: i < n ==> bind(i) == InUse
  }

  // --------------------------------------------------------- data connections

  predicate Armed(p: Prompt) { p.port.PortAddr? || p.listening }

  /** The setups on which the privileged code stops the process. */
  predicate Reserved(p: Prompt) { p.port.PortAddr? && p.port.number < PORT_RESERVED }

  predicate Checked(cfg: Config, p: Prompt) {
    Armed(p) && (cfg.forceSsl ==> p.useSsl)
  }

  /** The command gets as far as its data connection. */
  predicate Reaches(cfg: Config, p: Prompt, c: Command) {
    && Checked(cfg, p)
    && match c
       case Retr(before, _) => !(p.ascii && p.restartPos != 0) && before == Proceeds
       case Upload(before, _) => before != NoAccess && before != NoFile
       case List(allowed, _) => allowed
       case _ => false
  }

  predicate Made(p: Prompt, luck: Luck) { luck.connected && !(p.listening && luck.badAddress) }

  predicate Secure(p: Prompt, luck: Luck) { p.useSsl ==> luck.handshake }

  /** The whole transfer succeeded, as the client and the log are told. */
  predicate Delivered(p: Prompt, luck: Luck) {
    Made(p, luck) && Secure(p, luck) && luck.transferOk && luck.closeOk && !luck.abort && !luck.timeout
  }

  /** How the process fares in a transfer, time-outs aside. */
  function TransferStatus(cfg: Config, p: Prompt, luck: Luck): Status {
    if Reserved(p) then CheckFailed
    else if p.port.PortAddr? && !luck.portBound then Exited
    else if Made(p, luck) && !Secure(p, luck) && cfg.requireReuse then Exited
    else Running
  }

  // ------------------------------------------------------------ one command

  /** PASV or EPSV, carried out. */
  predicate Listens(p: Prompt, c: Command) {
    (c.Epsv? && !c.all && !c.badProtocol) || (c.Pasv? && !p.epsvAll)
  }

  /** PORT or EPRT, carried out. */
  predicate TakesPort(p: Prompt, c: Command) {
    c.Eprt? || (c.Port? && !p.epsvAll)
  }

  /** How the process fares in the handler of a command. */
  function HandlerStatus(cfg: Config, p: Prompt, c: Command): Status {
    if c.Quit? then Exited
    else if Listens(p, c) then (if Binds(c.bind) then Running else Exited)
    else if Reaches(cfg, p, c) then TransferStatus(cfg, p, c.luck)
    else Running
  }

  predicate TimesOut(cfg: Config, p: Prompt, c: Command) {
    Reaches(cfg, p, c) && Made(p, c.luck) && c.luck.timeout
  }

  /** How the process fares up to the next prompt. */
  function Verdict(cfg: Config, p: Prompt, c: Command): Status {
    if HandlerStatus(cfg, p, c) == Running && TimesOut(cfg, p, c) then Exited else HandlerStatus(cfg, p, c)
  }

  /** The address a PORT or EPRT command leaves behind. */
  function Granted(cfg: Config, parsed: bool, number: nat, sameAddress: bool): PortAddr {
    if parsed && (cfg.promiscuous || (sameAddress && number >= PORT_RESERVED)) then PortAddr(number) else NoPort
  }

  /** The state at the next prompt, if there is one. */
  function After(cfg: Config, p: Prompt, c: Command): Prompt {
    Prompt(
      if TakesPort(p, c) then Granted(cfg, c.parsed, c.number, c.sameAddress)
      else if Listens(p, c) || Reaches(cfg, p, c) then NoPort
      else p.port,
      if Listens(p, c) then true else if TakesPort(p, c) || Reaches(cfg, p, c) then false else p.listening,
      if c.Prot? then c.private else p.useSsl,
      p.epsvAll || (c.Epsv? && c.all),
      if c.Rest? then (if c.value < 0 then 0 else c.value) else if c.Retr? || c.Upload? then 0 else p.restartPos,
      if c.Type? then c.ascii else p.ascii,
      if c.Rnfr? then c.access && c.found else if c.Rnto? then p.rnfrGiven && !c.access else p.rnfrGiven)
  }

  /** What the command adds to the log: at most one entry, a success only if the work was really done. */
  function Logs(cfg: Config, p: Prompt, c: Command): seq<Note> {
    match c
    case Retr(before, luck) =>
      if !Checked(cfg, p) || (p.ascii && p.restartPos != 0) then []
      else if before == Directory then [Silent]
      else if before == Proceeds && Delivered(p, luck) then [Success]
      else [Failure]
    case Upload(before, luck) =>
      if !Checked(cfg, p) then []
      else if before != NoAccess && before != NoFile && Delivered(p, luck) then [Success]
      else [Failure]
    case Rnfr(access, found) => if access && found then [] else [Failure]
    case Rnto(access, renamed) =>
      if !p.rnfrGiven then [] else if access && renamed then [Success] else [Failure]
    case Logged(succeeded) => [if succeeded then Success else Failure]
    case _ => []
  }

  // ------------------------------------------ what is asked of other processes

  type Calls = seq<(Broker.Call, Broker.Answer)>

  const CLEANED: Calls := [(Broker.Cleanup, Broker.Done)]

  function Test(p: Prompt): Calls { [(Broker.Active, Broker.IsActive(p.listening))] }

  /** The tests for PASV and, if there is an address, for PORT. */
  function Tests(p: Prompt): Calls { Test(p) + if p.port.PortAddr? then Test(p) else [] }

  function ConnectCalls(cfg: Config, p: Prompt, luck: Luck): Calls {
    if p.listening then
      [(Broker.Accept,
        if !luck.connected then Broker.Refused(-1) else if luck.badAddress then Broker.Refused(-2) else Broker.Socket)]
    else if p.port.PortAddr? && !cfg.promiscuous then
      [(Broker.GetSocket(p.port.number), if luck.connected then Broker.Socket else Broker.Refused(-1))]
    else []
  }

  function TransferCalls(cfg: Config, p: Prompt, luck: Luck): Calls {
    Tests(p) + Test(p) + ConnectCalls(cfg, p, luck) + CLEANED
  }

  /** The call that gives an upload to another owner. */
  function OwnerCalls(cfg: Config, c: Command): Calls {
    if c.Upload? && cfg.chownUploads then [(Broker.Chown, Broker.Done)] else []
  }

  /** The privileged calls of a command. */
  function CallsOf(cfg: Config, p: Prompt, c: Command): Calls {
    if Listens(p, c) then CLEANED + [(Broker.Listen, Broker.Bound(c.chosen))]
    else if TakesPort(p, c) then CLEANED
    else if c.Retr? || c.Upload? || c.List? then
      Tests(p)
      + if !Reaches(cfg, p, c) then []
        else OwnerCalls(cfg, c) + TransferCalls(cfg, p, c.luck)
    else []
  }

  /** One operation of the slave for each chunk. */
  function Moves(cfg: Config, chunks: seq<Chunk>, upload: bool): (r: seq<RelayOrder.Use>)
    ensures |r| == |chunks|
    ensures forall i :: 0 <= i < |chunks| && upload ==>
              r[i] == RelayOrder.Used(SslRelay.Read(SslRelay.ChunkSize(cfg.chunkTunable)), true)
    ensures forall i :: 0 <= i < |chunks| && !upload ==> r[i] == RelayOrder.Used(SslRelay.Write(chunks[i]), true)
  {
    seq(|chunks|, i requires 0 <= i < |chunks| =>
      RelayOrder.Used(if upload then SslRelay.Read(SslRelay.ChunkSize(cfg.chunkTunable)) else SslRelay.Write(chunks[i]), true))
  }

  /** What a transfer asks of the slave, if the slave is in charge. */
  function TransferUses(cfg: Config, p: Prompt, luck: Luck, upload: bool): seq<RelayOrder.Use> {
    if !cfg.slaveActive || !p.useSsl || !Made(p, luck) then []
    else
      [RelayOrder.DataOpened, RelayOrder.Used(SslRelay.Handshake, luck.handshake)]
      + (if luck.handshake then Moves(cfg, luck.chunks, upload) else [])
      + [RelayOrder.Used(SslRelay.Close, luck.closeOk || !luck.handshake)]
  }

  /** What the handler of a command asks of the slave. */
  function UsesOf(cfg: Config, p: Prompt, c: Command): seq<RelayOrder.Use> {
    if Reaches(cfg, p, c) then TransferUses(cfg, p, c.luck, c.Upload?) else []
  }

  /** The handshake of a connection that is there, and its close if that fails. */
  function HandshakeUses(cfg: Config, p: Prompt, luck: Luck): seq<RelayOrder.Use> {
    if !cfg.slaveActive || !p.useSsl then []
    else
      [RelayOrder.Used(SslRelay.Handshake, luck.handshake)]
      + if luck.handshake then [] else [RelayOrder.Used(SslRelay.Close, true)]
  }

  /** What is asked of the slave up to the first chunk, or for good if the handshake fails. */
  function StartUses(cfg: Config, p: Prompt, luck: Luck): seq<RelayOrder.Use> {
    if !cfg.slaveActive || !p.useSsl || !Made(p, luck) then [] else [RelayOrder.DataOpened] + HandshakeUses(cfg, p, luck)
  }

  lemma StartJoined(cfg: Config, p: Prompt, luck: Luck, before: seq<RelayOrder.Use>)
    ensures !Made(p, luck) ==> before + [] == before + StartUses(cfg, p, luck)
    ensures Made(p, luck) ==>
              (before + if cfg.slaveActive && p.useSsl then [RelayOrder.DataOpened] else []) + HandshakeUses(cfg, p, luck)
              == before + StartUses(cfg, p, luck)
  {
    hide Made;
  }

  lemma UsesSplit(cfg: Config, p: Prompt, luck: Luck, upload: bool)
    ensures TransferUses(cfg, p, luck, upload)
         == StartUses(cfg, p, luck)
            + if cfg.slaveActive && p.useSsl && Made(p, luck) && luck.handshake
              then Moves(cfg, luck.chunks, upload) + [RelayOrder.Used(SslRelay.Close, luck.closeOk)] else []
  {
    hide Moves;
    if cfg.slaveActive && p.useSsl && Made(p, luck) && luck.handshake {
      var start := [RelayOrder.DataOpened, RelayOrder.Used(SslRelay.Handshake, true)];
      assert StartUses(cfg, p, luck) == start;
      assert start + [] == start;
    }
  }

  /** A transfer looks only at the setup and at whether TLS is on. */
  lemma SameSetup(cfg: Config, p: Prompt, q: Prompt, luck: Luck)
    requires p.port == q.port && p.listening == q.listening && p.useSsl == q.useSsl
    ensures Tests(p) == Tests(q) && TransferCalls(cfg, p, luck) == TransferCalls(cfg, q, luck)
    ensures forall upload :: TransferUses(cfg, p, luck, upload) == TransferUses(cfg, q, luck, upload)
    ensures TransferStatus(cfg, p, luck) == TransferStatus(cfg, q, luck) && Made(p, luck) == Made(q, luck)
    ensures Delivered(p, luck) == Delivered(q, luck) && Checked(cfg, p) == Checked(cfg, q) && Armed(p) == Armed(q)
  {
    hide Moves;
  }

  /** Commands that neither set up nor use a data connection. */
  predicate Minor(c: Command) {
    c.Rest? || c.Type? || c.Rnfr? || c.Rnto? || c.Logged? || c.Prot? || c.Plain?
  }

  lemma MinorMeans(cfg: Config, p: Prompt, c: Command)
    requires Minor(c)
    ensures HandlerStatus(cfg, p, c) == Running && !TimesOut(cfg, p, c) && CallsOf(cfg, p, c) == [] && UsesOf(cfg, p, c) == []
    ensures After(cfg, p, c) == match c
                                case Rest(value) => p.(restartPos := if value < 0 then 0 else value)
                                case Type(ascii) => p.(ascii := ascii)
                                case Rnfr(access, found) => p.(rnfrGiven := access && found)
                                case Rnto(access, _) => p.(rnfrGiven := p.rnfrGiven && !access)
                                case Prot(private) => p.(useSsl := private)
                                case _ => p
  {
  }

  lemma SetupMeans(cfg: Config, p: Prompt, c: Command)
    requires c.Epsv? || c.Pasv? || c.Port? || c.Eprt?
    ensures HandlerStatus(cfg, p, c) == (if Listens(p, c) && !Binds(c.bind) then Exited else Running)
    ensures !TimesOut(cfg, p, c) && UsesOf(cfg, p, c) == [] && Logs(cfg, p, c) == []
    ensures CallsOf(cfg, p, c)
         == if Listens(p, c) then CLEANED + [(Broker.Listen, Broker.Bound(c.chosen))] else if TakesPort(p, c) then CLEANED else []
    ensures var q := p.(epsvAll := p.epsvAll || (c.Epsv? && c.all));
      After(cfg, p, c)
      == if Listens(p, c) then q.(port := NoPort, listening := true)
         else if TakesPort(p, c) then
           q.(port := Granted(cfg, c.parsed, c.number, c.sameAddress), listening := false)
         else q
  {
  }

  /** A transfer or listing that does not get as far as its connection. */
  lemma NoTransfer(cfg: Config, p: Prompt, c: Command)
    requires (c.Retr? || c.Upload? || c.List?) && !Reaches(cfg, p, c)
    ensures HandlerStatus(cfg, p, c) == Running && !TimesOut(cfg, p, c)
    ensures After(cfg, p, c) == if c.List? then p else p.(restartPos := 0)
    ensures CallsOf(cfg, p, c) == Tests(p) && UsesOf(cfg, p, c) == []
  {
    hide Reaches, Tests, CallsOf;
    CallsMeans(cfg, p, c);
  }

  /** And one that does. */
  lemma TransferMeans(cfg: Config, p: Prompt, c: Command)
    requires (c.Retr? || c.Upload? || c.List?) && Reaches(cfg, p, c)
    ensures HandlerStatus(cfg, p, c) == TransferStatus(cfg, p, c.luck)
    ensures TimesOut(cfg, p, c) == (Made(p, c.luck) && c.luck.timeout)
    ensures After(cfg, p, c) == (if c.List? then p else p.(restartPos := 0)).(port := NoPort, listening := false)
    ensures UsesOf(cfg, p, c) == TransferUses(cfg, p, c.luck, c.Upload?)
    ensures CallsOf(cfg, p, c) == Tests(p) + (OwnerCalls(cfg, c) + TransferCalls(cfg, p, c.luck))
  {
    hide Reaches, TransferStatus, Made, TransferUses, Tests, TransferCalls, OwnerCalls, CallsOf;
    CallsMeans(cfg, p, c);
  }

  lemma CallsMeans(cfg: Config, p: Prompt, c: Command)
    requires c.Retr? || c.Upload? || c.List?
    ensures !Reaches(cfg, p, c) ==> CallsOf(cfg, p, c) == Tests(p)
    ensures Reaches(cfg, p, c) ==> CallsOf(cfg, p, c) == Tests(p) + (OwnerCalls(cfg, c) + TransferCalls(cfg, p, c.luck))
  {
    hide Reaches, Tests, TransferCalls, OwnerCalls;
    assert Tests(p) + [] == Tests(p);
  }

  lemma RetrMeans(cfg: Config, p: Prompt, before: Before, luck: Luck)
    ensures var c, ok := Retr(before, luck), Armed(p) && (cfg.forceSsl ==> p.useSsl) && !(p.ascii && p.restartPos != 0);
      && Reaches(cfg, p, c) == (ok && before == Proceeds)
      && (!ok ==> Logs(cfg, p, c) == [])
      && (ok && before == Proceeds ==> Logs(cfg, p, c) == [if Delivered(p, luck) then Success else Failure])
      && (ok && before != Proceeds ==> Logs(cfg, p, c) == [if before == Directory then Silent else Failure])
      && OwnerCalls(cfg, c) == []
  {
    hide Armed, Delivered;
  }

  lemma UploadMeans(cfg: Config, p: Prompt, before: Before, luck: Luck)
    ensures var c, ok := Upload(before, luck), Armed(p) && (cfg.forceSsl ==> p.useSsl);
      && Reaches(cfg, p, c) == (ok && before != NoAccess && before != NoFile)
      && (!ok ==> Logs(cfg, p, c) == [])
      && (ok && Reaches(cfg, p, c) ==> Logs(cfg, p, c) == [if Delivered(p, luck) then Success else Failure])
      && (ok && !Reaches(cfg, p, c) ==> Logs(cfg, p, c) == [Failure])
  {
    hide Armed, Delivered;
  }

  lemma ListMeans(cfg: Config, p: Prompt, allowed: bool, luck: Luck)
    ensures var c, ok := List(allowed, luck), Armed(p) && (cfg.forceSsl ==> p.useSsl);
      Reaches(cfg, p, c) == (ok && allowed) && Logs(cfg, p, c) == [] && OwnerCalls(cfg, c) == []
  {
    hide Armed;
  }

  lemma Assoc<T>(a: seq<T>, b: seq<T>, c: seq<T>)
    ensures (a + b) + c == a + (b + c)
  {
  }

  lemma QuitMeans(cfg: Config, p: Prompt)
    ensures HandlerStatus(cfg, p, Quit) == Exited
  {
  }

  // --------------------------------------------------------------- what it comes to

  /** A process leaves the loop exactly for these reasons: it is told to, it cannot listen, it cannot bind the port to
      connect from, TLS fails where sessions must be reused, or the transfer runs out of time. */
  lemma ExitsIff(cfg: Config, p: Prompt, c: Command)
    requires !(p.port.PortAddr? && p.listening)
    ensures Verdict(cfg, p, c) == Exited <==>
      || c.Quit?
      || (((c.Epsv? && !c.all && !c.badProtocol) || (c.Pasv? && !p.epsvAll))
          && forall n: nat :: n < 9 && c.bind(n) == Bound ==> exists i: nat :: i < n && c.bind(i) != InUse)
      || (Reaches(cfg, p, c) && !(p.port.PortAddr? && p.port.number < 1024)
          && (|| (p.port.PortAddr? && !c.luck.portBound)
              || (c.luck.connected && !(p.listening && c.luck.badAddress)
                  && (c.luck.timeout || (p.useSsl && !c.luck.handshake && cfg.requireReuse)))))
  {
    if Listens(p, c) { CannotBind(c.bind); }
  }

  lemma CannotBind(bind: int -> Bind)
    ensures !Binds(bind) <==> forall n: nat :: n < 9 && bind(n) == Bound ==> exists i: nat :: i < n && bind(i) != InUse
  {
  }

  /** A data connection is attempted exactly by a permitted transfer or listing, set up and, if forced, secured. */
  lemma ReachesIff(cfg: Config, p: Prompt, c: Command)
    ensures Reaches(cfg, p, c) <==>
      && (p.port.PortAddr? || p.listening)
      && (!cfg.forceSsl || p.useSsl)
      && (|| (c.Retr? && c.before == Proceeds && (!p.ascii || p.restartPos == 0))
          || (c.Upload? && c.before != NoAccess && c.before != NoFile)
          || (c.List? && c.allowed))
  {
  }

  /** The one check that can stop the process. */
  lemma CheckFailsIff(cfg: Config, p: Prompt, c: Command)
    ensures Verdict(cfg, p, c) == CheckFailed <==> Reaches(cfg, p, c) && p.port.PortAddr? && p.port.number < 1024
  {
  }

  /** The log gains a success exactly for work that was done: a transfer through a connection that was made, secured if
      asked for, used and closed without fault, abort or time-out; or a change that was carried out. */
  lemma SuccessIff(cfg: Config, p: Prompt, c: Command)
    ensures Logs(cfg, p, c) == [Success] <==>
      || ((c.Retr? || c.Upload?) && Reaches(cfg, p, c)
          && c.luck.connected && !(p.listening && c.luck.badAddress) && (p.useSsl ==> c.luck.handshake)
          && c.luck.transferOk && c.luck.closeOk && !c.luck.abort && !c.luck.timeout)
      || (c.Rnto? && p.rnfrGiven && c.access && c.renamed)
      || (c.Logged? && c.succeeded)
  {
  }

  /** And a failure for every other attempt of which the log keeps an entry. */
  lemma FailureIff(cfg: Config, p: Prompt, c: Command)
    ensures |Logs(cfg, p, c)| <= 1
    ensures Logs(cfg, p, c) == [Silent] <==> c.Retr? && Checked(cfg, p) && !(p.ascii && p.restartPos != 0) && c.before == Directory
    ensures Logs(cfg, p, c) == [Failure] <==>
      && Logs(cfg, p, c) != [Success] && Logs(cfg, p, c) != [Silent]
      && (|| (c.Retr? && Armed(p) && (cfg.forceSsl ==> p.useSsl) && !(p.ascii && p.restartPos != 0))
          || (c.Upload? && Armed(p) && (cfg.forceSsl ==> p.useSsl))
          || (c.Rnfr? && !(c.access && c.found))
          || (c.Rnto? && p.rnfrGiven)
          || c.Logged?)
  {
  }

  /** An address is there after a command exactly if it was taken now, from the client's own host and not reserved unless
      anything goes, or was there before and has not been used up or replaced. */
  lemma PortAfter(cfg: Config, p: Prompt, c: Command)
    ensures var a := After(cfg, p, c).port;
      a.PortAddr? <==>
        if c.Eprt? || (c.Port? && !p.epsvAll) then c.parsed && (cfg.promiscuous || (c.sameAddress && c.number >= 1024))
        else
          && p.port.PortAddr? && !Reaches(cfg, p, c)
          && !(c.Epsv? && !c.all && !c.badProtocol) && !(c.Pasv? && !p.epsvAll)
    ensures var a := After(cfg, p, c).port;
      a.PortAddr? ==> a.number == if c.Eprt? || (c.Port? && !p.epsvAll) then c.number else p.port.number
  {
  }

  /** The process listens after a command exactly if it was told to now, or did before and nothing has ended that. */
  lemma ListeningAfter(cfg: Config, p: Prompt, c: Command)
    ensures After(cfg, p, c).listening <==>
      || (c.Epsv? && !c.all && !c.badProtocol)
      || (c.Pasv? && !p.epsvAll)
      || (p.listening && !Reaches(cfg, p, c) && !c.Eprt? && !(c.Port? && !p.epsvAll))
  {
  }

  /** The privileged calls of a transfer, spelled out. With PASV: a test, the change of owner, two more tests, the accepted
      connection, and the end of the setup. With PORT every test of both kinds is two calls, and the connection is a call
      unless any port will do. */
  lemma CallsSpelled(cfg: Config, p: Prompt, c: Command)
    requires Reaches(cfg, p, c) && !(p.port.PortAddr? && p.listening)
    ensures var test := (Broker.Active, Broker.IsActive(p.listening));
      var owner := if c.Upload? && cfg.chownUploads then [(Broker.Chown, Broker.Done)] else [];
      CallsOf(cfg, p, c)
      == if p.listening then
           var answer :=
             if !c.luck.connected then Broker.Refused(-1) else if c.luck.badAddress then Broker.Refused(-2) else Broker.Socket;
           [test] + owner + [test, test, (Broker.Accept, answer), (Broker.Cleanup, Broker.Done)]
         else
           var socket := (Broker.GetSocket(p.port.number), if c.luck.connected then Broker.Socket else Broker.Refused(-1));
           [test, test] + owner + [test, test, test] + (if cfg.promiscuous then [] else [socket]) + [(Broker.Cleanup, Broker.Done)]
  {
    hide Reaches;
    ReachesIff(cfg, p, c);
    CallsMeans(cfg, p, c);
  }

  /** And what it asks of the slave: the connection, the handshake, one operation for each chunk, and the close. */
  lemma UsesSpelled(cfg: Config, p: Prompt, c: Command)
    requires Reaches(cfg, p, c)
    ensures var luck, uses := c.luck, UsesOf(cfg, p, c);
      if !cfg.slaveActive || !p.useSsl || !luck.connected || (p.listening && luck.badAddress) then uses == []
      else
        && |uses| == 3 + (if luck.handshake then |luck.chunks| else 0)
        && uses[0] == RelayOrder.DataOpened && uses[1] == RelayOrder.Used(SslRelay.Handshake, luck.handshake)
        && uses[|uses| - 1] == RelayOrder.Used(SslRelay.Close, luck.closeOk || !luck.handshake)
        && (luck.handshake ==>
              forall i :: 0 <= i < |luck.chunks| ==>
                uses[2 + i] == RelayOrder.Used(
                  if c.Upload? then SslRelay.Read(SslRelay.ChunkSize(cfg.chunkTunable)) else SslRelay.Write(luck.chunks[i]), true))
  {
    hide Moves;
    ReachesIff(cfg, p, c);
  }

  // -------------------------------------------------------------- many commands

  /** The state at the prompt before command number `i`, if the session gets there. */
  function StateAt(cfg: Config, p: Prompt, commands: seq<Command>, i: nat): Prompt
    requires i <= |commands|
  {
    if i == 0 then p else After(cfg, StateAt(cfg, p, commands, i - 1), commands[i - 1])
  }

  /** How the process fares in command number `i`. */
  function VerdictAt(cfg: Config, p: Prompt, commands: seq<Command>, i: nat): Status
    requires i < |commands|
  {
    Verdict(cfg, StateAt(cfg, p, commands, i), commands[i])
  }

  lemma NextState(cfg: Config, p: Prompt, commands: seq<Command>, i: nat)
    requires i < |commands|
    ensures StateAt(cfg, p, commands, i + 1) == After(cfg, StateAt(cfg, p, commands, i), commands[i])
    ensures VerdictAt(cfg, p, commands, i) == Verdict(cfg, StateAt(cfg, p, commands, i), commands[i])
  {
  }

  lemma StateZero(cfg: Config, p: Prompt, commands: seq<Command>)
    ensures StateAt(cfg, p, commands, 0) == p
  {
  }

  /** Never both kinds of connection at once, and reserved ports only if the configuration allows any. */
  predicate Sane(cfg: Config, p: Prompt) {
    !(p.port.PortAddr? && p.listening) && (Reserved(p) ==> cfg.promiscuous)
  }

  lemma {:induction false} StaysSane(cfg: Config, p: Prompt, commands: seq<Command>, i: nat)
    requires i <= |commands| && Sane(cfg, p)
    ensures Sane(cfg, StateAt(cfg, p, commands, i))
  {
    if i > 0 { StaysSane(cfg, p, commands, i - 1); }
  }
}
