/** The rule lists the setup functions build, for every setting of the tunables. */
module SandboxSetup {
  import opened Seccomp

  // Linux x86-64 system call numbers.
  const READ: Word := 0
  const WRITE: Word := 1
  const OPEN: Word := 2
  const CLOSE: Word := 3
  const STAT: Word := 4
  const FSTAT: Word := 5
  const LSTAT: Word := 6
  const LSEEK: Word := 8
  const MMAP: Word := 9
  const MPROTECT: Word := 10
  const MUNMAP: Word := 11
  const BRK: Word := 12
  const RT_SIGACTION: Word := 13
  const RT_SIGRETURN: Word := 15
  const SELECT: Word := 23
  const MREMAP: Word := 25
  const NANOSLEEP: Word := 35
  const ALARM: Word := 37
  const GETPID: Word := 39
  const SENDFILE: Word := 40
  const SOCKET: Word := 41
  const CONNECT: Word := 42
  const ACCEPT: Word := 43
  const SENDTO: Word := 44
  const RECVFROM: Word := 45
  const SENDMSG: Word := 46
  const RECVMSG: Word := 47
  const SHUTDOWN: Word := 48
  const BIND: Word := 49
  const LISTEN: Word := 50
  const SETSOCKOPT: Word := 54
  const GETSOCKOPT: Word := 55
  const FCNTL: Word := 72
  const FTRUNCATE: Word := 77
  const GETDENTS: Word := 78
  const GETCWD: Word := 79
  const CHDIR: Word := 80
  const RENAME: Word := 82
  const MKDIR: Word := 83
  const RMDIR: Word := 84
  const UNLINK: Word := 87
  const READLINK: Word := 89
  const CHMOD: Word := 90
  const FCHMOD: Word := 91
  const FCHOWN: Word := 93
  const UMASK: Word := 95
  const GETTIMEOFDAY: Word := 96
  const UTIME: Word := 132
  const RESTART_SYSCALL: Word := 219
  const EXIT_GROUP: Word := 231
  const UTIMES: Word := 235
  const OPENAT: Word := 257

  const O_ACCMODE: Word := 3
  const O_RDWR: Word := 2
  const O_NONBLOCK: Word := 0x800
  // O_CREAT, O_EXCL, O_APPEND, O_NONBLOCK, O_DIRECTORY, O_CLOEXEC and O_LARGEFILE together.
  const OPEN_FLAGS: Word := 0x9_8cc0
  const EACCES := 13
  const ENOSYS := 38

  datatype Tunables = Tunables(
    portEnable: bool, pasvEnable: bool, idleTimeout: bool, dataTimeout: bool, xferlog: bool, dualLog: bool,
    ssl: bool, syslog: bool, writeEnable: bool, lockUploads: bool, asyncAbor: bool, sendfile: bool,
    oneProcess: bool, chownUploads: bool, textUserdb: bool, anonMkdir: bool, anonOther: bool,
    deleteFailed: bool, mdtmWrite: bool, chmodEnable: bool)

  // The groups of rules that the setup functions add together.

  const BASE: seq<Rule> :=
    [Allow(READ), Allow(WRITE), Allow2Match(MMAP, 3, 3, 4, 0x22), Allow1Mask(MPROTECT, 3, 1),
     Allow(MUNMAP), Allow(BRK), Reject(MREMAP, ENOSYS), Allow(GETTIMEOFDAY), Allow(RT_SIGRETURN),
     Allow(RESTART_SYSCALL), Allow(CLOSE), Allow(EXIT_GROUP)]
  const PRELOGIN: seq<Rule> :=
    [Allow1Match(RECVFROM, 4, 2), Allow(NANOSLEEP), Allow(GETPID), Allow(SHUTDOWN), Allow1Match(FCNTL, 2, 3),
     Allow2MaskMatch(FCNTL, 3, OPEN_FLAGS | O_ACCMODE, 2, 4)]
  const TIMEOUT: seq<Rule> := [Allow(RT_SIGACTION), Allow(ALARM)]
  const LOCKING: seq<Rule> := [Allow1Match(FCNTL, 2, 7), Allow1Match(FCNTL, 2, 6)]
  const TLS: seq<Rule> := [Allow1Match(RECVMSG, 3, 0), Allow2Match(SETSOCKOPT, 2, 6, 3, 1)]
  const NO_SOCKET: seq<Rule> := [Reject(SOCKET, EACCES)]
  const DATA_FIXED: seq<Rule> :=
    [Allow3Match(SOCKET, 1, 2, 2, 1, 3, 6), Allow3Match(SOCKET, 1, 10, 2, 1, 3, 6), Allow(BIND), Allow(SELECT)]
  const DATA_PORT: seq<Rule> :=
    [Allow(CONNECT), Allow2Match(GETSOCKOPT, 2, 1, 3, 4), Allow2Match(SETSOCKOPT, 2, 1, 3, 2),
     Allow1Match(FCNTL, 2, 3), Allow2Match(FCNTL, 2, 4, 3, O_RDWR | O_NONBLOCK), Allow2Match(FCNTL, 2, 4, 3, O_RDWR)]
  const DATA_PASV: seq<Rule> := [Allow(LISTEN), Allow(ACCEPT)]
  const SOCKET_OPTIONS: seq<Rule> :=
    [Allow2Match(SETSOCKOPT, 2, 1, 3, 9), Allow2Match(SETSOCKOPT, 2, 1, 3, 13), Allow2Match(SETSOCKOPT, 2, 0, 3, 1)]
  const DESCRIPTORS: seq<Rule> := [Allow(FSTAT), Allow(LSEEK)]
  const QUERIES: seq<Rule> :=
    [Allow(STAT), Allow(READLINK), Allow(GETCWD), Allow(CHDIR), Allow(GETDENTS), Allow(UMASK)]
  const USERDB: seq<Rule> := [Reject(SOCKET, EACCES), Allow2Match(MMAP, 3, 1, 4, 1)]
  const SYSLOG: seq<Rule> := [Allow1Match(SENDTO, 6, 0)]
  const LSTAT_FIRST: seq<Rule> := [Allow(LSTAT)]
  const MODIFY: seq<Rule> := [Allow(RMDIR), Allow(RENAME), Allow(FTRUNCATE)]

  function When(c: bool, rules: seq<Rule>): seq<Rule> { if c then rules else [] }

  function DataConnections(t: Tunables): seq<Rule> {
    DATA_FIXED + When(t.portEnable, DATA_PORT) + When(t.pasvEnable, DATA_PASV)
  }

  function Prelogin(t: Tunables): seq<Rule> {
    BASE + PRELOGIN + When(t.idleTimeout, TIMEOUT) + When(t.xferlog || t.dualLog, LOCKING)
    + When(t.ssl, TLS) + When(t.syslog, NO_SOCKET)
  }

  function OpenFlags(t: Tunables): Word {
    if t.writeEnable then OPEN_FLAGS | O_ACCMODE else OPEN_FLAGS
  }

  function DescriptorRules(t: Tunables, pid: Word): seq<Rule> {
    When(t.xferlog || t.dualLog || t.lockUploads, LOCKING)
    + When(t.asyncAbor, [Allow2Match(FCNTL, 2, 8, 3, pid)])
    + SOCKET_OPTIONS + DESCRIPTORS
  }

  function PathRules(t: Tunables): seq<Rule> {
    [Allow1Mask(OPEN, 2, OpenFlags(t)), Allow1Mask(OPENAT, 3, OpenFlags(t))] + QUERIES
    + When(t.sendfile, [Allow(SENDFILE)])
    + When(t.idleTimeout || t.dataTimeout || t.asyncAbor, [Allow(RT_SIGACTION)])
    + When(t.idleTimeout || t.dataTimeout, [Allow(ALARM)])
  }

  function ChannelRules(t: Tunables, anon: bool): seq<Rule> {
    if t.oneProcess then
      DataConnections(t) + When(anon && t.chownUploads, [Allow(FCHMOD), Allow(FCHOWN)])
    else
      [Allow1Match(RECVMSG, 3, 0)] + When((anon && t.chownUploads) || t.ssl, [Allow1Match(SENDMSG, 3, 0)])
  }

  function WriteRules(t: Tunables, anon: bool): seq<Rule> {
    When(!anon || t.anonMkdir, [Allow(MKDIR)])
    + When(!anon || t.anonOther || t.deleteFailed, [Allow(UNLINK)])
    + When(!anon || t.anonOther, MODIFY)
    + When((!anon || t.anonOther) && t.mdtmWrite, [Allow(UTIME), Allow(UTIMES)])
    + When(!anon && t.chmodEnable, [Allow(CHMOD)])
  }

  /** The sandbox of a logged-in session. */
  function Postlogin(t: Tunables, anon: bool, pid: Word): seq<Rule> {
    LSTAT_FIRST + Prelogin(t) + FileRules(t, pid) + ChannelRules(t, anon) + OptionRules(t, anon)
  }

  function FileRules(t: Tunables, pid: Word): seq<Rule> {
    DescriptorRules(t, pid) + PathRules(t)
  }

  function OptionRules(t: Tunables, anon: bool): seq<Rule> {
    When(t.syslog, SYSLOG) + When(t.textUserdb, USERDB) + When(t.writeEnable, WriteRules(t, anon))
  }

  /** The sandbox of the privileged broker process. */
  function Broker(t: Tunables): seq<Rule> {
    BASE + DataConnections(t) + [Allow1Match(SENDMSG, 3, 0)]
  }

  // ------------------------------------------------- properties of every rule

  /** A rule that passes its builder's checks, refuses only socket or mremap with an error number and, if it opens files,
      stays within `flags`. */
  predicate Sound(r: Rule, flags: Word) {
    && Accepted(r)
    && (r.Reject? ==> r.nr == SOCKET || r.nr == MREMAP)
    && (r.nr == OPEN ==> r == Allow1Mask(OPEN, 2, flags))
    && (r.nr == OPENAT ==> r == Allow1Mask(OPENAT, 3, flags))
  }

  /** At most `n` rules, all sound. */
  ghost predicate Good(rules: seq<Rule>, flags: Word, n: nat) {
    |rules| <= n && forall r :: r in rules ==> Sound(r, flags)
  }

  lemma GoodConcat(a: seq<Rule>, b: seq<Rule>, flags: Word, n: nat, m: nat)
    requires Good(a, flags, n) && Good(b, flags, m)
    ensures Good(a + b, flags, n + m)
  {
    hide Sound;
  }

  lemma GoodOne(r: Rule, flags: Word)
    requires Sound(r, flags)
    ensures Good([r], flags, 1)
  {}

  lemma GoodPair(r: Rule, q: Rule, flags: Word)
    requires Sound(r, flags) && Sound(q, flags)
    ensures Good([r, q], flags, 2)
  {}

  lemma GoodWhen(c: bool, rules: seq<Rule>, flags: Word, n: nat)
    requires Good(rules, flags, n)
    ensures Good(When(c, rules), flags, n)
  {}

  lemma GoodUnless(c: bool, b: bool, rules: seq<Rule>, flags: Word)
    requires Good(rules, flags, 1)
    ensures Good(When(!c && b, rules), flags, if c then 0 else 1)
  {}

  lemma GoodBase(flags: Word)
    ensures Good(BASE, flags, 12)
  {}

  lemma GoodSmallGroups(flags: Word)
    ensures Good(TIMEOUT, flags, 2) && Good(LOCKING, flags, 2) && Good(TLS, flags, 2) && Good(NO_SOCKET, flags, 1)
    ensures Good(DATA_PASV, flags, 2) && Good(USERDB, flags, 2) && Good(DESCRIPTORS, flags, 2)
    ensures Good(SYSLOG, flags, 1) && Good(LSTAT_FIRST, flags, 1)
  {}

  lemma GoodMiddleGroups(flags: Word)
    ensures Good(PRELOGIN, flags, 6) && Good(SOCKET_OPTIONS, flags, 3) && Good(MODIFY, flags, 3)
  {}

  lemma GoodLargeGroups(flags: Word)
    ensures Good(DATA_FIXED, flags, 4) && Good(DATA_PORT, flags, 6) && Good(QUERIES, flags, 6)
  {}

  lemma GoodDataConnections(t: Tunables, flags: Word)
    ensures Good(DataConnections(t), flags, 12)
  {
    hide Good, DATA_FIXED, DATA_PORT, DATA_PASV, When;
    GoodLargeGroups(flags);
    GoodSmallGroups(flags);
    GoodWhen(t.portEnable, DATA_PORT, flags, 6);
    GoodWhen(t.pasvEnable, DATA_PASV, flags, 2);
    GoodConcat(DATA_FIXED, When(t.portEnable, DATA_PORT), flags, 4, 6);
    GoodConcat(DATA_FIXED + When(t.portEnable, DATA_PORT), When(t.pasvEnable, DATA_PASV), flags, 10, 2);
  }

  lemma GoodPrelogin(t: Tunables, flags: Word)
    ensures Good(Prelogin(t), flags, 25)
  {
    hide Good, BASE, PRELOGIN, TIMEOUT, LOCKING, TLS, NO_SOCKET, When;
    GoodBase(flags);
    GoodMiddleGroups(flags);
    GoodSmallGroups(flags);
    var a, b, c, d := When(t.idleTimeout, TIMEOUT), When(t.xferlog || t.dualLog, LOCKING), When(t.ssl, TLS), When(t.syslog, NO_SOCKET);
    GoodWhen(t.idleTimeout, TIMEOUT, flags, 2);
    GoodWhen(t.xferlog || t.dualLog, LOCKING, flags, 2);
    GoodWhen(t.ssl, TLS, flags, 2);
    GoodWhen(t.syslog, NO_SOCKET, flags, 1);
    GoodConcat(BASE, PRELOGIN, flags, 12, 6);
    GoodConcat(BASE + PRELOGIN, a, flags, 18, 2);
    GoodConcat(BASE + PRELOGIN + a, b, flags, 20, 2);
    GoodConcat(BASE + PRELOGIN + a + b, c, flags, 22, 2);
    GoodConcat(BASE + PRELOGIN + a + b + c, d, flags, 24, 1);
  }

  lemma GoodDescriptorRules(t: Tunables, pid: Word, flags: Word)
    ensures Good(DescriptorRules(t, pid), flags, 8)
  {
    var owner := [Allow2Match(FCNTL, 2, 8, 3, pid)];
    GoodOne(owner[0], flags);
    hide Good, Sound, LOCKING, SOCKET_OPTIONS, DESCRIPTORS, When;
    GoodSmallGroups(flags);
    GoodMiddleGroups(flags);
    var a, b := When(t.xferlog || t.dualLog || t.lockUploads, LOCKING), When(t.asyncAbor, owner);
    GoodWhen(t.xferlog || t.dualLog || t.lockUploads, LOCKING, flags, 2);
    GoodWhen(t.asyncAbor, owner, flags, 1);
    GoodConcat(a, b, flags, 2, 1);
    GoodConcat(a + b, SOCKET_OPTIONS, flags, 3, 3);
    GoodConcat(a + b + SOCKET_OPTIONS, DESCRIPTORS, flags, 6, 2);
  }

  lemma GoodPathRules(t: Tunables)
    ensures Good(PathRules(t), OpenFlags(t), 11)
  {
    var flags := OpenFlags(t);
    var opens := [Allow1Mask(OPEN, 2, flags), Allow1Mask(OPENAT, 3, flags)];
    GoodPair(opens[0], opens[1], flags);
    GoodOne(Allow(SENDFILE), flags);
    GoodOne(Allow(RT_SIGACTION), flags);
    GoodOne(Allow(ALARM), flags);
    hide Good, Sound, QUERIES, When, OpenFlags;
    GoodLargeGroups(flags);
    var timed := t.idleTimeout || t.dataTimeout;
    var a, b, c := When(t.sendfile, [Allow(SENDFILE)]), When(timed || t.asyncAbor, [Allow(RT_SIGACTION)]), When(timed, [Allow(ALARM)]);
    GoodWhen(t.sendfile, [Allow(SENDFILE)], flags, 1);
    GoodWhen(timed || t.asyncAbor, [Allow(RT_SIGACTION)], flags, 1);
    GoodWhen(timed, [Allow(ALARM)], flags, 1);
    GoodConcat(opens, QUERIES, flags, 2, 6);
    GoodConcat(opens + QUERIES, a, flags, 8, 1);
    GoodConcat(opens + QUERIES + a, b, flags, 9, 1);
    GoodConcat(opens + QUERIES + a + b, c, flags, 10, 1);
  }

  lemma GoodChannelRules(t: Tunables, anon: bool, flags: Word)
    ensures Good(ChannelRules(t, anon), flags, if anon then 14 else 12)
  {
    GoodDataConnections(t, flags);
    GoodPair(Allow(FCHMOD), Allow(FCHOWN), flags);
    GoodOne(Allow1Match(RECVMSG, 3, 0), flags);
    GoodOne(Allow1Match(SENDMSG, 3, 0), flags);
    hide Sound, DataConnections;
  }

  lemma GoodWriteParts(flags: Word)
    ensures Good([Allow(MKDIR)], flags, 1) && Good([Allow(UNLINK)], flags, 1) && Good([Allow(CHMOD)], flags, 1)
    ensures Good([Allow(UTIME), Allow(UTIMES)], flags, 2)
  {
    hide Good;
    GoodOne(Allow(MKDIR), flags);
    GoodOne(Allow(UNLINK), flags);
    GoodOne(Allow(CHMOD), flags);
    GoodPair(Allow(UTIME), Allow(UTIMES), flags);
  }

  lemma GoodWriteRules(t: Tunables, anon: bool, flags: Word)
    ensures Good(WriteRules(t, anon), flags, if anon then 7 else 8)
  {
    hide Good, Sound, MODIFY, When, Accepted, Negative;
    GoodWriteParts(flags);
    GoodMiddleGroups(flags);
    var mkdir, unlink, times, chmod := [Allow(MKDIR)], [Allow(UNLINK)], [Allow(UTIME), Allow(UTIMES)], [Allow(CHMOD)];
    var other := !anon || t.anonOther;
    GoodWhen(!anon || t.anonMkdir, mkdir, flags, 1);
    GoodWhen(other || t.deleteFailed, unlink, flags, 1);
    GoodWhen(other, MODIFY, flags, 3);
    GoodWhen(other && t.mdtmWrite, times, flags, 2);
    GoodUnless(anon, t.chmodEnable, chmod, flags);
    var a, b := When(!anon || t.anonMkdir, mkdir), When(other || t.deleteFailed, unlink);
    var c, d, e := When(other, MODIFY), When(other && t.mdtmWrite, times), When(!anon && t.chmodEnable, chmod);
    GoodConcat(a, b, flags, 1, 1);
    GoodConcat(a + b, c, flags, 2, 3);
    GoodConcat(a + b + c, d, flags, 5, 2);
    GoodConcat(a + b + c + d, e, flags, 7, if anon then 0 else 1);
  }

  lemma GoodOptionRules(t: Tunables, anon: bool, flags: Word)
    ensures Good(OptionRules(t, anon), flags, if anon then 10 else 11)
  {
    hide Good, SYSLOG, USERDB, WriteRules, When;
    GoodSmallGroups(flags);
    GoodWriteRules(t, anon, flags);
    var n := if anon then 7 else 8;
    GoodWhen(t.syslog, SYSLOG, flags, 1);
    GoodWhen(t.textUserdb, USERDB, flags, 2);
    GoodWhen(t.writeEnable, WriteRules(t, anon), flags, n);
    GoodConcat(When(t.syslog, SYSLOG), When(t.textUserdb, USERDB), flags, 1, 2);
    GoodConcat(When(t.syslog, SYSLOG) + When(t.textUserdb, USERDB), When(t.writeEnable, WriteRules(t, anon)), flags, 3, n);
  }

  /** Every rule of the session sandbox passes its builder's checks, and for no setting of the tunables are there
      more than 69 of them, so the 100-row table never overflows. */
  lemma PostloginFits(t: Tunables, anon: bool, pid: Word)
    ensures Good(Postlogin(t, anon, pid), OpenFlags(t), 69)
  {
    hide Good, LSTAT_FIRST, Prelogin, DescriptorRules, PathRules, ChannelRules, OptionRules, OpenFlags;
    var flags := OpenFlags(t);
    GoodSmallGroups(flags);
    GoodPrelogin(t, flags);
    GoodDescriptorRules(t, pid, flags);
    GoodPathRules(t);
    GoodChannelRules(t, anon, flags);
    GoodOptionRules(t, anon, flags);
    var n, w := if anon then 14 else 12, if anon then 10 else 11;
    GoodConcat(DescriptorRules(t, pid), PathRules(t), flags, 8, 11);
    GoodConcat(LSTAT_FIRST, Prelogin(t), flags, 1, 25);
    GoodConcat(LSTAT_FIRST + Prelogin(t), FileRules(t, pid), flags, 26, 19);
    GoodConcat(LSTAT_FIRST + Prelogin(t) + FileRules(t, pid), ChannelRules(t, anon), flags, 45, n);
    GoodConcat(LSTAT_FIRST + Prelogin(t) + FileRules(t, pid) + ChannelRules(t, anon), OptionRules(t, anon), flags, 45 + n, w);
    GoodWiden(Postlogin(t, anon, pid), flags, 45 + n + w, 69);
  }

  lemma GoodWiden(rules: seq<Rule>, flags: Word, n: nat, m: nat)
    requires Good(rules, flags, n) && n <= m
    ensures Good(rules, flags, m)
  {}

  lemma BrokerFits(t: Tunables, flags: Word)
    ensures Good(Broker(t), flags, 25)
  {
    GoodOne(Allow1Match(SENDMSG, 3, 0), flags);
    hide Good, Sound, BASE, DataConnections;
    GoodBase(flags);
    GoodDataConnections(t, flags);
    GoodConcat(BASE, DataConnections(t), flags, 12, 12);
    GoodConcat(BASE + DataConnections(t), [Allow1Match(SENDMSG, 3, 0)], flags, 24, 1);
  }

  lemma GoodIsAccepted(rules: seq<Rule>, flags: Word, n: nat)
    requires Good(rules, flags, n)
    ensures AllAccepted(rules)
  {}

  // ----------------------------------------------------- what the lists permit

  lemma {:induction false} NothingMatches(rules: seq<Rule>, d: Syscall)
    requires SixArgs(d) && AllAccepted(rules)
    requires forall r :: r in rules ==> !Matches(r, d)
    ensures FirstMatch(rules, d) == RET_KILL
  {
    hide Matches, Accepted;
    if rules != [] {
      assert rules[0] in rules;
      NothingMatches(rules[1..], d);
    }
  }

  /** Without write_enable, no call of open or openat that asks for write access survives the filter. */
  lemma ReadOnlySandbox(t: Tunables, anon: bool, pid: Word, d: Syscall)
    requires SixArgs(d) && !t.writeEnable
    requires (d.nr == OPEN && d.args[1].low & O_ACCMODE != 0) || (d.nr == OPENAT && d.args[2].low & O_ACCMODE != 0)
    ensures Exec(Compile(Postlogin(t, anon, pid)), 0, 0, d) == Returned(RET_KILL)
  {
    hide Postlogin, Exec, Compile;
    var rules := Postlogin(t, anon, pid);
    PostloginFits(t, anon, pid);
    GoodIsAccepted(rules, OpenFlags(t), 69);
    CompileCorrect(rules, d);
    WriteBitOutside(if d.nr == OPEN then d.args[1].low else d.args[2].low);
    forall r | r in rules ensures !Matches(r, d) { assert Sound(r, OpenFlags(t)); }
    NothingMatches(rules, d);
  }

  lemma WriteBitOutside(x: Word)
    requires x & O_ACCMODE != 0
    ensures x & !OPEN_FLAGS != 0
  {
    assert O_ACCMODE & !OPEN_FLAGS == O_ACCMODE;
    assert (x & !OPEN_FLAGS) & O_ACCMODE == x & O_ACCMODE;
  }

  lemma {:induction false} SkipsPrefix(a: seq<Rule>, b: seq<Rule>, d: Syscall)
    requires SixArgs(d) && AllAccepted(a + b)
    requires forall r :: r in a ==> r.nr != d.nr
    ensures AllAccepted(b) && FirstMatch(a + b, d) == FirstMatch(b, d)
  {
    hide Accepted;
    if a == [] {
      assert a + b == b;
    } else {
      assert (a + b)[1..] == a[1..] + b && (a + b)[0] == a[0] && a[0] in a;
      SkipsPrefix(a[1..], b, d);
    }
  }

  predicate NoSocketRule(rules: seq<Rule>) { forall r :: r in rules ==> r.nr != SOCKET }

  lemma NoSocketBase()
    ensures NoSocketRule(BASE) && NoSocketRule(LSTAT_FIRST)
  {}

  lemma NoSocketGroups()
    ensures NoSocketRule(PRELOGIN) && NoSocketRule(TIMEOUT) && NoSocketRule(LOCKING) && NoSocketRule(TLS)
  {}

  lemma NoSocketConcat(a: seq<Rule>, b: seq<Rule>)
    requires NoSocketRule(a) && NoSocketRule(b)
    ensures NoSocketRule(a + b)
  {}

  /** The rules in front of the syslog refusal of socket(). */
  function BeforeSyslog(t: Tunables): seq<Rule> {
    LSTAT_FIRST + (BASE + PRELOGIN + When(t.idleTimeout, TIMEOUT) + When(t.xferlog || t.dualLog, LOCKING)
    + When(t.ssl, TLS))
  }

  lemma BeforeSyslogHasNoSocket(t: Tunables)
    ensures NoSocketRule(BeforeSyslog(t))
  {
    NoSocketBase();
    NoSocketGroups();
    var a, b, c := When(t.idleTimeout, TIMEOUT), When(t.xferlog || t.dualLog, LOCKING), When(t.ssl, TLS);
    assert NoSocketRule(a) && NoSocketRule(b) && NoSocketRule(c);
    hide NoSocketRule, BASE, PRELOGIN, LSTAT_FIRST, When;
    NoSocketConcat(BASE, PRELOGIN);
    NoSocketConcat(BASE + PRELOGIN, a);
    NoSocketConcat(BASE + PRELOGIN + a, b);
    NoSocketConcat(BASE + PRELOGIN + a + b, c);
    NoSocketConcat(LSTAT_FIRST, BASE + PRELOGIN + a + b + c);
  }

  /** First match at work: with syslog_enable every socket() call is answered EACCES, even in the one-process model
      whose later data-connection rules would have allowed it. */
  lemma SyslogShadowsDataSockets(t: Tunables, anon: bool, pid: Word, d: Syscall)
    requires SixArgs(d) && t.syslog && d.nr == SOCKET && d.arch == ARCH_X86_64
    ensures Exec(Compile(Postlogin(t, anon, pid)), 0, 0, d) == Returned(RET_ERRNO + 13)
  {
    hide Exec, Compile, Good, FileRules, ChannelRules, OptionRules, BeforeSyslog, Accepted, FirstMatch, Postlogin, OpenFlags;
    var rules := Postlogin(t, anon, pid);
    PostloginFits(t, anon, pid);
    GoodIsAccepted(rules, OpenFlags(t), 69);
    CompileCorrect(rules, d);
    var rest := FileRules(t, pid) + ChannelRules(t, anon) + OptionRules(t, anon);
    SplitAtSyslog(t, anon, pid);
    BeforeSyslogHasNoSocket(t);
    SkipsPrefix(BeforeSyslog(t), NO_SOCKET + rest, d);
    RefusesSocket(rest, d);
  }

  lemma RefusesSocket(rest: seq<Rule>, d: Syscall)
    requires SixArgs(d) && d.nr == SOCKET && AllAccepted(NO_SOCKET + rest)
    ensures FirstMatch(NO_SOCKET + rest, d) == RET_ERRNO + 13
  {
    hide AllAccepted;
    assert (NO_SOCKET + rest)[0] == Reject(SOCKET, EACCES);
  }

  lemma SplitAtSyslog(t: Tunables, anon: bool, pid: Word)
    requires t.syslog
    ensures Postlogin(t, anon, pid)
         == BeforeSyslog(t) + (NO_SOCKET + (FileRules(t, pid) + ChannelRules(t, anon) + OptionRules(t, anon)))
  {
    hide FileRules, ChannelRules, OptionRules, BASE, PRELOGIN, LSTAT_FIRST, TIMEOUT, LOCKING, TLS;
    var q := BASE + PRELOGIN + When(t.idleTimeout, TIMEOUT) + When(t.xferlog || t.dualLog, LOCKING) + When(t.ssl, TLS);
    Regroup(LSTAT_FIRST, q, NO_SOCKET, FileRules(t, pid), ChannelRules(t, anon), OptionRules(t, anon));
  }

  lemma Regroup<T>(a: seq<T>, b: seq<T>, c: seq<T>, d: seq<T>, e: seq<T>, f: seq<T>)
    ensures a + (b + c) + d + e + f == (a + b) + (c + (d + e + f))
  {
    assert a + (b + c) + d + e == (a + b) + (c + (d + e)) by {
      assert a + (b + c) + d == (a + b) + (c + d);
    }
  }

  // -------------------------------------------------------- running the setup

  /** Adding a list of rules; the result is false as soon as a builder would call bug(). */
  method AddAll(table: RuleTable, rules: seq<Rule>) returns (ok: bool)
    requires table.Valid()
    modifies table, table.slots
    ensures table.Valid()
    ensures ok <==> AllAccepted(rules) && |old(table.rules)| + |rules| <= MAX_RULES
    ensures ok ==> table.rules == old(table.rules) + rules
  {
    hide Accepted, Encode, Count;
    var i := 0;
    while i < |rules|
      invariant 0 <= i <= |rules| && table.Valid()
      invariant table.rules == old(table.rules) + rules[..i]
      invariant AllAccepted(rules[..i])
    {
      ghost var before := table.rules;
      ok := table.Add(rules[i]);
      assert rules[i] in rules;
      if !ok { return; }
      assert rules[..i + 1] == rules[..i] + [rules[i]];
      assert before + [rules[i]] == old(table.rules) + rules[..i + 1];
      i := i + 1;
    }
    assert rules[..i] == rules;
    ok := true;
  }

  /** The session sandbox end to end: no builder ever calls bug(), and the filter is the compiled list. */
  method InstallPostlogin(t: Tunables, anon: bool, pid: Word) returns (ok: bool, filters: array<Insn>)
    ensures ok
    ensures filters[..] == Compile(Postlogin(t, anon, pid)) && KernelAccepts(filters[..])
  {
    hide Postlogin, Compile, KernelAccepts, Accepted;
    PostloginFits(t, anon, pid);
    GoodIsAccepted(Postlogin(t, anon, pid), OpenFlags(t), 69);
    var table := new RuleTable();
    ok := AddAll(table, Postlogin(t, anon, pid));
    assert [] + Postlogin(t, anon, pid) == Postlogin(t, anon, pid);
    filters := table.Lockdown();
  }
}
