/** Which system calls the installed filters permit, call by call, for every setting of the tunables. */
module SandboxMeaning {
  import opened Seccomp
  import opened SandboxSetup

  /** The names stand for different system calls, in the order of the x86-64 table. */
  lemma NumbersApart()
    ensures READ == 0 && OPENAT == 257
    ensures READ < WRITE < OPEN < CLOSE < STAT < FSTAT < LSTAT < LSEEK < MMAP < MPROTECT < MUNMAP < BRK <
            RT_SIGACTION < RT_SIGRETURN < SELECT < MREMAP < NANOSLEEP < ALARM < GETPID < SENDFILE < SOCKET <
            CONNECT < ACCEPT < SENDTO < RECVFROM < SENDMSG < RECVMSG < SHUTDOWN < BIND < LISTEN < SETSOCKOPT <
            GETSOCKOPT < FCNTL < FTRUNCATE < GETDENTS < GETCWD < CHDIR < RENAME < MKDIR < RMDIR < UNLINK <
            READLINK < CHMOD < FCHMOD < FCHOWN < UMASK < GETTIMEOFDAY < UTIME < RESTART_SYSCALL < EXIT_GROUP <
            UTIMES < OPENAT
  {
  }

  // ------------------------------------------------- from rules to permission

  predicate Hits(r: Rule, d: Syscall)
    requires SixArgs(d)
  {
    Accepted(r) && Matches(r, d)
  }

  /** Some rule of the list matches. */
  ghost predicate Admits(rules: seq<Rule>, d: Syscall)
    requires SixArgs(d)
  {
    exists i :: 0 <= i < |rules| && Hits(rules[i], d)
  }

  lemma AdmitsConcat(a: seq<Rule>, b: seq<Rule>, d: Syscall)
    requires SixArgs(d)
    ensures Admits(a + b, d) <==> Admits(a, d) || Admits(b, d)
  {
    hide Hits;
    if i :| 0 <= i < |a| && Hits(a[i], d) { assert (a + b)[i] == a[i]; }
    if i :| 0 <= i < |b| && Hits(b[i], d) { assert (a + b)[|a| + i] == b[i]; }
  }

  lemma AdmitsWhen(c: bool, rules: seq<Rule>, d: Syscall)
    requires SixArgs(d)
    ensures Admits(When(c, rules), d) <==> c && Admits(rules, d)
  {
    hide Hits;
  }

  lemma AdmitsOne(r: Rule, d: Syscall)
    requires SixArgs(d)
    ensures Admits([r], d) <==> Hits(r, d)
  {
    hide Hits;
    assert [r][0] == r;
  }

  lemma AdmitsTwo(r: Rule, q: Rule, d: Syscall)
    requires SixArgs(d)
    ensures Admits([r, q], d) <==> Hits(r, d) || Hits(q, d)
  {
    hide Hits;
    assert [r, q] == [r] + [q];
    AdmitsConcat([r], [q], d);
    AdmitsOne(r, d);
    AdmitsOne(q, d);
  }

  lemma AdmitsThree(r: Rule, q: Rule, p: Rule, d: Syscall)
    requires SixArgs(d)
    ensures Admits([r, q, p], d) <==> Hits(r, d) || Hits(q, d) || Hits(p, d)
  {
    hide Hits;
    assert [r, q, p] == [r, q] + [p];
    AdmitsConcat([r, q], [p], d);
    AdmitsTwo(r, q, d);
    AdmitsOne(p, d);
  }

  lemma AdmitsSix(a: Rule, b: Rule, c: Rule, r: Rule, q: Rule, p: Rule, d: Syscall)
    requires SixArgs(d)
    ensures Admits([a, b, c, r, q, p], d) <==>
              Hits(a, d) || Hits(b, d) || Hits(c, d) || Hits(r, d) || Hits(q, d) || Hits(p, d)
  {
    hide Hits;
    assert [a, b, c, r, q, p] == [a, b, c] + [r, q, p];
    AdmitsConcat([a, b, c], [r, q, p], d);
    AdmitsThree(a, b, c, d);
    AdmitsThree(r, q, p, d);
  }

  /** A list that refuses nothing with an error number for this call permits it exactly if some rule matches. */
  lemma {:induction false} PermitsIffAdmits(rules: seq<Rule>, d: Syscall)
    requires SixArgs(d) && AllAccepted(rules)
    requires forall r :: r in rules && r.Reject? ==> r.nr != d.nr
    ensures FirstMatch(rules, d) == if Admits(rules, d) then RET_ALLOW else RET_KILL
  {
    hide Accepted;
    if rules != [] {
      var first, rest := rules[0], rules[1..];
      assert first in rules && rules == [first] + rest;
      PermitsIffAdmits(rest, d);
      AdmitsConcat([first], rest, d);
      AdmitsOne(first, d);
    }
  }

  // ------------------------------------------------------- the groups of rules

  lemma BaseAdmits(d: Syscall)
    requires SixArgs(d)
    ensures Admits(BASE, d) <==>
              || d.nr == READ || d.nr == WRITE || d.nr == MUNMAP || d.nr == BRK || d.nr == MREMAP || d.nr == GETTIMEOFDAY
              || d.nr == RT_SIGRETURN || d.nr == RESTART_SYSCALL || d.nr == CLOSE || d.nr == EXIT_GROUP
              || (d.nr == MMAP && d.args[2].low == 3 && d.args[3].low == 0x22)
              || (d.nr == MPROTECT && Within(d, 3, 1))
  {
    hide Admits, Within;
    var a := [Allow(READ), Allow(WRITE), Allow2Match(MMAP, 3, 3, 4, 0x22), Allow1Mask(MPROTECT, 3, 1), Allow(MUNMAP), Allow(BRK)];
    var b := [Reject(MREMAP, ENOSYS), Allow(GETTIMEOFDAY), Allow(RT_SIGRETURN), Allow(RESTART_SYSCALL), Allow(CLOSE), Allow(EXIT_GROUP)];
    assert BASE == a + b;
    AdmitsConcat(a, b, d);
    AdmitsSix(a[0], a[1], a[2], a[3], a[4], a[5], d);
    AdmitsSix(b[0], b[1], b[2], b[3], b[4], b[5], d);
  }

  lemma PreloginAdmits(d: Syscall)
    requires SixArgs(d)
    ensures Admits(PRELOGIN, d) <==>
              || d.nr == NANOSLEEP || d.nr == GETPID || d.nr == SHUTDOWN
              || (d.nr == RECVFROM && d.args[3].low == 2)
              || (d.nr == FCNTL && (d.args[1].low == 3 || (Within(d, 3, 0x9_8cc3) && d.args[1].low == 4)))
  {
    hide Admits, Within;
    assert OPEN_FLAGS | O_ACCMODE == 0x9_8cc3;
    AdmitsSix(PRELOGIN[0], PRELOGIN[1], PRELOGIN[2], PRELOGIN[3], PRELOGIN[4], PRELOGIN[5], d);
  }

  lemma SmallGroupsAdmit(d: Syscall)
    requires SixArgs(d)
    ensures Admits(TIMEOUT, d) <==> d.nr == RT_SIGACTION || d.nr == ALARM
    ensures Admits(LOCKING, d) <==> d.nr == FCNTL && (d.args[1].low == 7 || d.args[1].low == 6)
    ensures Admits(TLS, d) <==>
              || (d.nr == RECVMSG && d.args[2].low == 0)
              || (d.nr == SETSOCKOPT && d.args[1].low == 6 && d.args[2].low == 1)
    ensures Admits(DATA_PASV, d) <==> d.nr == LISTEN || d.nr == ACCEPT
    ensures Admits(DESCRIPTORS, d) <==> d.nr == FSTAT || d.nr == LSEEK
  {
    hide Admits;
    AdmitsTwo(TIMEOUT[0], TIMEOUT[1], d);
    AdmitsTwo(LOCKING[0], LOCKING[1], d);
    AdmitsTwo(TLS[0], TLS[1], d);
    AdmitsTwo(DATA_PASV[0], DATA_PASV[1], d);
    AdmitsTwo(DESCRIPTORS[0], DESCRIPTORS[1], d);
  }

  lemma OtherSmallGroupsAdmit(d: Syscall)
    requires SixArgs(d)
    ensures Admits(USERDB, d) <==>
              d.nr == SOCKET || (d.nr == MMAP && d.args[2].low == 1 && d.args[3].low == 1)
    ensures Admits(SYSLOG, d) <==> d.nr == SENDTO && d.args[5].low == 0
    ensures Admits(NO_SOCKET, d) <==> d.nr == SOCKET
    ensures Admits(LSTAT_FIRST, d) <==> d.nr == LSTAT
    ensures Admits(MODIFY, d) <==> d.nr == RMDIR || d.nr == RENAME || d.nr == FTRUNCATE
    ensures Admits(SOCKET_OPTIONS, d) <==>
              d.nr == SETSOCKOPT
              && (if d.args[1].low == 1 then d.args[2].low == 9 || d.args[2].low == 13
                  else d.args[1].low == 0 && d.args[2].low == 1)
  {
    hide Admits;
    AdmitsTwo(USERDB[0], USERDB[1], d);
    AdmitsOne(SYSLOG[0], d);
    AdmitsOne(NO_SOCKET[0], d);
    AdmitsOne(LSTAT_FIRST[0], d);
    AdmitsThree(MODIFY[0], MODIFY[1], MODIFY[2], d);
    AdmitsThree(SOCKET_OPTIONS[0], SOCKET_OPTIONS[1], SOCKET_OPTIONS[2], d);
  }

  lemma QueriesAdmit(d: Syscall)
    requires SixArgs(d)
    ensures Admits(QUERIES, d) <==>
              || d.nr == STAT || d.nr == READLINK || d.nr == GETCWD || d.nr == CHDIR || d.nr == GETDENTS || d.nr == UMASK
  {
    hide Admits;
    AdmitsSix(QUERIES[0], QUERIES[1], QUERIES[2], QUERIES[3], QUERIES[4], QUERIES[5], d);
  }

  lemma DataPortAdmits(d: Syscall)
    requires SixArgs(d)
    ensures Admits(DATA_PORT, d) <==> PortCalls(d)
  {
    hide Admits;
    assert O_RDWR | O_NONBLOCK == 0x802;
    AdmitsSix(DATA_PORT[0], DATA_PORT[1], DATA_PORT[2], DATA_PORT[3], DATA_PORT[4], DATA_PORT[5], d);
  }

  /** A stream socket of either address family. */
  predicate DataSocket(d: Syscall)
    requires SixArgs(d)
  {
    d.nr == SOCKET && (d.args[0].low == 2 || d.args[0].low == 10) && d.args[1].low == 1 && d.args[2].low == 6
  }

  lemma DataFixedAdmits(d: Syscall)
    requires SixArgs(d)
    ensures Admits(DATA_FIXED, d) <==> DataSocket(d) || d.nr == BIND || d.nr == SELECT
  {
    hide Admits;
    AdmitsThree(DATA_FIXED[0], DATA_FIXED[1], DATA_FIXED[2], d);
    AdmitsOne(DATA_FIXED[3], d);
    assert DATA_FIXED == [DATA_FIXED[0], DATA_FIXED[1], DATA_FIXED[2]] + [DATA_FIXED[3]];
    AdmitsConcat([DATA_FIXED[0], DATA_FIXED[1], DATA_FIXED[2]], [DATA_FIXED[3]], d);
  }

  // ------------------------------------------------------------ the whole lists

  lemma AdmitsFour(a: seq<Rule>, b: seq<Rule>, c: seq<Rule>, e: seq<Rule>, d: Syscall)
    requires SixArgs(d)
    ensures Admits(a + b + c + e, d) <==> Admits(a, d) || Admits(b, d) || Admits(c, d) || Admits(e, d)
  {
    hide Admits;
    AdmitsConcat(a, b, d);
    AdmitsConcat(a + b, c, d);
    AdmitsConcat(a + b + c, e, d);
  }

  predicate DataCalls(t: Tunables, d: Syscall)
    requires SixArgs(d)
  {
    || DataSocket(d) || d.nr == BIND || d.nr == SELECT
    || (t.pasvEnable && (d.nr == LISTEN || d.nr == ACCEPT))
    || (t.portEnable && PortCalls(d))
  }

  predicate PortCalls(d: Syscall)
    requires SixArgs(d)
  {
    || d.nr == CONNECT
    || (d.nr == GETSOCKOPT && d.args[1].low == 1 && d.args[2].low == 4)
    || (d.nr == SETSOCKOPT && d.args[1].low == 1 && d.args[2].low == 2)
    || (d.nr == FCNTL && (d.args[1].low == 3 || (d.args[1].low == 4 && (d.args[2].low == 0x802 || d.args[2].low == 2))))
  }

  lemma DataAdmits(t: Tunables, d: Syscall)
    requires SixArgs(d)
    ensures Admits(DataConnections(t), d) <==> DataCalls(t, d)
  {
    hide Admits, When, DATA_FIXED, DATA_PORT, DATA_PASV;
    DataFixedAdmits(d);
    DataPortAdmits(d);
    SmallGroupsAdmit(d);
    AdmitsWhen(t.portEnable, DATA_PORT, d);
    AdmitsWhen(t.pasvEnable, DATA_PASV, d);
    AdmitsConcat(DATA_FIXED, When(t.portEnable, DATA_PORT), d);
    AdmitsConcat(DATA_FIXED + When(t.portEnable, DATA_PORT), When(t.pasvEnable, DATA_PASV), d);
  }

  lemma PreAdmits(t: Tunables, d: Syscall)
    requires SixArgs(d)
    ensures Admits(Prelogin(t), d) <==>
              || Admits(BASE, d) || Admits(PRELOGIN, d) || (t.idleTimeout && Admits(TIMEOUT, d))
              || ((t.xferlog || t.dualLog) && Admits(LOCKING, d)) || (t.ssl && Admits(TLS, d))
              || (t.syslog && Admits(NO_SOCKET, d))
  {
    hide Admits, When, BASE, PRELOGIN, TIMEOUT, LOCKING, TLS, NO_SOCKET;
    var a, b := When(t.idleTimeout, TIMEOUT), When(t.xferlog || t.dualLog, LOCKING);
    var c, e := When(t.ssl, TLS), When(t.syslog, NO_SOCKET);
    AdmitsFour(BASE, PRELOGIN, a, b, d);
    AdmitsConcat(BASE + PRELOGIN + a + b, c, d);
    AdmitsConcat(BASE + PRELOGIN + a + b + c, e, d);
    AdmitsWhen(t.idleTimeout, TIMEOUT, d);
    AdmitsWhen(t.xferlog || t.dualLog, LOCKING, d);
    AdmitsWhen(t.ssl, TLS, d);
    AdmitsWhen(t.syslog, NO_SOCKET, d);
  }

  lemma DescriptorsAdmit(t: Tunables, pid: Word, d: Syscall)
    requires SixArgs(d)
    ensures Admits(DescriptorRules(t, pid), d) <==>
              || ((t.xferlog || t.dualLog || t.lockUploads) && Admits(LOCKING, d))
              || (t.asyncAbor && d.nr == FCNTL && d.args[1].low == 8 && d.args[2].low == pid)
              || Admits(SOCKET_OPTIONS, d) || Admits(DESCRIPTORS, d)
  {
    var owner := Allow2Match(FCNTL, 2, 8, 3, pid);
    AdmitsOne(owner, d);
    assert Hits(owner, d) <==> d.nr == FCNTL && d.args[1].low == 8 && d.args[2].low == pid;
    hide Admits, When, LOCKING, SOCKET_OPTIONS, DESCRIPTORS, Hits;
    var lock := t.xferlog || t.dualLog || t.lockUploads;
    AdmitsWhen(lock, LOCKING, d);
    AdmitsWhen(t.asyncAbor, [owner], d);
    AdmitsFour(When(lock, LOCKING), When(t.asyncAbor, [owner]), SOCKET_OPTIONS, DESCRIPTORS, d);
  }

  lemma AllowHits(nr: Word, d: Syscall)
    requires SixArgs(d) && !Negative(nr)
    ensures Admits([Allow(nr)], d) <==> d.nr == nr
  {
    hide Admits;
    AdmitsOne(Allow(nr), d);
  }

  lemma OpensAdmit(flags: Word, d: Syscall)
    requires SixArgs(d)
    ensures Admits([Allow1Mask(OPEN, 2, flags), Allow1Mask(OPENAT, 3, flags)], d) <==>
              (d.nr == OPEN && Within(d, 2, flags)) || (d.nr == OPENAT && Within(d, 3, flags))
  {
    hide Admits, Within;
    AdmitsTwo(Allow1Mask(OPEN, 2, flags), Allow1Mask(OPENAT, 3, flags), d);
  }

  lemma PathsAdmit(t: Tunables, d: Syscall)
    requires SixArgs(d)
    ensures Admits(PathRules(t), d) <==>
              || (d.nr == OPEN && Within(d, 2, OpenFlags(t))) || (d.nr == OPENAT && Within(d, 3, OpenFlags(t)))
              || Admits(QUERIES, d)
              || (t.sendfile && d.nr == SENDFILE)
              || ((t.idleTimeout || t.dataTimeout || t.asyncAbor) && d.nr == RT_SIGACTION)
              || ((t.idleTimeout || t.dataTimeout) && d.nr == ALARM)
  {
    hide Admits, When, QUERIES, OpenFlags, Hits, Within;
    var flags, timed := OpenFlags(t), t.idleTimeout || t.dataTimeout;
    var opens := [Allow1Mask(OPEN, 2, flags), Allow1Mask(OPENAT, 3, flags)];
    OpensAdmit(flags, d);
    AllowHits(SENDFILE, d);
    AllowHits(RT_SIGACTION, d);
    AllowHits(ALARM, d);
    AdmitsWhen(t.sendfile, [Allow(SENDFILE)], d);
    AdmitsWhen(timed || t.asyncAbor, [Allow(RT_SIGACTION)], d);
    AdmitsWhen(timed, [Allow(ALARM)], d);
    var a, b, c := When(t.sendfile, [Allow(SENDFILE)]), When(timed || t.asyncAbor, [Allow(RT_SIGACTION)]), When(timed, [Allow(ALARM)]);
    AdmitsFour(opens, QUERIES, a, b, d);
    AdmitsConcat(opens + QUERIES + a + b, c, d);
  }

  lemma ChannelsAdmit(t: Tunables, anon: bool, d: Syscall)
    requires SixArgs(d)
    ensures Admits(ChannelRules(t, anon), d) <==>
              if t.oneProcess then DataCalls(t, d) || (anon && t.chownUploads && (d.nr == FCHMOD || d.nr == FCHOWN))
              else d.args[2].low == 0 && (d.nr == RECVMSG || (d.nr == SENDMSG && ((anon && t.chownUploads) || t.ssl)))
  {
    AdmitsTwo(Allow(FCHMOD), Allow(FCHOWN), d);
    AdmitsOne(Allow1Match(RECVMSG, 3, 0), d);
    AdmitsOne(Allow1Match(SENDMSG, 3, 0), d);
    hide Admits, When, DataConnections, DataCalls;
    DataAdmits(t, d);
    var owner, send := [Allow(FCHMOD), Allow(FCHOWN)], [Allow1Match(SENDMSG, 3, 0)];
    AdmitsWhen(anon && t.chownUploads, owner, d);
    AdmitsWhen((anon && t.chownUploads) || t.ssl, send, d);
    AdmitsConcat(DataConnections(t), When(anon && t.chownUploads, owner), d);
    AdmitsConcat([Allow1Match(RECVMSG, 3, 0)], When((anon && t.chownUploads) || t.ssl, send), d);
  }

  lemma WritesAdmit(t: Tunables, anon: bool, d: Syscall)
    requires SixArgs(d)
    ensures Admits(WriteRules(t, anon), d) <==>
              || (d.nr == MKDIR && (!anon || t.anonMkdir))
              || (d.nr == UNLINK && (!anon || t.anonOther || t.deleteFailed))
              || ((d.nr == RMDIR || d.nr == RENAME || d.nr == FTRUNCATE) && (!anon || t.anonOther))
              || ((d.nr == UTIME || d.nr == UTIMES) && (!anon || t.anonOther) && t.mdtmWrite)
              || (d.nr == CHMOD && !anon && t.chmodEnable)
  {
    hide Admits, When, MODIFY, SOCKET_OPTIONS;
    AllowHits(MKDIR, d);
    AllowHits(UNLINK, d);
    AllowHits(CHMOD, d);
    AdmitsTwo(Allow(UTIME), Allow(UTIMES), d);
    OtherSmallGroupsAdmit(d);
    var other := !anon || t.anonOther;
    var mkdir, unlink, times, chmod := [Allow(MKDIR)], [Allow(UNLINK)], [Allow(UTIME), Allow(UTIMES)], [Allow(CHMOD)];
    AdmitsWhen(!anon || t.anonMkdir, mkdir, d);
    AdmitsWhen(other || t.deleteFailed, unlink, d);
    AdmitsWhen(other, MODIFY, d);
    AdmitsWhen(other && t.mdtmWrite, times, d);
    AdmitsWhen(!anon && t.chmodEnable, chmod, d);
    var a, b := When(!anon || t.anonMkdir, mkdir), When(other || t.deleteFailed, unlink);
    var c, e := When(other, MODIFY), When(other && t.mdtmWrite, times);
    AdmitsFour(a, b, c, e, d);
    AdmitsConcat(a + b + c + e, When(!anon && t.chmodEnable, chmod), d);
  }

  lemma OptionsAdmit(t: Tunables, anon: bool, d: Syscall)
    requires SixArgs(d)
    ensures Admits(OptionRules(t, anon), d) <==>
              (t.syslog && Admits(SYSLOG, d)) || (t.textUserdb && Admits(USERDB, d)) || (t.writeEnable && Admits(WriteRules(t, anon), d))
  {
    hide Admits, When, SYSLOG, USERDB, WriteRules;
    AdmitsWhen(t.syslog, SYSLOG, d);
    AdmitsWhen(t.textUserdb, USERDB, d);
    AdmitsWhen(t.writeEnable, WriteRules(t, anon), d);
    AdmitsConcat(When(t.syslog, SYSLOG), When(t.textUserdb, USERDB), d);
    AdmitsConcat(When(t.syslog, SYSLOG) + When(t.textUserdb, USERDB), When(t.writeEnable, WriteRules(t, anon)), d);
  }

  lemma PostloginAdmits(t: Tunables, anon: bool, pid: Word, d: Syscall)
    requires SixArgs(d)
    ensures Admits(Postlogin(t, anon, pid), d) <==>
              || Admits(LSTAT_FIRST, d) || Admits(Prelogin(t), d) || Admits(DescriptorRules(t, pid), d)
              || Admits(PathRules(t), d) || Admits(ChannelRules(t, anon), d) || Admits(OptionRules(t, anon), d)
  {
    hide Admits, LSTAT_FIRST, Prelogin, DescriptorRules, PathRules, ChannelRules, OptionRules;
    AdmitsConcat(DescriptorRules(t, pid), PathRules(t), d);
    AdmitsFour(LSTAT_FIRST, Prelogin(t), FileRules(t, pid), ChannelRules(t, anon), d);
    AdmitsConcat(LSTAT_FIRST + Prelogin(t) + FileRules(t, pid) + ChannelRules(t, anon), OptionRules(t, anon), d);
  }

  // ---------------------------------------------------------- the session's filter

  /** What the filter of a session answers to a call that no rule refuses with an error number. */
  lemma SessionAnswer(t: Tunables, anon: bool, pid: Word, d: Syscall)
    requires SixArgs(d) && d.arch == ARCH_X86_64 && d.nr != SOCKET && d.nr != MREMAP
    ensures Exec(Compile(Postlogin(t, anon, pid)), 0, 0, d)
         == Returned(if Admits(Postlogin(t, anon, pid), d) then RET_ALLOW else RET_KILL)
  {
    hide Exec, Compile, Good, Accepted, FirstMatch, Postlogin, OpenFlags, Admits;
    var rules := Postlogin(t, anon, pid);
    PostloginFits(t, anon, pid);
    GoodRefuses(rules, OpenFlags(t), 69, d);
    CompileCorrect(rules, d);
    PermitsIffAdmits(rules, d);
  }

  lemma GoodRefuses(rules: seq<Rule>, flags: Word, n: nat, d: Syscall)
    requires Good(rules, flags, n) && d.nr != SOCKET && d.nr != MREMAP
    ensures AllAccepted(rules) && forall r :: r in rules && r.Reject? ==> r.nr != d.nr
  {
    hide Accepted;
  }

  // ------------------------------------------------- the lists, call by call

  predicate PreCalls(t: Tunables, d: Syscall)
    requires SixArgs(d)
  {
    || d.nr == READ || d.nr == WRITE || d.nr == MUNMAP || d.nr == BRK || d.nr == MREMAP || d.nr == GETTIMEOFDAY
    || d.nr == RT_SIGRETURN || d.nr == RESTART_SYSCALL || d.nr == CLOSE || d.nr == EXIT_GROUP
    || (d.nr == MMAP && d.args[2].low == 3 && d.args[3].low == 0x22)
    || (d.nr == MPROTECT && Within(d, 3, 1))
    || d.nr == NANOSLEEP || d.nr == GETPID || d.nr == SHUTDOWN
    || (d.nr == RECVFROM && d.args[3].low == 2)
    || (d.nr == FCNTL && (d.args[1].low == 3 || (Within(d, 3, 0x9_8cc3) && d.args[1].low == 4)))
    || (t.idleTimeout && (d.nr == RT_SIGACTION || d.nr == ALARM))
    || ((t.xferlog || t.dualLog) && d.nr == FCNTL && (d.args[1].low == 7 || d.args[1].low == 6))
    || (t.ssl && d.nr == RECVMSG && d.args[2].low == 0)
    || (t.ssl && d.nr == SETSOCKOPT && d.args[1].low == 6 && d.args[2].low == 1)
    || (t.syslog && d.nr == SOCKET)
  }

  lemma PrePermits(t: Tunables, d: Syscall)
    requires SixArgs(d)
    ensures Admits(Prelogin(t), d) <==> PreCalls(t, d)
  {
    hide Admits, Within, BASE, PRELOGIN, TIMEOUT, LOCKING, TLS, NO_SOCKET, Prelogin, When, USERDB, SYSLOG, LSTAT_FIRST, MODIFY,
         SOCKET_OPTIONS, DATA_PASV, DESCRIPTORS;
    PreAdmits(t, d);
    BaseAdmits(d);
    PreloginAdmits(d);
    SmallGroupsAdmit(d);
    OtherSmallGroupsAdmit(d);
  }

  predicate FileCalls(t: Tunables, pid: Word, d: Syscall)
    requires SixArgs(d)
  {
    || ((t.xferlog || t.dualLog || t.lockUploads) && d.nr == FCNTL && (d.args[1].low == 7 || d.args[1].low == 6))
    || (t.asyncAbor && d.nr == FCNTL && d.args[1].low == 8 && d.args[2].low == pid)
    || (d.nr == SETSOCKOPT && d.args[1].low == 1 && (d.args[2].low == 9 || d.args[2].low == 13))
    || (d.nr == SETSOCKOPT && d.args[1].low == 0 && d.args[2].low == 1)
    || d.nr == FSTAT || d.nr == LSEEK
    || (d.nr == OPEN && Within(d, 2, OpenFlags(t))) || (d.nr == OPENAT && Within(d, 3, OpenFlags(t)))
    || d.nr == STAT || d.nr == READLINK || d.nr == GETCWD || d.nr == CHDIR || d.nr == GETDENTS || d.nr == UMASK
    || (t.sendfile && d.nr == SENDFILE)
    || ((t.idleTimeout || t.dataTimeout || t.asyncAbor) && d.nr == RT_SIGACTION)
    || ((t.idleTimeout || t.dataTimeout) && d.nr == ALARM)
  }

  lemma FilePermits(t: Tunables, pid: Word, d: Syscall)
    requires SixArgs(d)
    ensures Admits(DescriptorRules(t, pid), d) || Admits(PathRules(t), d) <==> FileCalls(t, pid, d)
  {
    hide Admits, Within, OpenFlags, LOCKING, SOCKET_OPTIONS, DESCRIPTORS, QUERIES, DescriptorRules, PathRules, When, TIMEOUT,
         TLS, DATA_PASV, USERDB, SYSLOG, NO_SOCKET, LSTAT_FIRST, MODIFY;
    DescriptorsAdmit(t, pid, d);
    PathsAdmit(t, d);
    SmallGroupsAdmit(d);
    OtherSmallGroupsAdmit(d);
    QueriesAdmit(d);
  }

  predicate ChannelCalls(t: Tunables, anon: bool, d: Syscall)
    requires SixArgs(d)
  {
    if t.oneProcess then DataCalls(t, d) || (anon && t.chownUploads && (d.nr == FCHMOD || d.nr == FCHOWN))
    else d.args[2].low == 0 && (d.nr == RECVMSG || (d.nr == SENDMSG && ((anon && t.chownUploads) || t.ssl)))
  }

  predicate OptionCalls(t: Tunables, anon: bool, d: Syscall)
    requires SixArgs(d)
  {
    || (t.syslog && d.nr == SENDTO && d.args[5].low == 0)
    || (t.textUserdb && d.nr == SOCKET)
    || (t.textUserdb && d.nr == MMAP && d.args[2].low == 1 && d.args[3].low == 1)
    || (t.writeEnable && WriteCalls(t, anon, d.nr))
  }

  predicate WriteCalls(t: Tunables, anon: bool, nr: Word) {
    || (nr == MKDIR && (!anon || t.anonMkdir))
    || (nr == UNLINK && (!anon || t.anonOther || t.deleteFailed))
    || ((nr == RMDIR || nr == RENAME || nr == FTRUNCATE) && (!anon || t.anonOther))
    || ((nr == UTIME || nr == UTIMES) && (!anon || t.anonOther) && t.mdtmWrite)
    || (nr == CHMOD && !anon && t.chmodEnable)
  }

  lemma OptionPermits(t: Tunables, anon: bool, d: Syscall)
    requires SixArgs(d)
    ensures Admits(OptionRules(t, anon), d) <==> OptionCalls(t, anon, d)
  {
    hide Admits, USERDB, SYSLOG, NO_SOCKET, LSTAT_FIRST, MODIFY, SOCKET_OPTIONS, OptionRules, WriteRules, When;
    OptionsAdmit(t, anon, d);
    WritesAdmit(t, anon, d);
    OtherSmallGroupsAdmit(d);
  }

  /** What the filter of a session answers to any call but socket and mremap. */
  lemma SessionPermits(t: Tunables, anon: bool, pid: Word, d: Syscall)
    requires SixArgs(d) && d.arch == ARCH_X86_64 && d.nr != SOCKET && d.nr != MREMAP
    ensures Exec(Compile(Postlogin(t, anon, pid)), 0, 0, d)
         == Returned(
              if d.nr == LSTAT || PreCalls(t, d) || FileCalls(t, pid, d) || ChannelCalls(t, anon, d) || OptionCalls(t, anon, d)
              then RET_ALLOW else RET_KILL)
  {
    hide Admits, Exec, Compile, Postlogin, Prelogin, DescriptorRules, PathRules, ChannelRules, OptionRules, LSTAT_FIRST, MODIFY,
         USERDB, SYSLOG, NO_SOCKET, SOCKET_OPTIONS, PreCalls, FileCalls, OptionCalls, DataCalls;
    SessionAnswer(t, anon, pid, d);
    PostloginAdmits(t, anon, pid, d);
    PrePermits(t, d);
    FilePermits(t, pid, d);
    ChannelsAdmit(t, anon, d);
    OptionPermits(t, anon, d);
    OtherSmallGroupsAdmit(d);
  }

  // ------------------------------------------------------- what a session may do

  /** The installed filter permits the call. */
  ghost predicate Allowed(t: Tunables, anon: bool, pid: Word, d: Syscall)
    requires SixArgs(d)
  {
    Exec(Compile(Postlogin(t, anon, pid)), 0, 0, d) == Returned(0x7fff_0000)
  }

  ghost predicate Killed(t: Tunables, anon: bool, pid: Word, d: Syscall)
    requires SixArgs(d)
  {
    Exec(Compile(Postlogin(t, anon, pid)), 0, 0, d) == Returned(0)
  }

  /** A session reads and writes what it has open, manages its memory and time, and looks around in its file system. */
  lemma AlwaysAllowed(t: Tunables, anon: bool, pid: Word, d: Syscall)
    requires SixArgs(d) && d.arch == ARCH_X86_64
    requires d.nr in {READ, WRITE, MUNMAP, BRK, GETTIMEOFDAY, RT_SIGRETURN, RESTART_SYSCALL, CLOSE, EXIT_GROUP, NANOSLEEP,
                      GETPID, SHUTDOWN, LSTAT, FSTAT, LSEEK, STAT, READLINK, GETCWD, CHDIR, GETDENTS, UMASK}
    ensures Allowed(t, anon, pid, d)
  {
    hide Exec, Compile, Postlogin, ChannelCalls, OptionCalls, Within;
    SessionPermits(t, anon, pid, d);
  }

  /** What is not allowed kills the session. */
  ghost predicate AllowedIff(t: Tunables, anon: bool, pid: Word, d: Syscall, c: bool)
    requires SixArgs(d)
  {
    if c then Allowed(t, anon, pid, d) else Killed(t, anon, pid, d)
  }

  /** Changing the file system takes write_enable, and for anonymous users the tunable of the change. */
  lemma ChangesAllowed(t: Tunables, anon: bool, pid: Word, d: Syscall)
    requires SixArgs(d) && d.arch == ARCH_X86_64
    ensures d.nr == MKDIR ==> AllowedIff(t, anon, pid, d, t.writeEnable && (!anon || t.anonMkdir))
    ensures d.nr == UNLINK ==> AllowedIff(t, anon, pid, d, t.writeEnable && (!anon || t.anonOther || t.deleteFailed))
    ensures d.nr in {RMDIR, RENAME, FTRUNCATE} ==> AllowedIff(t, anon, pid, d, t.writeEnable && (!anon || t.anonOther))
    ensures d.nr in {UTIME, UTIMES} ==> AllowedIff(t, anon, pid, d, t.writeEnable && (!anon || t.anonOther) && t.mdtmWrite)
    ensures d.nr == CHMOD ==> AllowedIff(t, anon, pid, d, t.writeEnable && !anon && t.chmodEnable)
  {
    hide Exec, Compile, Postlogin, Within, PreCalls, FileCalls, ChannelCalls, OptionCalls;
    if d.nr in {MKDIR, UNLINK, RMDIR, RENAME, FTRUNCATE, UTIME, UTIMES, CHMOD} {
      ChangesAreOptions(t, anon, pid, d);
      SessionPermits(t, anon, pid, d);
    }
  }

  lemma ChangesAreOptions(t: Tunables, anon: bool, pid: Word, d: Syscall)
    requires SixArgs(d) && d.nr in {MKDIR, UNLINK, RMDIR, RENAME, FTRUNCATE, UTIME, UTIMES, CHMOD}
    ensures !PreCalls(t, d) && !FileCalls(t, pid, d) && !ChannelCalls(t, anon, d)
    ensures OptionCalls(t, anon, d) <==> t.writeEnable && WriteCalls(t, anon, d.nr)
  {
    hide Within, WriteCalls;
  }

  lemma OwnersAllowed(t: Tunables, anon: bool, pid: Word, d: Syscall)
    requires SixArgs(d) && d.arch == ARCH_X86_64 && d.nr in {FCHMOD, FCHOWN}
    ensures AllowedIff(t, anon, pid, d, t.oneProcess && anon && t.chownUploads)
  {
    hide Exec, Compile, Postlogin, Within;
    SessionPermits(t, anon, pid, d);
  }

  /** Connections of its own are for the one-process model, and only of the kind that is enabled. */
  lemma ListenAllowed(t: Tunables, anon: bool, pid: Word, d: Syscall)
    requires SixArgs(d) && d.arch == ARCH_X86_64 && d.nr in {LISTEN, ACCEPT}
    ensures AllowedIff(t, anon, pid, d, t.oneProcess && t.pasvEnable)
  {
    hide Exec, Compile, Postlogin, Within;
    SessionPermits(t, anon, pid, d);
  }

  lemma ConnectAllowed(t: Tunables, anon: bool, pid: Word, d: Syscall)
    requires SixArgs(d) && d.arch == ARCH_X86_64
    ensures d.nr == CONNECT ==> AllowedIff(t, anon, pid, d, t.oneProcess && t.portEnable)
    ensures d.nr in {BIND, SELECT} ==> AllowedIff(t, anon, pid, d, t.oneProcess)
  {
    hide Exec, Compile, Postlogin, Within;
    if d.nr in {CONNECT, BIND, SELECT} { SessionPermits(t, anon, pid, d); }
  }

  lemma SetOptionsAllowed(t: Tunables, anon: bool, pid: Word, d: Syscall)
    requires SixArgs(d) && d.arch == ARCH_X86_64 && d.nr == SETSOCKOPT
    ensures var level, option := d.args[1].low, d.args[2].low;
      AllowedIff(t, anon, pid, d,
        || (level == 1 && (option == 9 || option == 13 || (option == 2 && t.oneProcess && t.portEnable)))
        || (level == 0 && option == 1)
        || (level == 6 && option == 1 && t.ssl))
  {
    hide Exec, Compile, Postlogin, Within;
    SessionPermits(t, anon, pid, d);
  }

  lemma GetOptionsAllowed(t: Tunables, anon: bool, pid: Word, d: Syscall)
    requires SixArgs(d) && d.arch == ARCH_X86_64 && d.nr == GETSOCKOPT
    ensures AllowedIff(t, anon, pid, d, t.oneProcess && t.portEnable && d.args[1].low == 1 && d.args[2].low == 4)
  {
    hide Exec, Compile, Postlogin, Within;
    SessionPermits(t, anon, pid, d);
  }

  /** Messages: peeking at commands, syslog, and descriptors passed to and from the other processes. */
  lemma MessagesAllowed(t: Tunables, anon: bool, pid: Word, d: Syscall)
    requires SixArgs(d) && d.arch == ARCH_X86_64
    ensures d.nr == RECVFROM ==> AllowedIff(t, anon, pid, d, d.args[3].low == 2)
    ensures d.nr == SENDTO ==> AllowedIff(t, anon, pid, d, t.syslog && d.args[5].low == 0)
  {
    hide Exec, Compile, Postlogin, Within;
    if d.nr in {RECVFROM, SENDTO} { SessionPermits(t, anon, pid, d); }
  }

  lemma DescriptorMessagesAllowed(t: Tunables, anon: bool, pid: Word, d: Syscall)
    requires SixArgs(d) && d.arch == ARCH_X86_64
    ensures d.nr == RECVMSG ==> AllowedIff(t, anon, pid, d, d.args[2].low == 0 && (t.ssl || !t.oneProcess))
    ensures d.nr == SENDMSG ==>
              AllowedIff(t, anon, pid, d, d.args[2].low == 0 && !t.oneProcess && ((anon && t.chownUploads) || t.ssl))
  {
    hide Exec, Compile, Postlogin, Within;
    if d.nr in {RECVMSG, SENDMSG} { SessionPermits(t, anon, pid, d); }
  }

  /** Opening a file stays within the flags of the mode. */
  lemma OpenAllowed(t: Tunables, anon: bool, pid: Word, d: Syscall)
    requires SixArgs(d) && d.arch == ARCH_X86_64
    ensures var flags: Word := if t.writeEnable then 0x9_8cc3 else 0x9_8cc0;
      && (d.nr == OPEN ==> AllowedIff(t, anon, pid, d, Within(d, 2, flags)))
      && (d.nr == OPENAT ==> AllowedIff(t, anon, pid, d, Within(d, 3, flags)))
  {
    hide Exec, Compile, Postlogin, Within, OpenFlags;
    OpenFlagsAre(t);
    if d.nr in {OPEN, OPENAT} { SessionPermits(t, anon, pid, d); }
  }

  lemma OpenFlagsAre(t: Tunables)
    ensures OpenFlags(t) == if t.writeEnable then 0x9_8cc3 else 0x9_8cc0
  {
  }

  /** Memory is mapped private, or shared for reading user names, and protected for reading only. */
  lemma MapAllowed(t: Tunables, anon: bool, pid: Word, d: Syscall)
    requires SixArgs(d) && d.arch == ARCH_X86_64 && d.nr == MMAP
    ensures var protection, kind := d.args[2].low, d.args[3].low;
      AllowedIff(t, anon, pid, d, (protection == 3 && kind == 0x22) || (t.textUserdb && protection == 1 && kind == 1))
  {
    hide Exec, Compile, Postlogin, Within;
    SessionPermits(t, anon, pid, d);
  }

  lemma ProtectAllowed(t: Tunables, anon: bool, pid: Word, d: Syscall)
    requires SixArgs(d) && d.arch == ARCH_X86_64 && d.nr == MPROTECT
    ensures AllowedIff(t, anon, pid, d, Within(d, 3, 1))
  {
    hide Exec, Compile, Postlogin, Within;
    SessionPermits(t, anon, pid, d);
  }

  lemma TimersAllowed(t: Tunables, anon: bool, pid: Word, d: Syscall)
    requires SixArgs(d) && d.arch == ARCH_X86_64
    ensures d.nr == RT_SIGACTION ==> AllowedIff(t, anon, pid, d, t.idleTimeout || t.dataTimeout || t.asyncAbor)
    ensures d.nr == ALARM ==> AllowedIff(t, anon, pid, d, t.idleTimeout || t.dataTimeout)
    ensures d.nr == SENDFILE ==> AllowedIff(t, anon, pid, d, t.sendfile)
  {
    hide Exec, Compile, Postlogin, Within;
    if d.nr in {RT_SIGACTION, ALARM, SENDFILE} { SessionPermits(t, anon, pid, d); }
  }

  /** Descriptor flags, file locks, and the owner of urgent data. */
  lemma DescriptorFlagsAllowed(t: Tunables, anon: bool, pid: Word, d: Syscall)
    requires SixArgs(d) && d.arch == ARCH_X86_64 && d.nr == FCNTL
    ensures var cmd := d.args[1].low;
      AllowedIff(t, anon, pid, d,
        || cmd == 3
        || (cmd == 4 && Within(d, 3, 0x9_8cc3))
        || ((cmd == 6 || cmd == 7) && (t.xferlog || t.dualLog || t.lockUploads))
        || (cmd == 8 && t.asyncAbor && d.args[2].low == pid))
  {
    hide Exec, Compile, Postlogin, Within, OpenFlags, PreCalls, FileCalls, ChannelCalls, OptionCalls;
    SessionPermits(t, anon, pid, d);
    FlagsBefore(t, d);
    FlagsOfFiles(t, pid, d);
    FlagsOfSockets(t, anon, d);
    SocketFlags(d);
  }

  lemma FlagsBefore(t: Tunables, d: Syscall)
    requires SixArgs(d) && d.nr == FCNTL
    ensures var cmd := d.args[1].low;
      PreCalls(t, d) <==>
        cmd == 3 || (Within(d, 3, 0x9_8cc3) && cmd == 4) || ((t.xferlog || t.dualLog) && (cmd == 7 || cmd == 6))
  {
    hide Within;
  }

  lemma FlagsOfFiles(t: Tunables, pid: Word, d: Syscall)
    requires SixArgs(d) && d.nr == FCNTL
    ensures var cmd := d.args[1].low;
      FileCalls(t, pid, d) <==>
        ((t.xferlog || t.dualLog || t.lockUploads) && (cmd == 7 || cmd == 6)) || (t.asyncAbor && cmd == 8 && d.args[2].low == pid)
  {
    hide Within;
  }

  lemma FlagsOfSockets(t: Tunables, anon: bool, d: Syscall)
    requires SixArgs(d) && d.nr == FCNTL
    ensures var cmd, value := d.args[1].low, d.args[2].low;
      ChannelCalls(t, anon, d) <==>
        t.oneProcess && t.portEnable && (cmd == 3 || (cmd == 4 && (value == 0x802 || value == 2)))
    ensures !OptionCalls(t, anon, d)
  {
  }

  /** Setting the flags of a data socket is within what is allowed of any descriptor. */
  lemma SocketFlags(d: Syscall)
    requires SixArgs(d)
    ensures d.args[2].low == 0x802 || d.args[2].low == 2 ==> Within(d, 3, 0x9_8cc3)
  {
  }

  /** Every other call kills the session, whatever its arguments. */
  lemma OthersKilled(t: Tunables, anon: bool, pid: Word, d: Syscall)
    requires SixArgs(d) && d.arch == ARCH_X86_64
    requires d.nr !in {READ, WRITE, MUNMAP, BRK, GETTIMEOFDAY, RT_SIGRETURN, RESTART_SYSCALL, CLOSE, EXIT_GROUP, NANOSLEEP,
                       GETPID, SHUTDOWN, LSTAT, FSTAT, LSEEK, STAT, READLINK, GETCWD, CHDIR, GETDENTS, UMASK}
    requires d.nr !in {MKDIR, UNLINK, RMDIR, RENAME, FTRUNCATE, UTIME, UTIMES, CHMOD, FCHMOD, FCHOWN}
    requires d.nr !in {BIND, SELECT, LISTEN, ACCEPT, CONNECT, GETSOCKOPT, SETSOCKOPT, RECVFROM, SENDTO, RECVMSG, SENDMSG}
    requires d.nr !in {OPEN, OPENAT, SENDFILE, MMAP, MPROTECT, RT_SIGACTION, ALARM, FCNTL, SOCKET, MREMAP}
    ensures Killed(t, anon, pid, d)
  {
    hide Exec, Compile, Postlogin, Within;
    SessionPermits(t, anon, pid, d);
  }

  // ------------------------------------------------- socket and mremap

  /** The first list decides unless nothing in it matches. */
  lemma {:induction false} FirstMatchConcat(a: seq<Rule>, b: seq<Rule>, d: Syscall)
    requires SixArgs(d) && AllAccepted(a + b)
    ensures AllAccepted(a) && AllAccepted(b)
    ensures FirstMatch(a + b, d) == if Admits(a, d) then FirstMatch(a, d) else FirstMatch(b, d)
  {
    hide Accepted, Matches, Verdict;
    AcceptedParts(a, b);
    if a == [] {
      assert a + b == b;
    } else {
      var rest := a[1..];
      assert (a + b)[1..] == rest + b && (a + b)[0] == a[0] && a[0] in a && a == [a[0]] + rest;
      FirstMatchConcat(rest, b, d);
      AdmitsConcat([a[0]], rest, d);
      AdmitsOne(a[0], d);
    }
  }

  lemma AcceptedParts(a: seq<Rule>, b: seq<Rule>)
    requires AllAccepted(a + b)
    ensures AllAccepted(a) && AllAccepted(b)
  {
    hide Accepted;
    assert forall r :: r in a || r in b ==> r in a + b;
  }

  predicate AllowsOnly(rules: seq<Rule>) {
    forall r :: r in rules ==> !r.Reject?
  }

  lemma AllowsConcat(a: seq<Rule>, b: seq<Rule>)
    requires AllowsOnly(a) && AllowsOnly(b)
    ensures AllowsOnly(a + b)
  {
  }

  lemma AllowsNothing()
    ensures AllowsOnly([])
  {
  }

  lemma AllowsGroups()
    ensures AllowsOnly(DATA_FIXED) && AllowsOnly(DATA_PORT) && AllowsOnly(DATA_PASV)
  {
  }

  lemma DataAllows(t: Tunables)
    ensures AllowsOnly(DataConnections(t))
  {
    hide AllowsOnly, DATA_FIXED, DATA_PORT, DATA_PASV;
    AllowsGroups();
    AllowsNothing();
    AllowsConcat(DATA_FIXED, When(t.portEnable, DATA_PORT));
    AllowsConcat(DATA_FIXED + When(t.portEnable, DATA_PORT), When(t.pasvEnable, DATA_PASV));
  }

  lemma ChannelAllows(t: Tunables, anon: bool)
    ensures AllowsOnly(ChannelRules(t, anon))
  {
    var owner, receive, send := [Allow(FCHMOD), Allow(FCHOWN)], [Allow1Match(RECVMSG, 3, 0)], [Allow1Match(SENDMSG, 3, 0)];
    assert AllowsOnly(owner) && AllowsOnly(receive) && AllowsOnly(send);
    AllowsNothing();
    hide AllowsOnly, DataConnections;
    DataAllows(t);
    AllowsConcat(DataConnections(t), When(anon && t.chownUploads, owner));
    AllowsConcat(receive, When((anon && t.chownUploads) || t.ssl, send));
  }

  /** In a list of permissions a match is a permission. */
  lemma FirstAllows(rules: seq<Rule>, d: Syscall)
    requires SixArgs(d) && AllAccepted(rules) && AllowsOnly(rules)
    ensures FirstMatch(rules, d) == if Admits(rules, d) then RET_ALLOW else RET_KILL
  {
    PermitsIffAdmits(rules, d);
  }

  /** The options refuse a socket if the user names are read from files. */
  lemma OptionsSocket(t: Tunables, anon: bool, d: Syscall)
    requires SixArgs(d) && d.nr == SOCKET && !t.syslog && AllAccepted(OptionRules(t, anon))
    ensures FirstMatch(OptionRules(t, anon), d) == if t.textUserdb then 0x0005_000d else RET_KILL
  {
    hide Accepted, WriteRules, Admits;
    var rest := When(t.writeEnable, WriteRules(t, anon));
    if t.textUserdb {
      assert OptionRules(t, anon) == USERDB + rest;
      assert (USERDB + rest)[0] == Reject(SOCKET, EACCES);
    } else {
      assert OptionRules(t, anon) == rest;
      WritesAdmit(t, anon, d);
      if t.writeEnable { NoMatch(rest, d); }
    }
  }

  lemma NoMatch(rules: seq<Rule>, d: Syscall)
    requires SixArgs(d) && AllAccepted(rules) && !Admits(rules, d)
    ensures FirstMatch(rules, d) == RET_KILL
  {
    hide Matches;
    forall r | r in rules ensures !Matches(r, d) {
      var i :| 0 <= i < |rules| && rules[i] == r;
      assert !Hits(rules[i], d);
    }
    NothingMatches(rules, d);
  }

  /** A session gets a socket only for data connections of the one-process model, is killed or refused for any other, and
      is always refused if the log goes to syslog. */
  lemma SocketAnswer(t: Tunables, anon: bool, pid: Word, d: Syscall)
    requires SixArgs(d) && d.arch == ARCH_X86_64 && d.nr == SOCKET
    ensures var stream := (d.args[0].low == 2 || d.args[0].low == 10) && d.args[1].low == 1 && d.args[2].low == 6;
      Exec(Compile(Postlogin(t, anon, pid)), 0, 0, d)
      == Returned(
           if t.syslog then 0x0005_000d
           else if t.oneProcess && stream then 0x7fff_0000
           else if t.textUserdb then 0x0005_000d
           else 0)
  {
    hide Exec, Compile, FirstMatch, Postlogin, Prelogin, FileRules, ChannelRules, OptionRules, Admits, Accepted, LSTAT_FIRST,
         Good, OpenFlags, USERDB, SYSLOG, NO_SOCKET, MODIFY, SOCKET_OPTIONS, Within;
    if t.syslog {
      SyslogShadowsDataSockets(t, anon, pid, d);
    } else {
      PostloginFits(t, anon, pid);
      GoodIsAccepted(Postlogin(t, anon, pid), OpenFlags(t), 69);
      CompileCorrect(Postlogin(t, anon, pid), d);
      SocketParts(t, anon, pid, d);
    }
  }

  lemma SocketParts(t: Tunables, anon: bool, pid: Word, d: Syscall)
    requires SixArgs(d) && d.nr == SOCKET && !t.syslog && AllAccepted(Postlogin(t, anon, pid))
    ensures FirstMatch(Postlogin(t, anon, pid), d)
         == if t.oneProcess && DataSocket(d) then RET_ALLOW else if t.textUserdb then 0x0005_000d else RET_KILL
  {
    hide FirstMatch, Prelogin, ChannelRules, OptionRules, DescriptorRules, PathRules, Admits, Accepted, LSTAT_FIRST, USERDB, SYSLOG,
         NO_SOCKET, MODIFY, SOCKET_OPTIONS, Within, AllAccepted, PreCalls, FileCalls;
    var before := LSTAT_FIRST + Prelogin(t) + FileRules(t, pid);
    FirstMatchConcat(before + ChannelRules(t, anon), OptionRules(t, anon), d);
    FirstMatchConcat(before, ChannelRules(t, anon), d);
    AdmitsConcat(before, ChannelRules(t, anon), d);
    AdmitsConcat(LSTAT_FIRST + Prelogin(t), FileRules(t, pid), d);
    AdmitsConcat(LSTAT_FIRST, Prelogin(t), d);
    AdmitsConcat(DescriptorRules(t, pid), PathRules(t), d);
    OtherSmallGroupsAdmit(d);
    PrePermits(t, d);
    FilePermits(t, pid, d);
    SocketElsewhere(t, anon, pid, d);
    ChannelsAdmit(t, anon, d);
    ChannelAllows(t, anon);
    FirstAllows(ChannelRules(t, anon), d);
    OptionsSocket(t, anon, d);
  }

  lemma SocketElsewhere(t: Tunables, anon: bool, pid: Word, d: Syscall)
    requires SixArgs(d) && d.nr == SOCKET && !t.syslog
    ensures !PreCalls(t, d) && !FileCalls(t, pid, d)
    ensures ChannelCalls(t, anon, d) <==> t.oneProcess && DataSocket(d)
  {
    hide Within;
  }

  /** Growing a mapping is refused in every session, so that the C library does without. */
  lemma RemapAnswer(t: Tunables, anon: bool, pid: Word, d: Syscall)
    requires SixArgs(d) && d.arch == ARCH_X86_64 && d.nr == MREMAP
    ensures Exec(Compile(Postlogin(t, anon, pid)), 0, 0, d) == Returned(0x0005_0026)
  {
    hide Exec, Compile, FirstMatch, Prelogin, FileRules, ChannelRules, OptionRules, Accepted, Good, OpenFlags, BASE, LSTAT_FIRST,
         AllAccepted, Admits;
    var rules := Postlogin(t, anon, pid);
    PostloginFits(t, anon, pid);
    GoodIsAccepted(rules, OpenFlags(t), 69);
    CompileCorrect(rules, d);
    var rest := PreloginTail(t);
    PreloginHead(t);
    var tail := rest + FileRules(t, pid) + ChannelRules(t, anon) + OptionRules(t, anon);
    assert rules == LSTAT_FIRST + (BASE + tail);
    FirstMatchConcat(LSTAT_FIRST, BASE + tail, d);
    FirstMatchConcat(BASE, tail, d);
    LstatOnly(d);
    BaseAdmits(d);
    BaseRemap(d);
  }

  function PreloginTail(t: Tunables): seq<Rule> {
    PRELOGIN + When(t.idleTimeout, TIMEOUT) + When(t.xferlog || t.dualLog, LOCKING) + When(t.ssl, TLS)
    + When(t.syslog, NO_SOCKET)
  }

  lemma PreloginHead(t: Tunables)
    ensures Prelogin(t) == BASE + PreloginTail(t)
  {
    hide BASE, PRELOGIN, TIMEOUT, LOCKING, TLS, NO_SOCKET, When;
  }

  lemma LstatOnly(d: Syscall)
    requires SixArgs(d) && d.nr == MREMAP
    ensures !Admits(LSTAT_FIRST, d)
  {
  }

  lemma BaseRemap(d: Syscall)
    requires SixArgs(d) && d.nr == MREMAP && AllAccepted(BASE)
    ensures FirstMatch(BASE, d) == 0x0005_0026
  {
    hide Accepted, AllAccepted, Admits;
    var a := [Allow(READ), Allow(WRITE), Allow2Match(MMAP, 3, 3, 4, 0x22), Allow1Mask(MPROTECT, 3, 1), Allow(MUNMAP), Allow(BRK)];
    var b := [Reject(MREMAP, ENOSYS), Allow(GETTIMEOFDAY), Allow(RT_SIGRETURN), Allow(RESTART_SYSCALL), Allow(CLOSE), Allow(EXIT_GROUP)];
    assert BASE == a + b;
    AdmitsSix(a[0], a[1], a[2], a[3], a[4], a[5], d);
    FirstMatchConcat(a, b, d);
    assert b[0] == Reject(MREMAP, ENOSYS);
  }

  // ---------------------------------------------------- the broker's filter

  ghost predicate BrokerAllowedIff(t: Tunables, d: Syscall, c: bool)
    requires SixArgs(d)
  {
    Exec(Compile(Broker(t)), 0, 0, d) == Returned(if c then 0x7fff_0000 else 0)
  }

  lemma BrokerAdmits(t: Tunables, d: Syscall)
    requires SixArgs(d)
    ensures Admits(Broker(t), d) <==> Admits(BASE, d) || DataCalls(t, d) || (d.nr == SENDMSG && d.args[2].low == 0)
  {
    AdmitsOne(Allow1Match(SENDMSG, 3, 0), d);
    hide Admits, DataConnections, BASE, DataCalls;
    DataAdmits(t, d);
    AdmitsConcat(BASE, DataConnections(t), d);
    AdmitsConcat(BASE + DataConnections(t), [Allow1Match(SENDMSG, 3, 0)], d);
  }

  /** What the broker's filter answers to any call but mremap. */
  lemma BrokerPermits(t: Tunables, d: Syscall)
    requires SixArgs(d) && d.arch == ARCH_X86_64 && d.nr != MREMAP
    ensures BrokerAllowedIff(t, d, Admits(BASE, d) || DataCalls(t, d) || (d.nr == SENDMSG && d.args[2].low == 0))
  {
    hide Exec, Compile, Good, Accepted, FirstMatch, Broker, Admits, DataCalls;
    BrokerFits(t, 0);
    GoodIsAccepted(Broker(t), 0, 25);
    CompileCorrect(Broker(t), d);
    BrokerRefuses(t, d);
    PermitsIffAdmits(Broker(t), d);
    BrokerAdmits(t, d);
  }

  lemma BrokerRefuses(t: Tunables, d: Syscall)
    requires d.nr != MREMAP
    ensures forall r :: r in Broker(t) && r.Reject? ==> r.nr != d.nr
  {
    hide DataConnections;
    DataAllows(t);
  }

  /** The broker opens data connections of the enabled kinds and passes descriptors. */
  lemma BrokerAllowed(t: Tunables, d: Syscall)
    requires SixArgs(d) && d.arch == ARCH_X86_64
    ensures d.nr in {READ, WRITE, MUNMAP, BRK, GETTIMEOFDAY, RT_SIGRETURN, RESTART_SYSCALL, CLOSE, EXIT_GROUP, BIND, SELECT} ==>
              BrokerAllowedIff(t, d, true)
    ensures d.nr in {LISTEN, ACCEPT} ==> BrokerAllowedIff(t, d, t.pasvEnable)
    ensures d.nr == CONNECT ==> BrokerAllowedIff(t, d, t.portEnable)
    ensures d.nr == SENDMSG ==> BrokerAllowedIff(t, d, d.args[2].low == 0)
  {
    hide Exec, Compile, Broker, Admits, Within;
    if d.nr != MREMAP {
      BrokerPermits(t, d);
      BaseAdmits(d);
    }
  }

  lemma BrokerSockets(t: Tunables, d: Syscall)
    requires SixArgs(d) && d.arch == ARCH_X86_64
    ensures d.nr == SOCKET ==>
              BrokerAllowedIff(t, d, (d.args[0].low == 2 || d.args[0].low == 10) && d.args[1].low == 1 && d.args[2].low == 6)
    ensures d.nr == GETSOCKOPT ==> BrokerAllowedIff(t, d, t.portEnable && d.args[1].low == 1 && d.args[2].low == 4)
    ensures d.nr == SETSOCKOPT ==> BrokerAllowedIff(t, d, t.portEnable && d.args[1].low == 1 && d.args[2].low == 2)
    ensures d.nr == FCNTL ==>
              BrokerAllowedIff(t, d,
                t.portEnable && (d.args[1].low == 3 || (d.args[1].low == 4 && (d.args[2].low == 0x802 || d.args[2].low == 2))))
  {
    hide Exec, Compile, Broker, Admits, Within;
    if d.nr in {SOCKET, GETSOCKOPT, SETSOCKOPT, FCNTL} {
      BrokerPermits(t, d);
      BaseAdmits(d);
    }
  }

  lemma BrokerMemory(t: Tunables, d: Syscall)
    requires SixArgs(d) && d.arch == ARCH_X86_64
    ensures d.nr == MMAP ==> BrokerAllowedIff(t, d, d.args[2].low == 3 && d.args[3].low == 0x22)
    ensures d.nr == MPROTECT ==> BrokerAllowedIff(t, d, Within(d, 3, 1))
    ensures d.nr == MREMAP ==> Exec(Compile(Broker(t)), 0, 0, d) == Returned(0x0005_0026)
  {
    hide Exec, Compile, Admits, Within, FirstMatch, Good, Accepted, BASE, DataConnections, AllAccepted;
    if d.nr in {MMAP, MPROTECT} {
      BrokerPermits(t, d);
      BaseAdmits(d);
    } else if d.nr == MREMAP {
      BrokerFits(t, 0);
      GoodIsAccepted(Broker(t), 0, 25);
      CompileCorrect(Broker(t), d);
      var tail := DataConnections(t) + [Allow1Match(SENDMSG, 3, 0)];
      assert Broker(t) == BASE + tail;
      FirstMatchConcat(BASE, tail, d);
      BaseAdmits(d);
      BaseRemap(d);
    }
  }

  /** The broker is killed for any other call. */
  lemma BrokerOthersKilled(t: Tunables, d: Syscall)
    requires SixArgs(d) && d.arch == ARCH_X86_64
    requires d.nr !in {READ, WRITE, MUNMAP, BRK, GETTIMEOFDAY, RT_SIGRETURN, RESTART_SYSCALL, CLOSE, EXIT_GROUP, BIND, SELECT,
                       LISTEN, ACCEPT, CONNECT, SENDMSG, SOCKET, GETSOCKOPT, SETSOCKOPT, FCNTL, MMAP, MPROTECT, MREMAP}
    ensures BrokerAllowedIff(t, d, false)
  {
    hide Exec, Compile, Broker, Admits, Within;
    BrokerPermits(t, d);
    BaseAdmits(d);
  }
}
