/** The seccomp rule table and its compilation to a classic BPF program. */
module Seccomp {

  type Word = bv32

  const MAX_RULES: nat := 100
  const ARCH_X86_64: Word := 0xc000_003e
  const RET_KILL: Word := 0
  const RET_ALLOW: Word := 0x7fff_0000
  const RET_ERRNO: Word := 0x0005_0000

  // ---------------------------------------------------------------- policy

  /** One system call as the filter sees it: each 64-bit argument is a low and a high word. */
  datatype Argument = Argument(low: Word, high: Word)
  datatype Syscall = Syscall(nr: Word, arch: Word, ip: Argument, args: seq<Argument>)

  predicate SixArgs(d: Syscall) { |d.args| == 6 }

  /** The calls that fill the table, one constructor per builder function. */
  datatype Rule =
    | Allow(nr: Word)
    | Reject(nr: Word, errcode: int)
    | Allow1Match(nr: Word, arg: int, val: Word)
    | Allow1Mask(nr: Word, arg: int, val: Word)
    | Allow2Match(nr: Word, arg1: int, val1: Word, arg2: int, val2: Word)
    | Allow2MaskMatch(nr: Word, arg1: int, val1: Word, arg2: int, val2: Word)
    | Allow3Match(nr: Word, arg1: int, val1: Word, arg2: int, val2: Word, arg3: int, val3: Word)

  /** A C int is negative when its top bit is set. */
  predicate Negative(x: Word) { x >= 0x8000_0000 }

  predicate ArgInRange(arg: int) { 1 <= arg <= 6 }

  /** What the builder checks before it stores a rule; anything else is a call to bug(). */
  predicate Accepted(r: Rule) {
    && !Negative(r.nr)
    && match r
       case Allow(_) => true
       case Reject(_, errcode) => 0 <= errcode <= 255
       case Allow1Match(_, arg, _) => ArgInRange(arg)
       case Allow1Mask(_, arg, _) => ArgInRange(arg)
       case Allow2Match(_, arg1, _, arg2, _) => ArgInRange(arg1) && ArgInRange(arg2)
       case Allow2MaskMatch(_, arg1, _, arg2, _) => ArgInRange(arg1) && ArgInRange(arg2)
       case Allow3Match(_, arg1, _, arg2, _, arg3, _) => ArgInRange(arg1) && ArgInRange(arg2) && ArgInRange(arg3)
  }

  /** The argument equals `val` in its low 32 bits. */
  predicate Equals(d: Syscall, arg: int, val: Word)
    requires SixArgs(d) && ArgInRange(arg)
  {
    d.args[arg - 1].low == val
  }

  /** The low 32 bits of the argument have no bit outside `val`. */
  predicate Within(d: Syscall, arg: int, val: Word)
    requires SixArgs(d) && ArgInRange(arg)
  {
    d.args[arg - 1].low & !val == 0
  }

  predicate Matches(r: Rule, d: Syscall)
    requires SixArgs(d) && Accepted(r)
  {
    && d.nr == r.nr
    && match r
       case Allow(_) => true
       case Reject(_, _) => true
       case Allow1Match(_, arg, val) => Equals(d, arg, val)
       case Allow1Mask(_, arg, val) => Within(d, arg, val)
       case Allow2Match(_, arg1, val1, arg2, val2) => Equals(d, arg1, val1) && Equals(d, arg2, val2)
       case Allow2MaskMatch(_, arg1, val1, arg2, val2) => Within(d, arg1, val1) && Equals(d, arg2, val2)
       case Allow3Match(_, arg1, val1, arg2, val2, arg3, val3) =>
         Equals(d, arg1, val1) && Equals(d, arg2, val2) && Equals(d, arg3, val3)
  }

  /** An error code of zero cannot be told from permission. */
  function Verdict(r: Rule): Word
    requires Accepted(r)
  {
    match r
    case Reject(_, errcode) => if errcode == 0 then RET_ALLOW else RET_ERRNO + (errcode as Word)
    case _ => RET_ALLOW
  }

  predicate AllAccepted(rules: seq<Rule>) { forall r :: r in rules ==> Accepted(r) }

  /** First match wins; no match kills. */
  function FirstMatch(rules: seq<Rule>, d: Syscall): Word
    requires SixArgs(d) && AllAccepted(rules)
  {
    if rules == [] then RET_KILL
    else if Matches(rules[0], d) then Verdict(rules[0])
    else FirstMatch(rules[1..], d)
  }

  /** The policy a table stands for. */
  function Policy(rules: seq<Rule>, d: Syscall): Word
    requires SixArgs(d) && AllAccepted(rules)
  {
    if d.arch == ARCH_X86_64 then FirstMatch(rules, d) else RET_KILL
  }

  // ------------------------------------------------------------------- BPF

  /** The four instruction forms the compiler uses. */
  datatype Insn =
    | LoadAbs(offset: nat)
    | JumpEq(k: Word, jt: nat, jf: nat)
    | JumpSet(k: Word, jt: nat, jf: nat)
    | Ret(k: Word)

  datatype Outcome = Returned(k: Word) | Fault

  /** The 32-bit word at a byte offset of the call record. */
  function LoadWord(d: Syscall, offset: nat): Word
    requires SixArgs(d)
  {
    if offset == 0 then d.nr
    else if offset == 4 then d.arch
    else if offset == 8 then d.ip.low
    else if offset == 12 then d.ip.high
    else if 16 <= offset < 64 && offset % 8 == 0 then d.args[(offset - 16) / 8].low
    else if 16 <= offset < 64 && offset % 8 == 4 then d.args[(offset - 16) / 8].high
    else 0
  }

  predicate ValidOffset(offset: nat) { offset < 64 && offset % 4 == 0 }

  /** The kernel's interpreter: execution falls off the end or loads outside the record only as a fault. */
  function Exec(prog: seq<Insn>, pc: nat, acc: Word, d: Syscall): Outcome
    requires SixArgs(d)
    decreases |prog| - pc
  {
    if pc >= |prog| then Fault
    else match prog[pc]
      case LoadAbs(offset) => if ValidOffset(offset) then Exec(prog, pc + 1, LoadWord(d, offset), d) else Fault
      case JumpEq(k, jt, jf) => Exec(prog, pc + 1 + (if acc == k then jt else jf), acc, d)
      case JumpSet(k, jt, jf) => Exec(prog, pc + 1 + (if acc & k != 0 then jt else jf), acc, d)
      case Ret(k) => Returned(k)
  }

  // -------------------------------------------------------------- the table

  /** One row of the eight parallel static arrays. An argument number above 100 marks a mask test. */
  datatype Slot = Slot(nr: Word, errcode: int,
                       arg1: int, val1: Word, arg2: int, val2: Word, arg3: int, val3: Word)

  const EMPTY := Slot(0, 0, 0, 0, 0, 0, 0, 0)

  function Encode(r: Rule): Slot {
    match r
    case Allow(nr) => EMPTY.(nr := nr)
    case Reject(nr, errcode) => EMPTY.(nr := nr, errcode := errcode)
    case Allow1Match(nr, arg, val) => EMPTY.(nr := nr, arg1 := arg, val1 := val)
    case Allow1Mask(nr, arg, val) => EMPTY.(nr := nr, arg1 := 100 + arg, val1 := val)
    case Allow2Match(nr, arg1, val1, arg2, val2) =>
      EMPTY.(nr := nr, arg1 := arg1, val1 := val1, arg2 := arg2, val2 := val2)
    case Allow2MaskMatch(nr, arg1, val1, arg2, val2) =>
      EMPTY.(nr := nr, arg1 := 100 + arg1, val1 := val1, arg2 := arg2, val2 := val2)
    case Allow3Match(nr, arg1, val1, arg2, val2, arg3, val3) =>
      EMPTY.(nr := nr, arg1 := arg1, val1 := val1, arg2 := arg2, val2 := val2, arg3 := arg3, val3 := val3)
  }

  /** How many argument tests a rule carries. */
  function Tests(r: Rule): nat {
    match r
    case Allow(_) => 0
    case Reject(_, _) => 0
    case Allow1Match(_, _, _) => 1
    case Allow1Mask(_, _, _) => 1
    case Allow2Match(_, _, _, _, _) => 2
    case Allow2MaskMatch(_, _, _, _, _) => 2
    case Allow3Match(_, _, _, _, _, _, _) => 3
  }

  function Count(rules: seq<Rule>, tests: nat): nat {
    if rules == [] then 0
    else Count(rules[..|rules| - 1], tests) + (if Tests(rules[|rules| - 1]) == tests then 1 else 0)
  }

  // -------------------------------------------------------------- emission

  /** The argument tests of one slot, highest argument first. */
  function ThirdTest(s: Slot): seq<Insn> {
    if s.arg3 == 0 then [] else [LoadAbs(Offset(s.arg3)), JumpEq(s.val3, 0, 5)]
  }

  function SecondTest(s: Slot): seq<Insn> {
    if s.arg2 == 0 then [] else [LoadAbs(Offset(s.arg2)), JumpEq(s.val2, 0, 3)]
  }

  function FirstTest(s: Slot): seq<Insn> {
    if s.arg1 == 0 then []
    else if s.arg1 > 100 then [LoadAbs(Offset(s.arg1 - 100)), JumpSet(!s.val1, 1, 0)]
    else [LoadAbs(Offset(s.arg1)), JumpEq(s.val1, 0, 1)]
  }

  function Offset(arg: int): nat {
    if arg >= 1 then 16 + (arg - 1) * 8 else 0
  }

  function BlockSize(s: Slot): nat {
    if s.arg3 != 0 then 8 else if s.arg2 != 0 then 6 else if s.arg1 != 0 then 4 else 1
  }

  function Answer(s: Slot): Word {
    if 0 < s.errcode <= 255 then RET_ERRNO + (s.errcode as Word) else RET_ALLOW
  }

  /** The code of one slot. */
  function Block(s: Slot): seq<Insn> {
    [JumpEq(s.nr, 0, BlockSize(s))]
    + ThirdTest(s) + SecondTest(s) + FirstTest(s)
    + [Ret(Answer(s))]
    + (if s.arg1 == 0 then [] else [LoadAbs(0)])
  }

  const PROLOGUE: seq<Insn> := [LoadAbs(4), JumpEq(ARCH_X86_64, 1, 0), Ret(RET_KILL), LoadAbs(0)]

  function Blocks(rules: seq<Rule>): seq<Insn> {
    if rules == [] then [] else Blocks(rules[..|rules| - 1]) + Block(Encode(rules[|rules| - 1]))
  }

  /** The whole program of a table. */
  function Compile(rules: seq<Rule>): seq<Insn> {
    PROLOGUE + Blocks(rules) + [Ret(RET_KILL)]
  }

  // ------------------------------------------------- the compiler is correct

  lemma LoadsArgument(d: Syscall, arg: int)
    requires SixArgs(d) && ArgInRange(arg)
    ensures ValidOffset(Offset(arg)) && LoadWord(d, Offset(arg)) == d.args[arg - 1].low
  {}

  /** The code `b` stands in `prog` at `pc`. */
  predicate CodeAt(prog: seq<Insn>, pc: nat, b: seq<Insn>) {
    pc + |b| <= |prog| && forall i :: 0 <= i < |b| ==> prog[pc + i] == b[i]
  }

  /** A load followed by an equality test: on to the next test, or `miss` further. */
  lemma EqualityTest(prog: seq<Insn>, pc: nat, acc: Word, d: Syscall, arg: int, val: Word, miss: nat)
    requires SixArgs(d) && ArgInRange(arg)
    requires CodeAt(prog, pc, [LoadAbs(Offset(arg)), JumpEq(val, 0, miss)])
    ensures Exec(prog, pc, acc, d)
         == Exec(prog, if Equals(d, arg, val) then pc + 2 else pc + 2 + miss, d.args[arg - 1].low, d)
  {
    LoadsArgument(d, arg);
    var b := [LoadAbs(Offset(arg)), JumpEq(val, 0, miss)];
    assert prog[pc + 0] == b[0] && prog[pc + 1] == b[1];
  }

  lemma MaskTest(prog: seq<Insn>, pc: nat, acc: Word, d: Syscall, arg: int, val: Word)
    requires SixArgs(d) && ArgInRange(arg)
    requires CodeAt(prog, pc, [LoadAbs(Offset(arg)), JumpSet(!val, 1, 0)])
    ensures Exec(prog, pc, acc, d)
         == Exec(prog, if Within(d, arg, val) then pc + 2 else pc + 3, d.args[arg - 1].low, d)
  {
    LoadsArgument(d, arg);
    var b := [LoadAbs(Offset(arg)), JumpSet(!val, 1, 0)];
    assert prog[pc + 0] == b[0] && prog[pc + 1] == b[1];
  }

  /** The last test of a slot with at least one: a return on success, else the reload of the call number. */
  lemma LastTest(prog: seq<Insn>, pc: nat, acc: Word, d: Syscall, s: Slot, arg: int, mask: bool)
    requires SixArgs(d) && ArgInRange(arg) && s.arg1 == if mask then 100 + arg else arg
    requires CodeAt(prog, pc, FirstTest(s) + [Ret(Answer(s)), LoadAbs(0)])
    ensures Exec(prog, pc, acc, d)
         == if (if mask then Within(d, arg, s.val1) else Equals(d, arg, s.val1)) then Returned(Answer(s))
            else Exec(prog, pc + 4, d.nr, d)
  {
    var b := FirstTest(s) + [Ret(Answer(s)), LoadAbs(0)];
    assert CodeAt(prog, pc, FirstTest(s)) by {
      assert forall i :: 0 <= i < 2 ==> b[i] == FirstTest(s)[i];
    }
    assert prog[pc + 2] == b[2] && prog[pc + 3] == b[3];
    if mask {
      MaskTest(prog, pc, acc, d, arg, s.val1);
    } else {
      EqualityTest(prog, pc, acc, d, arg, s.val1, 1);
    }
  }

  lemma SubCode(prog: seq<Insn>, pc: nat, b: seq<Insn>, i: nat, c: seq<Insn>)
    requires CodeAt(prog, pc, b) && i + |c| <= |b| && b[i..i + |c|] == c
    ensures CodeAt(prog, pc + i, c)
  {
    forall j | 0 <= j < |c| ensures prog[pc + i + j] == c[j] {
      assert b[i..i + |c|][j] == b[i + j];
      assert prog[pc + (i + j)] == b[i + j];
    }
  }

  /** Running one block with the call number loaded: the verdict if the rule matches, else the next block. */
  lemma BlockRuns(prog: seq<Insn>, pc: nat, r: Rule, d: Syscall)
    requires SixArgs(d) && Accepted(r) && CodeAt(prog, pc, Block(Encode(r)))
    ensures Exec(prog, pc, d.nr, d)
         == if Matches(r, d) then Returned(Verdict(r)) else Exec(prog, pc + |Block(Encode(r))|, d.nr, d)
  {
    hide Exec, Block, CodeAt, Verdict, Answer, Equals, Within;
    var s := Encode(r);
    BlockShape(r);
    HeadRuns(prog, pc, s, d);
    if d.nr == s.nr {
      match r
      case Allow(_) => RetRuns(prog, pc + 1, s, d);
      case Reject(_, _) => RetRuns(prog, pc + 1, s, d);
      case Allow1Match(_, arg, _) => OneTestRuns(prog, pc, s, d, d.nr, 1, arg, false);
      case Allow1Mask(_, arg, _) => OneTestRuns(prog, pc, s, d, d.nr, 1, arg, true);
      case Allow2Match(_, arg1, _, arg2, _) => TwoTestsRun(prog, pc, s, d, d.nr, 1, arg1, arg2, false);
      case Allow2MaskMatch(_, arg1, _, arg2, _) => TwoTestsRun(prog, pc, s, d, d.nr, 1, arg1, arg2, true);
      case Allow3Match(_, arg1, _, arg2, _, arg3, _) => ThreeTestsRun(prog, pc, s, d, arg1, arg2, arg3);
    }
  }

  lemma BlockShape(r: Rule)
    requires Accepted(r)
    ensures |Block(Encode(r))| == BlockSize(Encode(r)) + 1
    ensures BlockSize(Encode(r)) == if Tests(r) == 0 then 1 else 2 + 2 * Tests(r)
    ensures Answer(Encode(r)) == Verdict(r)
  {}

  lemma HeadRuns(prog: seq<Insn>, pc: nat, s: Slot, d: Syscall)
    requires SixArgs(d) && CodeAt(prog, pc, Block(s))
    ensures Exec(prog, pc, d.nr, d) == Exec(prog, pc + 1 + (if d.nr == s.nr then 0 else BlockSize(s)), d.nr, d)
  {
    assert prog[pc + 0] == Block(s)[0];
  }

  lemma RetRuns(prog: seq<Insn>, pc: nat, s: Slot, d: Syscall)
    requires SixArgs(d) && s.arg1 == s.arg2 == s.arg3 == 0 && pc > 0 && CodeAt(prog, pc - 1, Block(s))
    ensures Exec(prog, pc, d.nr, d) == Returned(Answer(s))
  {
    assert prog[pc - 1 + 1] == Block(s)[1];
  }

  /** The reload at the end of a block with tests. */
  lemma ReloadRuns(prog: seq<Insn>, at: nat, b: seq<Insn>, pc: nat, acc: Word, d: Syscall)
    requires SixArgs(d) && CodeAt(prog, pc, b) && at == pc + |b| - 1 && |b| > 0 && b[|b| - 1] == LoadAbs(0)
    ensures Exec(prog, at, acc, d) == Exec(prog, at + 1, d.nr, d)
  {
    assert prog[pc + (|b| - 1)] == LoadAbs(0);
  }

  lemma BlockTail(s: Slot, at: nat)
    requires s.arg1 != 0 && at + 4 == |Block(s)|
    ensures |FirstTest(s)| == 2 && Block(s)[at..at + 4] == FirstTest(s) + [Ret(Answer(s)), LoadAbs(0)]
  {
    hide Answer, Offset;
    var start := [JumpEq(s.nr, 0, BlockSize(s))] + ThirdTest(s) + SecondTest(s);
    var tail := FirstTest(s) + [Ret(Answer(s)), LoadAbs(0)];
    assert Block(s) == start + tail;
    assert |tail| == 4 && |start| == at;
    TailOf(start, tail);
  }

  lemma TailOf(a: seq<Insn>, b: seq<Insn>)
    ensures (a + b)[|a|..|a| + |b|] == b
  {
  }

  lemma OneTestRuns(prog: seq<Insn>, pc: nat, s: Slot, d: Syscall, acc: Word, at: nat, arg: int, mask: bool)
    requires SixArgs(d) && ArgInRange(arg) && s.arg1 == if mask then 100 + arg else arg
    requires CodeAt(prog, pc, Block(s)) && at + 4 == |Block(s)| == BlockSize(s) + 1
    ensures Exec(prog, pc + at, acc, d)
         == if (if mask then Within(d, arg, s.val1) else Equals(d, arg, s.val1)) then Returned(Answer(s))
            else Exec(prog, pc + |Block(s)|, d.nr, d)
  {
    hide Exec, Block, FirstTest, Answer, CodeAt, Equals, Within;
    var tail := FirstTest(s) + [Ret(Answer(s)), LoadAbs(0)];
    BlockTail(s, at);
    SubCode(prog, pc, Block(s), at, tail);
    LastTest(prog, pc + at, acc, d, s, arg, mask);
  }

  lemma TwoTestsRun(prog: seq<Insn>, pc: nat, s: Slot, d: Syscall, acc: Word, at: nat, arg1: int, arg2: int, mask: bool)
    requires SixArgs(d) && ArgInRange(arg1) && ArgInRange(arg2)
    requires s.arg1 == (if mask then 100 + arg1 else arg1) && s.arg2 == arg2
    requires CodeAt(prog, pc, Block(s)) && at + 6 == |Block(s)|
    ensures Exec(prog, pc + at, acc, d)
         == if Equals(d, arg2, s.val2) && (if mask then Within(d, arg1, s.val1) else Equals(d, arg1, s.val1))
            then Returned(Answer(s))
            else Exec(prog, pc + |Block(s)|, d.nr, d)
  {
    hide Exec;
    var b := Block(s);
    assert b[at..at + 2] == SecondTest(s);
    SubCode(prog, pc, b, at, SecondTest(s));
    EqualityTest(prog, pc + at, acc, d, arg2, s.val2, 3);
    if Equals(d, arg2, s.val2) {
      OneTestRuns(prog, pc, s, d, d.args[arg2 - 1].low, at + 2, arg1, mask);
    } else {
      ReloadRuns(prog, pc + at + 5, b, pc, d.args[arg2 - 1].low, d);
    }
  }

  lemma ThreeTestsRun(prog: seq<Insn>, pc: nat, s: Slot, d: Syscall, arg1: int, arg2: int, arg3: int)
    requires SixArgs(d) && ArgInRange(arg1) && ArgInRange(arg2) && ArgInRange(arg3)
    requires s.arg1 == arg1 && s.arg2 == arg2 && s.arg3 == arg3
    requires CodeAt(prog, pc, Block(s)) && |Block(s)| == 9
    ensures Exec(prog, pc + 1, d.nr, d)
         == if Equals(d, arg1, s.val1) && Equals(d, arg2, s.val2) && Equals(d, arg3, s.val3) then Returned(Answer(s))
            else Exec(prog, pc + 9, d.nr, d)
  {
    hide Exec;
    var b := Block(s);
    assert b[1..1 + 2] == ThirdTest(s);
    SubCode(prog, pc, b, 1, ThirdTest(s));
    EqualityTest(prog, pc + 1, d.nr, d, arg3, s.val3, 5);
    if Equals(d, arg3, s.val3) {
      TwoTestsRun(prog, pc, s, d, d.args[arg3 - 1].low, 3, arg1, arg2, false);
    } else {
      ReloadRuns(prog, pc + 8, b, pc, d.args[arg3 - 1].low, d);
    }
  }

  lemma BlocksStep(rules: seq<Rule>, i: nat)
    requires i < |rules|
    ensures Blocks(rules[..i + 1]) == Blocks(rules[..i]) + Block(Encode(rules[i]))
  {
    assert rules[..i + 1][..i] == rules[..i];
  }

  /** The code of the first `i` rules opens the code of them all. */
  lemma {:induction false} BlocksPrefix(rules: seq<Rule>, i: nat)
    requires i <= |rules|
    ensures Blocks(rules[..i]) <= Blocks(rules)
    decreases |rules| - i
  {
    hide Block;
    if i == |rules| {
      assert rules[..i] == rules;
    } else {
      BlocksStep(rules, i);
      BlocksPrefix(rules, i + 1);
    }
  }

  function Entry(rules: seq<Rule>, i: nat): nat
    requires i <= |rules|
  {
    4 + |Blocks(rules[..i])|
  }

  lemma CompileHolds(rules: seq<Rule>, before: seq<Insn>, b: seq<Insn>)
    requires before + b <= Blocks(rules)
    ensures CodeAt(Compile(rules), 4 + |before|, b)
  {
    hide Block, Encode, Blocks;
    var all := Blocks(rules);
    assert |Compile(rules)| == 4 + |all| + 1;
    forall k | 0 <= k < |b|
      ensures Compile(rules)[4 + |before| + k] == b[k]
    {
      assert (before + b)[|before| + k] == b[k];
      assert Compile(rules)[4 + (|before| + k)] == all[|before| + k];
    }
  }

  lemma BlockPlaced(rules: seq<Rule>, i: nat)
    requires i < |rules|
    ensures CodeAt(Compile(rules), Entry(rules, i), Block(Encode(rules[i])))
    ensures Entry(rules, i + 1) == Entry(rules, i) + |Block(Encode(rules[i]))|
  {
    hide Block, Encode, Blocks, Compile, CodeAt;
    var b, before := Block(Encode(rules[i])), Blocks(rules[..i]);
    BlocksStep(rules, i);
    BlocksPrefix(rules, i + 1);
    assert before + b <= Blocks(rules);
    CompileHolds(rules, before, b);
  }

  lemma {:induction false} RunsFromRule(rules: seq<Rule>, i: nat, d: Syscall)
    requires SixArgs(d) && AllAccepted(rules) && i <= |rules|
    ensures Exec(Compile(rules), Entry(rules, i), d.nr, d) == Returned(FirstMatch(rules[i..], d))
    decreases |rules| - i
  {
    hide Exec, Block, Compile, Matches, Blocks, Verdict, CodeAt;
    if i == |rules| {
      EndKills(rules, d);
    } else {
      assert rules[i..][1..] == rules[i + 1..] && rules[i..][0] == rules[i] && rules[i] in rules;
      BlockPlaced(rules, i);
      BlockRuns(Compile(rules), Entry(rules, i), rules[i], d);
      RunsFromRule(rules, i + 1, d);
    }
  }

  lemma EndKills(rules: seq<Rule>, d: Syscall)
    requires SixArgs(d)
    ensures Exec(Compile(rules), Entry(rules, |rules|), d.nr, d) == Returned(RET_KILL)
  {
    hide Blocks;
    assert rules[..|rules|] == rules;
    assert Compile(rules)[4 + |Blocks(rules)|] == Ret(RET_KILL);
  }

  lemma PrologueRuns(p: seq<Insn>, d: Syscall)
    requires SixArgs(d) && |p| > 4 && p[..4] == PROLOGUE
    ensures Exec(p, 0, 0, d) == if d.arch == ARCH_X86_64 then Exec(p, 4, d.nr, d) else Returned(RET_KILL)
  {
    assert p[0] == p[..4][0] && p[1] == p[..4][1] && p[2] == p[..4][2] && p[3] == p[..4][3];
    assert Exec(p, 0, 0, d) == Exec(p, 1, d.arch, d);
    assert Exec(p, 1, d.arch, d) == Exec(p, if d.arch == ARCH_X86_64 then 3 else 2, d.arch, d);
    assert Exec(p, 3, d.arch, d) == Exec(p, 4, d.nr, d);
  }

  /** The compiled program answers every call with the table's first-match policy. */
  lemma CompileCorrect(rules: seq<Rule>, d: Syscall)
    requires SixArgs(d) && AllAccepted(rules)
    ensures Exec(Compile(rules), 0, 0, d) == Returned(Policy(rules, d))
  {
    hide Exec, Blocks;
    assert Compile(rules)[..4] == PROLOGUE;
    PrologueRuns(Compile(rules), d);
    assert rules[..0] == [] && rules[0..] == rules;
    NoBlocks();
    RunsFromRule(rules, 0, d);
  }

  /** An empty table's program, and what one more rule does to a program: its block goes in front of the last return. */
  lemma CompileGrows(rules: seq<Rule>, r: Rule)
    ensures Compile([]) == [LoadAbs(4), JumpEq(0xc000_003e, 1, 0), Ret(0), LoadAbs(0), Ret(0)]
    ensures |Compile(rules)| > 0
    ensures Compile(rules + [r]) == Compile(rules)[..|Compile(rules)| - 1] + (Block(Encode(r)) + [Ret(0)])
  {
    hide Block, Encode;
    assert (rules + [r])[..|rules|] == rules;
    assert Compile(rules)[..|Compile(rules)| - 1] == PROLOGUE + Blocks(rules);
  }

  /** The block of a rule without tests: an error of zero is permission. */
  lemma PlainBlock(nr: Word, errcode: int)
    requires 0 <= errcode <= 255
    ensures Block(Encode(Allow(nr))) == [JumpEq(nr, 0, 1), Ret(0x7fff_0000)]
    ensures Block(Encode(Reject(nr, errcode)))
         == [JumpEq(nr, 0, 1), Ret(if errcode == 0 then 0x7fff_0000 else 0x0005_0000 + (errcode as Word))]
  {
  }

  /** With one test, of the low half of an argument; arguments are eight bytes each, from byte 16. */
  lemma OneTestBlock(nr: Word, arg: int, val: Word)
    requires 1 <= arg <= 6
    ensures Block(Encode(Allow1Match(nr, arg, val)))
         == [JumpEq(nr, 0, 4), LoadAbs(8 * arg + 8), JumpEq(val, 0, 1), Ret(0x7fff_0000), LoadAbs(0)]
    ensures Block(Encode(Allow1Mask(nr, arg, val)))
         == [JumpEq(nr, 0, 4), LoadAbs(8 * arg + 8), JumpSet(!val, 1, 0), Ret(0x7fff_0000), LoadAbs(0)]
  {
  }

  lemma TwoTestBlock(nr: Word, arg1: int, val1: Word, arg2: int, val2: Word)
    requires 1 <= arg1 <= 6 && 1 <= arg2 <= 6
    ensures Block(Encode(Allow2Match(nr, arg1, val1, arg2, val2)))
         == [JumpEq(nr, 0, 6), LoadAbs(8 * arg2 + 8), JumpEq(val2, 0, 3),
             LoadAbs(8 * arg1 + 8), JumpEq(val1, 0, 1), Ret(0x7fff_0000), LoadAbs(0)]
    ensures Block(Encode(Allow2MaskMatch(nr, arg1, val1, arg2, val2)))
         == [JumpEq(nr, 0, 6), LoadAbs(8 * arg2 + 8), JumpEq(val2, 0, 3),
             LoadAbs(8 * arg1 + 8), JumpSet(!val1, 1, 0), Ret(0x7fff_0000), LoadAbs(0)]
  {
  }

  lemma ThreeTestBlock(nr: Word, arg1: int, val1: Word, arg2: int, val2: Word, arg3: int, val3: Word)
    requires 1 <= arg1 <= 6 && 1 <= arg2 <= 6 && 1 <= arg3 <= 6
    ensures Block(Encode(Allow3Match(nr, arg1, val1, arg2, val2, arg3, val3)))
         == [JumpEq(nr, 0, 8), LoadAbs(8 * arg3 + 8), JumpEq(val3, 0, 5), LoadAbs(8 * arg2 + 8), JumpEq(val2, 0, 3),
             LoadAbs(8 * arg1 + 8), JumpEq(val1, 0, 1), Ret(0x7fff_0000), LoadAbs(0)]
  {
  }

  /** What the builders take: a system call number that is not negative, arguments one to six, an error of one byte. */
  lemma AcceptedIff(r: Rule)
    ensures Accepted(r) <==>
      && r.nr <= 0x7fff_ffff
      && (r.Reject? ==> 0 <= r.errcode < 256)
      && (r.Allow1Match? || r.Allow1Mask? ==> 0 < r.arg < 7)
      && (r.Allow2Match? || r.Allow2MaskMatch? || r.Allow3Match? ==> 0 < r.arg1 < 7 && 0 < r.arg2 < 7)
      && (r.Allow3Match? ==> 0 < r.arg3 < 7)
  {
  }

  lemma NoBlocks()
    ensures Blocks([]) == []
  {}

  /** The filter never looks at a high word: calls that agree in their low words are treated alike. */
  lemma HighWordsIgnored(rules: seq<Rule>, d: Syscall, e: Syscall)
    requires SixArgs(d) && SixArgs(e) && AllAccepted(rules)
    requires d.nr == e.nr && d.arch == e.arch
    requires forall i :: 0 <= i < 6 ==> d.args[i].low == e.args[i].low
    ensures Exec(Compile(rules), 0, 0, d) == Exec(Compile(rules), 0, 0, e)
  {
    CompileCorrect(rules, d);
    CompileCorrect(rules, e);
    SamePolicy(rules, d, e);
  }

  lemma {:induction false} SamePolicy(rules: seq<Rule>, d: Syscall, e: Syscall)
    requires SixArgs(d) && SixArgs(e) && AllAccepted(rules)
    requires d.nr == e.nr
    requires forall i :: 0 <= i < 6 ==> d.args[i].low == e.args[i].low
    ensures FirstMatch(rules, d) == FirstMatch(rules, e)
  {
    if rules != [] {
      SamePolicy(rules[1..], d, e);
      assert rules[0] in rules;
      assert Matches(rules[0], d) == Matches(rules[0], e);
    }
  }

  // ------------------------------------------------------ size and jump range

  /** The length the emitter computes beforehand. */
  function ProgramLength(index: nat, tests1: nat, tests2: nat, tests3: nat): nat {
    index * 2 + tests1 * 3 + tests2 * 5 + tests3 * 7 + 5
  }

  lemma {:induction false} LengthFormula(rules: seq<Rule>)
    requires AllAccepted(rules)
    ensures |Compile(rules)| == ProgramLength(|rules|, Count(rules, 1), Count(rules, 2), Count(rules, 3))
  {
    if rules != [] {
      var init, last := rules[..|rules| - 1], rules[|rules| - 1];
      assert last in rules;
      LengthFormula(init);
      BlockShape(last);
      hide Block, Encode;
    }
  }

  /** An instruction with `n` others behind it jumps no further than just past them, by an offset of one
      byte, and loads inside the record. */
  predicate Fits(x: Insn, n: int) {
    match x
    case JumpEq(_, jt, jf) => jt <= n && jf <= n && jt <= 255 && jf <= 255
    case JumpSet(_, jt, jf) => jt <= n && jf <= n && jt <= 255 && jf <= 255
    case LoadAbs(offset) => ValidOffset(offset)
    case Ret(_) => true
  }

  predicate JumpsLocal(b: seq<Insn>) {
    forall i :: 0 <= i < |b| ==> Fits(b[i], |b| - 1 - i)
  }

  lemma JumpsCons(x: Insn, b: seq<Insn>)
    requires Fits(x, |b|) && JumpsLocal(b)
    ensures JumpsLocal([x] + b)
  {
    hide Fits;
    forall i | 1 <= i < |b| + 1 ensures ([x] + b)[i] == b[i - 1] {}
  }

  lemma JumpsTest(load: Insn, test: Insn, b: seq<Insn>)
    requires Fits(load, |b| + 1) && Fits(test, |b|) && JumpsLocal(b)
    ensures JumpsLocal([load, test] + b)
  {
    hide Fits;
    JumpsCons(test, b);
    JumpsCons(load, [test] + b);
    assert [load] + ([test] + b) == [load, test] + b;
  }

  lemma JumpsConcat(a: seq<Insn>, b: seq<Insn>)
    requires JumpsLocal(a) && JumpsLocal(b)
    ensures JumpsLocal(a + b)
  {
    forall i | 0 <= i < |a + b| ensures Fits((a + b)[i], |a + b| - 1 - i) {
      if i >= |a| { assert (a + b)[i] == b[i - |a|]; }
    }
  }

  /** What the builders guarantee of a stored slot. */
  predicate Encoded(s: Slot) {
    && (s.arg3 != 0 ==> ArgInRange(s.arg3) && s.arg2 != 0)
    && (s.arg2 != 0 ==> ArgInRange(s.arg2) && s.arg1 != 0)
    && (s.arg1 != 0 ==> ArgInRange(s.arg1) || ArgInRange(s.arg1 - 100))
  }

  function AfterTests(s: Slot): seq<Insn> {
    [Ret(Answer(s))] + (if s.arg1 == 0 then [] else [LoadAbs(0)])
  }

  lemma FirstTestJumps(s: Slot)
    requires Encoded(s)
    ensures JumpsLocal(FirstTest(s) + AfterTests(s))
    ensures |FirstTest(s) + AfterTests(s)| == if s.arg1 == 0 then 1 else 4
  {
    hide JumpsLocal, Answer;
    TailJumps(Answer(s), s.arg1 == 0);
    if s.arg1 != 0 {
      JumpsTest(FirstTest(s)[0], FirstTest(s)[1], AfterTests(s));
    } else {
      assert FirstTest(s) + AfterTests(s) == AfterTests(s);
    }
  }

  lemma SecondTestJumps(s: Slot)
    requires Encoded(s)
    ensures var b := SecondTest(s) + (FirstTest(s) + AfterTests(s));
      JumpsLocal(b) && |b| == if s.arg2 != 0 then 6 else if s.arg1 != 0 then 4 else 1
  {
    hide JumpsLocal, FirstTest, AfterTests;
    FirstTestJumps(s);
    var b := FirstTest(s) + AfterTests(s);
    if s.arg2 != 0 {
      JumpsTest(SecondTest(s)[0], SecondTest(s)[1], b);
    } else {
      assert SecondTest(s) + b == b;
    }
  }

  lemma SlotJumps(s: Slot)
    requires Encoded(s)
    ensures JumpsLocal(Block(s))
  {
    hide JumpsLocal, FirstTest, SecondTest, Answer;
    SecondTestJumps(s);
    var b := SecondTest(s) + (FirstTest(s) + AfterTests(s));
    var c := ThirdTest(s) + b;
    if s.arg3 != 0 {
      JumpsTest(ThirdTest(s)[0], ThirdTest(s)[1], b);
    } else {
      assert c == b;
    }
    JumpsCons(JumpEq(s.nr, 0, BlockSize(s)), c);
    assert Block(s) == [JumpEq(s.nr, 0, BlockSize(s))] + c;
  }

  lemma EncodeIsEncoded(r: Rule)
    requires Accepted(r)
    ensures Encoded(Encode(r))
  {}

  lemma TailJumps(answer: Word, short: bool)
    ensures JumpsLocal([Ret(answer)] + (if short then [] else [LoadAbs(0)]))
  {}

  lemma {:induction false} BlocksJumps(rules: seq<Rule>)
    requires AllAccepted(rules)
    ensures JumpsLocal(Blocks(rules))
  {
    if rules != [] {
      var init, last := rules[..|rules| - 1], rules[|rules| - 1];
      assert last in rules;
      BlocksJumps(init);
      EncodeIsEncoded(last);
      SlotJumps(Encode(last));
      hide Block, Encode, JumpsLocal;
      JumpsConcat(Blocks(init), Block(Encode(last)));
    }
  }

  const BPF_MAXINSNS := 4096

  /** What the kernel checks on loading: not too long, jumps strictly inside, loads inside the record, a return at the
      end. */
  predicate KernelAccepts(prog: seq<Insn>) {
    && 0 < |prog| <= BPF_MAXINSNS && prog[|prog| - 1].Ret?
    && forall i :: 0 <= i < |prog| ==> Fits(prog[i], |prog| - 2 - i)
  }

  /** The kernel takes the program of any accepted rules that is not too long. */
  lemma CompileIsAccepted(rules: seq<Rule>)
    requires AllAccepted(rules)
    ensures KernelAccepts(Compile(rules)) <==> |Compile(rules)| <= BPF_MAXINSNS
  {
    hide Blocks;
    BlocksJumps(rules);
    JumpsConcat(PROLOGUE, Blocks(rules));
    var body := PROLOGUE + Blocks(rules);
    var prog := Compile(rules);
    assert prog == body + [Ret(RET_KILL)];
    forall i | 0 <= i < |prog| ensures Fits(prog[i], |prog| - 2 - i) {
      if i < |body| { assert prog[i] == body[i] && Fits(body[i], |body| - 1 - i); }
    }
  }

  lemma {:induction false} BlocksLength(rules: seq<Rule>)
    requires AllAccepted(rules)
    ensures |Blocks(rules)| <= 9 * |rules|
  {
    hide Block, Encode;
    if rules != [] {
      var init, last := rules[..|rules| - 1], rules[|rules| - 1];
      assert last in rules;
      BlocksLength(init);
      BlockShape(last);
    }
  }

  /** A full table stays far below the kernel's limit: at most 905 instructions. */
  lemma TableIsAccepted(rules: seq<Rule>)
    requires AllAccepted(rules) && |rules| <= MAX_RULES
    ensures |Compile(rules)| <= 905 && KernelAccepts(Compile(rules))
  {
    hide Blocks, KernelAccepts;
    BlocksLength(rules);
    CompileIsAccepted(rules);
  }

  // --------------------------------------------------------- the static state

  lemma CountSnoc(rules: seq<Rule>, r: Rule, tests: nat)
    ensures Count(rules + [r], tests) == Count(rules, tests) + (if Tests(r) == tests then 1 else 0)
  {
    assert (rules + [r])[..|rules|] == rules;
  }

  class RuleTable {
    const slots: array<Slot>
    var index: nat
    var tests1: nat
    var tests2: nat
    var tests3: nat
    ghost var rules: seq<Rule>

    ghost predicate Valid()
      reads this, slots
    {
      && slots.Length == MAX_RULES && index == |rules| <= MAX_RULES
      && AllAccepted(rules)
      && (forall i :: 0 <= i < index ==> slots[i] == Encode(rules[i]))
      && (forall i :: index <= i < MAX_RULES ==> slots[i] == EMPTY)
      && tests1 == Count(rules, 1) && tests2 == Count(rules, 2) && tests3 == Count(rules, 3)
    }

    constructor ()
      ensures Valid() && fresh(slots) && rules == []
    {
      slots := new Slot[MAX_RULES](_ => EMPTY);
      index, tests1, tests2, tests3 := 0, 0, 0, 0;
      rules := [];
    }

    /** The seven builders: each writes only its own columns, counting on the rest of the row being zero.
        `ok` is false where the source calls bug(). */
    method Add(r: Rule) returns (ok: bool)
      requires Valid()
      modifies this, slots
      ensures Valid()
      ensures ok <==> old(index) < 100 && Accepted(r)
      ensures rules == if ok then old(rules) + [r] else old(rules)
    {
      if index >= MAX_RULES { return false; }
      if Negative(r.nr) { return false; }
      var row := slots[index];
      var n1, n2, n3 := tests1, tests2, tests3;
      match r {
        case Allow(nr) =>
          row := row.(errcode := 0, nr := nr);
        case Reject(nr, errcode) =>
          if errcode < 0 || errcode > 255 { return false; }
          row := row.(errcode := errcode, nr := nr);
        case Allow1Match(nr, arg, val) =>
          if arg < 1 || arg > 6 { return false; }
          row := row.(arg1 := arg, val1 := val, errcode := 0, nr := nr);
          n1 := n1 + 1;
        case Allow1Mask(nr, arg, val) =>
          if arg < 1 || arg > 6 { return false; }
          row := row.(arg1 := 100 + arg, val1 := val, errcode := 0, nr := nr);
          n1 := n1 + 1;
        case Allow2Match(nr, arg1, val1, arg2, val2) =>
          if arg1 < 1 || arg1 > 6 || arg2 < 1 || arg2 > 6 { return false; }
          row := row.(arg1 := arg1, val1 := val1, arg2 := arg2, val2 := val2, errcode := 0, nr := nr);
          n2 := n2 + 1;
        case Allow2MaskMatch(nr, arg1, val1, arg2, val2) =>
          if arg1 < 1 || arg1 > 6 || arg2 < 1 || arg2 > 6 { return false; }
          row := row.(arg1 := 100 + arg1, val1 := val1, arg2 := arg2, val2 := val2, errcode := 0, nr := nr);
          n2 := n2 + 1;
        case Allow3Match(nr, arg1, val1, arg2, val2, arg3, val3) =>
          if arg1 < 1 || arg1 > 6 || arg2 < 1 || arg2 > 6 || arg3 < 1 || arg3 > 6 { return false; }
          row := row.(arg1 := arg1, val1 := val1, arg2 := arg2, val2 := val2, arg3 := arg3, val3 := val3,
                      errcode := 0, nr := nr);
          n3 := n3 + 1;
      }
      assert row == Encode(r) && Accepted(r);
      assert n1 == tests1 + (if Tests(r) == 1 then 1 else 0);
      assert n2 == tests2 + (if Tests(r) == 2 then 1 else 0);
      assert n3 == tests3 + (if Tests(r) == 3 then 1 else 0);
      Store(row, n1, n2, n3, r);
      return true;
    }

    method Store(row: Slot, n1: nat, n2: nat, n3: nat, ghost r: Rule)
      requires Valid() && index < MAX_RULES && row == Encode(r) && Accepted(r)
      requires n1 == tests1 + (if Tests(r) == 1 then 1 else 0)
      requires n2 == tests2 + (if Tests(r) == 2 then 1 else 0)
      requires n3 == tests3 + (if Tests(r) == 3 then 1 else 0)
      modifies this, slots
      ensures Valid() && rules == old(rules) + [r]
    {
      hide Encode, Accepted, Tests, Count;
      CountSnoc(rules, r, 1);
      CountSnoc(rules, r, 2);
      CountSnoc(rules, r, 3);
      slots[index] := row;
      index := index + 1;
      tests1, tests2, tests3 := n1, n2, n3;
      rules := rules + [r];
    }

    /** Emitting the filter: it fills the precomputed length exactly and is the compilation of the rules. */
    method Lockdown() returns (filters: array<Insn>)
      requires Valid()
      ensures fresh(filters)
      ensures filters.Length == ProgramLength(index, tests1, tests2, tests3)
      ensures filters[..] == Compile(rules)
      ensures KernelAccepts(filters[..])
    {
      hide Encode, Block, Count, Blocks, KernelAccepts;
      LengthFormula(rules);
      TableIsAccepted(rules);
      NoBlocks();
      var len := index * 2 + tests1 * 3 + tests2 * 5 + tests3 * 7 + 5;
      filters := new Insn[len](_ => Ret(RET_KILL));
      filters[0] := LoadAbs(4);
      filters[1] := JumpEq(ARCH_X86_64, 1, 0);
      filters[2] := Ret(RET_KILL);
      filters[3] := LoadAbs(0);
      var p := 4;
      var i := 0;
      assert rules[..0] == [];
      assert filters[..4] == PROLOGUE;
      while i < index
        invariant 0 <= i <= index
        invariant p == 4 + |Blocks(rules[..i])| < filters.Length == |Compile(rules)|
        invariant filters[..p] == PROLOGUE + Blocks(rules[..i])
      {
        BlocksStep(rules, i);
        BlocksPrefix(rules, i + 1);
        var s := slots[i];
        ghost var done := filters[..p];
        p := EmitBlock(filters, p, s);
        assert done + Block(s) == PROLOGUE + Blocks(rules[..i + 1]);
        i := i + 1;
      }
      assert rules[..index] == rules;
      filters[p] := Ret(RET_KILL);
      assert filters[..] == filters[..p] + [Ret(RET_KILL)];
    }
  }

  /** Filling one instruction and advancing the write pointer. */
  method Put(filters: array<Insn>, p0: nat, x: Insn, ghost done: seq<Insn>) returns (p: nat)
    requires p0 < filters.Length && filters[..p0] == done
    modifies filters
    ensures p == p0 + 1 && filters[..p] == done + [x]
  {
    filters[p0] := x;
    p := p0 + 1;
  }

  /** The body of the emission loop for one slot. */
  method EmitBlock(filters: array<Insn>, p0: nat, s: Slot) returns (p: nat)
    requires p0 + |Block(s)| <= filters.Length
    modifies filters
    ensures p == p0 + |Block(s)|
    ensures filters[..p] == old(filters[..p0]) + Block(s)
  {
    hide Block, ThirdTest, SecondTest, FirstTest, BlockSize, Offset, Answer;
    TestShapes(s);
    ghost var done := filters[..p0];
    ghost var t3, t2, t1, r := ThirdTest(s), SecondTest(s), FirstTest(s), [Ret(Answer(s))];
    var head := JumpEq(s.nr, 0, BlockSize(s));
    p := Put(filters, p0, head, done);
    p := EmitTest(filters, p, s.arg3 != 0, LoadAbs(Offset(s.arg3)), JumpEq(s.val3, 0, 5), done + [head], t3);
    p := EmitTest(filters, p, s.arg2 != 0, LoadAbs(Offset(s.arg2)), JumpEq(s.val2, 0, 3), done + [head] + t3, t2);
    var arg, test := s.arg1, JumpEq(s.val1, 0, 1);
    if arg > 100 {
      arg, test := arg - 100, JumpSet(!s.val1, 1, 0);
    }
    p := EmitTest(filters, p, s.arg1 != 0, LoadAbs(Offset(arg)), test, done + [head] + t3 + t2, t1);
    p := Put(filters, p, Ret(Answer(s)), done + [head] + t3 + t2 + t1);
    if s.arg1 != 0 {
      p := Put(filters, p, LoadAbs(0), done + [head] + t3 + t2 + t1 + r);
      Reassociate(done, [head], t3, t2, t1, r, [LoadAbs(0)]);
    } else {
      Reassociate(done, [head], t3, t2, t1, r, []);
    }
  }

  lemma TestShapes(s: Slot)
    ensures ThirdTest(s) == if s.arg3 != 0 then [LoadAbs(Offset(s.arg3)), JumpEq(s.val3, 0, 5)] else []
    ensures SecondTest(s) == if s.arg2 != 0 then [LoadAbs(Offset(s.arg2)), JumpEq(s.val2, 0, 3)] else []
    ensures s.arg1 > 100 ==> FirstTest(s) == [LoadAbs(Offset(s.arg1 - 100)), JumpSet(!s.val1, 1, 0)]
    ensures s.arg1 != 0 && s.arg1 <= 100 ==> FirstTest(s) == [LoadAbs(Offset(s.arg1)), JumpEq(s.val1, 0, 1)]
    ensures s.arg1 == 0 ==> FirstTest(s) == []
    ensures Block(s) == [JumpEq(s.nr, 0, BlockSize(s))] + ThirdTest(s) + SecondTest(s) + FirstTest(s)
                        + [Ret(Answer(s))] + (if s.arg1 == 0 then [] else [LoadAbs(0)])
  {}

  lemma Reassociate<T>(d: seq<T>, a: seq<T>, b: seq<T>, c: seq<T>, e: seq<T>, f: seq<T>, g: seq<T>)
    ensures d + a + b + c + e + f + g == d + (a + b + c + e + f + g)
  {
    assert d + a + b + c + e + f == d + (a + b + c + e + f) by {
      assert d + a + b + c == d + (a + b + c);
    }
  }

  /** One argument test, if the slot has it. */
  method EmitTest(filters: array<Insn>, p0: nat, wanted: bool, load: Insn, test: Insn,
                  ghost done: seq<Insn>, ghost code: seq<Insn>)
    returns (p: nat)
    requires code == if wanted then [load, test] else []
    requires p0 + |code| <= filters.Length && filters[..p0] == done
    modifies filters
    ensures p == p0 + |code| && filters[..p] == done + code
  {
    p := p0;
    if wanted {
      p := Put(filters, p, load, done);
      p := Put(filters, p, test, done + [load]);
      assert done + [load] + [test] == done + code;
    }
  }
}
