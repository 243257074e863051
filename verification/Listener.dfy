/** The listener's accounts of its children: how many there are, and how many each address has. */
module Accounting {

  type Ip = seq<bv8>

  /** The total, the count of each address, and the address of each live child. */
  datatype Books = Books(children: int, counts: map<Ip, int>, pids: map<int, Ip>)

  /** A connection followed by a fork that gave `forked`, or the end of a child. */
  datatype Event = Connect(ip: Ip, forked: int) | Reap(pid: int)

  /** What the kernel promises: a fork in the parent is never 0 and a new child has a fresh id; only a live child is reaped. */
  predicate Possible(b: Books, e: Event) {
    match e
    case Connect(_, forked) => forked != 0 && forked !in b.pids
    case Reap(pid) => pid in b.pids
  }

  function CountOf(counts: map<Ip, int>, ip: Ip): int {
    if ip in counts then counts[ip] else 0
  }

  function Raise(counts: map<Ip, int>, ip: Ip): map<Ip, int> {
    counts[ip := CountOf(counts, ip) + 1]
  }

  function Lower(counts: map<Ip, int>, ip: Ip): map<Ip, int> {
    if CountOf(counts, ip) == 1 then counts - {ip} else counts[ip := CountOf(counts, ip) - 1]
  }

  function Step(b: Books, e: Event): Books {
    match e
    case Connect(ip, forked) =>
      if forked > 0 then Books(b.children + 1, Raise(b.counts, ip), b.pids[forked := ip]) else b
    case Reap(pid) =>
      if pid in b.pids then Books(b.children - 1, Lower(b.counts, b.pids[pid]), b.pids - {pid}) else b
  }

  // ------------------------------------------------------------ conservation

  ghost function Holders(pids: map<int, Ip>, ip: Ip): set<int> {
    set p | p in pids && pids[p] == ip
  }

  /** Each address is listed exactly when some child has it, with the number of such children. */
  ghost predicate Tallies(counts: map<Ip, int>, pids: map<int, Ip>) {
    && (forall ip :: ip in counts <==> Holders(pids, ip) != {})
    && (forall ip :: ip in counts ==> counts[ip] == |Holders(pids, ip)|)
  }

  ghost predicate Balanced(b: Books) {
    b.children == |b.pids| && Tallies(b.counts, b.pids)
  }

  lemma RaiseTallies(counts: map<Ip, int>, pids: map<int, Ip>, ip: Ip, pid: int)
    requires Tallies(counts, pids) && pid !in pids
    ensures Tallies(Raise(counts, ip), pids[pid := ip])
    ensures Raise(counts, ip)[ip] == |Holders(pids, ip)| + 1
  {
    var q := pids[pid := ip];
    assert Holders(q, ip) == Holders(pids, ip) + {pid};
    forall other | other != ip ensures Holders(q, other) == Holders(pids, other) {}
  }

  lemma LowerTallies(counts: map<Ip, int>, pids: map<int, Ip>, pid: int)
    requires Tallies(counts, pids) && pid in pids
    ensures pids[pid] in counts && counts[pids[pid]] > 0
    ensures Tallies(Lower(counts, pids[pid]), pids - {pid})
  {
    var ip, q := pids[pid], pids - {pid};
    assert pid in Holders(pids, ip);
    assert Holders(q, ip) == Holders(pids, ip) - {pid};
    assert |Holders(q, ip)| == |Holders(pids, ip)| - 1;
    assert |Holders(q, ip)| == 0 <==> Holders(q, ip) == {};
    forall other | other != ip ensures Holders(q, other) == Holders(pids, other) {}
  }

  /** Every event keeps the books balanced. */
  lemma StepBalances(b: Books, e: Event)
    requires Balanced(b) && Possible(b, e)
    ensures Balanced(Step(b, e))
  {
    match e
    case Connect(ip, forked) => ConnectBalances(b, ip, forked);
    case Reap(pid) => ReapBalances(b, pid);
  }

  lemma ConnectBalances(b: Books, ip: Ip, forked: int)
    requires Balanced(b) && Possible(b, Connect(ip, forked))
    ensures Balanced(Step(b, Connect(ip, forked)))
  {
    hide Tallies;
    if forked > 0 {
      RaiseTallies(b.counts, b.pids, ip, forked);
      assert b.pids[forked := ip].Keys == b.pids.Keys + {forked};
    }
  }

  lemma ReapBalances(b: Books, pid: int)
    requires Balanced(b) && Possible(b, Reap(pid))
    ensures Balanced(Step(b, Reap(pid)))
  {
    hide Tallies;
    LowerTallies(b.counts, b.pids, pid);
    assert (b.pids - {pid}).Keys == b.pids.Keys - {pid};
  }

  function Run(b: Books, events: seq<Event>): Books {
    if events == [] then b else Step(Run(b, events[..|events| - 1]), events[|events| - 1])
  }

  predicate PossibleRun(b: Books, events: seq<Event>) {
    events == []
    || (PossibleRun(b, events[..|events| - 1]) && Possible(Run(b, events[..|events| - 1]), events[|events| - 1]))
  }

  const EMPTY := Books(0, map[], map[])

  /** The sum of all counts. */
  ghost function Total(counts: map<Ip, int>): int {
    if counts == map[] then 0
    else
      var ip :| ip in counts;
      counts[ip] + Total(counts - {ip})
  }

  /** Counting children address by address counts each child once. */
  lemma {:induction false} TotalIsChildren(counts: map<Ip, int>, pids: map<int, Ip>)
    requires Tallies(counts, pids)
    ensures Total(counts) == |pids|
    decreases |counts|
  {
    if counts == map[] {
      assert forall p :: p in pids ==> p in Holders(pids, pids[p]);
      assert pids.Keys == {};
    } else {
      var ip :| ip in counts && Total(counts) == counts[ip] + Total(counts - {ip});
      var gone := Holders(pids, ip);
      var rest := pids - gone;
      assert rest.Keys == pids.Keys - gone;
      assert gone <= pids.Keys;
      forall other ensures Holders(rest, other) == if other == ip then {} else Holders(pids, other) {}
      assert |counts - {ip}| < |counts| by { assert (counts - {ip}).Keys == counts.Keys - {ip}; }
      TotalIsChildren(counts - {ip}, rest);
    }
  }

  /** In every run from the start: the total is the number of live children and the sum of all counts, every address
      has as many as live children map to it, and no zero count is kept. */
  lemma {:induction false} RunConserves(events: seq<Event>)
    requires PossibleRun(EMPTY, events)
    ensures var b := Run(EMPTY, events);
      && b.children == |b.pids| == Total(b.counts)
      && (forall ip :: CountOf(b.counts, ip) == |Holders(b.pids, ip)|)
      && (forall ip :: ip in b.counts ==> b.counts[ip] > 0)
  {
    RunBalances(events);
    var b := Run(EMPTY, events);
    TotalIsChildren(b.counts, b.pids);
  }

  lemma {:induction false} RunBalances(events: seq<Event>)
    requires PossibleRun(EMPTY, events)
    ensures Balanced(Run(EMPTY, events))
  {
    if events != [] {
      hide Balanced, Step, Possible;
      RunBalances(events[..|events| - 1]);
      StepBalances(Run(EMPTY, events[..|events| - 1]), events[|events| - 1]);
    }
  }
}

/** The listener process: the same accounts kept in two hash tables and a counter. */
module Listener {
  import opened Accounting
  import opened HashTable

  /** A byte of an address at its position in a word. */
  function Placed(b: bv8, i: nat): bv32 {
    match i % 4
    case 0 => (b as bv32) << 24
    case 1 => (b as bv32) << 16
    case 2 => (b as bv32) << 8
    case _ => b as bv32
  }

  /** The bytes of an address, rotated through the four byte positions of a word and combined by exclusive or: the value
      after each turn of the loop. */
  function FoldIp(ip: Ip): bv32 {
    if ip == [] then 0 else FoldIp(ip[..|ip| - 1]) ^ Placed(ip[|ip| - 1], |ip| - 1)
  }

  function HashIp(buckets: nat, ip: Ip): nat {
    if buckets == 0 then 0 else FoldIp(ip) as nat % buckets
  }

  /** The process id read as an unsigned word. */
  function HashPid(buckets: nat, pid: int): nat {
    if buckets == 0 then 0 else (pid % 0x1_0000_0000) % buckets
  }

  /** Byte number i goes in at byte i modulo four from the top, and no bytes make zero. */
  lemma HashIpGrows(ip: Ip, b: bv8)
    ensures FoldIp([]) == 0
    ensures FoldIp(ip + [b])
         == FoldIp(ip)
            ^ (if |ip| % 4 == 0 then (b as bv32) << 24 else if |ip| % 4 == 1 then (b as bv32) << 16
               else if |ip| % 4 == 2 then (b as bv32) << 8 else b as bv32)
    ensures forall n: nat :: n > 0 ==> HashIp(n, ip) == FoldIp(ip) as nat % n
  {
    assert (ip + [b])[..|ip|] == ip;
  }

  lemma HashesInRange()
    ensures InRange(HashIp, 256) && InRange(HashPid, 256)
  {}

  /** One more client of an address; the count is created at one. */
  method HandleIpCount(counts: Table<Ip, int>, ip: Ip) returns (count: int)
    requires counts.Valid()
    modifies counts.Footprint()
    ensures counts.Valid() && fresh(counts.Footprint() - old(counts.Footprint()))
    ensures counts.contents == Raise(old(counts.contents), ip) && count == counts.contents[ip]
  {
    hide Table.Valid;
    var entry := counts.Lookup(ip);
    if entry == null {
      count := 1;
      var ok := counts.Add(ip, count);
      assert ok;
    } else {
      count := entry.value;
      count := count + 1;
      counts.Store(entry, count);
    }
  }

  /** One client fewer; an address without clients is forgotten. False where the source reports a missing address,
      a zero count or a missing node. */
  method DropIpCount(counts: Table<Ip, int>, ip: Ip) returns (ok: bool)
    requires counts.Valid()
    modifies counts.Footprint()
    ensures counts.Valid() && counts.Footprint() == old(counts.Footprint())
    ensures ok <==> CountOf(old(counts.contents), ip) != 0
    ensures ok ==> counts.contents == Lower(old(counts.contents), ip)
  {
    hide Table.Valid;
    var entry := counts.Lookup(ip);
    if entry == null { return false; }
    var count := entry.value;
    if count == 0 { return false; }
    count := count - 1;
    counts.Store(entry, count);
    if count == 0 {
      ok := counts.Free(ip);
      assert counts.contents == Lower(old(counts.contents), ip);
      return;
    }
    return true;
  }

  /** What a connection does to balanced books; a failed fork leaves no trace. */
  lemma ConnectFacts(b: Books, ip: Ip, forked: int)
    requires Balanced(b) && Possible(b, Connect(ip, forked))
    ensures Balanced(Step(b, Connect(ip, forked))) && forked !in b.pids
    ensures Step(b, Connect(ip, forked))
         == if forked > 0 then Accounting.Books(b.children + 1, Raise(b.counts, ip), b.pids[forked := ip]) else b
    ensures b.children == |b.pids| && ip in Raise(b.counts, ip)
    ensures Raise(b.counts, ip)[ip] == |Holders(b.pids, ip)| + 1
    ensures Lower(Raise(b.counts, ip), ip) == b.counts && CountOf(Raise(b.counts, ip), ip) != 0
  {
    StepBalances(b, Connect(ip, forked));
  }

  lemma ReapFacts(b: Books, pid: int)
    requires Balanced(b) && Possible(b, Reap(pid))
    ensures Balanced(Step(b, Reap(pid))) && pid in b.pids && CountOf(b.counts, b.pids[pid]) != 0
    ensures Step(b, Reap(pid)) == Accounting.Books(b.children - 1, Lower(b.counts, b.pids[pid]), b.pids - {pid})
  {
    StepBalances(b, Reap(pid));
    LowerTallies(b.counts, b.pids, pid);
  }

  class Server {
    var children: int
    const counts: Table<Ip, int>
    const pids: Table<int, Ip>

    ghost predicate Separate()
      reads this, counts, pids
    {
      counts.Footprint() !! pids.Footprint() && this !in counts.Footprint() && this !in pids.Footprint()
    }

    ghost predicate Consistent()
      reads this, counts, pids, counts.heads, pids.heads, counts.nodes, pids.nodes
    {
      Separate() && counts.Valid() && pids.Valid()
    }

    ghost function Books(): Books
      reads this, counts, pids
    {
      Accounting.Books(children, counts.contents, pids.contents)
    }

    ghost predicate Valid()
      reads this, counts, pids, counts.heads, pids.heads, counts.nodes, pids.nodes
    {
      Consistent() && Balanced(Books())
    }

    constructor ()
      ensures Valid() && Books() == EMPTY
    {
      children := 0;
      HashesInRange();
      counts := new Table(256, HashIp);
      pids := new Table(256, HashPid);
    }

    // The two tables change independently of each other.

    method RaiseCount(ip: Ip) returns (count: int)
      requires Consistent()
      modifies counts, counts.heads, counts.nodes
      ensures Consistent() && pids.contents == old(pids.contents)
      ensures counts.contents == Raise(old(counts.contents), ip) && count == counts.contents[ip]
      ensures fresh(counts.Footprint() - old(counts.Footprint())) && pids.Footprint() == old(pids.Footprint())
    {
      hide Table.Valid;
      count := HandleIpCount(counts, ip);
      assert pids.Footprint() == old(pids.Footprint());
    }

    method DropCount(ip: Ip) returns (ok: bool)
      requires Consistent()
      modifies counts, counts.heads, counts.nodes
      ensures Consistent() && pids.contents == old(pids.contents)
      ensures ok <==> CountOf(old(counts.contents), ip) != 0
      ensures ok ==> counts.contents == Lower(old(counts.contents), ip)
      ensures counts.Footprint() == old(counts.Footprint()) && pids.Footprint() == old(pids.Footprint())
    {
      hide Table.Valid;
      ok := DropIpCount(counts, ip);
      assert pids.Footprint() == old(pids.Footprint());
    }

    method AddPid(pid: int, ip: Ip) returns (ok: bool)
      requires Consistent()
      modifies pids, pids.heads, pids.nodes
      ensures Consistent() && counts.contents == old(counts.contents)
      ensures ok <==> pid !in old(pids.contents)
      ensures ok ==> pids.contents == old(pids.contents)[pid := ip]
    {
      hide Table.Valid;
      ok := pids.Add(pid, ip);
      assert counts.Footprint() == old(counts.Footprint());
    }

    method FreePid(pid: int) returns (ok: bool)
      requires Consistent()
      modifies pids, pids.heads, pids.nodes
      ensures Consistent() && counts.contents == old(counts.contents)
      ensures ok <==> pid in old(pids.contents)
      ensures pids.contents == old(pids.contents) - {pid}
      ensures counts.Footprint() == old(counts.Footprint()) && pids.Footprint() == old(pids.Footprint())
    {
      hide Table.Valid;
      ok := pids.Free(pid);
      assert counts.Footprint() == old(counts.Footprint());
    }

    /** Accepting a client and forking; `forked` is what fork returned to the parent. No check of the accounting code
        fails, and the child is told the number of clients, and of clients of its address, including itself. */
    method Accept(ip: Ip, forked: int) returns (ok: bool, numChildren: int, numThisIp: int)
      requires Valid() && Possible(Books(), Connect(ip, forked))
      modifies this, counts, pids, counts.heads, pids.heads, counts.nodes, pids.nodes
      ensures ok && Valid() && Books() == Step(old(Books()), Connect(ip, forked))
      ensures numChildren == |old(pids.contents)| + 1
      ensures numThisIp == |Holders(old(pids.contents), ip)| + 1
    {
      hide Balanced, Table.Valid, Raise, Lower, CountOf, Holders, Step, Possible;
      ConnectFacts(Books(), ip, forked);
      children := children + 1;
      numChildren := children;
      numThisIp := RaiseCount(ip);
      if forked > 0 {
        ok := AddPid(forked, ip);
      } else {
        children := children - 1;
        ok := DropCount(ip);
      }
    }

    /** Reaping one child. */
    method ReapOne(pid: int) returns (ok: bool)
      requires Valid() && Possible(Books(), Reap(pid))
      modifies this, counts, pids, counts.heads, pids.heads, counts.nodes, pids.nodes
      ensures ok && Valid() && Books() == Step(old(Books()), Reap(pid))
      ensures counts.Footprint() == old(counts.Footprint()) && pids.Footprint() == old(pids.Footprint())
    {
      hide Table.Valid, Balanced, Raise, Lower, CountOf, Holders, Step, Possible;
      ReapFacts(Books(), pid);
      children := children - 1;
      var entry := pids.Lookup(pid);
      ok := DropCount(entry.value);
      if !ok { return; }
      ok := FreePid(pid);
    }

    /** The SIGCHLD handler: reap until no child is left to reap. */
    method HandleSigchld(reaped: seq<int>) returns (ok: bool)
      requires Valid() && PossibleRun(Books(), Reaps(reaped))
      modifies this, counts, pids, counts.heads, pids.heads, counts.nodes, pids.nodes
      ensures ok && Valid() && Books() == Run(old(Books()), Reaps(reaped))
    {
      hide Table.Valid, Balanced, Step;
      ok := true;
      var i := 0;
      ghost var all := Reaps(reaped);
      assert all[..0] == [];
      assert all[..|reaped|] == all;
      while i < |reaped|
        invariant 0 <= i <= |reaped|
        invariant ok && Valid() && Books() == Run(old(Books()), all[..i])
        invariant counts.Footprint() == old(counts.Footprint()) && pids.Footprint() == old(pids.Footprint())
      {
        PossiblePrefix(old(Books()), all, i + 1);
        assert all[..i + 1][..i] == all[..i] && all[i] == Reap(reaped[i]);
        ok := ReapOne(reaped[i]);
        i := i + 1;
      }
    }
  }

  function Reaps(pids: seq<int>): (events: seq<Event>)
    ensures |events| == |pids|
  {
    seq(|pids|, i requires 0 <= i < |pids| => Reap(pids[i]))
  }

  lemma {:induction false} PossiblePrefix(b: Books, events: seq<Event>, n: nat)
    requires n <= |events| && PossibleRun(b, events)
    ensures PossibleRun(b, events[..n])
    decreases |events|
  {
    if n == |events| {
      assert events[..n] == events;
    } else {
      assert events[..|events| - 1][..n] == events[..n];
      PossiblePrefix(b, events[..|events| - 1], n);
    }
  }
}
