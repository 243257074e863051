/** Bandwidth limiting: after each I/O call, sleep long enough to bring the measured rate down to the limit. */
module Throttle {

  /** One return from an I/O call: its result, whether it was on the data connection, the time, and by how much a sleep
      asked for here would overrun. */
  datatype Call = Call(retval: int, onData: bool, now: real, overrun: real)

  /** The calls that the limiter looks at. */
  predicate Counts(c: Call) {
    c.onData && c.retval > 0
  }

  /** The interval that the code works with: a clock that has not moved forward reads as ten milliseconds. */
  function Interval(start: real, now: real): (e: real)
    ensures e > 0.0
  {
    if now - start <= 0.0 then 0.01 else now - start
  }

  /** The measured rate in whole bytes a second. */
  function Rate(bytes: nat, interval: real): (rate: int)
    requires interval > 0.0
    ensures rate >= 0
    ensures rate as real * interval <= bytes as real < (rate + 1) as real * interval
  {
    var rate := (bytes as real / interval).Floor;
    FloorTimes(bytes as real, interval);
    rate
  }

  lemma FloorTimes(x: real, y: real)
    requires x >= 0.0 && y > 0.0
    ensures (x / y).Floor >= 0
    ensures (x / y).Floor as real * y <= x < ((x / y).Floor + 1) as real * y
  {
    assert (x / y) * y == x;
    QuotientFloor(x / y, x, y);
  }

  lemma QuotientFloor(q: real, x: real, y: real)
    requires x >= 0.0 && y > 0.0 && q * y == x
    ensures q.Floor >= 0
    ensures q.Floor as real * y <= x < (q.Floor + 1) as real * y
  {
    SignOfFactor(q, y);
    var k := q.Floor;
    TimesMonotone(k as real, q, y);
    var next := (k + 1) as real;
    TimesStrict(q, next, y);
    assert x < next * y;
    assert next == (q.Floor + 1) as real;
  }

  /** How long the limiter asks to sleep. */
  function Pause(max: nat, bytes: nat, interval: real): (p: real)
    requires max > 0 && interval > 0.0
  {
    var rate := Rate(bytes, interval);
    if rate <= max then 0.0 else (rate as real / max as real - 1.0) * interval
  }

  /** The start of the next interval. */
  function Next(max: nat, start: real, c: Call): real
    requires max > 0
  {
    if !Counts(c) then start
    else
      var e := Interval(start, c.now);
      if Rate(c.retval, e) <= max then c.now else c.now + Pause(max, c.retval, e) + c.overrun
  }

  /** This call kept to the limit, counting the pause after it. */
  predicate Within(max: nat, start: real, c: Call)
    requires max > 0
  {
    Counts(c) ==> c.retval as real < (max + 1) as real * (Next(max, start, c) - start)
  }

  /** The clock moved forward, or the transfer was so large that the pause makes up for the assumed ten milliseconds. */
  predicate Fair(max: nat, start: real, c: Call) {
    Counts(c) ==>
      c.now > start || (max * (max + 1)) as real * (1.0 - 100.0 * (c.now - start)) < 100.0 * c.retval as real
  }

  /** A rate above the limit, slept off: the truncated rate still leaves less than one extra byte a second. */
  lemma SleepEnough(max: nat, bytes: nat, e: real)
    requires max > 0 && e > 0.0 && Rate(bytes, e) > max
    ensures Pause(max, bytes, e) > 0.0
    ensures bytes as real < (max + 1) as real * (e + Pause(max, bytes, e))
  {
    var rate := Rate(bytes, e) as real;
    var m := max as real;
    var q := rate / m;
    assert q * m == rate;
    assert e + Pause(max, bytes, e) == q * e;
    assert (q - 1.0) * m > 0.0;
    SignOfFactor(q - 1.0, m);
    assert (m + 1.0) * q >= rate + 1.0;
    assert (m + 1.0) * (q * e) == ((m + 1.0) * q) * e;
    TimesMonotone(rate + 1.0, (m + 1.0) * q, e);
    assert (q - 1.0) * e > 0.0;
  }

  lemma TimesMonotone(a: real, b: real, e: real)
    requires a <= b && e > 0.0
    ensures a * e <= b * e
  {
  }

  lemma TimesStrict(a: real, b: real, e: real)
    requires a < b && e > 0.0
    ensures a * e < b * e
  {
  }

  lemma SignOfFactor(q: real, y: real)
    requires y > 0.0
    ensures q * y >= 0.0 ==> q >= 0.0
    ensures q * y > 0.0 ==> q > 0.0
  {
  }

  // ------------------------------------------------------------ one call

  function Slept(c: Call, overrun: real): Call {
    c.(overrun := overrun)
  }

  /** With a clock that moves forward every call keeps to the limit. */
  lemma ForwardWithin(max: nat, start: real, c: Call)
    requires max > 0 && c.overrun >= 0.0 && c.now > start
    ensures Within(max, start, c)
  {
    hide Next, Rate, Pause;
    if Counts(c) {
      var e := c.now - start;
      var m := (max + 1) as real;
      NextUnfold(max, start, c);
      if Rate(c.retval, e) <= max {
        TimesMonotone((Rate(c.retval, e) + 1) as real, m, e);
      } else {
        SleepEnough(max, c.retval, e);
        MoreTime(m, e + Pause(max, c.retval, e), Next(max, start, c) - start);
      }
    }
  }

  /** With a clock that stands still or goes back, the time that passes is what the assumed interval asks for. */
  lemma StalledNext(max: nat, start: real, c: Call)
    requires max > 0 && Counts(c) && c.now <= start
    ensures 100 * c.retval <= max ==> Next(max, start, c) == c.now
    ensures 100 * c.retval > max ==>
              (Next(max, start, c) - c.now - c.overrun) * 100.0 * max as real == 100.0 * c.retval as real - max as real
  {
    assert c.retval as real / 0.01 == 100.0 * c.retval as real;
    assert Rate(c.retval, 0.01) == 100 * c.retval;
    if 100 * c.retval > max {
      var m := max as real;
      var q := (100 * c.retval) as real / m;
      assert q * m == 100.0 * c.retval as real;
      assert Next(max, start, c) - c.now - c.overrun == (q - 1.0) * 0.01;
    }
  }

  /** With a clock that moves forward, a call within the limit is not delayed; one over it is delayed, until as much time
      has passed as its bytes take at the limit, less at most a share of the interval, and any overrun on top. */
  lemma DelayBounds(max: nat, start: real, c: Call, elapsed: real, asked: real)
    requires max > 0 && c.onData && c.retval > 0 && c.now > start
    requires elapsed == c.now - start && asked == Next(max, start, c) - start - c.overrun
    ensures c.retval as real < (max + 1) as real * elapsed ==> Next(max, start, c) == c.now
    ensures c.retval as real >= (max + 1) as real * elapsed ==>
              asked > elapsed && c.retval as real - elapsed < max as real * asked <= c.retval as real
  {
    hide Next, Rate, Pause;
    NextUnfold(max, start, c);
    RateDecides(max, c.retval, elapsed);
    if Rate(c.retval, elapsed) > max { PauseOwed(max, c.retval, elapsed, asked); }
  }

  lemma RateDecides(max: nat, bytes: nat, e: real)
    requires e > 0.0
    ensures Rate(bytes, e) <= max <==> bytes as real < (max + 1) as real * e
  {
    hide Rate;
    var rate := Rate(bytes, e);
    if rate <= max {
      TimesMonotone((rate + 1) as real, (max + 1) as real, e);
    } else {
      TimesMonotone((max + 1) as real, rate as real, e);
    }
  }

  lemma PauseOwed(max: nat, bytes: nat, e: real, asked: real)
    requires max > 0 && e > 0.0 && Rate(bytes, e) > max && asked == e + Pause(max, bytes, e)
    ensures asked > e && bytes as real - e < max as real * asked <= bytes as real
  {
    SleepEnough(max, bytes, e);
    DelayOf(Rate(bytes, e), max, bytes as real, e, Pause(max, bytes, e), asked);
  }

  lemma MoreTime(m: real, a: real, b: real)
    requires a <= b && m > 0.0
    ensures m * a <= m * b
  {
    TimesMonotone(a, b, m);
  }

  lemma NextUnfold(max: nat, start: real, c: Call)
    requires max > 0 && Counts(c) && c.now > start
    ensures var e := c.now - start;
      Next(max, start, c) == if Rate(c.retval, e) <= max then c.now else c.now + Pause(max, c.retval, e) + c.overrun
  {
    hide Rate, Pause;
  }

  /** The pause after a rate over the limit, in plain numbers. */
  lemma DelayOf(rate: int, max: nat, n: real, e: real, p: real, asked: real)
    requires rate > max > 0 && e > 0.0 && rate as real * e <= n < (rate + 1) as real * e
    requires p == (rate as real / max as real - 1.0) * e && asked == e + p
    ensures n - e < max as real * asked <= n
  {
    var m, r := max as real, rate as real;
    var q := r / m;
    assert q * m == r;
    assert asked == q * e;
    assert m * asked == (q * m) * e;
    assert (rate + 1) as real * e == r * e + e;
  }

  /** The bound for a stalled clock, cleared of its division. */
  lemma StalledWithin(max: nat, start: real, c: Call)
    requires max > 0 && Counts(c) && c.now <= start && 100 * c.retval > max
    ensures Within(max, start, c) <==>
              (max * (max + 1)) as real * (1.0 - 100.0 * (c.now - start) - 100.0 * c.overrun) < 100.0 * c.retval as real
  {
    hide Next, Rate, Pause;
    StalledNext(max, start, c);
    var m, n, d, r := max as real, c.retval as real, c.now - start, c.overrun;
    var t := Next(max, start, c) - start;
    var p := t - d - r;
    assert p * 100.0 * m == 100.0 * n - m;
    assert (max * (max + 1)) as real == m * (m + 1.0);
    Cleared(m, n, d, r, p);
  }

  lemma Cleared(m: real, n: real, d: real, r: real, p: real)
    requires m > 0.0 && p * 100.0 * m == 100.0 * n - m
    ensures n < (m + 1.0) * (d + r + p) <==> m * (m + 1.0) * (1.0 - 100.0 * d - 100.0 * r) < 100.0 * n
  {
    var gap := (m + 1.0) * (d + r + p) - n;
    assert gap * (100.0 * m) == (m + 1.0) * (d + r) * (100.0 * m) + (m + 1.0) * (p * 100.0 * m) - n * (100.0 * m);
    assert (m + 1.0) * (p * 100.0 * m) == (m + 1.0) * (100.0 * n - m);
    assert gap * (100.0 * m) == 100.0 * n - m * (m + 1.0) * (1.0 - 100.0 * d - 100.0 * r);
    SignOfFactor(gap, 100.0 * m);
    assert gap > 0.0 ==> gap * (100.0 * m) > 0.0;
  }

  /** Exactly when a call keeps to the limit however long the sleep overruns: the clock moved forward, or the transfer
      was large enough. */
  lemma WithinIffFair(max: nat, start: real, c: Call)
    requires max > 0
    ensures (forall r: real :: r >= 0.0 ==> Within(max, start, Slept(c, r))) <==> Fair(max, start, c)
  {
    if Fair(max, start, c) {
      forall r: real | r >= 0.0
        ensures Within(max, start, Slept(c, r))
      {
        FairWithin(max, start, Slept(c, r));
      }
    } else {
      var exact := Slept(c, 0.0);
      UnfairBreaks(max, start, exact);
      assert !Within(max, start, exact);
    }
  }

  lemma FairWithin(max: nat, start: real, c: Call)
    requires max > 0 && Fair(max, start, c) && c.overrun >= 0.0
    ensures Within(max, start, c)
  {
    if c.now > start {
      ForwardWithin(max, start, c);
    } else if Counts(c) {
      var k := (max * (max + 1)) as real;
      LargeTransfer(max, c.retval as real, c.now - start);
      StalledWithin(max, start, c);
      TimesMonotone(1.0 - 100.0 * (c.now - start) - 100.0 * c.overrun, 1.0 - 100.0 * (c.now - start), k);
    }
  }

  lemma LargeTransfer(max: nat, n: real, d: real)
    requires max > 0 && d <= 0.0 && (max * (max + 1)) as real * (1.0 - 100.0 * d) < 100.0 * n
    ensures 100.0 * n > max as real
  {
    var k := (max * (max + 1)) as real;
    assert max * (max + 1) >= max;
    TimesMonotone(1.0, 1.0 - 100.0 * d, k);
  }

  lemma UnfairBreaks(max: nat, start: real, c: Call)
    requires max > 0 && !Fair(max, start, c) && c.overrun == 0.0
    ensures !Within(max, start, c)
  {
    hide Next, Rate, Pause;
    if 100 * c.retval <= max {
      StalledNext(max, start, c);
      TimesMonotone(c.now - start, 0.0, (max + 1) as real);
    } else {
      StalledWithin(max, start, c);
    }
  }

  // ------------------------------------------------------------ whole transfers

  function Moved(calls: seq<Call>): nat {
    if calls == [] then 0
    else Moved(calls[..|calls| - 1]) + (if Counts(calls[|calls| - 1]) then calls[|calls| - 1].retval else 0)
  }

  function Final(max: nat, start: real, calls: seq<Call>): real
    requires max > 0
  {
    if calls == [] then start
    else Next(max, Final(max, start, calls[..|calls| - 1]), calls[|calls| - 1])
  }

  /** No sleep ends early, and no call meets a clock that stands still for too small a transfer. */
  ghost predicate FairRun(max: nat, start: real, calls: seq<Call>)
    requires max > 0
  {
    forall i :: 0 <= i < |calls| ==> calls[i].overrun >= 0.0 && Fair(max, Final(max, start, calls[..i]), calls[i])
  }

  /** What may be moved in a span of time. */
  function Limit(max: nat, span: real): real { (max + 1) as real * span }

  /** Any run moves fewer than max + 1 bytes for each second that passes, pauses included. */
  lemma RunWithin(max: nat, start: real, calls: seq<Call>)
    requires max > 0 && FairRun(max, start, calls)
    ensures Moved(calls) == 0 ==> Final(max, start, calls) == start
    ensures Moved(calls) > 0 ==> Moved(calls) as real < (max + 1) as real * (Final(max, start, calls) - start)
  {
    hide Moved, Final, FairRun;
    RunLimited(max, start, calls);
  }

  lemma {:induction false} RunLimited(max: nat, start: real, calls: seq<Call>)
    requires max > 0 && FairRun(max, start, calls)
    ensures Moved(calls) == 0 ==> Final(max, start, calls) == start
    ensures Moved(calls) > 0 ==> Moved(calls) as real < Limit(max, Final(max, start, calls) - start)
  {
    hide Next, Fair, FairRun, Limit;
    if calls != [] {
      var n := |calls| - 1;
      var front, c := calls[..n], calls[n];
      FairRunFront(max, start, calls);
      RunLimited(max, start, front);
      var middle := Final(max, start, front);
      Ignored(max, middle, c);
      if Counts(c) {
        var next := Next(max, middle, c);
        FairLimited(max, middle, c);
        LimitAdds(max, middle - start, next - middle);
        assert (middle - start) + (next - middle) == next - start;
      }
    }
  }

  lemma FairRunFront(max: nat, start: real, calls: seq<Call>)
    requires max > 0 && calls != [] && FairRun(max, start, calls)
    ensures var n := |calls| - 1;
      && FairRun(max, start, calls[..n])
      && calls[n].overrun >= 0.0 && Fair(max, Final(max, start, calls[..n]), calls[n])
  {
    hide Fair, Final;
    var n := |calls| - 1;
    var front := calls[..n];
    forall i | 0 <= i < n
      ensures front[i].overrun >= 0.0 && Fair(max, Final(max, start, front[..i]), front[i])
    {
      assert front[..i] == calls[..i] && front[i] == calls[i];
    }
  }

  lemma Ignored(max: nat, start: real, c: Call)
    requires max > 0
    ensures !Counts(c) ==> Next(max, start, c) == start
  {
  }

  // --------------------------------------------- from the begin of a transfer

  /** The bytes of the first call that counts. */
  function FirstBytes(calls: seq<Call>): nat {
    if calls == [] then 0
    else
      var front, c := calls[..|calls| - 1], calls[|calls| - 1];
      if Moved(front) > 0 then FirstBytes(front) else if Counts(c) then c.retval else 0
  }

  /** The calls of a transfer that begins at `begin`: as in a fair run, but of the first that counts nothing is asked, for
      its interval reaches back to whatever the session did before. */
  ghost predicate FairTransfer(max: nat, start: real, begin: real, calls: seq<Call>)
    requires max > 0
  {
    forall i :: 0 <= i < |calls| ==>
      && calls[i].overrun >= 0.0 && calls[i].now >= begin
      && (Moved(calls[..i]) > 0 ==> Fair(max, Final(max, start, calls[..i]), calls[i]))
  }

  lemma NextNotEarlier(max: nat, start: real, c: Call)
    requires max > 0 && Counts(c) && c.overrun >= 0.0
    ensures Next(max, start, c) >= c.now
  {
    var e := Interval(start, c.now);
    if Rate(c.retval, e) > max { SleepEnough(max, c.retval, e); }
  }

  /** Counted from its own begin a transfer may exceed the bound, by at most the bytes of its first call. */
  lemma TransferWithin(max: nat, start: real, begin: real, calls: seq<Call>)
    requires max > 0 && FairTransfer(max, start, begin, calls)
    ensures Moved(calls) == 0 ==> Final(max, start, calls) == start
    ensures Moved(calls) > 0 ==>
              Moved(calls) as real <= (max + 1) as real * (Final(max, start, calls) - begin) + FirstBytes(calls) as real
  {
    hide Moved, Final, FirstBytes, FairTransfer;
    TransferLimited(max, start, begin, calls);
  }

  lemma {:induction false} TransferLimited(max: nat, start: real, begin: real, calls: seq<Call>)
    requires max > 0 && FairTransfer(max, start, begin, calls)
    ensures Moved(calls) == 0 ==> Final(max, start, calls) == start
    ensures Moved(calls) > 0 ==>
              Moved(calls) as real <= Limit(max, Final(max, start, calls) - begin) + FirstBytes(calls) as real
  {
    hide Next, Fair, Within, FairTransfer, Limit;
    if calls != [] {
      var n := |calls| - 1;
      var front, c := calls[..n], calls[n];
      FairFront(max, start, begin, calls);
      TransferLimited(max, start, begin, front);
      var middle := Final(max, start, front);
      Ignored(max, middle, c);
      var next := Next(max, middle, c);
      if Counts(c) {
        NextNotEarlier(max, middle, c);
        if Moved(front) > 0 {
          FairLimited(max, middle, c);
          SpansAdd(max, begin, middle, next, Moved(front) as real, c.retval as real, FirstBytes(front) as real);
        } else {
          LimitPositive(max, next - begin);
        }
      }
    }
  }

  lemma FairLimited(max: nat, start: real, c: Call)
    requires max > 0 && Fair(max, start, c) && c.overrun >= 0.0 && Counts(c)
    ensures c.retval as real < Limit(max, Next(max, start, c) - start)
  {
    hide Next, Fair;
    FairWithin(max, start, c);
  }

  lemma FairFront(max: nat, start: real, begin: real, calls: seq<Call>)
    requires max > 0 && calls != [] && FairTransfer(max, start, begin, calls)
    ensures var n := |calls| - 1;
      && FairTransfer(max, start, begin, calls[..n])
      && calls[n].overrun >= 0.0 && calls[n].now >= begin
      && (Moved(calls[..n]) > 0 ==> Fair(max, Final(max, start, calls[..n]), calls[n]))
  {
    hide Fair, Moved, Final;
    var n := |calls| - 1;
    var front := calls[..n];
    forall i | 0 <= i < n
      ensures front[i].overrun >= 0.0 && front[i].now >= begin
      ensures Moved(front[..i]) > 0 ==> Fair(max, Final(max, start, front[..i]), front[i])
    {
      assert front[..i] == calls[..i] && front[i] == calls[i];
    }
  }

  /** What was moved in two spans of time, one behind the other. */
  lemma SpansAdd(max: nat, begin: real, middle: real, end: real, a: real, b: real, excess: real)
    requires a <= Limit(max, middle - begin) + excess && (b <= Limit(max, end - middle) || (b == 0.0 && end >= middle))
    ensures a + b <= Limit(max, end - begin) + excess
  {
    hide Limit;
    LimitAdds(max, middle - begin, end - middle);
    assert (middle - begin) + (end - middle) == end - begin;
    if end >= middle { LimitPositive(max, end - middle); }
  }

  lemma LimitPositive(max: nat, span: real)
    requires span >= 0.0
    ensures Limit(max, span) >= 0.0
  {
  }

  lemma LimitAdds(max: nat, a: real, b: real)
    ensures Limit(max, a) + Limit(max, b) == Limit(max, a + b)
  {
  }

  /** The excess is real: after enough idle time a first call of any size passes without a pause. */
  lemma IdleExcess(max: nat, begin: real, bytes: nat)
    requires max > 0 && bytes > 0
    ensures exists start ::
              var calls := [Call(bytes, true, begin, 0.0)];
              Moved(calls) == FirstBytes(calls) == bytes && Final(max, start, calls) == begin
  {
    var start, c := begin - bytes as real, Call(bytes, true, begin, 0.0);
    var calls := [c];
    assert calls[..0] == [];
    assert Interval(start, c.now) == bytes as real;
    assert bytes as real / bytes as real == 1.0;
    assert Rate(bytes, bytes as real) == 1;
    assert Next(max, start, c) == begin;
    assert Final(max, start, calls) == begin;
  }

  lemma NoCalls(max: nat, start: real)
    requires max > 0
    ensures Moved([]) == 0 && Final(max, start, []) == start
  {
  }

  lemma OneMore(max: nat, start: real, calls: seq<Call>, i: nat)
    requires max > 0 && i < |calls|
    ensures Moved(calls[..i + 1]) == Moved(calls[..i]) + (if Counts(calls[i]) then calls[i].retval else 0)
    ensures Final(max, start, calls[..i + 1]) == Next(max, Final(max, start, calls[..i]), calls[i])
  {
    hide Next;
    assert calls[..i + 1][..i] == calls[..i];
  }

  class Limiter {
    const rateMax: nat
    var start: real
    var progress: bool

    constructor (rateMax: nat, start: real)
      ensures this.rateMax == rateMax && this.start == start && !progress
    {
      this.rateMax, this.start, progress := rateMax, start, false;
    }

    /** handle_io. */
    method HandleIo(c: Call)
      modifies this
      ensures progress == (old(progress) || (c.onData && c.retval > 0))
      ensures !(c.onData && c.retval > 0) ==> start == old(start)
      ensures rateMax == 0 ==> start == old(start)
      ensures rateMax > 0 ==> start == Next(rateMax, old(start), c)
    {
      if !c.onData || c.retval <= 0 {
        return;
      }
      progress := true;
      if rateMax == 0 {
        return;
      }
      var elapsed := c.now - start;
      if elapsed <= 0.0 {
        elapsed := 0.01;
      }
      var rate := (c.retval as real / elapsed).Floor;
      if rate <= rateMax {
        start := c.now;
        return;
      }
      var ratio := rate as real / rateMax as real;
      var pause := (ratio - 1.0) * elapsed;
      start := c.now + pause + c.overrun;
    }

    /** A transfer: a run of calls. */
    method Transfer(calls: seq<Call>, ghost begin: real) returns (moved: nat)
      requires rateMax > 0
      modifies this
      ensures moved == Moved(calls) && start == Final(rateMax, old(start), calls)
      ensures moved > 0 && FairRun(rateMax, old(start), calls) ==>
                moved as real < (rateMax + 1) as real * (start - old(start))
      ensures moved > 0 && FairTransfer(rateMax, old(start), begin, calls) ==>
                moved as real <= (rateMax + 1) as real * (start - begin) + FirstBytes(calls) as real
    {
      hide Next, Rate, Pause, Fair, Moved, Final, FairRun, FairTransfer, FirstBytes;
      NoCalls(rateMax, start);
      moved := 0;
      var i := 0;
      while i < |calls|
        invariant 0 <= i <= |calls|
        invariant moved == Moved(calls[..i]) && start == Final(rateMax, old(start), calls[..i])
      {
        HandleIo(calls[i]);
        if Counts(calls[i]) {
          moved := moved + calls[i].retval;
        }
        OneMore(rateMax, old(start), calls, i);
        i := i + 1;
      }
      assert calls[..i] == calls;
      if FairRun(rateMax, old(start), calls) {
        RunWithin(rateMax, old(start), calls);
      }
      if FairTransfer(rateMax, old(start), begin, calls) {
        TransferWithin(rateMax, old(start), begin, calls);
      }
    }
  }
}
