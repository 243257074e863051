/** The packet layer of the tyre-pressure decoder: differential Manchester symbols over a source of uncertain bits. */
module Packet {
  import opened Wrappers
  import opened Arithmetic

  type Bit = b: int | 0 <= b <= 1

  // --------------------------------------------------- the line code itself

  /** The bit just before symbol i; the line is taken to be low before the packet. */
  function Preceding(bits: seq<Bit>, i: nat): Bit
    requires 2 * i <= |bits|
  {
    if i == 0 then 0 else bits[2 * i - 1]
  }

  function Halves(symbol: Bit, before: Bit): (r: seq<Bit>)
    ensures |r| == 2
  {
    var first := if symbol == 1 then before else 1 - before;
    [first, 1 - first]
  }

  /** No transition at the start of a symbol means 1. */
  function SymbolOf(before: int, first: Bit): Bit {
    if before == first then 1 else 0
  }

  /** Two half-bits a symbol, always with a transition between them; a transition before them as well means 0. */
  function Encode(symbols: seq<Bit>): (bits: seq<Bit>)
    ensures |bits| == 2 * |symbols|
  {
    if symbols == [] then []
    else
      var n := |symbols| - 1;
      var rest := Encode(symbols[..n]);
      rest + Halves(symbols[n], Preceding(rest, n))
  }

  function Decode(bits: seq<Bit>): (symbols: seq<Bit>)
    requires |bits| % 2 == 0
    ensures |symbols| == |bits| / 2
  {
    seq(|bits| / 2, i requires 0 <= i < |bits| / 2 => SymbolOf(Preceding(bits, i), bits[2 * i]))
  }

  /** A transition in the middle of every symbol. */
  predicate Manchester(bits: seq<Bit>) {
    && |bits| % 2 == 0
    && forall i :: 0 <= i < |bits| / 2 ==> bits[2 * i] != bits[2 * i + 1]
  }

  /** A symbol is 1 exactly if the line does not change at its start; before the packet it is low. */
  lemma DecodeMeans(bits: seq<Bit>, i: nat)
    requires |bits| % 2 == 0 && 2 * i < |bits|
    ensures Decode(bits)[i] == 1 <==> bits[2 * i] == if i == 0 then 0 else bits[2 * i - 1]
  {
  }

  lemma DecodeSnoc(bits: seq<Bit>, first: Bit, second: Bit)
    requires |bits| % 2 == 0
    ensures |bits + [first, second]| % 2 == 0
    ensures Decode(bits + [first, second]) == Decode(bits) + [SymbolOf(Preceding(bits, |bits| / 2), first)]
  {
    var more := bits + [first, second];
    forall i | 0 <= i < |bits| / 2
      ensures Decode(more)[i] == Decode(bits)[i]
    {
      assert Preceding(more, i) == Preceding(bits, i) && more[2 * i] == bits[2 * i];
    }
    assert Preceding(more, |bits| / 2) == Preceding(bits, |bits| / 2);
  }

  lemma EncodeSnoc(symbols: seq<Bit>, s: Bit)
    ensures Encode(symbols + [s]) == Encode(symbols) + Halves(s, Preceding(Encode(symbols), |symbols|))
  {
    assert (symbols + [s])[..|symbols|] == symbols;
  }

  lemma EmptyLine()
    ensures Encode([]) == [] && Manchester([]) && Decode([]) == []
  {
  }

  /** Decoding undoes encoding, for every packet. */
  lemma {:induction false} DecodeEncode(symbols: seq<Bit>)
    ensures Manchester(Encode(symbols)) && Decode(Encode(symbols)) == symbols
  {
    hide Manchester, Decode, Encode, Preceding;
    if symbols == [] {
      EmptyLine();
    } else {
      var n := |symbols| - 1;
      var front, s := symbols[..n], symbols[n];
      assert symbols == front + [s];
      DecodeEncode(front);
      EncodeSnoc(front, s);
      var rest := Encode(front);
      var halves := Halves(s, Preceding(rest, n));
      DecodeSnoc(rest, halves[0], halves[1]);
      ManchesterSnoc(rest, halves[0], halves[1]);
      assert halves == [halves[0], halves[1]];
    }
  }

  lemma ManchesterSnoc(bits: seq<Bit>, first: Bit, second: Bit)
    requires Manchester(bits) && first != second
    ensures Manchester(bits + [first, second])
  {
    var more := bits + [first, second];
    forall i | 0 <= i < |more| / 2
      ensures more[2 * i] != more[2 * i + 1]
    {
      if i < |bits| / 2 { assert bits[2 * i] != bits[2 * i + 1]; }
    }
  }

  /** Encoding undoes decoding, exactly on the bit strings that have all their transitions. */
  lemma {:induction false} EncodeDecode(bits: seq<Bit>)
    requires |bits| % 2 == 0
    ensures Encode(Decode(bits)) == bits <==> Manchester(bits)
  {
    DecodeEncode(Decode(bits));
    if Manchester(bits) { EncodeDecodeManchester(bits); }
  }

  lemma ManchesterFront(bits: seq<Bit>)
    requires Manchester(bits) && bits != []
    ensures Manchester(bits[..|bits| - 2]) && bits[|bits| - 2] != bits[|bits| - 1]
  {
    var m := |bits| / 2 - 1;
    assert bits[2 * m] != bits[2 * m + 1];
    forall i | 0 <= i < m
      ensures bits[..2 * m][2 * i] != bits[..2 * m][2 * i + 1]
    {
      assert bits[2 * i] != bits[2 * i + 1];
    }
  }

  lemma {:induction false} EncodeDecodeManchester(bits: seq<Bit>)
    requires Manchester(bits)
    ensures Encode(Decode(bits)) == bits
  {
    hide Decode, Encode, Preceding;
    if bits == [] {
      EmptyLine();
    } else {
      ManchesterFront(bits);
      var m := |bits| - 2;
      var rest, first, second := bits[..m], bits[m], bits[m + 1];
      assert bits == rest + [first, second];
      EncodeDecodeManchester(rest);
      DecodeSnoc(rest, first, second);
      var s := SymbolOf(Preceding(rest, m / 2), first);
      EncodeSnoc(Decode(rest), s);
      assert Halves(s, Preceding(rest, m / 2)) == [first, second];
    }
  }

  // ------------------------------------------------------- uncertain half-bits

  /** What get_bit reports: a bit, how sure it is, and whether the sample cache overflowed meanwhile. */
  datatype Answer = Answer(bit: Bit, confidence: real, lost: bool)

  const DOUBT := 0.25

  datatype Pair = Pair(first: Bit, second: Bit)

  /** Two half-bits that agree cannot both be right: the less certain one is flipped if it is doubtful enough. */
  function Repair(f: Answer, s: Answer): (r: Option<Pair>)
    ensures r.None? <==> f.bit == s.bit && f.confidence >= 0.25 && s.confidence >= 0.25
    ensures r.Some? ==> r.value.first != r.value.second
    ensures r.Some? && f.bit != s.bit ==> r.value == Pair(f.bit, s.bit)
    ensures r.Some? && r.value.first != f.bit ==> f.confidence < 0.25 && f.confidence <= s.confidence
    ensures r.Some? && r.value.second != s.bit ==> s.confidence < 0.25 && s.confidence < f.confidence
  {
    if f.bit != s.bit then Some(Pair(f.bit, s.bit))
    else if f.confidence < DOUBT && f.confidence <= s.confidence then Some(Pair(1 - f.bit, s.bit))
    else if s.confidence < DOUBT then Some(Pair(f.bit, 1 - s.bit))
    else None
  }

  /** The same decision as the source takes it: false where the packet is given up. */
  method Settle(first: Bit, firstConf: real, second: Bit, secondConf: real) returns (ok: bool, f: Bit, s: Bit)
    ensures var r := Repair(Answer(first, firstConf, false), Answer(second, secondConf, false));
      (ok <==> r.Some?) && (ok ==> r.value == Pair(f, s))
    ensures ok <==> first != second || firstConf < 0.25 || secondConf < 0.25
  {
    f, s := first, second;
    if f == s {
      var minConf := if firstConf < secondConf then firstConf else secondConf;
      if minConf < DOUBT {
        if minConf == firstConf {
          f := 1 - f;
        } else {
          s := 1 - s;
        }
      } else {
        return false, f, s;
      }
    }
    ok := true;
  }

  /** Only the bits and their confidence matter to a repair. */
  lemma RepairBits(f: Answer, s: Answer)
    ensures Repair(f, s) == Repair(Answer(f.bit, f.confidence, false), Answer(s.bit, s.confidence, false))
  {
  }

  /** The first half of symbol 1 is known from the synchronisation pattern. */
  const KNOWN := Answer(1, 1.0, false)

  function FirstHalf(oracle: nat -> Answer, i: nat): Answer
    requires i > 0
  {
    if i == 1 then KNOWN else oracle(2 * i - 3)
  }

  function SecondHalf(oracle: nat -> Answer, i: nat): Answer
    requires i > 0
  {
    oracle(2 * i - 2)
  }

  /** The repaired half-bits of the first n symbols, unless some pair could not be repaired or samples were lost. */
  function Received(oracle: nat -> Answer, n: nat): (r: Option<seq<Bit>>)
    requires n > 0
    ensures r.Some? ==> |r.value| == 2 * n && Manchester(r.value)
  {
    if n == 1 then Some([0, 1])
    else
      match Received(oracle, n - 1)
      case None => None
      case Some(bits) =>
        var f, s := FirstHalf(oracle, n - 1), SecondHalf(oracle, n - 1);
        if f.lost || s.lost then None
        else
          match Repair(f, s)
          case None => None
          case Some(p) => ManchesterSnoc(bits, p.first, p.second); Some(bits + [p.first, p.second])
  }

  lemma ReceivedStep(oracle: nat -> Answer, n: nat, bits: seq<Bit>)
    requires n > 0 && Received(oracle, n) == Some(bits)
    ensures var f, s := FirstHalf(oracle, n), SecondHalf(oracle, n);
      var r := Repair(f, s);
      Received(oracle, n + 1)
      == if f.lost || s.lost || r.None? then None else Some(bits + [r.value.first, r.value.second])
  {
  }

  /** A packet is received exactly when each of its pairs is. */
  lemma {:induction false} ReceivedIff(oracle: nat -> Answer, n: nat)
    requires n > 0
    ensures Received(oracle, n).Some? <==>
              forall i :: 1 <= i < n ==>
                !FirstHalf(oracle, i).lost && !SecondHalf(oracle, i).lost && Repair(FirstHalf(oracle, i), SecondHalf(oracle, i)).Some?
  {
    if n > 1 { ReceivedIff(oracle, n - 1); }
  }

  /** In terms of the bits that were asked for: the first one is the second half of symbol 1, then they come in pairs.
      None may be lost, and two of a pair that agree must not both be sure. */
  lemma {:induction false} ReceivedBits(oracle: nat -> Answer, n: nat)
    requires n >= 2
    ensures Received(oracle, n).Some? <==>
      && !oracle(0).lost && (oracle(0).bit == 0 || oracle(0).confidence < 0.25)
      && forall i: nat :: 2 <= i < n ==>
           var f, s := oracle(2 * i - 3), oracle(2 * i - 2);
           !f.lost && !s.lost && (f.bit != s.bit || f.confidence < 0.25 || s.confidence < 0.25)
  {
    if n == 2 {
      assert Received(oracle, 1) == Some([0, 1]);
    } else {
      ReceivedBits(oracle, n - 1);
    }
  }

  /** And what is received: the synchronisation pattern, and each pair with its less certain half flipped if they agree. */
  lemma {:induction false} ReceivedHalves(oracle: nat -> Answer, n: nat, i: nat)
    requires 2 <= i < n && Received(oracle, n).Some?
    ensures Received(oracle, n).value[..4] == [0, 1, 1, 0]
    ensures var f, s := oracle(2 * i - 3), oracle(2 * i - 2);
      Received(oracle, n).value[2 * i..2 * i + 2]
      == if f.bit != s.bit then [f.bit, s.bit]
         else if f.confidence < 0.25 && f.confidence <= s.confidence then [1 - f.bit, s.bit]
         else [f.bit, 1 - s.bit]
  {
    hide Manchester, Received, Repair;
    ReceivedStart(oracle, n);
    ReceivedMore(oracle, n - 1, n);
    var bits := Received(oracle, n - 1).value;
    ReceivedStep(oracle, n - 1, bits);
    var got := Received(oracle, n).value;
    if i < n - 1 {
      ReceivedHalves(oracle, n - 1, i);
      assert got[2 * i..2 * i + 2] == bits[2 * i..2 * i + 2];
    } else {
      RepairMeans(FirstHalf(oracle, i), SecondHalf(oracle, i));
      assert got[2 * i..2 * i + 2] == [got[2 * i], got[2 * i + 1]];
    }
  }

  lemma RepairMeans(f: Answer, s: Answer)
    requires Repair(f, s).Some?
    ensures var p := Repair(f, s).value;
      [p.first, p.second]
      == if f.bit != s.bit then [f.bit, s.bit]
         else if f.confidence < 0.25 && f.confidence <= s.confidence then [1 - f.bit, s.bit]
         else [f.bit, 1 - s.bit]
  {
  }

  /** The first four half-bits are those of the synchronisation pattern and the second symbol. */
  lemma {:induction false} ReceivedStart(oracle: nat -> Answer, n: nat)
    requires n >= 2 && Received(oracle, n).Some?
    ensures Received(oracle, n).value[..4] == [0, 1, 1, 0]
  {
    hide Manchester, Received, Repair;
    if n == 2 {
      SecondSymbolSwapped(oracle);
    } else {
      ReceivedMore(oracle, n - 1, n);
      ReceivedStep(oracle, n - 1, Received(oracle, n - 1).value);
      ReceivedStart(oracle, n - 1);
      assert Received(oracle, n).value[..4] == Received(oracle, n - 1).value[..4];
    }
  }

  // ------------------------------------------------------ swapped frequencies

  /** A receiver that has the two frequencies the wrong way round. */
  function Swapped(oracle: nat -> Answer): nat -> Answer {
    (i: nat) => oracle(i).(bit := 1 - oracle(i).bit)
  }

  lemma RepairSwapped(f: Answer, s: Answer)
    ensures var r, t := Repair(f, s), Repair(f.(bit := 1 - f.bit), s.(bit := 1 - s.bit));
      && (r.None? <==> t.None?)
      && (r.Some? ==> t.value == Pair(1 - r.value.first, 1 - r.value.second))
  {
  }

  /** The second symbol is measured against a half that is known beforehand and does not swap. */
  lemma SecondSymbolSwapped(oracle: nat -> Answer)
    requires Received(oracle, 2).Some?
    ensures Received(oracle, 2).value == [0, 1, 1, 0]
    ensures Received(Swapped(oracle), 2) == if oracle(0).confidence < DOUBT then Some([0, 1, 1, 0]) else None
  {
    assert Received(oracle, 1) == Some([0, 1]) == Received(Swapped(oracle), 1);
    assert [0, 1] + [1, 0] == [0, 1, 1, 0];
  }

  /** From symbol 2 on every half-bit is swapped, and nothing else is. */
  lemma {:induction false} SwappedHalves(oracle: nat -> Answer, n: nat)
    requires n >= 2 && Received(oracle, n).Some? && oracle(0).confidence < DOUBT
    ensures Received(Swapped(oracle), n).Some?
    ensures var got, seen := Received(oracle, n).value, Received(Swapped(oracle), n).value;
      seen[..4] == got[..4] && forall i :: 4 <= i < 2 * n ==> seen[i] == 1 - got[i]
  {
    hide Repair, Manchester;
    if n == 2 {
      SecondSymbolSwapped(oracle);
    } else {
      SwappedHalves(oracle, n - 1);
      RepairSwapped(FirstHalf(oracle, n - 1), SecondHalf(oracle, n - 1));
    }
  }

  /** Of the packets a receiver accepts, one with swapped frequencies refuses exactly those whose first measured half-bit
      was not in doubt. */
  lemma {:induction false} SwappedAcceptedIff(oracle: nat -> Answer, n: nat)
    requires n >= 2 && Received(oracle, n).Some?
    ensures Received(Swapped(oracle), n).Some? <==> oracle(0).confidence < DOUBT
  {
    hide Received;
    ReceivedMore(oracle, 2, n);
    ReceivedMore(Swapped(oracle), 2, n);
    SecondSymbolSwapped(oracle);
    if oracle(0).confidence < DOUBT { SwappedHalves(oracle, n); }
  }

  /** The packets it does not refuse come out with exactly one symbol wrong, symbol 2. */
  lemma {:induction false} SwappedSymbols(oracle: nat -> Answer, n: nat)
    requires n > 2 && Received(oracle, n).Some? && oracle(0).confidence < DOUBT
    ensures Received(Swapped(oracle), n).Some?
    ensures var symbols := Decode(Received(oracle, n).value);
      Decode(Received(Swapped(oracle), n).value) == symbols[2 := 1 - symbols[2]]
  {
    hide Received, Manchester;
    SwappedHalves(oracle, n);
    var got, seen := Received(oracle, n).value, Received(Swapped(oracle), n).value;
    forall i | 0 <= i < n
      ensures Decode(seen)[i] == if i == 2 then 1 - Decode(got)[2] else Decode(got)[i]
    {
      if i < 2 {
        assert seen[2 * i] == seen[..4][2 * i] == got[2 * i];
        assert i == 1 ==> seen[..4][1] == got[..4][1];
      } else {
        assert seen[2 * i] == 1 - got[2 * i];
        assert i == 2 ==> seen[3] == seen[..4][3] == got[3];
        assert i > 2 ==> seen[2 * i - 1] == 1 - got[2 * i - 1];
      }
    }
  }

  // ------------------------------------------------------------------- fields

  const SYMBOLS := 69

  /** The number written in binary, most significant digit first. */
  function Number(digits: seq<Bit>): (r: nat)
    ensures r < Pow2(|digits|)
  {
    if digits == [] then 0 else 2 * Number(digits[..|digits| - 1]) + digits[|digits| - 1]
  }

  lemma {:induction false} ComplementNumber(a: seq<Bit>, b: seq<Bit>)
    requires |a| == |b| && forall i :: 0 <= i < |a| ==> a[i] != b[i]
    ensures Number(a) + Number(b) == Pow2(|a|) - 1
  {
    if a != [] { ComplementNumber(a[..|a| - 1], b[..|b| - 1]); }
  }

  function Pressure(field: nat): real {
    field as real * 2.5 - 100.0
  }

  predicate Plausible(symbols: seq<Bit>)
    requires |symbols| == SYMBOLS
  {
    && symbols[68] == 1
    && (forall i :: 36 <= i < 44 ==> symbols[i] != symbols[i + 8])
    && Pressure(Number(symbols[36..44])) >= 0.0
  }

  /** Every packet that passes reports a pressure from 0 to 537.5 kPa, and carries its complement in the next byte. */
  lemma PlausibleFields(symbols: seq<Bit>)
    requires |symbols| == SYMBOLS && Plausible(symbols)
    ensures Number(symbols[44..52]) == 255 - Number(symbols[36..44])
    ensures 40 <= Number(symbols[36..44]) <= 255
    ensures 0.0 <= Pressure(Number(symbols[36..44])) <= 537.5
  {
    var a, b := symbols[36..44], symbols[44..52];
    forall i | 0 <= i < |a|
      ensures a[i] != b[i]
    {
      assert symbols[36 + i] != symbols[36 + i + 8];
    }
    ComplementNumber(a, b);
    assert Pow2(8) == 256;
  }

  /** The number without its top digit, and the top digit's share. */
  lemma {:induction false} NumberTop(digits: seq<Bit>)
    requires digits != []
    ensures Number(digits) == Number(digits[1..]) + if digits[0] == 1 then Pow2(|digits| - 1) else 0
  {
    var n := |digits| - 1;
    if n > 0 {
      NumberTop(digits[..n]);
      assert digits[..n][1..] == digits[1..][..n - 1];
    } else {
      assert digits[..0] == [] == digits[1..];
    }
  }

  lemma PlausibleFrom30(a: seq<Bit>, b: seq<Bit>)
    requires |a| == |b| == SYMBOLS && a[30..] == b[30..]
    ensures Plausible(a) <==> Plausible(b)
  {
    forall i | 30 <= i < SYMBOLS
      ensures a[i] == b[i]
    {
      assert a[i] == a[30..][i - 30] && b[i] == b[30..][i - 30];
    }
    assert a[36..44] == b[36..44];
  }

  /** The same symbols except for symbol 2. */
  lemma OtherAddress(symbols: seq<Bit>)
    requires |symbols| == SYMBOLS
    ensures var heard := symbols[2 := 1 - symbols[2]];
      && (Plausible(heard) <==> Plausible(symbols))
      && heard[30..] == symbols[30..]
      && Number(heard[2..30]) == if symbols[2] == 1 then Number(symbols[2..30]) - Pow2(27) else Number(symbols[2..30]) + Pow2(27)
  {
    hide Number;
    var heard := symbols[2 := 1 - symbols[2]];
    assert heard[30..] == symbols[30..];
    PlausibleFrom30(symbols, heard);
    assert heard[2..30][1..] == symbols[2..30][1..];
    NumberTop(symbols[2..30]);
    NumberTop(heard[2..30]);
  }

  /** So a packet heard with swapped frequencies and not refused is reported with the same pressure and temperature, and
      with another address: the top bit is wrong. */
  lemma SwappedReport(oracle: nat -> Answer)
    requires Received(oracle, SYMBOLS).Some? && oracle(0).confidence < DOUBT
    ensures Received(Swapped(oracle), SYMBOLS).Some?
    ensures var symbols, heard := Decode(Received(oracle, SYMBOLS).value), Decode(Received(Swapped(oracle), SYMBOLS).value);
      && (Plausible(heard) <==> Plausible(symbols))
      && heard[30..] == symbols[30..]
      && Number(heard[2..30]) == if symbols[2] == 1 then Number(symbols[2..30]) - Pow2(27) else Number(symbols[2..30]) + Pow2(27)
  {
    hide Received, Decode, Number, Plausible;
    SwappedSymbols(oracle, SYMBOLS);
    OtherAddress(Decode(Received(oracle, SYMBOLS).value));
  }

  // ------------------------------------------------------------ character buffers

  function Digit(b: Bit): char {
    if b == 0 then '0' else '1'
  }

  function Text(bits: seq<Bit>): (t: seq<char>)
    ensures |t| == |bits|
  {
    seq(|bits|, i requires 0 <= i < |bits| => Digit(bits[i]))
  }

  /** The buffer holds the C string of these digits. */
  ghost predicate Holds(buffer: seq<char>, digits: seq<Bit>) {
    |digits| < |buffer| && buffer[|digits|] == '\0' && buffer[..|digits|] == Text(digits)
  }

  method StrLen(a: array<char>) returns (n: nat)
    requires exists k :: 0 <= k < a.Length && a[k] == '\0'
    ensures n < a.Length && a[n] == '\0'
    ensures forall i :: 0 <= i < n ==> a[i] != '\0'
  {
    n := 0;
    while a[n] != '\0'
      invariant n < a.Length
      invariant forall i :: 0 <= i < n ==> a[i] != '\0'
      decreases a.Length - n
    {
      n := n + 1;
    }
  }

  lemma HeldDigits(buffer: seq<char>, digits: seq<Bit>)
    requires Holds(buffer, digits)
    ensures forall i :: 0 <= i < |digits| ==> buffer[i] == if digits[i] == 1 then '1' else '0'
  {
    forall i | 0 <= i < |digits|
      ensures buffer[i] == if digits[i] == 1 then '1' else '0'
    {
      assert buffer[i] == buffer[..|digits|][i] == Digit(digits[i]);
    }
  }

  lemma HeldLength(buffer: seq<char>, digits: seq<Bit>, n: nat)
    requires Holds(buffer, digits) && n < |buffer| && buffer[n] == '\0'
    requires forall i :: 0 <= i < n ==> buffer[i] != '\0'
    ensures n == |digits|
  {
    forall i | 0 <= i < |digits|
      ensures buffer[i] != '\0'
    {
      assert buffer[i] == buffer[..|digits|][i] == Digit(digits[i]);
    }
  }

  method ValidatePacket(syms: array<Bit>) returns (ok: bool)
    requires syms.Length == SYMBOLS
    ensures ok <==> Plausible(syms[..])
    ensures ok <==>
      syms[68] == 1 && (forall i :: 36 <= i < 44 ==> syms[i] != syms[i + 8]) && Number(syms[36..44]) >= 40
  {
    if syms[68] != 1 {
      return false;
    }
    var press: nat := 0;
    var i := 0;
    while i <= 7
      invariant 0 <= i <= 8
      invariant press == Number(syms[36..36 + i])
      invariant forall k :: 36 <= k < 36 + i ==> syms[k] != syms[k + 8]
    {
      press := press * 2 + syms[i + 36];
      assert syms[36..36 + i + 1][..i] == syms[36..36 + i];
      if syms[36 + i] == syms[44 + i] {
        assert syms[..][36 + i] == syms[..][36 + i + 8];
        return false;
      }
      i := i + 1;
    }
    assert syms[..][36..44] == syms[36..44];
    ok := press as real * 2.5 - 100.0 >= 0.0;
  }

  // ------------------------------------------------------------- the decoder

  class Decoder {
    const oracle: nat -> Answer
    const bits: array<char>
    const symbols: array<char>
    var precedingBit: int
    var validPkt: bool
    var bitConfidence: real
    var asked: nat

    /** The buffers have the sizes of the source. */
    ghost predicate Buffers()
      reads this
    {
      bits.Length == 2 * SYMBOLS + 3 && symbols.Length == SYMBOLS + 1 && bits != symbols
    }

    /** The first n symbols are in, and are stored as two C strings. */
    ghost predicate Holding(n: nat, got: seq<Bit>)
      reads this, bits, symbols
      requires n > 0
    {
      && Buffers()
      && |got| == 2 * n && Received(oracle, n) == Some(got)
      && precedingBit == got[2 * n - 1]
      && asked == 2 * n - 3
      && Holds(bits[..], got)
      && Holds(symbols[..], Decode(got))
    }

    constructor (oracle: nat -> Answer)
      ensures Buffers() && fresh(bits) && fresh(symbols) && this.oracle == oracle
    {
      this.oracle := oracle;
      bits := new char[2 * SYMBOLS + 3];
      symbols := new char[SYMBOLS + 1];
      precedingBit, validPkt, bitConfidence, asked := -1, false, 0.0, 0;
    }

    method GetBit() returns (b: Bit)
      modifies this`asked, this`bitConfidence, this`validPkt
      ensures b == oracle(old(asked)).bit && bitConfidence == oracle(old(asked)).confidence
      ensures asked == old(asked) + 1 && validPkt == (old(validPkt) && !oracle(old(asked)).lost)
    {
      var answer := oracle(asked);
      asked := asked + 1;
      bitConfidence := answer.confidence;
      if answer.lost {
        validPkt := false;
      }
      b := answer.bit;
    }

    /** get_second_symbol, after the buffers were started with the synchronisation pattern. */
    method GetSecondSymbol() returns (symbol: Bit)
      requires Buffers() && validPkt && asked == 0
      requires bits[0] == '0' && bits[1] == '1' && bits[2] == '1' && symbols[0] == '1'
      modifies this, bits, symbols
      ensures validPkt <==> Received(oracle, 2).Some?
      ensures validPkt ==> Holding(2, Received(oracle, 2).value) && symbol == Decode(Received(oracle, 2).value)[1]
    {
      precedingBit := 1;
      var firstBit: Bit := 1;
      var secondBit := GetBit();
      var secondConf := bitConfidence;
      assert Received(oracle, 1) == Some([0, 1]);
      if firstBit == secondBit {
        if secondConf < DOUBT {
          secondBit := 1 - secondBit;
        } else {
          validPkt := false;
          return 0;
        }
      }
      bits[3] := if secondBit == 0 then '0' else '1';
      bits[4] := '\0';
      symbol := SymbolOf(precedingBit, firstBit);
      symbols[1] := if symbol == 0 then '0' else '1';
      symbols[2] := '\0';
      precedingBit := secondBit;
      ghost var got := [0, 1] + [1, secondBit];
      assert got == [0, 1, 1, secondBit];
      assert Decode(got) == [1, 1];
      assert bits[..4] == Text(got);
      assert symbols[..2] == Text(Decode(got));
    }

    /** get_symbol. */
    method GetSymbol(ghost n: nat, ghost got: seq<Bit>) returns (symbol: Bit)
      requires 2 <= n < SYMBOLS && Holding(n, got) && validPkt
      modifies this, bits, symbols
      ensures validPkt <==> Received(oracle, n + 1).Some?
      ensures validPkt ==> Holding(n + 1, Received(oracle, n + 1).value) && symbol == Decode(Received(oracle, n + 1).value)[n]
    {
      hide Decode, Text, Encode, Manchester, Repair, Received;
      ReceivedStep(oracle, n, got);
      var firstBit := GetBit();
      var firstConf := bitConfidence;
      var secondBit := GetBit();
      var secondConf := bitConfidence;
      var ok;
      ok, firstBit, secondBit := Settle(firstBit, firstConf, secondBit, secondConf);
      RepairBits(FirstHalf(oracle, n), SecondHalf(oracle, n));
      if !ok {
        validPkt := false;
        return 0;
      }
      symbol := SymbolOf(precedingBit, firstBit);
      StoreHalves(got, firstBit, secondBit);
      StoreSymbol(Decode(got), symbol);
      DecodeSnoc(got, firstBit, secondBit);
      precedingBit := secondBit;
    }

    /** The two half-bits go behind what the buffer holds, with room for the terminator. */
    method StoreHalves(ghost got: seq<Bit>, firstBit: Bit, secondBit: Bit)
      requires Buffers() && |got| <= 2 * SYMBOLS - 2 && Holds(bits[..], got)
      modifies bits
      ensures Holds(bits[..], got + [firstBit, secondBit])
    {
      assert bits[|got|] == '\0';
      var count := StrLen(bits);
      HeldLength(bits[..], got, count);
      bits[count] := if firstBit == 0 then '0' else '1';
      bits[count + 1] := if secondBit == 0 then '0' else '1';
      bits[count + 2] := '\0';
      assert Text(got + [firstBit, secondBit]) == Text(got) + [Digit(firstBit), Digit(secondBit)];
      assert bits[..|got| + 2] == old(bits[..|got|]) + [Digit(firstBit), Digit(secondBit)];
    }

    method StoreSymbol(ghost decoded: seq<Bit>, symbol: Bit)
      requires Buffers() && |decoded| < SYMBOLS && Holds(symbols[..], decoded)
      modifies symbols
      ensures Holds(symbols[..], decoded + [symbol])
    {
      assert symbols[|decoded|] == '\0';
      var count := StrLen(symbols);
      HeldLength(symbols[..], decoded, count);
      symbols[count] := if symbol == 0 then '0' else '1';
      symbols[count + 1] := '\0';
      assert Text(decoded + [symbol]) == Text(decoded) + [Digit(symbol)];
      assert symbols[..|decoded| + 1] == old(symbols[..|decoded|]) + [Digit(symbol)];
    }

    /** get_packet_symbols: a packet comes out exactly when every pair of half-bits was accepted and the symbols are
        plausible; then the buffers hold all 138 half-bits and 69 symbols, and the half-bits are the code of the symbols. */
    method GetPacketSymbols() returns (packet: array?<Bit>)
      requires Buffers() && asked == 0
      modifies this, bits, symbols
      ensures packet != null <==> Received(oracle, SYMBOLS).Some? && Plausible(Decode(Received(oracle, SYMBOLS).value))
      ensures packet != null ==> validPkt && packet.Length == SYMBOLS
      ensures packet != null ==> Holds(symbols[..], packet[..]) && Holds(bits[..], Encode(packet[..]))
      ensures packet != null ==> packet[..] == Decode(Received(oracle, SYMBOLS).value)
      ensures packet != null ==>
                packet.Length == 69 && symbols[69] == '\0' && forall i :: 0 <= i < 69 ==> symbols[i] == if packet[i] == 1 then '1' else '0'
      ensures packet != null ==>
                |Encode(packet[..])| == 138 && bits[138] == '\0'
                && forall i :: 0 <= i < 138 ==> bits[i] == if Encode(packet[..])[i] == 1 then '1' else '0'
    {
      hide Received, Decode, Encode, Text, Plausible, Preceding, Manchester;
      validPkt := true;
      var syms := new Bit[SYMBOLS](_ => 0);
      CollectFirst(syms);
      if validPkt {
        CollectRest(syms);
      } else {
        ReceivedMore(oracle, 2, SYMBOLS);
      }
      if !validPkt {
        return null;
      }
      assert syms[..] == syms[..SYMBOLS];
      validPkt := ValidatePacket(syms);
      if !validPkt {
        return null;
      }
      EncodeDecode(Received(oracle, SYMBOLS).value);
      packet := syms;
      HeldDigits(symbols[..], packet[..]);
      HeldDigits(bits[..], Encode(packet[..]));
    }

    /** Symbols 0 and 1. */
    method CollectFirst(syms: array<Bit>)
      requires Buffers() && validPkt && asked == 0 && syms.Length == SYMBOLS
      modifies this, bits, symbols, syms
      ensures validPkt <==> Received(oracle, 2).Some?
      ensures validPkt ==> Holding(2, Received(oracle, 2).value) && syms[..2] == Decode(Received(oracle, 2).value)
    {
      hide Received, Decode, Encode, Text, Preceding, Manchester;
      bits[0], bits[1], bits[2], bits[3] := '0', '1', '1', '\0';
      symbols[0], symbols[1] := '1', '\0';
      var second := GetSecondSymbol();
      syms[0], syms[1] := 1, second;
      if validPkt {
        StartsWithOne(oracle, 2);
      }
    }

    /** Symbols 2 to 68. */
    method CollectRest(syms: array<Bit>)
      requires validPkt && syms.Length == SYMBOLS && Received(oracle, 2).Some?
      requires Holding(2, Received(oracle, 2).value) && syms[..2] == Decode(Received(oracle, 2).value)
      modifies this, bits, symbols, syms
      ensures validPkt <==> Received(oracle, SYMBOLS).Some?
      ensures validPkt ==> Holding(SYMBOLS, Received(oracle, SYMBOLS).value)
      ensures validPkt ==> syms[..SYMBOLS] == Decode(Received(oracle, SYMBOLS).value)
    {
      hide Received, Decode, Encode, Text, Preceding, Manchester;
      var i := 2;
      ghost var got := Received(oracle, 2).value;
      while i < SYMBOLS
        invariant 2 <= i <= SYMBOLS && validPkt && Holding(i, got)
        invariant syms[..i] == Decode(got)
      {
        var symbol := GetSymbol(i, got);
        syms[i] := symbol;
        if !validPkt {
          ReceivedMore(oracle, i + 1, SYMBOLS);
          return;
        }
        ReceivedPrefix(oracle, i);
        got := Received(oracle, i + 1).value;
        i := i + 1;
      }
    }

    /** The loop of the field getters, over the stored text. */
    method Field(from: nat, to: nat, ghost packet: seq<Bit>) returns (value: nat)
      requires Buffers() && from <= to <= SYMBOLS == |packet| && Holds(symbols[..], packet)
      ensures value == Number(packet[from..to]) < Pow2(to - from)
    {
      value := 0;
      var j := from;
      while j < to
        invariant from <= j <= to
        invariant value == Number(packet[from..j])
      {
        assert symbols[j] == symbols[..][..SYMBOLS][j] == Digit(packet[j]);
        assert packet[from..j + 1][..j - from] == packet[from..j];
        value := value * 2 + if symbols[j] == '1' then 1 else 0;
        j := j + 1;
      }
    }

    /** get_dec_address_val, get_pressure_kpa and get_temp_c after a packet was received. */
    method Report(ghost packet: seq<Bit>) returns (address: nat, kpa: real, celsius: int)
      requires Buffers() && |packet| == SYMBOLS && Holds(symbols[..], packet) && Plausible(packet)
      ensures address == Number(packet[2..30]) < Pow2(28)
      ensures 2.0 * kpa == 5.0 * Number(packet[36..44]) as real - 200.0 && 0.0 <= kpa <= 537.5
      ensures celsius == Number(packet[52..60]) - 40 && -40 <= celsius <= 215
    {
      hide Decode, Manchester, Encode, Text;
      address := Field(2, 30, packet);
      var press := Field(36, 44, packet);
      kpa := press as real * 2.5 - 100.0;
      PlausibleFields(packet);
      var temp := Field(52, 60, packet);
      assert Pow2(8) == 256;
      celsius := temp as int - 40;
    }
  }

  /** Once the prefix is lost the packet is. */
  lemma {:induction false} ReceivedMore(oracle: nat -> Answer, m: nat, n: nat)
    requires 0 < m <= n
    ensures Received(oracle, n).Some? ==> Received(oracle, m).Some?
    decreases n
  {
    if m < n { ReceivedMore(oracle, m, n - 1); }
  }

  lemma StartsWithOne(oracle: nat -> Answer, n: nat)
    requires n == 2 && Received(oracle, n).Some?
    ensures Decode(Received(oracle, n).value)[0] == 1
  {
    assert Received(oracle, 1) == Some([0, 1]);
  }

  lemma ReceivedPrefix(oracle: nat -> Answer, n: nat)
    requires n > 0 && Received(oracle, n + 1).Some?
    ensures Received(oracle, n).Some? && Decode(Received(oracle, n + 1).value)[..n] == Decode(Received(oracle, n).value)
  {
    var bits, more := Received(oracle, n).value, Received(oracle, n + 1).value;
    assert more == bits + [more[2 * n], more[2 * n + 1]];
    DecodeSnoc(bits, more[2 * n], more[2 * n + 1]);
  }
}
