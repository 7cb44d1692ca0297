/**
 The driver that moves a scan chain by writing pins into a GPIO register, pin by pin, and what its scans do to the
 chain according to IEEE 1149.1.
 */
module JtagDriver {
  import opened Common
  import opened TapController

  // ----- clocking with TMS alone -----

  function ClockTms(c: Chain, tms: seq<bool>, tdi: bool): Chain
    decreases |tms|
  {
    if tms == [] then c else ClockTms(Clock(c, tms[0], tdi), tms[1..], tdi)
  }

  function Repeat(bit: bool, n: nat): (bits: seq<bool>)
    ensures |bits| == n
  {
    if n == 0 then [] else [bit] + Repeat(bit, n - 1)
  }

  lemma {:induction false} ClockTmsConcat(c: Chain, tms: seq<bool>, more: seq<bool>, tdi: bool)
    ensures ClockTms(c, tms + more, tdi) == ClockTms(ClockTms(c, tms, tdi), more, tdi)
    decreases |tms|
  {
    if tms == [] {
      assert tms + more == more;
    } else {
      assert (tms + more)[1..] == tms[1..] + more && (tms + more)[0] == tms[0];
      ClockTmsConcat(Clock(c, tms[0], tdi), tms[1..], more, tdi);
    }
  }

  lemma {:induction false} RepeatAppends(bit: bool, n: nat)
    ensures Repeat(bit, n + 1) == Repeat(bit, n) + [bit]
  {
    if n > 0 {
      RepeatAppends(bit, n - 1);
    }
  }

  // ----- numbers as bits -----

  /** The low n bits, lowest first. Division rounds down, as an arithmetic shift does. */
  function Bits(x: int, n: nat): (bits: seq<bool>)
    ensures |bits| == n
    decreases n
  {
    if n == 0 then [] else [x % 2 == 1] + Bits(x / 2, n - 1)
  }

  /** The signed number whose bits these are, lowest first; the last one is the sign. */
  function Signed(bits: seq<bool>): int
    decreases |bits|
  {
    if bits == [] then 0
    else if |bits| == 1 then (if bits[0] then -1 else 0)
    else (if bits[0] then 1 else 0) + 2 * Signed(bits[1..])
  }

  lemma Halve(bit: int, half: int)
    requires bit == 0 || bit == 1
    ensures (bit + 2 * half) % 2 == bit && (bit + 2 * half) / 2 == half
  {
  }

  /** The low bits of the signed number are the bits. */
  lemma {:induction false} BitsOfSigned(bits: seq<bool>)
    ensures Bits(Signed(bits), |bits|) == bits
    decreases |bits|
  {
    if |bits| == 1 {
      assert bits == [bits[0]];
    } else if |bits| > 1 {
      Halve(if bits[0] then 1 else 0, Signed(bits[1..]));
      BitsOfSigned(bits[1..]);
      assert bits == [bits[0]] + bits[1..];
    }
  }

  /** Up to eight bits fit into a signed char. */
  lemma {:induction false} SignedFits(bits: seq<bool>)
    ensures bits != [] ==> 0 <= Signed(bits) + PowerOfTwo(|bits| - 1) && Signed(bits) < PowerOfTwo(|bits| - 1)
    decreases |bits|
  {
    if |bits| > 1 {
      SignedFits(bits[1..]);
    }
  }

  /** A bit shifted to a position of a 32-bit signed integer. */
  function BitAt(bit: bool, position: nat): int {
    var weight: int := PowerOfTwo(position);
    if !bit then 0 else if position == 31 then -weight else weight
  }

  /** The bits in the high bits of a 32-bit signed integer, so that the last one is the sign. */
  function Collected(bits: seq<bool>): int
    requires |bits| <= 32
  {
    Signed(bits) * PowerOfTwo(32 - |bits|)
  }

  lemma CollectedStep(bits: seq<bool>)
    requires 1 < |bits| <= 32
    ensures Collected(bits) == BitAt(bits[0], 32 - |bits|) + Collected(bits[1..])
  {
    var power := PowerOfTwo(32 - |bits|);
    var rest := Signed(bits[1..]);
    assert PowerOfTwo(32 - |bits| + 1) == 2 * power;
    assert (2 * rest) * power == rest * (2 * power);
    if bits[0] {
      assert (1 + 2 * rest) * power == power + (2 * rest) * power;
    }
  }

  lemma CollectedOne(bit: bool)
    ensures Collected([bit]) == BitAt(bit, 31)
  {
    assert PowerOfTwo(32 - 1) == PowerOfTwo(31);
  }

  /** The shifting loop on the chain, with i bits of x to go. */
  function Shifted(c: Chain, x: int, i: nat, last: bool): Chain
    decreases i
  {
    if i == 0 then c else Shifted(Clock(c, last && i == 1, x % 2 == 1), x / 2, i - 1, last)
  }

  /** The loop clocks in exactly the low bits. */
  lemma {:induction false} ShiftedIsClocked(c: Chain, x: int, i: nat, last: bool)
    ensures Shifted(c, x, i, last) == ClockBits(c, Bits(x, i), last)
    decreases i
  {
    if i > 0 {
      assert Bits(x, i)[1..] == Bits(x / 2, i - 1);
      ShiftedIsClocked(Clock(c, last && i == 1, x % 2 == 1), x / 2, i - 1, last);
    }
  }

  lemma TdoOfNumber(c: Chain, x: int, i: nat, last: bool)
    requires i > 0
    ensures TdoBits(c, Bits(x, i), last)
            == [Tdo(c)] + TdoBits(Clock(c, last && i == 1, x % 2 == 1), Bits(x / 2, i - 1), last)
  {
    assert Bits(x, i)[1..] == Bits(x / 2, i - 1);
  }

  /** What the loop adds to the integer. */
  function Reading(c: Chain, x: int, i: nat, last: bool): int
    requires i <= 32
    decreases i
  {
    if i == 0 then 0
    else BitAt(Tdo(c), 32 - i) + Reading(Clock(c, last && i == 1, x % 2 == 1), x / 2, i - 1, last)
  }

  /** The integer shows what came out. */
  lemma {:induction false} ReadingIsCollected(c: Chain, x: int, i: nat, last: bool)
    requires i <= 32
    ensures Reading(c, x, i, last) == Collected(TdoBits(c, Bits(x, i), last))
    decreases i
  {
    if i > 0 {
      var next := Clock(c, last && i == 1, x % 2 == 1);
      ReadingIsCollected(next, x / 2, i - 1, last);
      TdoOfNumber(c, x, i, last);
      CollectFirst(Tdo(c), TdoBits(next, Bits(x / 2, i - 1), last));
    }
  }

  lemma CollectFirst(bit: bool, rest: seq<bool>)
    requires |rest| < 32
    ensures Collected([bit] + rest) == BitAt(bit, 31 - |rest|) + Collected(rest)
  {
    assert ([bit] + rest)[1..] == rest;
    if rest == [] {
      assert [bit] + rest == [bit];
      CollectedOne(bit);
    } else {
      CollectedStep([bit] + rest);
    }
  }

  // ----- the driver -----

  const EOVERFLOW: int := 75

  const TO_SHIFT_IR: seq<bool> := [false, true, true, false, false]
  const TO_SHIFT_DR: seq<bool> := [false, true, false, false]

  /** The TMS values that the chain is clocked with on the way to a shift state. The driver writes back the TCK that it
      has read: if it was high, every change of TMS adds a clock. */
  function TmsToShiftIr(tck: bool): seq<bool> {
    if tck then [false, true, true, true, false, false, false] else TO_SHIFT_IR
  }

  function TmsToShiftDr(tck: bool): seq<bool> {
    if tck then [false, true, true, false, false, false] else TO_SHIFT_DR
  }

  /** The chain when TCK has gone low. */
  function WithTckLow(c: Chain, tck: bool): Chain {
    if tck then Fall(c) else c
  }

  /** The output pins of the GPIO register. The driver never touches the other ones. */
  class Gpio {
    var tck: bool
    var tms: bool
    var tdi: bool
    var chain: Chain

    constructor (tck: bool, tms: bool, tdi: bool, chain: Chain)
      ensures this.tck == tck && this.tms == tms && this.tdi == tdi && this.chain == chain
    {
      this.tck, this.tms, this.tdi, this.chain := tck, tms, tdi, chain;
    }

    /** Writing the register: the chain sees the edges of TCK. */
    method Store(newTck: bool, newTms: bool, newTdi: bool)
      modifies this
      ensures tck == newTck && tms == newTms && tdi == newTdi
      ensures chain == if !old(tck) && newTck then Rise(old(chain), newTms, newTdi)
                       else if old(tck) && !newTck then Fall(old(chain))
                       else old(chain)
    {
      if !tck && newTck {
        chain := Rise(chain, newTms, newTdi);
      } else if tck && !newTck {
        chain := Fall(chain);
      }
      tck, tms, tdi := newTck, newTms, newTdi;
    }

    method PulseTck(n: nat)
      modifies this
      ensures !tck && tms == old(tms) && tdi == old(tdi)
      ensures chain == ClockTms(if old(tck) then Fall(old(chain)) else old(chain), Repeat(tms, n), tdi)
    {
      ghost var start := if tck then Fall(chain) else chain;
      var i := n;
      while i != 0
        invariant 0 <= i <= n && tms == old(tms) && tdi == old(tdi)
        invariant (if tck then Fall(chain) else chain) == ClockTms(start, Repeat(tms, n - i), tdi)
      {
        RepeatAppends(tms, n - i);
        ClockTmsConcat(start, Repeat(tms, n - i), [tms], tdi);
        Store(false, tms, tdi);
        Store(true, tms, tdi);
        i := i - 1;
      }
      Store(false, tms, tdi);
    }

    method Tlr()
      modifies this
      ensures !tck && tms && tdi == old(tdi)
      ensures chain.state == TestLogicReset
    {
      Store(tck, true, tdi);
      PulseTck(5);
      FiveOnesReset(if old(tck) then Fall(old(chain)) else old(chain), tdi);
    }

    method TlrToRti()
      modifies this
      ensures !tck && !tms && tdi == old(tdi)
      ensures chain == ClockTms(WithTckLow(old(chain), old(tck)), [false], tdi)
    {
      Store(tck, false, tdi);
      PulseTck(1);
      Runs(false);
    }

    /** Changes TMS in between two runs of pulses; TCK is written as it was read before the first of them. */
    method ChangeTms(gpiocTck: bool, newTms: bool, n: nat)
      requires !tck
      modifies this
      ensures !tck && tms == newTms && tdi == old(tdi)
      ensures chain == ClockTms(old(chain), Repeat(newTms, if gpiocTck then n + 1 else n), tdi)
    {
      Store(gpiocTck, newTms, tdi);
      ghost var risen := chain;
      PulseTck(n);
      if gpiocTck {
        assert Repeat(newTms, n + 1)[0] == newTms && Repeat(newTms, n + 1)[1..] == Repeat(newTms, n);
        assert ClockTms(old(chain), Repeat(newTms, n + 1), tdi)
            == ClockTms(Clock(old(chain), newTms, tdi), Repeat(newTms, n), tdi);
        assert Fall(risen) == Clock(old(chain), newTms, tdi);
      }
    }

    method TlrToSir()
      modifies this
      ensures !tck && !tms && tdi == old(tdi)
      ensures chain == ClockTms(WithTckLow(old(chain), old(tck)), TmsToShiftIr(old(tck)), tdi)
    {
      var gpiocTck := tck;
      Store(gpiocTck, false, tdi);
      PulseTck(1);
      ChangeTms(gpiocTck, true, 2);
      ChangeTms(gpiocTck, false, 2);
      ghost var n := if gpiocTck then 3 else 2;
      ClockRuns(WithTckLow(old(chain), gpiocTck), 1, n, n, tdi);
      Runs(false);
      Runs(true);
      assert TmsToShiftIr(gpiocTck) == Repeat(false, 1) + Repeat(true, n) + Repeat(false, n);
    }

    method TlrToSdr()
      modifies this
      ensures !tck && !tms && tdi == old(tdi)
      ensures chain == ClockTms(WithTckLow(old(chain), old(tck)), TmsToShiftDr(old(tck)), tdi)
    {
      var gpiocTck := tck;
      Store(gpiocTck, false, tdi);
      PulseTck(1);
      ChangeTms(gpiocTck, true, 1);
      ChangeTms(gpiocTck, false, 2);
      ghost var n := if gpiocTck then 2 else 1;
      ClockRuns(WithTckLow(old(chain), gpiocTck), 1, n, n + 1, tdi);
      Runs(false);
      Runs(true);
      assert TmsToShiftDr(gpiocTck) == Repeat(false, 1) + Repeat(true, n) + Repeat(false, n + 1);
    }

    /** From Exit1, where TMS is still high, the registers are updated. */
    method Ex1ToRti()
      modifies this
      ensures !tck && !tms && tdi == old(tdi)
      ensures chain == ClockTms(WithTckLow(old(chain), old(tck)), [old(tms), false], tdi)
    {
      PulseTck(1);
      Store(tck, false, tdi);
      PulseTck(1);
      ClockTmsConcat(WithTckLow(old(chain), old(tck)), Repeat(old(tms), 1), Repeat(false, 1), tdi);
      Runs(false);
      Runs(true);
      assert [old(tms), false] == [old(tms)] + [false];
    }

    /** One bit: TDI and TMS are set, TDO is read, and TCK is pulsed. TCK is written as it was read before the loop. */
    method ShiftBit(gpiocTck: bool, newTms: bool, bit: bool) returns (out: bool)
      modifies this
      ensures !tck && tms == newTms && tdi == bit
      ensures !old(tck) && !gpiocTck ==> out == Tdo(old(chain)) && chain == Clock(old(chain), newTms, bit)
    {
      Store(gpiocTck, newTms, bit);
      out := Tdo(chain);
      PulseTck(1);
      Runs(tms);
    }

    method ShiftAll(n: nat, number: int, last: bool) returns (tdo: int)
      requires n <= 32
      modifies this
      ensures n > 0 ==> !tck && tms == (old(tms) || last)
      ensures n == 0 ==> tck == old(tck) && tms == old(tms)
      ensures !old(tck) && !old(tms) ==>
                && chain == Shifted(old(chain), number, n, last)
                && tdo == Reading(old(chain), number, n, last)
    {
      tdo := 0;
      var gpiocTck, gpiocTms := tck, tms;
      ghost var clean := !tck && !tms;
      var x := number;
      var i: nat := n;
      while i != 0
        invariant i <= n && tms == gpiocTms == (old(tms) || (last && i == 0 && n > 0))
        invariant tck == (gpiocTck && i == n)
        invariant clean ==> Shifted(chain, x, i, last) == Shifted(old(chain), number, n, last)
        invariant clean ==> tdo + Reading(chain, x, i, last) == Reading(old(chain), number, n, last)
      {
        if last && i == 1 {
          gpiocTms := true;
        }
        var bit := ShiftBit(gpiocTck, gpiocTms, x % 2 == 1);
        tdo := tdo + BitAt(bit, 32 - i);
        x := x / 2;
        i := i - 1;
      }
    }

    /** Shifts n bits of a number through the chain, lowest first, and collects what comes out. */
    method Sdi(n: int, number: int, last: bool) returns (status: int, tdo: int)
      modifies this
      ensures status == if 1 <= n <= 32 then 0 else -EOVERFLOW
      ensures status != 0 ==> tck == old(tck) && tms == old(tms) && tdi == old(tdi) && chain == old(chain)
      ensures status == 0 ==> !tck && tms == (old(tms) || last)
      ensures status == 0 && !old(tck) && !old(tms) ==>
                && chain == ClockBits(old(chain), Bits(number, n), last)
                && tdo == Collected(TdoBits(old(chain), Bits(number, n), last))
    {
      if n < 1 || n > 32 {
        return -EOVERFLOW, 0;
      }
      status := 0;
      tdo := ShiftAll(n, number, last);
      ShiftedIsClocked(old(chain), number, n, last);
      ReadingIsCollected(old(chain), number, n, last);
    }

    /** Shifts n bits, which may be none. */
    method Pad(n: nat, number: int, last: bool)
      requires !tck && (n > 0 ==> !tms) && n <= 32
      modifies this
      ensures !tck && tms == if n > 0 then last else old(tms)
      ensures chain == ClockBits(old(chain), Bits(number, n), last)
    {
      if n > 0 {
        var _, _ := Sdi(n, number, last);
      }
    }

    /** Shifts header, instruction and trailer. */
    method ShiftInstruction(hir: nat, irlen: nat, number: int, tir: nat) returns (tdo: int)
      requires !tck && !tms && hir <= 32 && tir <= 32 && 1 <= irlen <= 32
      modifies this
      ensures !tck && tms
      ensures
        var bits := InstructionBits(hir, irlen, number, tir);
        && chain == ClockBits(old(chain), bits, true)
        && tdo == Collected(TdoBits(old(chain), bits, true)[hir..hir + irlen])
    {
      InThreeParts(chain, Bits(-1, hir), Bits(number, irlen), Bits(-1, tir), true);
      Pad(hir, -1, false);
      var status;
      status, tdo := Sdi(irlen, number, tir == 0);
      Pad(tir, -1, true);
    }

    /** Shifts an instruction into one device of a chain; the bits for the other devices are all one. */
    method Sir(hir: int, irlen: int, number: int, tir: int, tlr: bool) returns (status: int, tdo: int)
      modifies this
      ensures status == if 0 <= hir <= 32 && 0 <= tir <= 32 && 1 <= irlen <= 32 then 0 else -EOVERFLOW
      ensures status == 0 ==> !tck
      ensures status != 0 ==> tck == old(tck) && tms == old(tms) && tdi == old(tdi) && chain == old(chain)
      ensures status == 0 ==>
                var start := ClockTms(WithTckLow(old(chain), old(tck)), TmsToShiftIr(old(tck)), old(tdi));
                var bits := InstructionBits(hir, irlen, number, tir);
                && chain == Finish(ClockBits(start, bits, true), tlr, true, tdi)
                && tdo == Collected(TdoBits(start, bits, true)[hir..hir + irlen])
    {
      if hir < 0 || hir > 32 || tir < 0 || tir > 32 || irlen < 1 || irlen > 32 {
        return -EOVERFLOW, 0;
      }
      TlrToSir();
      tdo := ShiftInstruction(hir, irlen, number, tir);
      if tlr {
        Ex1ToRti();
      }
      status := 0;
    }

    /** One byte, or the part of the first byte that is used. */
    method ShiftByte(dr: nat, byte: int, last: bool) returns (out: int)
      requires !tck && !tms && 1 <= dr <= 8
      modifies this
      ensures !tck && tms == last
      ensures chain == ClockBits(old(chain), Bits(byte, dr), last)
      ensures out == Signed(TdoBits(old(chain), Bits(byte, dr), last)) && -128 <= out < 128
    {
      CollectedShiftsBack(TdoBits(chain, Bits(byte, dr), last), dr);
      var status, drout := Sdi(dr, byte, last);
      out := drout / PowerOfTwo(32 - dr);
    }

    /** The next byte of a data register goes in, and what comes out replaces the byte of the output. */
    method ShiftNext(drlen: nat, input: array<int>, output: array<int>, last: bool, i: nat,
                     ghost bytes: seq<int>, ghost before: seq<int>, ghost out: seq<seq<bool>>, ghost goal: Chain)
      requires !tck && !tms && i < ByteCount(drlen) <= |bytes|
      requires ArraysAt(input, output, bytes, before, out, i + 1)
      requires ChainAt(chain, Chunks(bytes, drlen), out, i + 1, last, goal)
      modifies this, output
      ensures !tck && tms == (last && i == 0)
      ensures ArraysAt(input, output, bytes, before, out, i)
      ensures ChainAt(chain, Chunks(bytes, drlen), out, i, last, goal)
    {
      NextChunk(chain, Chunks(bytes, drlen), out, i, last);
      var byte := ShiftByte(Width(i, drlen), input[i], last && i == 0);
      StoreByte(input, output, bytes, before, out, i, byte);
    }

    /** The bytes of a data register, from the last one to the first. */
    method ShiftBytes(drlen: nat, input: array<int>, output: array<int>, last: bool,
                      ghost bytes: seq<int>, ghost before: seq<int>, ghost out: seq<seq<bool>>, ghost goal: Chain)
      requires !tck && !tms && ByteCount(drlen) <= |bytes|
      requires ArraysAt(input, output, bytes, before, out, ByteCount(drlen))
      requires ChainAt(chain, Chunks(bytes, drlen), out, ByteCount(drlen), last, goal)
      modifies this, output
      ensures !tck && tms == (last && ByteCount(drlen) > 0)
      ensures ArraysAt(input, output, bytes, before, out, 0)
      ensures ChainAt(chain, Chunks(bytes, drlen), out, 0, last, goal)
    {
      var n := ByteCount(drlen);
      var i: nat := n;
      while i > 0
        invariant i <= n && !tck && tms == (last && i == 0 && n > 0)
        invariant ArraysAt(input, output, bytes, before, out, i)
        invariant ChainAt(chain, Chunks(bytes, drlen), out, i, last, goal)
      {
        i := i - 1;
        ShiftNext(drlen, input, output, last, i, bytes, before, out, goal);
      }
    }

    method ShiftData(drlen: nat, input: array<int>, output: array<int>, last: bool)
      requires !tck && !tms
      requires ByteCount(drlen) <= input.Length && ByteCount(drlen) <= output.Length
      modifies this, output
      ensures !tck && tms == (last && ByteCount(drlen) > 0)
      ensures chain == ClockChunks(old(chain), Chunks(old(input[..]), drlen), last)
      ensures ArraysAt(input, output, old(input[..]), old(output[..]),
                       OutChunks(old(chain), Chunks(old(input[..]), drlen), last), 0)
    {
      ghost var bytes, before := input[..], output[..];
      ghost var chunks := Chunks(bytes, drlen);
      ghost var goal, out := ClockChunks(chain, chunks, last), OutChunks(chain, chunks, last);
      ChainAtStart(chain, chunks, last);
      ShiftBytes(drlen, input, output, last, bytes, before, out, goal);
      ChainAtEnd(chain, chunks, out, last, goal);
    }

    /** Shifts header, data and trailer. */
    method ShiftRegister(hdr: nat, drlen: nat, input: array<int>, tdr: nat, output: array<int>)
      requires !tck && !tms && hdr <= 32 && tdr <= 32
      requires ByteCount(drlen) <= input.Length && ByteCount(drlen) <= output.Length
      modifies this, output
      ensures !tck && tms == (drlen > 0 || tdr > 0)
      ensures chain == Scanned(old(chain), hdr, Data(old(input[..]), drlen), tdr)
      ensures Data(output[..], drlen) == DataOut(old(chain), hdr, Data(old(input[..]), drlen), tdr)
      ensures output[ByteCount(drlen)..] == old(output[ByteCount(drlen)..])
    {
      ghost var start := chain;
      ghost var chunks := Chunks(input[..], drlen);
      Pad(hdr, 0, false);
      ghost var out := OutChunks(chain, chunks, tdr == 0);
      ShiftData(drlen, input, output, tdr == 0);
      Pad(tdr, 0, true);
      RegisterInThreeParts(start, hdr, chunks, tdr);
      EndOfArrays(input, output, old(input[..]), old(output[..]), out);
      ChunksOfOutput(output[..], drlen, out);
      FlatIsEmpty(chunks);
    }

    /** Shifts a data register; with neither data nor trailer nothing makes the controller leave the shift state.
        Without an output the bits that come out are dropped. */
    method Sdr(hdr: int, drlen: int, input: array<int>, tdr: int, output: array?<int>, tlr: bool) returns (status: int)
      requires drlen >= 0 ==> ByteCount(drlen) <= input.Length
      requires drlen >= 0 && output != null ==> ByteCount(drlen) <= output.Length
      modifies this, if output == null then {} else {output}
      ensures status == if 0 <= hdr <= 32 && 0 <= tdr <= 32 && 0 <= drlen then 0 else -EOVERFLOW
      ensures status != 0 ==> tck == old(tck) && tms == old(tms) && tdi == old(tdi) && chain == old(chain)
      ensures status != 0 && output != null ==> output[..] == old(output[..])
      ensures status == 0 ==>
                var start := ClockTms(WithTckLow(old(chain), old(tck)), TmsToShiftDr(old(tck)), old(tdi));
                var data := Data(old(input[..]), drlen);
                && !tck
                && chain == Finish(Scanned(start, hdr, data, tdr), tlr, drlen > 0 || tdr > 0, tdi)
                && (output != null ==> Data(output[..], drlen) == DataOut(start, hdr, data, tdr))
      ensures status == 0 && output != null ==> output[ByteCount(drlen)..] == old(output[ByteCount(drlen)..])
    {
      if hdr < 0 || hdr > 32 || tdr < 0 || tdr > 32 || drlen < 0 {
        return -EOVERFLOW;
      }
      var sink: array<int>;
      if output == null {
        sink := new int[ByteCount(drlen)];
      } else {
        sink := output;
      }
      TlrToSdr();
      ShiftRegister(hdr, drlen, input, tdr, sink);
      if tlr {
        Ex1ToRti();
      }
      status := 0;
    }
  }

  /** With i chunks to go the chain is on its way to the goal. */
  ghost predicate ChainAt(c: Chain, chunks: seq<seq<bool>>, out: seq<seq<bool>>, i: nat, last: bool, goal: Chain)
    requires i <= |chunks|
  {
    && |out| == |chunks|
    && ClockChunks(c, chunks[..i], last) == goal
    && OutChunks(c, chunks[..i], last) == out[..i]
  }

  lemma ChainAtStart(c: Chain, chunks: seq<seq<bool>>, last: bool)
    ensures ChainAt(c, chunks, OutChunks(c, chunks, last), |chunks|, last, ClockChunks(c, chunks, last))
  {
    assert chunks[..|chunks|] == chunks;
  }

  lemma ChainAtEnd(c: Chain, chunks: seq<seq<bool>>, out: seq<seq<bool>>, last: bool, goal: Chain)
    requires ChainAt(c, chunks, out, 0, last, goal)
    ensures c == goal
  {
  }

  /** i bytes of the input are still there, and the bytes that have been read are in the output. */
  ghost predicate ArraysAt(input: array<int>, output: array<int>, bytes: seq<int>, before: seq<int>,
                           out: seq<seq<bool>>, i: nat)
    reads input, output
  {
    && input.Length == |bytes| && output.Length == |before| && i <= |out| <= |bytes| && |out| <= |before|
    && (forall j :: 0 <= j < i ==> input[j] == bytes[j])
    && (forall j :: i <= j < |out| ==> output[j] == Signed(out[j]))
    && (forall j :: |out| <= j < |before| ==> output[j] == before[j])
  }

  lemma EndOfArrays(input: array<int>, output: array<int>, bytes: seq<int>, before: seq<int>, out: seq<seq<bool>>)
    requires ArraysAt(input, output, bytes, before, out, 0)
    ensures Holds(output[..], out) && output[|out|..] == before[|out|..]
  {
  }

  method StoreByte(input: array<int>, output: array<int>, ghost bytes: seq<int>, ghost before: seq<int>,
                   ghost out: seq<seq<bool>>, i: nat, byte: int)
    requires ArraysAt(input, output, bytes, before, out, i + 1) && byte == Signed(out[i])
    modifies output
    ensures ArraysAt(input, output, bytes, before, out, i)
  {
    output[i] := byte;
  }

  function ByteCount(drlen: nat): nat {
    (drlen + 7) / 8
  }

  /** How many bits of a byte are used: the first byte holds the odd ones. */
  function Width(i: nat, drlen: nat): (w: nat)
    ensures 1 <= w <= 8
  {
    if i == 0 && drlen % 8 != 0 then drlen % 8 else 8
  }

  /** The used bits of each byte. */
  function Chunks(bytes: seq<int>, drlen: nat): (chunks: seq<seq<bool>>)
    requires ByteCount(drlen) <= |bytes|
    ensures |chunks| == ByteCount(drlen)
  {
    seq(ByteCount(drlen), i requires 0 <= i < ByteCount(drlen) => Bits(bytes[i], Width(i, drlen)))
  }

  /** The bits in the order of shifting: the last chunk first. */
  function Flat(chunks: seq<seq<bool>>): seq<bool> {
    if chunks == [] then [] else chunks[|chunks| - 1] + Flat(chunks[..|chunks| - 1])
  }

  function Data(bytes: seq<int>, drlen: nat): seq<bool>
    requires ByteCount(drlen) <= |bytes|
  {
    Flat(Chunks(bytes, drlen))
  }

  /** Clocks in the chunks, the last one first. */
  function ClockChunks(c: Chain, chunks: seq<seq<bool>>, last: bool): Chain
    decreases |chunks|
  {
    if chunks == [] then c
    else
      var n := |chunks| - 1;
      ClockChunks(ClockBits(c, chunks[n], last && n == 0), chunks[..n], last)
  }

  /** What TDO shows meanwhile, in chunks at the same places. */
  function OutChunks(c: Chain, chunks: seq<seq<bool>>, last: bool): (out: seq<seq<bool>>)
    ensures |out| == |chunks|
    ensures forall j :: 0 <= j < |chunks| ==> |out[j]| == |chunks[j]|
    decreases |chunks|
  {
    if chunks == [] then []
    else
      var n := |chunks| - 1;
      OutChunks(ClockBits(c, chunks[n], last && n == 0), chunks[..n], last) + [TdoBits(c, chunks[n], last && n == 0)]
  }

  lemma NextChunk(c: Chain, chunks: seq<seq<bool>>, out: seq<seq<bool>>, i: nat, last: bool)
    requires i < |chunks| == |out| && OutChunks(c, chunks[..i + 1], last) == out[..i + 1]
    ensures
      var next := ClockBits(c, chunks[i], last && i == 0);
      && ClockChunks(c, chunks[..i + 1], last) == ClockChunks(next, chunks[..i], last)
      && OutChunks(next, chunks[..i], last) == out[..i]
      && out[i] == TdoBits(c, chunks[i], last && i == 0)
  {
    assert chunks[..i + 1][..i] == chunks[..i] && chunks[..i + 1][i] == chunks[i];
    assert out[..i + 1][..i] == out[..i] && out[..i + 1][i] == out[i];
  }

  /** The bytes show the chunks as signed numbers. */
  ghost predicate Holds(bytes: seq<int>, chunks: seq<seq<bool>>) {
    |chunks| <= |bytes| && forall j :: 0 <= j < |chunks| ==> bytes[j] == Signed(chunks[j])
  }

  lemma ChunksOfOutput(bytes: seq<int>, drlen: nat, out: seq<seq<bool>>)
    requires ByteCount(drlen) == |out| && Holds(bytes, out)
    requires forall j :: 0 <= j < |out| ==> |out[j]| == Width(j, drlen)
    ensures Chunks(bytes, drlen) == out
  {
    forall j | 0 <= j < |out|
      ensures Chunks(bytes, drlen)[j] == out[j]
    {
      BitsOfSigned(out[j]);
    }
  }

  lemma TwoParts(c: Chain, bits: seq<bool>, more: seq<bool>, last: bool, only: bool)
    requires only <==> more == []
    ensures ClockBits(c, bits + more, last) == ClockBits(ClockBits(c, bits, last && only), more, last)
    ensures TdoBits(c, bits + more, last)
            == TdoBits(c, bits, last && only) + TdoBits(ClockBits(c, bits, last && only), more, last)
  {
    if more == [] {
      assert bits + more == bits;
    } else {
      ClockBitsConcat(c, bits, more, last);
    }
  }

  ghost predicate NoneEmpty(chunks: seq<seq<bool>>) {
    forall j :: 0 <= j < |chunks| ==> chunks[j] != []
  }

  lemma FlatIsEmpty(chunks: seq<seq<bool>>)
    requires NoneEmpty(chunks)
    ensures Flat(chunks) == [] <==> chunks == []
  {
  }

  /** Chunk by chunk is one long shift. */
  lemma {:induction false} ChunksAreShifted(c: Chain, chunks: seq<seq<bool>>, last: bool)
    requires NoneEmpty(chunks)
    ensures ClockChunks(c, chunks, last) == ClockBits(c, Flat(chunks), last)
    ensures Flat(OutChunks(c, chunks, last)) == TdoBits(c, Flat(chunks), last)
    decreases |chunks|
  {
    if chunks != [] {
      var n := |chunks| - 1;
      var next := ClockBits(c, chunks[n], last && n == 0);
      ChunksAreShifted(next, chunks[..n], last);
      FlatIsEmpty(chunks[..n]);
      TwoParts(c, chunks[n], Flat(chunks[..n]), last, n == 0);
      var out := OutChunks(c, chunks, last);
      assert out[..n] == OutChunks(next, chunks[..n], last);
    }
  }

  /** What a data register scan clocks in. */
  function RegisterBits(hdr: nat, data: seq<bool>, tdr: nat): seq<bool> {
    Bits(0, hdr) + data + Bits(0, tdr)
  }

  /** The chain after header, data and trailer; whoever shifts nothing after the header stays in the shift state. */
  function Scanned(start: Chain, hdr: nat, data: seq<bool>, tdr: nat): Chain {
    ClockBits(start, RegisterBits(hdr, data, tdr), data != [] || tdr > 0)
  }

  /** What TDO shows while the data is shifted. */
  function DataOut(start: Chain, hdr: nat, data: seq<bool>, tdr: nat): seq<bool> {
    TdoBits(ClockBits(start, Bits(0, hdr), false), data, tdr == 0)
  }

  /** Without data there are two parts left, or one. */
  lemma InTwoParts(c: Chain, a: seq<bool>, d: seq<bool>)
    ensures ClockBits(ClockBits(c, a, false), d, true) == ClockBits(c, a + [] + d, d != [])
  {
    assert a + [] + d == a + d;
    if d == [] {
      assert a + d == a;
    } else {
      ClockBitsConcat(c, a, d, true);
    }
  }

  lemma RegisterInThreeParts(c: Chain, hdr: nat, chunks: seq<seq<bool>>, tdr: nat)
    requires NoneEmpty(chunks)
    ensures
      var c1 := ClockBits(c, Bits(0, hdr), false);
      var c2 := ClockChunks(c1, chunks, tdr == 0);
      var data := Flat(chunks);
      && ClockBits(c2, Bits(0, tdr), true) == Scanned(c, hdr, data, tdr)
      && Flat(OutChunks(c1, chunks, tdr == 0)) == DataOut(c, hdr, data, tdr)
  {
    ChunksAreShifted(ClockBits(c, Bits(0, hdr), false), chunks, tdr == 0);
    if Flat(chunks) != [] {
      InThreeParts(c, Bits(0, hdr), Flat(chunks), Bits(0, tdr), true);
    } else {
      FlatIsEmpty(chunks);
      InTwoParts(c, Bits(0, hdr), Bits(0, tdr));
    }
  }

  /** Shifted back, the collected integer is the signed number, and fits into a char. */
  lemma CollectedShiftsBack(bits: seq<bool>, n: nat)
    requires 1 <= n == |bits| <= 8
    ensures Collected(bits) / PowerOfTwo(32 - n) == Signed(bits)
    ensures -128 <= Signed(bits) < 128
  {
    DivideExactly(Signed(bits), PowerOfTwo(32 - n));
    SignedFits(bits);
    PowerOfTwoGrows(n - 1, 7);
    assert PowerOfTwo(7) == 128;
  }

  lemma DivideExactly(a: int, b: nat)
    requires b > 0
    ensures (a * b) / b == a
  {
    var q := (a * b) / b;
    assert b * q <= a * b < b * (q + 1);
    MulOrder(b, q, a);
    MulOrder(b, a, q + 1);
  }

  /** A positive factor keeps the order. */
  lemma MulOrder(b: nat, x: int, y: int)
    requires b > 0
    ensures b * x <= b * y ==> x <= y
    ensures b * x < b * y ==> x < y
  {
    if x > y {
      assert b * x == b * y + b * (x - y);
    }
  }

  /** What an instruction scan clocks in. */
  function InstructionBits(hir: nat, irlen: nat, number: int, tir: nat): (bits: seq<bool>)
    ensures |bits| == hir + irlen + tir
  {
    Bits(-1, hir) + Bits(number, irlen) + Bits(-1, tir)
  }

  /** The way back to Run-Test/Idle, if asked for. */
  function Finish(c: Chain, tlr: bool, tms: bool, tdi: bool): Chain {
    if tlr then ClockTms(c, [tms, false], tdi) else c
  }

  lemma MiddleSlice(x: seq<bool>, y: seq<bool>, z: seq<bool>)
    ensures (x + y + z)[|x|..|x| + |y|] == y
  {
  }

  /** Three shifts in a row are one. */
  lemma InThreeParts(c: Chain, a: seq<bool>, b: seq<bool>, d: seq<bool>, last: bool)
    requires b != []
    ensures
      var c1 := ClockBits(c, a, false);
      var c2 := ClockBits(c1, b, last && d == []);
      && ClockBits(c, a + b + d, last) == ClockBits(c2, d, last)
      && TdoBits(c, a + b + d, last)[|a|..|a| + |b|] == TdoBits(c1, b, last && d == [])
  {
    var c1 := ClockBits(c, a, false);
    var out := TdoBits(c1, b, last && d == []);
    if d == [] {
      assert a + b + d == a + b;
      ClockBitsConcat(c, a, b, last);
      MiddleSlice(TdoBits(c, a, false), out, []);
      assert TdoBits(c, a + b + d, last) == TdoBits(c, a, false) + out + [];
    } else {
      ClockBitsConcat(c, a + b, d, last);
      ClockBitsConcat(c, a, b, false);
      MiddleSlice(TdoBits(c, a, false), out, TdoBits(ClockBits(c, a + b, false), d, last));
    }
  }

  /** The states alone. */
  function NextAll(s: TapState, tms: seq<bool>): TapState
    decreases |tms|
  {
    if tms == [] then s else NextAll(Next(s, tms[0]), tms[1..])
  }

  lemma ClockMoves(c: Chain, tms: bool, tdi: bool)
    ensures Clock(c, tms, tdi).state == Next(c.state, tms)
  {
  }

  lemma {:induction false} StateOfClocks(c: Chain, tms: seq<bool>, tdi: bool)
    ensures ClockTms(c, tms, tdi).state == NextAll(c.state, tms)
    decreases |tms|
  {
    if tms != [] {
      ClockMoves(c, tms[0], tdi);
      StateOfClocks(Clock(c, tms[0], tdi), tms[1..], tdi);
    }
  }

  lemma {:induction false} OnesMoveOn(s: TapState, n: nat)
    ensures NextAll(s, Repeat(true, n + 1)) == NextAll(Next(s, true), Repeat(true, n))
  {
    assert Repeat(true, n + 1)[1..] == Repeat(true, n);
  }

  /** Test-Logic-Reset is reached from every state. */
  lemma FiveOnesReset(c: Chain, tdi: bool)
    ensures ClockTms(c, Repeat(true, 5), tdi).state == TestLogicReset
  {
    StateOfClocks(c, Repeat(true, 5), tdi);
    var s1 := Next(c.state, true);
    var s2 := Next(s1, true);
    var s3 := Next(s2, true);
    var s4 := Next(s3, true);
    OnesMoveOn(c.state, 4);
    OnesMoveOn(s1, 3);
    OnesMoveOn(s2, 2);
    OnesMoveOn(s3, 1);
    OnesMoveOn(s4, 0);
    FiveSteps(c.state);
  }

  lemma FiveSteps(s: TapState)
    ensures Next(Next(Next(Next(Next(s, true), true), true), true), true) == TestLogicReset
  {
  }

  lemma ClockRuns(c: Chain, a: nat, b: nat, d: nat, tdi: bool)
    ensures ClockTms(ClockTms(ClockTms(c, Repeat(false, a), tdi), Repeat(true, b), tdi), Repeat(false, d), tdi)
            == ClockTms(c, Repeat(false, a) + Repeat(true, b) + Repeat(false, d), tdi)
  {
    ClockTmsConcat(c, Repeat(false, a), Repeat(true, b), tdi);
    ClockTmsConcat(c, Repeat(false, a) + Repeat(true, b), Repeat(false, d), tdi);
  }

  lemma Runs(bit: bool)
    ensures Repeat(bit, 1) == [bit] && Repeat(bit, 2) == [bit, bit]
  {
    assert Repeat(bit, 0) == [];
  }
}
