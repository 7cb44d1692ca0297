/** What the scans of the driver mean for the devices on the chain. */
module JtagScans {
  import opened TapController
  import opened JtagDriver

  /** Scans start here. */
  predicate Parked(c: Chain) {
    c.state == TestLogicReset || c.state == RunTestIdle
  }

  /** The way into the shift state captures the instruction registers and touches nothing else. */
  lemma EnterShiftIr(c: Chain, tdi: bool)
    requires Parked(c)
    ensures ClockTms(c, TO_SHIFT_IR, tdi) == c.(state := ShiftIr, ir := c.captureIr)
  {
    var c1 := Clock(c, false, tdi);
    var c2 := Clock(c1, true, tdi);
    var c3 := Clock(c2, true, tdi);
    var c4 := Clock(c3, false, tdi);
    FollowTms(c, false, [true, true, false, false], tdi);
    FollowTms(c1, true, [true, false, false], tdi);
    FollowTms(c2, true, [false, false], tdi);
    FollowTms(c3, false, [false], tdi);
    FollowTms(c4, false, [], tdi);
  }

  lemma EnterShiftDr(c: Chain, tdi: bool)
    requires Parked(c)
    ensures ClockTms(c, TO_SHIFT_DR, tdi) == c.(state := ShiftDr, dr := c.captureDr)
  {
    var c1 := Clock(c, false, tdi);
    var c2 := Clock(c1, true, tdi);
    var c3 := Clock(c2, false, tdi);
    FollowTms(c, false, [true, false, false], tdi);
    FollowTms(c1, true, [false, false], tdi);
    FollowTms(c2, false, [false], tdi);
    FollowTms(c3, false, [], tdi);
  }

  /** A scan gets to its shift state from where it starts exactly if TCK is low when it is called. */
  lemma TckMustBeLow(c: Chain, tck: bool, tdi: bool)
    requires Parked(c)
    ensures ClockTms(WithTckLow(c, tck), TmsToShiftIr(tck), tdi).state == ShiftIr <==> !tck
    ensures ClockTms(WithTckLow(c, tck), TmsToShiftDr(tck), tdi).state == ShiftDr <==> !tck
  {
    if tck {
      StateOfClocks(c, TmsToShiftIr(true), tdi);
      StateOfClocks(c, TmsToShiftDr(true), tdi);
      LateStates(c.state);
    } else {
      EnterShiftIr(c, tdi);
      EnterShiftDr(c, tdi);
    }
  }

  lemma LateStates(s: TapState)
    requires s == TestLogicReset || s == RunTestIdle
    ensures NextAll(s, [false, true, true, true, false, false, false]) == RunTestIdle
    ensures NextAll(s, [false, true, true, false, false, false]) == ShiftIr
  {
    NextFirst(s, false, [true, true, true, false, false, false]);
    NextFirst(RunTestIdle, true, [true, true, false, false, false]);
    NextFirst(SelectDrScan, true, [true, false, false, false]);
    NextFirst(SelectIrScan, true, [false, false, false]);
    NextFirst(TestLogicReset, false, [false, false]);
    NextFirst(RunTestIdle, false, [false]);
    NextFirst(RunTestIdle, false, []);
    NextFirst(s, false, [true, true, false, false, false]);
    NextFirst(RunTestIdle, true, [true, false, false, false]);
    NextFirst(SelectDrScan, true, [false, false, false]);
    NextFirst(SelectIrScan, false, [false, false]);
    NextFirst(CaptureIr, false, [false]);
    NextFirst(ShiftIr, false, []);
  }

  lemma NextFirst(s: TapState, tms: bool, more: seq<bool>)
    ensures NextAll(s, [tms] + more) == NextAll(Next(s, tms), more)
  {
    assert ([tms] + more)[1..] == more;
  }

  lemma FollowTms(c: Chain, tms: bool, more: seq<bool>, tdi: bool)
    ensures ClockTms(c, [tms] + more, tdi) == ClockTms(Clock(c, tms, tdi), more, tdi)
  {
    assert ([tms] + more)[1..] == more;
  }

  /** From Exit1 the way back latches what was shifted. */
  lemma ReturnLatches(c: Chain, tdi: bool)
    requires c.state == Exit1Ir || c.state == Exit1Dr
    ensures Finish(c, true, true, tdi)
            == if c.state == Exit1Ir then c.(state := RunTestIdle, latchedIr := c.ir)
               else c.(state := RunTestIdle, latchedDr := c.dr)
  {
    FollowTms(c, true, [false], tdi);
    FollowTms(Clock(c, true, tdi), false, [], tdi);
  }

  lemma {:induction false} AllOnes(n: nat)
    ensures Bits(-1, n) == Repeat(true, n)
  {
    if n > 0 {
      AllOnes(n - 1);
    }
  }

  /** An instruction scan over a chain of matching length leaves the target holding the instruction and every other
      device holding ones, which is BYPASS. It ends in Exit1, or in Run-Test/Idle with the instruction in force, and
      what it read is what the target's register had captured. */
  lemma InstructionScanLoads(c: Chain, hir: nat, irlen: nat, number: int, tir: nat, tlr: bool, tdi: bool, tdi': bool)
    requires Parked(c) && irlen > 0 && |c.captureIr| == hir + irlen + tir
    ensures
      var start := ClockTms(c, TO_SHIFT_IR, tdi);
      var bits := InstructionBits(hir, irlen, number, tir);
      var loaded := Repeat(true, hir) + Bits(number, irlen) + Repeat(true, tir);
      var end := Finish(ClockBits(start, bits, true), tlr, true, tdi');
      && end == c.(ir := loaded, state := if tlr then RunTestIdle else Exit1Ir,
                   latchedIr := if tlr then loaded else c.latchedIr)
      && TdoBits(start, bits, true)[hir..hir + irlen] == c.captureIr[hir..hir + irlen]
  {
    EnterShiftIr(c, tdi);
    AllOnes(hir);
    AllOnes(tir);
    var start := ClockTms(c, TO_SHIFT_IR, tdi);
    var bits := InstructionBits(hir, irlen, number, tir);
    ShiftingIsAQueue(start, bits, true);
    assert (c.captureIr + bits)[|bits|..] == bits && (c.captureIr + bits)[..|bits|] == c.captureIr;
    if tlr {
      ReturnLatches(ClockBits(start, bits, true), tdi');
    }
  }

  /** For a chain of any length: the scan clocks exactly header, instruction and trailer through it. */
  lemma InstructionScanShifts(c: Chain, hir: nat, irlen: nat, number: int, tir: nat, tdi: bool)
    requires Parked(c) && irlen > 0 && c.captureIr != []
    ensures
      var bits := InstructionBits(hir, irlen, number, tir);
      && |bits| == hir + irlen + tir
      && ClockBits(ClockTms(c, TO_SHIFT_IR, tdi), bits, true)
         == c.(state := Exit1Ir, ir := (c.captureIr + bits)[|bits|..])
  {
    EnterShiftIr(c, tdi);
    ShiftingIsAQueue(ClockTms(c, TO_SHIFT_IR, tdi), InstructionBits(hir, irlen, number, tir), true);
  }

  lemma {:induction false} FlatLength(chunks: seq<seq<bool>>, drlen: nat)
    requires forall j :: 0 <= j < |chunks| ==> |chunks[j]| == Width(j, drlen)
    ensures |Flat(chunks)| == if chunks != [] && drlen % 8 != 0 then 8 * (|chunks| - 1) + drlen % 8 else 8 * |chunks|
  {
    if chunks != [] {
      FlatLength(chunks[..|chunks| - 1], drlen);
    }
  }

  lemma DataLength(bytes: seq<int>, drlen: nat)
    requires ByteCount(drlen) <= |bytes|
    ensures |Data(bytes, drlen)| == drlen
  {
    FlatLength(Chunks(bytes, drlen), drlen);
  }

  /** A data scan clocks exactly header, data and trailer through the register and reports the bits that came out
      with the data. It ends in Exit1, or in Run-Test/Idle, unless there is neither data nor trailer: then the
      controller stays in the shift state, whatever was asked for. */
  lemma DataScanShifts(c: Chain, hdr: nat, drlen: nat, bytes: seq<int>, tdr: nat, tlr: bool, tdi: bool, tdi': bool)
    requires Parked(c) && c.captureDr != [] && ByteCount(drlen) <= |bytes|
    ensures
      var start := ClockTms(c, TO_SHIFT_DR, tdi);
      var data := Data(bytes, drlen);
      var bits := RegisterBits(hdr, data, tdr);
      var scanned := Scanned(start, hdr, data, tdr);
      && |bits| == hdr + drlen + tdr
      && scanned == c.(state := if drlen > 0 || tdr > 0 then Exit1Dr else ShiftDr,
                       dr := (c.captureDr + bits)[|bits|..])
      && DataOut(start, hdr, data, tdr) == (c.captureDr + bits)[hdr..hdr + drlen]
      && (Finish(scanned, tlr, drlen > 0 || tdr > 0, tdi').state == (if tlr then RunTestIdle else Exit1Dr)
          <==> drlen > 0 || tdr > 0)
  {
    EnterShiftDr(c, tdi);
    DataLength(bytes, drlen);
    var start := ClockTms(c, TO_SHIFT_DR, tdi);
    var data := Data(bytes, drlen);
    var bits := RegisterBits(hdr, data, tdr);
    ShiftingIsAQueue(start, bits, data != [] || tdr > 0);
    DataComesOut(start, hdr, data, tdr);
    if tlr {
      if drlen > 0 || tdr > 0 {
        ReturnLatches(Scanned(start, hdr, data, tdr), tdi');
      } else {
        LowTmsKeepsShifting(Scanned(start, hdr, data, tdr), tdi');
      }
    }
  }

  lemma LowTmsKeepsShifting(c: Chain, tdi: bool)
    requires c.state == ShiftDr
    ensures Finish(c, true, false, tdi).state == ShiftDr
  {
    FollowTms(c, false, [false], tdi);
    FollowTms(Clock(c, false, tdi), false, [], tdi);
  }

  lemma PassingSlices(register: seq<bool>, a: seq<bool>, data: seq<bool>, d: seq<bool>)
    requires register != []
    ensures (register + a)[|a|..] != []
    ensures ((register + a)[|a|..] + data)[..|data|] == (register + (a + data + d))[|a|..|a| + |data|]
  {
  }

  lemma DataComesOut(start: Chain, hdr: nat, data: seq<bool>, tdr: nat)
    requires start.state == ShiftDr && start.dr != []
    ensures DataOut(start, hdr, data, tdr)
            == (start.dr + RegisterBits(hdr, data, tdr))[hdr..hdr + |data|]
  {
    ShiftingIsAQueue(start, Bits(0, hdr), false);
    PassingSlices(start.dr, Bits(0, hdr), data, Bits(0, tdr));
    var after := ClockBits(start, Bits(0, hdr), false);
    assert Register(after) == (start.dr + Bits(0, hdr))[hdr..];
    ShiftingIsAQueue(after, data, tdr == 0);
  }

  /** Bits that fill a register of their own length push out what it held. */
  lemma OwnLength(register: seq<bool>, data: seq<bool>, n: nat)
    requires |register| == n && |data| == n
    ensures (register + data)[n..] == data && (register + data)[..n] == register
  {
  }

  lemma ExchangeChain(c: Chain, drlen: nat, bytes: seq<int>, tdi: bool)
    requires Parked(c) && 0 < drlen == |c.captureDr| && ByteCount(drlen) <= |bytes|
    ensures
      var start := ClockTms(c, TO_SHIFT_DR, tdi);
      && Scanned(start, 0, Data(bytes, drlen), 0) == c.(state := Exit1Dr, dr := Data(bytes, drlen))
      && DataOut(start, 0, Data(bytes, drlen), 0) == c.captureDr
  {
    var data := Data(bytes, drlen);
    DataScanShifts(c, 0, drlen, bytes, 0, false, tdi, tdi);
    DataLength(bytes, drlen);
    NoHeaderOrTrailer(data);
    OwnLength(c.captureDr, data, drlen);
  }

  lemma NoHeaderOrTrailer(data: seq<bool>)
    ensures RegisterBits(0, data, 0) == data
  {
  }

  /** Without header and trailer a data scan over a register of its own length exchanges the register with the
      input. The output has the layout of the input. */
  lemma DataScanExchanges(c: Chain, drlen: nat, bytes: seq<int>, output: seq<int>, tdi: bool)
    requires Parked(c) && 0 < drlen == |c.captureDr|
    requires ByteCount(drlen) <= |bytes| && ByteCount(drlen) <= |output|
    requires Data(output, drlen) == DataOut(ClockTms(c, TO_SHIFT_DR, tdi), 0, Data(bytes, drlen), 0)
    ensures Scanned(ClockTms(c, TO_SHIFT_DR, tdi), 0, Data(bytes, drlen), 0)
            == c.(state := Exit1Dr, dr := Data(bytes, drlen))
    ensures Data(output, drlen) == c.captureDr
  {
    ExchangeChain(c, drlen, bytes, tdi);
  }
}
