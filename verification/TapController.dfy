/** The TAP controller of IEEE 1149.1 (section 6.1) and the registers of a scan chain behind it. */
module TapController {

  datatype TapState =
    | TestLogicReset | RunTestIdle
    | SelectDrScan | CaptureDr | ShiftDr | Exit1Dr | PauseDr | Exit2Dr | UpdateDr
    | SelectIrScan | CaptureIr | ShiftIr | Exit1Ir | PauseIr | Exit2Ir | UpdateIr

  /** The state after a rising edge of TCK. */
  function Next(s: TapState, tms: bool): TapState {
    match s
    case TestLogicReset => if tms then TestLogicReset else RunTestIdle
    case RunTestIdle => if tms then SelectDrScan else RunTestIdle
    case SelectDrScan => if tms then SelectIrScan else CaptureDr
    case CaptureDr => if tms then Exit1Dr else ShiftDr
    case ShiftDr => if tms then Exit1Dr else ShiftDr
    case Exit1Dr => if tms then UpdateDr else PauseDr
    case PauseDr => if tms then Exit2Dr else PauseDr
    case Exit2Dr => if tms then UpdateDr else ShiftDr
    case UpdateDr => if tms then SelectDrScan else RunTestIdle
    case SelectIrScan => if tms then TestLogicReset else CaptureIr
    case CaptureIr => if tms then Exit1Ir else ShiftIr
    case ShiftIr => if tms then Exit1Ir else ShiftIr
    case Exit1Ir => if tms then UpdateIr else PauseIr
    case PauseIr => if tms then Exit2Ir else PauseIr
    case Exit2Ir => if tms then UpdateIr else ShiftIr
    case UpdateIr => if tms then SelectDrScan else RunTestIdle
  }

  /** The shift registers of a whole chain; bit 0 is next to TDO. What they capture is a property of the devices. */
  datatype Chain = Chain(
    state: TapState,
    ir: seq<bool>,
    dr: seq<bool>,
    latchedIr: seq<bool>,
    latchedDr: seq<bool>,
    captureIr: seq<bool>,
    captureDr: seq<bool>)

  function ShiftIn(register: seq<bool>, bit: bool): seq<bool> {
    if register == [] then [] else register[1..] + [bit]
  }

  /** On the rising edge the registers capture and shift. */
  function Rise(c: Chain, tms: bool, tdi: bool): Chain {
    var next := Next(c.state, tms);
    match c.state
    case CaptureDr => c.(state := next, dr := c.captureDr)
    case ShiftDr => c.(state := next, dr := ShiftIn(c.dr, tdi))
    case CaptureIr => c.(state := next, ir := c.captureIr)
    case ShiftIr => c.(state := next, ir := ShiftIn(c.ir, tdi))
    case _ => c.(state := next)
  }

  /** On the falling edge the registers are latched. */
  function Fall(c: Chain): Chain {
    match c.state
    case UpdateDr => c.(latchedDr := c.dr)
    case UpdateIr => c.(latchedIr := c.ir)
    case _ => c
  }

  /** TDO shows the end of the register that is being shifted. */
  function Tdo(c: Chain): bool {
    match c.state
    case ShiftDr => c.dr != [] && c.dr[0]
    case ShiftIr => c.ir != [] && c.ir[0]
    case _ => false
  }

  /** One whole clock cycle that starts with TCK low. */
  function Clock(c: Chain, tms: bool, tdi: bool): Chain {
    Fall(Rise(c, tms, tdi))
  }

  // ----- shifting -----

  predicate Shifting(c: Chain) {
    c.state == ShiftDr || c.state == ShiftIr
  }

  /** The register that is being shifted, and that the exit states follow. */
  function Register(c: Chain): seq<bool> {
    match c.state
    case ShiftIr => c.ir
    case Exit1Ir => c.ir
    case _ => c.dr
  }

  function Exited(s: TapState): TapState {
    if s == ShiftIr then Exit1Ir else Exit1Dr
  }

  /** Clocks bits in; with `last` the controller leaves the shift state with the last one. */
  function ClockBits(c: Chain, bits: seq<bool>, last: bool): Chain
    decreases |bits|
  {
    if bits == [] then c else ClockBits(Clock(c, last && |bits| == 1, bits[0]), bits[1..], last)
  }

  /** The bits that TDO shows meanwhile. */
  function TdoBits(c: Chain, bits: seq<bool>, last: bool): (out: seq<bool>)
    ensures |out| == |bits|
    decreases |bits|
  {
    if bits == [] then []
    else [Tdo(c)] + TdoBits(Clock(c, last && |bits| == 1, bits[0]), bits[1..], last)
  }

  function WithRegister(c: Chain, register: seq<bool>): Chain {
    if c.state == ShiftIr || c.state == Exit1Ir then c.(ir := register) else c.(dr := register)
  }

  lemma {:induction false} ClockBitsConcat(c: Chain, bits: seq<bool>, more: seq<bool>, last: bool)
    requires more != []
    ensures ClockBits(c, bits + more, last) == ClockBits(ClockBits(c, bits, false), more, last)
    ensures TdoBits(c, bits + more, last)
            == TdoBits(c, bits, false) + TdoBits(ClockBits(c, bits, false), more, last)
    decreases |bits|
  {
    if bits == [] {
      assert bits + more == more;
    } else {
      assert (bits + more)[1..] == bits[1..] + more && (bits + more)[0] == bits[0];
      ClockBitsConcat(Clock(c, false, bits[0]), bits[1..], more, last);
    }
  }

  lemma OneShift(c: Chain, bit: bool, tms: bool)
    requires Shifting(c) && Register(c) != []
    ensures Clock(c, tms, bit)
            == WithRegister(c, Register(c)[1..] + [bit]).(state := if tms then Exited(c.state) else c.state)
    ensures Tdo(c) == Register(c)[0]
  {
  }

  lemma QueueSteps(register: seq<bool>, bits: seq<bool>)
    requires register != [] && bits != []
    ensures
      var shifted := register[1..] + [bits[0]];
      && (register + bits)[..|bits|] == [register[0]] + (shifted + bits[1..])[..|bits| - 1]
      && (register + bits)[|bits|..] == (shifted + bits[1..])[|bits| - 1..]
  {
  }

  lemma {:induction false} ShiftingPasses(c: Chain, bits: seq<bool>)
    requires Shifting(c) && Register(c) != []
    ensures TdoBits(c, bits, false) == (Register(c) + bits)[..|bits|]
    ensures ClockBits(c, bits, false) == WithRegister(c, (Register(c) + bits)[|bits|..])
    decreases |bits|
  {
    var register := Register(c);
    if bits == [] {
      assert register + bits == register;
    } else {
      OneShift(c, bits[0], false);
      QueueSteps(register, bits);
      ShiftingPasses(WithRegister(c, register[1..] + [bits[0]]), bits[1..]);
    }
  }

  lemma QueueSplits(register: seq<bool>, bits: seq<bool>)
    requires register != [] && bits != []
    ensures
      var n := |bits| - 1;
      var before := register + bits[..n];
      && (register + bits)[..n + 1] == before[..n] + [before[n]]
      && (register + bits)[n + 1..] == before[n..][1..] + [bits[n]]
  {
  }

  /** The last bit is shifted as well, while the controller leaves the shift state. */
  lemma LastBitIsShifted(c: Chain, bits: seq<bool>)
    requires Shifting(c) && Register(c) != [] && bits != []
    ensures
      var passing := Register(c) + bits;
      && TdoBits(c, bits, true) == passing[..|bits|]
      && ClockBits(c, bits, true) == WithRegister(c, passing[|bits|..]).(state := Exited(c.state))
  {
    var n := |bits| - 1;
    assert bits == bits[..n] + [bits[n]];
    ClockBitsConcat(c, bits[..n], [bits[n]], true);
    ShiftingPasses(c, bits[..n]);
    QueueSplits(Register(c), bits);
    var c1 := WithRegister(c, (Register(c) + bits[..n])[n..]);
    OneShift(c1, bits[n], true);
    OneClock(c1, bits[n], true);
  }

  /** Shifting is a queue: what goes in pushes out what was there first. Every bit is clocked in the shift state,
      and the last one leaves it if asked. */
  lemma ShiftingIsAQueue(c: Chain, bits: seq<bool>, last: bool)
    requires Shifting(c) && Register(c) != []
    ensures
      var passing := Register(c) + bits;
      && TdoBits(c, bits, last) == passing[..|bits|]
      && ClockBits(c, bits, last)
         == WithRegister(c, passing[|bits|..]).(state := if last && bits != [] then Exited(c.state) else c.state)
  {
    if last && bits != [] {
      LastBitIsShifted(c, bits);
    } else {
      ShiftingPasses(c, bits);
      SameWithoutLast(c, bits, last);
    }
  }

  lemma OneClock(c: Chain, bit: bool, last: bool)
    ensures ClockBits(c, [bit], last) == Clock(c, last, bit)
    ensures TdoBits(c, [bit], last) == [Tdo(c)]
  {
    assert [bit][1..] == [];
  }

  lemma SameWithoutLast(c: Chain, bits: seq<bool>, last: bool)
    requires last ==> bits == []
    ensures ClockBits(c, bits, last) == ClockBits(c, bits, false)
    ensures TdoBits(c, bits, last) == TdoBits(c, bits, false)
  {
  }
}
