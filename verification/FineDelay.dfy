/**
 The fine-delay record: it moves 24 bits into a shift register with 51 writes to GPIO registers, one after the
 other, and gives up when one of them fails or reads back differently.
 */
module FineDelay {
  import opened Common
  import opened Words

  /** The four output pins: data, shift clock, transfer latch clock, output disable. */
  datatype Pins = Pins(din: bool, sclk: bool, lclk: bool, dis: bool)

  /** Where the four bits are in the direction register and in the output register. */
  datatype Config = Config(directionBitShift: nat, outputBitShift: nat)

  ghost predicate ValidConfig(cfg: Config) {
    cfg.directionBitShift <= 28 && cfg.outputBitShift <= 28
  }

  datatype Register = Direction | Output

  /** A masked write to one of the two registers. */
  datatype Transfer = Transfer(register: Register, value: Word, mask: Word)

  const ALL_PINS: Pins := Pins(true, true, true, true)

  function Nibble(pins: Pins): Word {
    seq(32, k => (k == 0 && pins.din) || (k == 1 && pins.sclk) || (k == 2 && pins.lclk) || (k == 3 && pins.dis))
  }

  /** The mask of the four pins: 0x0f, shifted. */
  function PinMask(shift: nat): Word {
    ShiftLeft(Nibble(ALL_PINS), shift)
  }

  /** Which bit of the value is sent as bit b, if any. */
  function SourceBit(b: nat): (k: Option<nat>)
    ensures k.Some? ==> k.value < 32
  {
    if b < 8 then Some(7 - b)
    else if b < 12 then Some(27 - b)
    else if b == 12 then Some(10)
    else if b == 14 || b == 15 then Some(23 - b)
    else if b == 16 then Some(26)
    else if 18 <= b < 24 then Some(43 - b)
    else None
  }

  function StepBit(value: Word, b: nat): bool {
    var k := SourceBit(b);
    k.Some? && value[k.value]
  }

  const BITS: nat := 24
  const LATCH_STEP: nat := 49
  const LAST_STEP: nat := 50

  /** The pins that a step of the transfer asks for. */
  function PinsAt(value: Word, step: nat): Pins {
    if step == LATCH_STEP then Pins(false, false, true, value[31])
    else if step == LAST_STEP then Pins(false, false, false, value[31])
    else Pins(step > 0 && StepBit(value, (step - 1) / 2), step % 2 == 0, false, value[31])
  }

  function TransferAt(cfg: Config, value: Word, step: nat): Transfer {
    if step == 0
    then Transfer(Direction, PinMask(cfg.directionBitShift), PinMask(cfg.directionBitShift))
    else Transfer(Output, ShiftLeft(Nibble(PinsAt(value, step)), cfg.outputBitShift),
                  PinMask(cfg.outputBitShift))
  }

  // ----- the record -----

  datatype Record = Record(
    nextTransferStepIndex: nat,
    writeOutputValue: Word,
    lastWritten: Transfer,
    writeSuccessful: bool,
    pact: bool)

  datatype Action = Write(transfer: Transfer) | ScheduleProcessing | ScheduleNextStep

  function NextStep(cfg: Config, r: Record): (Record, Action) {
    var step := r.nextTransferStepIndex;
    var next := r.(nextTransferStepIndex := step + 1);
    if step <= LAST_STEP
    then (next.(lastWritten := TransferAt(cfg, r.writeOutputValue, step)),
          Write(TransferAt(cfg, r.writeOutputValue, step)))
    else (next.(writeSuccessful := true), ScheduleProcessing)
  }

  /** What was read back agrees with what was written. */
  predicate Matches(transfer: Transfer, readBack: Word) {
    And(readBack, transfer.mask) == And(transfer.value, transfer.mask)
  }

  function OnSuccess(r: Record, readBack: Word): (Record, Action) {
    if Matches(r.lastWritten, readBack) then (r, ScheduleNextStep)
    else (r.(writeSuccessful := false), ScheduleProcessing)
  }

  function OnFailure(r: Record): (Record, Action) {
    (r.(writeSuccessful := false), ScheduleProcessing)
  }

  class MrfLongoutFineDelayShiftRegisterRecord {
    const cfg: Config
    var nextTransferStepIndex: nat
    var writeOutputValue: Word
    var lastWrittenRegister: Register
    var lastValueWritten: Word
    var lastValueWrittenMask: Word
    var writeSuccessful: bool
    var pact: bool

    function State(): Record
      reads this
    {
      Record(nextTransferStepIndex, writeOutputValue,
             Transfer(lastWrittenRegister, lastValueWritten, lastValueWrittenMask), writeSuccessful, pact)
    }

    constructor (cfg: Config)
      ensures this.cfg == cfg && !writeSuccessful && !pact
    {
      this.cfg := cfg;
      nextTransferStepIndex, writeSuccessful, pact := 0, false, false;
      writeOutputValue, lastWrittenRegister, lastValueWritten, lastValueWrittenMask := ONE, Output, ONE, ONE;
    }

    /** The bits in the order that the shift register wants them: DA7 to DA0, DB3 to DB0, LENA, one unused, DA9, DA8,
        LENB, one unused, DB9 to DB4. */
    method BitValue(bitIndex: nat) returns (bitValue: bool)
      requires bitIndex < BITS
      ensures bitValue == StepBit(writeOutputValue, bitIndex)
    {
      match bitIndex
      case 0 => bitValue := writeOutputValue[7];
      case 1 => bitValue := writeOutputValue[6];
      case 2 => bitValue := writeOutputValue[5];
      case 3 => bitValue := writeOutputValue[4];
      case 4 => bitValue := writeOutputValue[3];
      case 5 => bitValue := writeOutputValue[2];
      case 6 => bitValue := writeOutputValue[1];
      case 7 => bitValue := writeOutputValue[0];
      case 8 => bitValue := writeOutputValue[19];
      case 9 => bitValue := writeOutputValue[18];
      case 10 => bitValue := writeOutputValue[17];
      case 11 => bitValue := writeOutputValue[16];
      case 12 => bitValue := writeOutputValue[10];
      case 13 => bitValue := false;
      case 14 => bitValue := writeOutputValue[9];
      case 15 => bitValue := writeOutputValue[8];
      case 16 => bitValue := writeOutputValue[26];
      case 17 => bitValue := false;
      case 18 => bitValue := writeOutputValue[25];
      case 19 => bitValue := writeOutputValue[24];
      case 20 => bitValue := writeOutputValue[23];
      case 21 => bitValue := writeOutputValue[22];
      case 22 => bitValue := writeOutputValue[21];
      case _ => bitValue := writeOutputValue[20];
    }

    method SetOutput(pins: Pins)
      modifies this`lastWrittenRegister, this`lastValueWritten, this`lastValueWrittenMask
      ensures lastWrittenRegister == Output
      ensures lastValueWritten == ShiftLeft(Nibble(pins), cfg.outputBitShift)
      ensures lastValueWrittenMask == PinMask(cfg.outputBitShift)
    {
      lastWrittenRegister := Output;
      lastValueWrittenMask := PinMask(cfg.outputBitShift);
      lastValueWritten := ShiftLeft(Nibble(pins), cfg.outputBitShift);
    }

    method StartNextTransferStep() returns (action: Action)
      modifies this
      ensures (State(), action) == NextStep(cfg, old(State()))
    {
      var currentTransferStepIndex := nextTransferStepIndex;
      nextTransferStepIndex := nextTransferStepIndex + 1;
      if currentTransferStepIndex == 0 {
        lastWrittenRegister := Direction;
        lastValueWrittenMask := PinMask(cfg.directionBitShift);
        lastValueWritten := lastValueWrittenMask;
      } else if currentTransferStepIndex <= 2 * BITS {
        var bitValue := BitValue((currentTransferStepIndex - 1) / 2);
        SetOutput(Pins(bitValue, currentTransferStepIndex % 2 == 0, false, writeOutputValue[31]));
      } else if currentTransferStepIndex == LATCH_STEP {
        SetOutput(Pins(false, false, true, writeOutputValue[31]));
      } else if currentTransferStepIndex == LAST_STEP {
        SetOutput(Pins(false, false, false, writeOutputValue[31]));
      } else {
        writeSuccessful := true;
        return ScheduleProcessing;
      }
      action := Write(Transfer(lastWrittenRegister, lastValueWritten, lastValueWrittenMask));
    }

    method Success(value: Word) returns (action: Action)
      modifies this`writeSuccessful
      ensures (State(), action) == OnSuccess(old(State()), value)
    {
      if And(value, lastValueWrittenMask) != And(lastValueWritten, lastValueWrittenMask) {
        writeSuccessful := false;
        action := ScheduleProcessing;
      } else {
        action := ScheduleNextStep;
      }
    }

    method Failure() returns (action: Action)
      modifies this`writeSuccessful
      ensures (State(), action) == OnFailure(old(State()))
    {
      writeSuccessful := false;
      action := ScheduleProcessing;
    }

    /** Processing starts a transfer, or ends it; ending it reports whether it was successful. */
    method ProcessRecord(val: Word) returns (action: Option<Action>, successful: Option<bool>)
      modifies this
      ensures
        if old(pact) then
          State() == old(State()).(pact := false) && action == None && successful == Some(writeSuccessful)
        else
          var begun := NextStep(cfg, old(State()).(nextTransferStepIndex := 0, writeOutputValue := val));
          State() == begun.0.(pact := true) && action == Some(begun.1) && successful == None
    {
      if pact {
        pact := false;
        return None, Some(writeSuccessful);
      }
      nextTransferStepIndex := 0;
      writeOutputValue := val;
      var started := StartNextTransferStep();
      pact := true;
      return Some(started), None;
    }
  }

  // ----- the registers and the shift register -----

  /** A masked write. */
  function Merge(register: Word, transfer: Transfer): Word {
    Or(And(register, Not(transfer.mask)), And(transfer.value, transfer.mask))
  }

  function PinsOf(register: Word, shift: nat): Pins
    requires shift <= 28
  {
    Pins(register[shift], register[shift + 1], register[shift + 2], register[shift + 3])
  }

  lemma NibbleBits(pins: Pins, shift: nat)
    requires shift <= 28
    ensures PinsOf(ShiftLeft(Nibble(pins), shift), shift) == pins
    ensures forall k :: 0 <= k < 32 ==> (PinMask(shift)[k] <==> shift <= k < shift + 4)
  {
    var w := ShiftLeft(Nibble(pins), shift);
    assert w[shift] == Nibble(pins)[0] && w[shift + 1] == Nibble(pins)[1];
    assert w[shift + 2] == Nibble(pins)[2] && w[shift + 3] == Nibble(pins)[3];
  }

  /** An output write sets the four pins and nothing else. */
  lemma WriteSetsPins(cfg: Config, register: Word, value: Word, step: nat)
    requires ValidConfig(cfg) && 1 <= step
    ensures
      var written := Merge(register, TransferAt(cfg, value, step));
      && PinsOf(written, cfg.outputBitShift) == PinsAt(value, step)
      && forall k :: 0 <= k < 32 && !(cfg.outputBitShift <= k < cfg.outputBitShift + 4) ==> written[k] == register[k]
  {
    NibbleBits(PinsAt(value, step), cfg.outputBitShift);
  }

  /** What reads back as written has the pins that were asked for. */
  lemma MatchMeansPins(cfg: Config, register: Word, value: Word, step: nat)
    requires ValidConfig(cfg) && 1 <= step
    ensures Matches(TransferAt(cfg, value, step), register)
            <==> PinsOf(register, cfg.outputBitShift) == PinsAt(value, step)
  {
    var shift := cfg.outputBitShift;
    var transfer := TransferAt(cfg, value, step);
    NibbleBits(PinsAt(value, step), shift);
    if Matches(transfer, register) {
      forall k | shift <= k < shift + 4
        ensures register[k] == transfer.value[k]
      {
        assert And(register, transfer.mask)[k] == And(transfer.value, transfer.mask)[k];
      }
    }
    if PinsOf(register, shift) == PinsAt(value, step) {
      forall k | 0 <= k < 32
        ensures And(register, transfer.mask)[k] == And(transfer.value, transfer.mask)[k]
      {
        if shift <= k < shift + 4 {
          assert register[k] == transfer.value[k];
        }
      }
    }
  }

  /** The shift register: the bits it has received, and what has been latched. */
  datatype Chip = Chip(pins: Pins, received: seq<bool>, latched: seq<seq<bool>>)

  function Drive(c: Chip, pins: Pins): Chip {
    Chip(pins,
         if !c.pins.sclk && pins.sclk then c.received + [pins.din] else c.received,
         if !c.pins.lclk && pins.lclk then c.latched + [c.received] else c.latched)
  }

  /** The shift register after the first output writes of a transfer. */
  function DriveSteps(c: Chip, value: Word, steps: nat): Chip {
    if steps == 0 then c else Drive(DriveSteps(c, value, steps - 1), PinsAt(value, steps))
  }

  function SentBits(value: Word, n: nat): seq<bool> {
    seq(n, b requires b >= 0 => StepBit(value, b))
  }

  /** Each bit is received once, with the clock edge of its second write; the data has been there since its first
      write. Nothing is latched before all of them have been received. */
  lemma {:induction false} BitsAreReceived(c: Chip, value: Word, steps: nat)
    requires steps <= 2 * BITS
    ensures
      var driven := DriveSteps(c, value, steps);
      && driven.received == c.received + SentBits(value, steps / 2)
      && driven.latched == c.latched
      && (steps > 0 ==> driven.pins == PinsAt(value, steps))
    ensures steps > 0 && steps % 2 == 0 ==> PinsAt(value, steps - 1).din == PinsAt(value, steps).din
  {
    if steps == 0 {
      assert SentBits(value, 0) == [];
    } else {
      BitsAreReceived(c, value, steps - 1);
      if steps % 2 == 0 {
        assert SentBits(value, steps / 2) == SentBits(value, steps / 2 - 1) + [StepBit(value, steps / 2 - 1)];
      }
    }
  }

  /** The whole transfer latches exactly once, and then exactly the 24 bits that were sent have been received. */
  lemma TransferLatchesOnce(c: Chip, value: Word)
    ensures
      var driven := DriveSteps(c, value, LAST_STEP);
      && driven.received == c.received + SentBits(value, BITS)
      && driven.latched == c.latched + [driven.received]
      && driven.pins == Pins(false, false, false, value[31])
  {
    BitsAreReceived(c, value, 2 * BITS);
    assert DriveSteps(c, value, LATCH_STEP) == Drive(DriveSteps(c, value, 2 * BITS), PinsAt(value, LATCH_STEP));
    assert DriveSteps(c, value, LAST_STEP) == Drive(DriveSteps(c, value, LATCH_STEP), PinsAt(value, LAST_STEP));
  }

  // ----- what the delay chips make of the bits -----

  /** The two delays with their latch-enable bits, each lowest bit first. */
  datatype Delays = Delays(da: seq<bool>, lena: bool, db: seq<bool>, lenb: bool)

  /** The connections of the shift register. */
  function DelaysOf(bits: seq<bool>): (d: Delays)
    requires |bits| == BITS
    ensures |d.da| == 10 && |d.db| == 10
  {
    Delays([bits[7], bits[6], bits[5], bits[4], bits[3], bits[2], bits[1], bits[0], bits[15], bits[14]],
           bits[12],
           [bits[11], bits[10], bits[9], bits[8], bits[23], bits[22], bits[21], bits[20], bits[19], bits[18]],
           bits[16])
  }

  /** The value of the record for these delays. */
  function ValueOf(d: Delays, dis: bool): Word
    requires |d.da| == 10 && |d.db| == 10
  {
    seq(32, k requires 0 <= k < 32 =>
      if k < 10 then d.da[k]
      else if k == 10 then d.lena
      else if 16 <= k < 26 then d.db[k - 16]
      else if k == 26 then d.lenb
      else k == 31 && dis)
  }

  /** 0x87ff07ff */
  function ValueMask(): Word {
    seq(32, k => k <= 10 || 16 <= k <= 26 || k == 31)
  }

  lemma DelayPlaces(bits: seq<bool>, k: nat)
    requires |bits| == BITS && k < 10
    ensures DelaysOf(bits).da[k] == bits[if k < 8 then 7 - k else 23 - k]
    ensures DelaysOf(bits).db[k] == bits[if k < 4 then 11 - k else 27 - k]
  {
  }

  lemma DelayBits(value: Word, k: nat)
    requires k < 10
    ensures DelaysOf(SentBits(value, BITS)).da[k] == value[k]
    ensures DelaysOf(SentBits(value, BITS)).db[k] == value[k + 16]
  {
    DelayPlaces(SentBits(value, BITS), k);
    SentBitAt(value, if k < 8 then 7 - k else 23 - k);
    SentBitAt(value, if k < 4 then 11 - k else 27 - k);
  }

  lemma SentBitAt(value: Word, b: nat)
    requires b < BITS
    ensures SentBits(value, BITS)[b] == StepBit(value, b)
  {
  }

  lemma EnableBits(value: Word)
    ensures DelaysOf(SentBits(value, BITS)).lena == value[10]
    ensures DelaysOf(SentBits(value, BITS)).lenb == value[26]
  {
    assert SentBits(value, BITS)[12] == StepBit(value, 12) && SentBits(value, BITS)[16] == StepBit(value, 16);
  }

  /** The transfer undoes its encoding: the delays that are set, with the disable line, are the value of the record. */
  lemma TransferUndoesEncoding(value: Word)
    ensures ValueOf(DelaysOf(SentBits(value, BITS)), value[31]) == And(value, ValueMask())
  {
    EnableBits(value);
    var decoded := ValueOf(DelaysOf(SentBits(value, BITS)), value[31]);
    forall k | 0 <= k < 32
      ensures decoded[k] == And(value, ValueMask())[k]
    {
      if k < 10 {
        DelayBits(value, k);
      } else if 16 <= k < 26 {
        DelayBits(value, k - 16);
      }
    }
  }
}
