/** Whole transfers of the fine-delay record, with a device that may fail at any step. */
module FineDelayTransfer {
  import opened Words
  import opened FineDelay

  /** A write is on its way and may have taken effect; or the delay before the next one runs; or processing has been
      scheduled. */
  datatype Phase = Idle | Await(effected: bool) | Delay | Finishing

  /** History: the shift register at the start of the transfer, and how many of its output writes it has seen. */
  datatype System = System(
    record: Record,
    phase: Phase,
    direction: Word,
    output: Word,
    chip: Chip,
    start: Chip,
    applied: nat)

  datatype Step = Start(value: Word) | Effect | Succeed | Fail | Continue | Finish

  function RegisterValue(s: System, register: FineDelay.Register): Word {
    if register == Direction then s.direction else s.output
  }

  /** The step whose write was issued last. */
  function Issued(s: System): nat {
    if s.record.nextTransferStepIndex > 0 then s.record.nextTransferStepIndex - 1 else 0
  }

  function AfterAction(s: System, result: (Record, Action)): System {
    s.(record := result.0,
       phase := match result.1
                case Write(_) => Await(false)
                case ScheduleNextStep => Delay
                case ScheduleProcessing => Finishing)
  }

  function AfterEffect(cfg: Config, s: System): System
    requires ValidConfig(cfg)
  {
    var written := Merge(RegisterValue(s, s.record.lastWritten.register), s.record.lastWritten);
    if s.record.lastWritten.register == Direction then s.(direction := written, phase := Await(true))
    else s.(output := written, chip := Drive(s.chip, PinsOf(written, cfg.outputBitShift)), phase := Await(true),
            applied := Issued(s))
  }

  ghost predicate Takes(cfg: Config, s: System, step: Step, s': System)
    requires ValidConfig(cfg)
  {
    match step
    case Start(value) =>
      && s.phase == Idle
      && s' == AfterAction(s, NextStep(cfg, s.record.(nextTransferStepIndex := 0, writeOutputValue := value)))
                 .(start := s.chip, applied := 0)
    case Effect =>
      s.phase == Await(false) && s' == AfterEffect(cfg, s)
    case Succeed =>
      // The callback reports what the register holds, whether or not the write took effect.
      && s.phase.Await?
      && s' == AfterAction(s, OnSuccess(s.record, RegisterValue(s, s.record.lastWritten.register)))
                 .(applied := if Matches(s.record.lastWritten, RegisterValue(s, s.record.lastWritten.register))
                              then Issued(s) else s.applied)
    case Fail =>
      s.phase.Await? && s' == AfterAction(s, OnFailure(s.record))
    case Continue =>
      s.phase == Delay && s' == AfterAction(s, NextStep(cfg, s.record))
    case Finish =>
      s.phase == Finishing && s' == s.(phase := Idle)
  }

  ghost predicate Progress(s: System) {
    match s.phase
    case Idle => true
    case Await(effected) =>
      && 0 < s.record.nextTransferStepIndex <= LAST_STEP + 1
      && (s.applied == if effected then Issued(s) else if Issued(s) > 0 then Issued(s) - 1 else 0)
    case Delay => 0 < s.record.nextTransferStepIndex <= LAST_STEP + 1 && s.applied == Issued(s)
    case Finishing =>
      if s.record.writeSuccessful then s.applied == LAST_STEP
      else s.applied <= Issued(s) <= LAST_STEP
  }

  /** The shift register has seen exactly the output writes so far, each of them once. */
  ghost predicate Inv(cfg: Config, s: System) {
    && ValidConfig(cfg)
    && s.chip.pins == PinsOf(s.output, cfg.outputBitShift)
    && s.chip == DriveSteps(s.start, s.record.writeOutputValue, s.applied)
    && s.applied <= LAST_STEP
    && (s.phase.Await? ==> s.record.lastWritten == TransferAt(cfg, s.record.writeOutputValue, Issued(s)))
    && Progress(s)
  }

  lemma DriveSame(c: Chip)
    ensures Drive(c, c.pins) == c
  {
  }

  lemma EffectKeepsInv(cfg: Config, s: System)
    requires Inv(cfg, s) && s.phase == Await(false)
    ensures Inv(cfg, AfterEffect(cfg, s))
  {
    if Issued(s) > 0 {
      WriteSetsPins(cfg, s.output, s.record.writeOutputValue, Issued(s));
    }
  }

  lemma SucceedKeepsInv(cfg: Config, s: System, s': System)
    requires Inv(cfg, s) && Takes(cfg, s, Succeed, s')
    ensures Inv(cfg, s')
  {
    if Issued(s) > 0 {
      MatchMeansPins(cfg, s.output, s.record.writeOutputValue, Issued(s));
      DriveSame(s.chip);
    }
  }

  lemma StartKeepsInv(cfg: Config, s: System, value: Word, s': System)
    requires Inv(cfg, s) && Takes(cfg, s, Start(value), s')
    ensures Inv(cfg, s')
  {
  }

  lemma FailKeepsInv(cfg: Config, s: System, s': System)
    requires Inv(cfg, s) && Takes(cfg, s, Fail, s')
    ensures Inv(cfg, s')
  {
  }

  lemma ContinueKeepsInv(cfg: Config, s: System, s': System)
    requires Inv(cfg, s) && Takes(cfg, s, Continue, s')
    ensures Inv(cfg, s')
  {
  }

  lemma StepKeepsInv(cfg: Config, s: System, step: Step, s': System)
    requires Inv(cfg, s) && Takes(cfg, s, step, s')
    ensures Inv(cfg, s')
  {
    match step
    case Start(value) =>
      StartKeepsInv(cfg, s, value, s');
    case Effect =>
      EffectKeepsInv(cfg, s);
    case Succeed =>
      SucceedKeepsInv(cfg, s, s');
    case Fail =>
      FailKeepsInv(cfg, s, s');
    case Continue =>
      ContinueKeepsInv(cfg, s, s');
    case Finish =>
  }

  ghost predicate Init(cfg: Config, s: System) {
    && ValidConfig(cfg) && s.phase == Idle && s.applied == 0 && s.start == s.chip
    && s.chip.pins == PinsOf(s.output, cfg.outputBitShift)
  }

  ghost predicate IsRun(cfg: Config, states: seq<System>, steps: seq<Step>)
    requires ValidConfig(cfg)
  {
    && |states| == |steps| + 1
    && Init(cfg, states[0])
    && forall i {:trigger steps[i]} :: 0 <= i < |steps| ==> Takes(cfg, states[i], steps[i], states[i + 1])
  }

  lemma {:induction false} RunKeepsInv(cfg: Config, states: seq<System>, steps: seq<Step>)
    requires ValidConfig(cfg) && IsRun(cfg, states, steps)
    ensures Inv(cfg, states[|steps|])
    decreases |steps|
  {
    if steps != [] {
      var n := |steps| - 1;
      RunKeepsInv(cfg, states[..n + 1], steps[..n]);
      StepKeepsInv(cfg, states[n], steps[n], states[n + 1]);
    }
  }

  lemma LatchedBy(c: Chip, value: Word, steps: nat)
    requires steps <= LAST_STEP
    ensures DriveSteps(c, value, steps).latched
            == if steps >= LATCH_STEP then c.latched + [c.received + SentBits(value, BITS)] else c.latched
  {
    if steps < LATCH_STEP {
      BitsAreReceived(c, value, steps);
    } else {
      BitsAreReceived(c, value, 2 * BITS);
      assert DriveSteps(c, value, LATCH_STEP) == Drive(DriveSteps(c, value, 2 * BITS), PinsAt(value, LATCH_STEP));
      if steps == LAST_STEP {
        assert DriveSteps(c, value, LAST_STEP) == Drive(DriveSteps(c, value, LATCH_STEP), PinsAt(value, LAST_STEP));
      }
    }
  }

  /** At any point of any run, the current transfer has latched nothing, or all of its 24 bits once. A transfer that
      was given up before the latch step has latched nothing. */
  lemma LatchesCompleteOnly(cfg: Config, states: seq<System>, steps: seq<Step>)
    requires ValidConfig(cfg) && IsRun(cfg, states, steps)
    ensures
      var s := states[|steps|];
      var sent := s.start.received + SentBits(s.record.writeOutputValue, BITS);
      && (s.chip.latched == s.start.latched || s.chip.latched == s.start.latched + [sent])
      && (s.phase == Finishing && !s.record.writeSuccessful && Issued(s) < LATCH_STEP ==>
            s.chip.latched == s.start.latched)
  {
    RunKeepsInv(cfg, states, steps);
    var s := states[|steps|];
    LatchedBy(s.start, s.record.writeOutputValue, s.applied);
  }

  /** A transfer that reports success has set the delays to the value of the record, and the pins are at rest. */
  lemma SuccessMeansTransferred(cfg: Config, states: seq<System>, steps: seq<Step>)
    requires ValidConfig(cfg) && IsRun(cfg, states, steps)
    requires states[|steps|].phase == Finishing && states[|steps|].record.writeSuccessful
    ensures
      var s := states[|steps|];
      var value := s.record.writeOutputValue;
      && s.chip.received == s.start.received + SentBits(value, BITS)
      && s.chip.latched == s.start.latched + [s.chip.received]
      && s.chip.pins == Pins(false, false, false, value[31])
      && ValueOf(DelaysOf(s.chip.received[|s.chip.received| - BITS..]), s.chip.pins.dis) == And(value, ValueMask())
  {
    RunKeepsInv(cfg, states, steps);
    var s := states[|steps|];
    var value := s.record.writeOutputValue;
    TransferLatchesOnce(s.start, value);
    TransferUndoesEncoding(value);
    assert s.chip.received[|s.chip.received| - BITS..] == SentBits(value, BITS);
  }
}
