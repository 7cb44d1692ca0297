/**
 The cycles of the waveform output record together with the device. Callbacks may come at any time after their
 request, also from within the loop. Nobody else writes to the registers of the array.
 */
module WaveformCycle {
  import opened WaveformOut

  datatype Phase = Idle | Looping(next: nat) | Waiting

  /** The write of element i is outstanding from its request until its callback. History: the array that the cycle
      writes, how many cycles have started, and how each of the finished ones has ended. */
  datatype System = System(
    record: Record,
    device: map<UInt32, UInt32>,
    outstanding: set<nat>,
    phase: Phase,
    snapshot: seq<UInt32>,
    starts: nat,
    completions: seq<bool>)

  datatype Step =
    | Put(values: seq<UInt32>)
    | StartCycle
    | Element
    | EndLoop
    | Effect(element: nat)
    | Succeed(element: nat)
    | FailWrite(element: nat)
    | Resume

  function Register(device: map<UInt32, UInt32>, address: UInt32): UInt32 {
    if address in device then device[address] else 0
  }

  /** What the device holds for an element. */
  function DeviceValue(cfg: Config, s: System, i: nat): UInt32 {
    Register(s.device, ElementAddress(cfg, i))
  }

  ghost predicate CanCallBack(s: System, i: nat) {
    && WellFormed(s.record) && i in s.outstanding && i < |s.record.values|
    && s.record.pendingWriteRequests > 0
  }

  function EndOfLoop(s: System): System
    requires s.record.pendingWriteRequests > 0
  {
    s.(record := End(s.record),
       phase := if EndsAtOnce(s.record) then Idle else Waiting,
       completions := if EndsAtOnce(s.record) then s.completions + [s.record.writeSuccessful] else s.completions)
  }

  ghost predicate Takes(cfg: Config, s: System, step: Step, s': System) {
    match step
    case Put(values) =>
      !s.phase.Looping? && |values| == |s.record.values| && s' == s.(record := s.record.(values := values))
    case StartCycle =>
      && s.phase == Idle
      && s' == s.(record := Begin(s.record), phase := Looping(0), snapshot := s.record.values, starts := s.starts + 1)
    case Element =>
      && s.phase.Looping? && s.phase.next < |s.record.values| && WellFormed(s.record)
      && s' == s.(record := PrepareElement(cfg, s.record, s.phase.next),
                  outstanding := if NeedsWrite(cfg, s.record, s.phase.next) then s.outstanding + {s.phase.next}
                                 else s.outstanding,
                  phase := Looping(s.phase.next + 1))
    case EndLoop =>
      && s.phase.Looping? && s.phase.next == |s.record.values| && s.record.pendingWriteRequests > 0
      && s' == EndOfLoop(s)
    case Effect(i) =>
      // A write takes effect before its callback.
      && CanCallBack(s, i)
      && s' == s.(device := s.device[ElementAddress(cfg, i) := s.record.lastValueWritten[i]])
    case Succeed(i) =>
      // The callback reports what the register holds.
      && CanCallBack(s, i)
      && s' == s.(record := OnSuccess(cfg, s.record, ElementAddress(cfg, i), DeviceValue(cfg, s, i)),
                  outstanding := s.outstanding - {i})
    case FailWrite(i) =>
      CanCallBack(s, i) && s' == s.(record := OnFailure(s.record), outstanding := s.outstanding - {i})
    case Resume =>
      && s.phase == Waiting && s.record.processRequests > 0
      && s' == s.(record := Complete(s.record).(processRequests := s.record.processRequests - 1), phase := Idle,
                  completions := s.completions + [s.record.writeSuccessful])
  }

  /** The initial values are those of the device, or none is taken to be known. */
  ghost predicate Init(cfg: Config, s: System) {
    && WellFormed(s.record) && s.phase == Idle && s.outstanding == {} && s.starts == 0 && s.completions == []
    && s.record.pendingWriteRequests == 0 && !s.record.pact && s.record.processRequests == 0
    && |s.snapshot| == |s.record.values|
    && forall i :: 0 <= i < |s.record.values| && s.record.lastValueWrittenValid[i] ==>
         DeviceValue(cfg, s, i) == s.record.lastValueWritten[i]
  }

  // ----- the invariant -----

  /** Every request is counted, and the cycle waits for exactly the outstanding ones. */
  ghost predicate Counted(s: System) {
    && s.record.pendingWriteRequests == |s.outstanding| + (if s.phase.Looping? then 1 else 0)
    && (s.record.pact <==> s.phase == Waiting)
    && s.record.processRequests == (if s.phase == Waiting && s.outstanding == {} then 1 else 0)
    && (s.phase == Idle ==> s.outstanding == {})
    && s.starts == |s.completions| + (if s.phase == Idle then 0 else 1)
  }

  /** What is marked as valid is what the device holds, and no write to it is on its way. */
  ghost predicate Faithful(cfg: Config, s: System)
    requires WellFormed(s.record)
  {
    forall i :: 0 <= i < |s.record.values| && s.record.lastValueWrittenValid[i] ==>
      i !in s.outstanding && DeviceValue(cfg, s, i) == s.record.lastValueWritten[i]
  }

  function Reached(s: System): nat {
    match s.phase
    case Idle => 0
    case Looping(next) => next
    case Waiting => |s.record.values|
  }

  /** While nothing has gone wrong, the elements that the cycle has come to are confirmed or on their way. */
  ghost predicate OnTheWay(s: System)
    requires WellFormed(s.record)
  {
    && Reached(s) <= |s.record.values| == |s.snapshot|
    && (s.phase.Looping? ==> s.record.values == s.snapshot)
    && (forall i :: i in s.outstanding ==> i < Reached(s))
    && forall i :: 0 <= i < Reached(s) ==>
         && s.record.lastValueWritten[i] == s.snapshot[i]
         && (s.record.lastValueWrittenValid[i] || i in s.outstanding || !s.record.writeSuccessful)
  }

  ghost predicate Inv(cfg: Config, s: System) {
    && WellFormed(s.record) && Fits(cfg, |s.record.values|) && cfg.verify
    && Counted(s) && Faithful(cfg, s) && OnTheWay(s)
  }

  lemma DistinctAddresses(cfg: Config, nelm: nat, i: nat, j: nat)
    requires Fits(cfg, nelm) && i < nelm && j < nelm && i != j
    ensures ElementAddress(cfg, i) != ElementAddress(cfg, j)
  {
    FitsElement(cfg, nelm, i);
    FitsElement(cfg, nelm, j);
  }

  lemma ElementKeepsInv(cfg: Config, s: System, s': System)
    requires Inv(cfg, s) && Takes(cfg, s, Element, s')
    ensures Inv(cfg, s')
  {
    var i := s.phase.next;
    assert i !in s.outstanding;
    assert forall j :: 0 <= j < |s.record.values| ==> DeviceValue(cfg, s', j) == DeviceValue(cfg, s, j);
  }

  lemma EffectKeepsInv(cfg: Config, s: System, i: nat, s': System)
    requires Inv(cfg, s) && Takes(cfg, s, Effect(i), s')
    ensures Inv(cfg, s')
  {
    forall j | 0 <= j < |s.record.values| && s.record.lastValueWrittenValid[j]
      ensures DeviceValue(cfg, s', j) == DeviceValue(cfg, s, j)
    {
      DistinctAddresses(cfg, |s.record.values|, i, j);
    }
  }

  lemma SucceedKeepsCounted(cfg: Config, s: System, i: nat, s': System)
    requires Counted(s) && Takes(cfg, s, Succeed(i), s')
    ensures Counted(s')
  {
    assert |s.outstanding - {i}| == |s.outstanding| - 1;
    assert s'.outstanding == {} <==> |s'.outstanding| == 0;
  }

  /** The callback finds its element, and what it reports decides. */
  lemma ConfirmFindsElement(cfg: Config, s: System, i: nat)
    requires WellFormed(s.record) && Fits(cfg, |s.record.values|) && cfg.verify && i < |s.record.values|
    ensures Confirm(cfg, s.record, ElementAddress(cfg, i), DeviceValue(cfg, s, i))
            == if s.record.lastValueWritten[i] == DeviceValue(cfg, s, i)
               then s.record.(lastValueWrittenValid := s.record.lastValueWrittenValid[i := true])
               else s.record.(writeSuccessful := false)
  {
    FitsElement(cfg, |s.record.values|, i);
  }

  lemma SucceedKeepsFaithful(cfg: Config, s: System, i: nat, s': System)
    requires WellFormed(s.record) && Fits(cfg, |s.record.values|) && cfg.verify && Faithful(cfg, s)
    requires Takes(cfg, s, Succeed(i), s')
    ensures Faithful(cfg, s')
  {
    ConfirmFindsElement(cfg, s, i);
    assert forall j :: 0 <= j < |s.record.values| ==> DeviceValue(cfg, s', j) == DeviceValue(cfg, s, j);
  }

  lemma SucceedKeepsOnTheWay(cfg: Config, s: System, i: nat, s': System)
    requires WellFormed(s.record) && Fits(cfg, |s.record.values|) && cfg.verify && OnTheWay(s)
    requires Takes(cfg, s, Succeed(i), s')
    ensures OnTheWay(s')
  {
    ConfirmFindsElement(cfg, s, i);
  }

  lemma SucceedKeepsInv(cfg: Config, s: System, i: nat, s': System)
    requires Inv(cfg, s) && Takes(cfg, s, Succeed(i), s')
    ensures Inv(cfg, s')
  {
    SucceedKeepsCounted(cfg, s, i, s');
    SucceedKeepsFaithful(cfg, s, i, s');
    SucceedKeepsOnTheWay(cfg, s, i, s');
  }

  lemma FailKeepsInv(cfg: Config, s: System, i: nat, s': System)
    requires Inv(cfg, s) && Takes(cfg, s, FailWrite(i), s')
    ensures Inv(cfg, s')
  {
    assert |s.outstanding - {i}| == |s.outstanding| - 1;
    assert forall j :: 0 <= j < |s.record.values| ==> DeviceValue(cfg, s', j) == DeviceValue(cfg, s, j);
  }

  lemma OtherStepKeepsInv(cfg: Config, s: System, step: Step, s': System)
    requires Inv(cfg, s) && Takes(cfg, s, step, s')
    requires step.Put? || step.StartCycle? || step.EndLoop? || step.Resume?
    ensures Inv(cfg, s')
  {
    assert forall j :: 0 <= j < |s.record.values| ==> DeviceValue(cfg, s', j) == DeviceValue(cfg, s, j);
  }

  lemma StepKeepsInv(cfg: Config, s: System, step: Step, s': System)
    requires Inv(cfg, s) && Takes(cfg, s, step, s')
    ensures Inv(cfg, s')
  {
    match step
    case Element =>
      ElementKeepsInv(cfg, s, s');
    case Effect(i) =>
      EffectKeepsInv(cfg, s, i, s');
    case Succeed(i) =>
      SucceedKeepsInv(cfg, s, i, s');
    case FailWrite(i) =>
      FailKeepsInv(cfg, s, i, s');
    case _ =>
      OtherStepKeepsInv(cfg, s, step, s');
  }

  ghost predicate Follows(cfg: Config, states: seq<System>, steps: seq<Step>) {
    && |states| == |steps| + 1
    && forall i {:trigger steps[i]} :: 0 <= i < |steps| ==> Takes(cfg, states[i], steps[i], states[i + 1])
  }

  ghost predicate IsRun(cfg: Config, states: seq<System>, steps: seq<Step>) {
    Follows(cfg, states, steps) && Init(cfg, states[0])
  }

  /** In every run a value that is marked as valid is the one that the device holds, each cycle that has started
      completes once, and it has done so unless it is still looping or waiting. */
  lemma {:induction false} RunKeepsInv(cfg: Config, states: seq<System>, steps: seq<Step>)
    requires IsRun(cfg, states, steps) && cfg.verify && Fits(cfg, |states[0].record.values|)
    ensures Inv(cfg, states[|steps|])
    decreases |steps|
  {
    if steps != [] {
      var n := |steps| - 1;
      RunKeepsInv(cfg, states[..n + 1], steps[..n]);
      StepKeepsInv(cfg, states[n], steps[n], states[n + 1]);
    }
  }

  /** A cycle that ends successfully leaves the device with the whole array, whether or not only changed elements
      are written. */
  lemma SuccessfulCycleWritesAll(cfg: Config, s: System, step: Step, s': System)
    requires Inv(cfg, s) && Takes(cfg, s, step, s')
    requires |s'.completions| > |s.completions| && s'.completions[|s'.completions| - 1]
    ensures forall i :: 0 <= i < |s'.record.values| ==> DeviceValue(cfg, s', i) == s.snapshot[i]
  {
    assert s.outstanding == {};
    forall i | 0 <= i < |s'.record.values|
      ensures DeviceValue(cfg, s', i) == s.snapshot[i]
    {
      assert s.record.lastValueWrittenValid[i];
      assert DeviceValue(cfg, s', i) == DeviceValue(cfg, s, i);
    }
  }

  /** The loop requests every element that is not marked as valid, and skips only what the device already holds. */
  lemma SkippedIsInDevice(cfg: Config, s: System, s': System)
    requires Inv(cfg, s) && Takes(cfg, s, Element, s')
    ensures !s.record.lastValueWrittenValid[s.phase.next] ==> s.phase.next in s'.outstanding
    ensures s.phase.next !in s'.outstanding ==>
              DeviceValue(cfg, s', s.phase.next) == s.snapshot[s.phase.next]
  {
  }

  // ----- what was not confirmed is sent again -----

  /** The callback for element e is a failure, or reports something else than what was written. */
  ghost predicate Fails(cfg: Config, s: System, step: Step, e: nat) {
    || step == FailWrite(e)
    || (step == Succeed(e) && e < |s.record.lastValueWritten| && DeviceValue(cfg, s, e) != s.record.lastValueWritten[e])
  }

  /** Element e has failed in cycle c, and the next cycle has not come to it yet. */
  ghost predicate Missed(s: System, e: nat, c: nat) {
    && WellFormed(s.record) && e < |s.record.values|
    && !s.record.lastValueWrittenValid[e] && e !in s.outstanding
    && (|| (s.starts == c && (s.phase.Looping? ==> e < s.phase.next))
        || (s.starts == c + 1 && s.phase.Looping? && s.phase.next <= e))
  }

  /** The loop of cycle c comes to element e and requests the value that the array holds for it. */
  ghost predicate Requests(s: System, step: Step, s': System, e: nat, c: nat) {
    && step == Element && s.phase == Looping(e) && s.starts == c && e in s'.outstanding
    && e < |s.record.values| && e < |s'.record.lastValueWritten|
    && s'.record.lastValueWritten[e] == s.record.values[e]
  }

  lemma FailureMisses(cfg: Config, s: System, step: Step, s': System, e: nat)
    requires Inv(cfg, s) && Takes(cfg, s, step, s') && Fails(cfg, s, step, e)
    ensures Missed(s', e, s.starts)
  {
    assert e in s.outstanding && e < |s.record.values|;
    ConfirmFindsElement(cfg, s, e);
  }

  /** The step leaves the element missed or requests it. */
  ghost predicate StaysOrRequests(s: System, step: Step, s': System, e: nat, c: nat) {
    Missed(s, e, c) ==> Missed(s', e, c) || Requests(s, step, s', e, c + 1)
  }

  lemma MissedWhileConfirming(cfg: Config, s: System, i: nat, s': System, e: nat, c: nat)
    requires Inv(cfg, s) && Takes(cfg, s, Succeed(i), s')
    ensures StaysOrRequests(s, Succeed(i), s', e, c)
  {
    ConfirmFindsElement(cfg, s, i);
  }

  lemma MissedInLoop(cfg: Config, s: System, s': System, e: nat, c: nat)
    requires Inv(cfg, s) && Takes(cfg, s, Element, s')
    ensures StaysOrRequests(s, Element, s', e, c)
  {
  }

  lemma MissedOtherwise(cfg: Config, s: System, step: Step, s': System, e: nat, c: nat)
    requires Inv(cfg, s) && Takes(cfg, s, step, s') && !step.Succeed? && !step.Element?
    ensures StaysOrRequests(s, step, s', e, c)
  {
  }

  lemma MissedUntilRequested(cfg: Config, s: System, step: Step, s': System, e: nat, c: nat)
    requires Inv(cfg, s) && Takes(cfg, s, step, s')
    ensures StaysOrRequests(s, step, s', e, c)
  {
    if step.Succeed? {
      MissedWhileConfirming(cfg, s, step.element, s', e, c);
    } else if step.Element? {
      MissedInLoop(cfg, s, s', e, c);
    } else {
      MissedOtherwise(cfg, s, step, s', e, c);
    }
  }

  lemma {:induction false} MissedOrRequested(states: seq<System>, steps: seq<Step>, i: nat, j: nat, e: nat, c: nat)
    requires i < j < |states| == |steps| + 1 && Missed(states[i + 1], e, c)
    requires forall k :: i < k < |steps| ==> StaysOrRequests(states[k], steps[k], states[k + 1], e, c)
    ensures Missed(states[j], e, c)
            || exists k :: i < k < j && Requests(states[k], steps[k], states[k + 1], e, c + 1)
  {
    if j > i + 1 {
      MissedOrRequested(states, steps, i, j - 1, e, c);
      assert StaysOrRequests(states[j - 1], steps[j - 1], states[j], e, c);
    }
  }

  lemma EveryStateKeepsInv(cfg: Config, states: seq<System>, steps: seq<Step>, k: nat)
    requires IsRun(cfg, states, steps) && cfg.verify && Fits(cfg, |states[0].record.values|) && k <= |steps|
    ensures Inv(cfg, states[k])
  {
    RunKeepsInv(cfg, states[..k + 1], steps[..k]);
  }

  /** In every run: an element whose write failed, or whose register read back as something else, is requested again
      by the next cycle, at the latest before that cycle leaves its loop. */
  lemma UnconfirmedIsSentAgain(cfg: Config, states: seq<System>, steps: seq<Step>, i: nat, j: nat, e: nat)
    requires IsRun(cfg, states, steps) && cfg.verify && Fits(cfg, |states[0].record.values|)
    requires i < j <= |steps| && Fails(cfg, states[i], steps[i], e)
    requires states[j].starts == states[i].starts + 1 && !states[j].phase.Looping?
    ensures exists k :: i < k < j && Requests(states[k], steps[k], states[k + 1], e, states[i].starts + 1)
  {
    forall k | 0 <= k < |steps|
      ensures StaysOrRequests(states[k], steps[k], states[k + 1], e, states[i].starts)
    {
      EveryStateKeepsInv(cfg, states, steps, k);
      MissedUntilRequested(cfg, states[k], steps[k], states[k + 1], e, states[i].starts);
    }
    EveryStateKeepsInv(cfg, states, steps, i);
    FailureMisses(cfg, states[i], steps[i], states[i + 1], e);
    MissedOrRequested(states, steps, i, j, e, states[i].starts);
  }

  // ----- the loop is what the record does -----

  /** The steps of a cycle whose loop no callback interrupts. */
  ghost predicate Uninterrupted(steps: seq<Step>, n: nat) {
    && |steps| == n + 2 && steps[0] == StartCycle && steps[n + 1] == EndLoop
    && forall k :: 0 < k <= n ==> steps[k] == Element
  }

  /** The loop has come to element i of a record that was r when it began. */
  ghost predicate LoopAt(cfg: Config, r: Record, s: System, i: nat) {
    && WellFormed(r) && i <= |r.values|
    && s.phase == Looping(i)
    && Prepared(cfg, r, s.record, i)
    && s.outstanding == set e | e in ElementsToWrite(cfg, r, i)
  }

  lemma LoopAdvances(cfg: Config, r: Record, s: System, s': System, i: nat)
    requires LoopAt(cfg, r, s, i) && i < |r.values| && Takes(cfg, s, Element, s')
    ensures LoopAt(cfg, r, s', i + 1)
  {
    PrepareNext(cfg, r, s.record, i);
    assert NeedsWrite(cfg, s.record, i) == NeedsWrite(cfg, r, i);
  }

  lemma {:induction false} LoopPrepares(cfg: Config, r: Record, states: seq<System>, steps: seq<Step>, i: nat)
    requires Follows(cfg, states, steps) && WellFormed(r) && Uninterrupted(steps, |r.values|)
    requires i <= |r.values| && LoopAt(cfg, r, states[1], 0)
    ensures LoopAt(cfg, r, states[i + 1], i)
  {
    if i > 0 {
      LoopPrepares(cfg, r, states, steps, i - 1);
      assert steps[i] == Element;
      LoopAdvances(cfg, r, states[i], states[i + 1], i - 1);
    }
  }

  /** At the end of the loop everything is prepared. */
  lemma LoopEnds(cfg: Config, states: seq<System>, steps: seq<Step>)
    requires Follows(cfg, states, steps) && Inv(cfg, states[0])
    requires Uninterrupted(steps, |states[0].record.values|)
    ensures
      var s, n := states[0], |states[0].record.values|;
      && !s.record.pact
      && LoopAt(cfg, Begin(s.record), states[n + 1], n)
      && Takes(cfg, states[n + 1], EndLoop, states[|steps|])
  {
    assert steps[0] == StartCycle && steps[|states[0].record.values| + 1] == EndLoop;
    LoopPrepares(cfg, Begin(states[0].record), states, steps, |states[0].record.values|);
  }

  lemma EndIsProcessRecord(cfg: Config, s: System, t: System, s': System, r': Record, requests: seq<(UInt32, UInt32)>)
    requires WellFormed(s.record) && !s.record.pact && Started(cfg, s.record, r', requests)
    requires LoopAt(cfg, Begin(s.record), t, |s.record.values|) && Takes(cfg, t, EndLoop, s')
    ensures
      var elements := ElementsToWrite(cfg, s.record, |s.record.values|);
      && s'.record == r' && s'.outstanding == (set e | e in elements)
      && s'.phase == (if requests == [] then Idle else Waiting)
  {
    SameElements(cfg, s.record, Begin(s.record), |s.record.values|);
    PreparedStarts(cfg, s.record, t.record, requests);
    StartedOnce(cfg, s.record, End(t.record), r', requests);
  }

  /** Such a cycle does exactly what the processing of the record is proved to do: whatever record and requests
      `ProcessRecord` returns are the record and the outstanding elements at the end of the loop. */
  lemma LoopIsProcessRecord(cfg: Config, states: seq<System>, steps: seq<Step>, r': Record,
                            requests: seq<(UInt32, UInt32)>)
    requires Follows(cfg, states, steps) && Inv(cfg, states[0])
    requires Uninterrupted(steps, |states[0].record.values|) && Started(cfg, states[0].record, r', requests)
    ensures
      var s, s' := states[0], states[|steps|];
      var elements := ElementsToWrite(cfg, s.record, |s.record.values|);
      && s'.record == r'
      && s'.outstanding == (set e | e in elements)
      && RequestsFor(cfg, s.record.values, elements, requests)
      && s'.phase == (if requests == [] then Idle else Waiting)
  {
    LoopEnds(cfg, states, steps);
    EndIsProcessRecord(cfg, states[0], states[|steps| - 1], states[|steps|], r', requests);
  }

  lemma StartedOnce(cfg: Config, r: Record, r1: Record, r2: Record, requests: seq<(UInt32, UInt32)>)
    requires WellFormed(r) && Started(cfg, r, r1, requests) && Started(cfg, r, r2, requests)
    ensures r1 == r2
  {
    assert r1.lastValueWrittenValid == r2.lastValueWrittenValid;
  }

  /** While a cycle waits, exactly one more processing comes: it is requested when the last callback has come. */
  lemma WaitingEnds(cfg: Config, s: System)
    requires Inv(cfg, s) && s.phase == Waiting
    ensures (s.record.processRequests == 1) <==> s.outstanding == {}
    ensures s.outstanding != {} ==> exists i :: CanCallBack(s, i)
  {
    if s.outstanding != {} {
      var i :| i in s.outstanding;
      assert CanCallBack(s, i);
    }
  }
}
