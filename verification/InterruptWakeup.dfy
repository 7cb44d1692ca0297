/**
 The interrupt record under every interleaving of interrupts, changes of the mode, and processing. Requests for a
 scan are made after the mutex was released, so they may come late.
 */
module InterruptWakeup {
  import opened InterruptRecord

  datatype Processing = Idle | Started | Taken(value: Flags, scanAgain: bool)

  /** listenerRequests and modeRequest stand for scans that are about to be requested. Processing and the change of
      the mode hold the lock of the record. */
  datatype System = System(
    record: Record,
    scanRequested: bool,
    listenerRequests: nat,
    modeRequest: bool,
    processing: Processing)

  datatype Step =
    | Interrupt(flags: Flags)
    | ListenerRequestsScan
    | ChangeMode(command: int)
    | ModeRequestsScan
    | StartScan
    | StartOther
    | IgnoreScan
    | TakeInterrupt
    | FinishProcessing

  ghost predicate Takes(s: System, step: Step, s': System) {
    match step
    case Interrupt(flags) =>
      s' == s.(record := Listen(s.record, flags),
               listenerRequests := s.listenerRequests + if ListenRequestsScan(s.record, flags) then 1 else 0)
    case ListenerRequestsScan =>
      s.listenerRequests > 0 && s' == s.(listenerRequests := s.listenerRequests - 1, scanRequested := true)
    case ChangeMode(command) =>
      && s.processing == Idle && !s.modeRequest
      && s' == s.(record := SetMode(s.record, command), modeRequest := SetModeRequestsScan(s.record, command))
    case ModeRequestsScan =>
      s.modeRequest && s' == s.(modeRequest := false, scanRequested := true)
    case StartScan =>
      // Only a record in the I/O Intr mode is processed because of a scan request.
      && s.scanRequested && s.record.modeEnabled && s.processing == Idle && !s.modeRequest
      && s' == s.(scanRequested := false, processing := Started)
    case StartOther =>
      s.processing == Idle && !s.modeRequest && s' == s.(processing := Started)
    case IgnoreScan =>
      s.scanRequested && !s.record.modeEnabled && s' == s.(scanRequested := false)
    case TakeInterrupt =>
      && s.processing == Started
      && s' == s.(record := Take(s.record),
                  processing := Taken(TakenValue(s.record), TakeRequestsScan(s.record)))
    case FinishProcessing =>
      && s.processing.Taken?
      && s' == s.(processing := Idle, scanRequested := s.scanRequested || s.processing.scanAgain)
  }

  ghost predicate Init(s: System) {
    && s.record.queue == [] && s.record.accepted == [] && s.record.removed == [] && !s.record.modeEnabled
    && !s.scanRequested && s.listenerRequests == 0 && !s.modeRequest && s.processing == Idle
  }

  /** A scan is requested, about to be requested, or the record is being processed and will take an interrupt or
      ask for another scan. */
  ghost predicate Woken(s: System) {
    || s.scanRequested || s.listenerRequests > 0 || s.modeRequest || s.processing == Started
    || (s.processing.Taken? && s.processing.scanAgain)
  }

  /** No wakeup is lost: in the I/O Intr mode, queued interrupts are going to be processed. */
  ghost predicate Inv(s: System) {
    && (s.record.modeEnabled && s.record.queue != [] ==> Woken(s))
    && Conserved(s.record)
  }

  lemma StepKeepsInv(s: System, step: Step, s': System)
    requires Inv(s) && Takes(s, step, s')
    ensures Inv(s')
  {
    match step
    case Interrupt(flags) =>
      ListenConserves(s.record, flags);
    case TakeInterrupt =>
      TakeConserves(s.record);
    case _ =>
  }

  ghost predicate IsRun(states: seq<System>, steps: seq<Step>) {
    && |states| == |steps| + 1
    && Init(states[0])
    && forall i {:trigger steps[i]} :: 0 <= i < |steps| ==> Takes(states[i], steps[i], states[i + 1])
  }

  /** In every run: no lost wakeup, at most 1024 interrupts queued, none lost silently and all in order. */
  lemma {:induction false} RunKeepsInv(states: seq<System>, steps: seq<Step>)
    requires IsRun(states, steps)
    ensures Inv(states[|steps|])
    decreases |steps|
  {
    if steps != [] {
      var n := |steps| - 1;
      RunKeepsInv(states[..n + 1], steps[..n]);
      StepKeepsInv(states[n], steps[n], states[n + 1]);
    }
  }

  // ----- queued interrupts reach the record -----

  /** Steps that need neither an interrupt nor a user. */
  predicate Internal(step: Step) {
    step.ListenerRequestsScan? || step.ModeRequestsScan? || step.StartScan? || step.TakeInterrupt?
    || step.FinishProcessing?
  }

  /** While interrupts are queued in the I/O Intr mode, something can happen on its own. */
  lemma NotStuck(s: System)
    requires Inv(s) && s.record.modeEnabled && s.record.queue != []
    ensures exists step, s' :: Internal(step) && Takes(s, step, s')
  {
    if s.modeRequest {
      assert Takes(s, ModeRequestsScan, s.(modeRequest := false, scanRequested := true));
    } else if s.listenerRequests > 0 {
      assert Takes(s, ListenerRequestsScan, s.(listenerRequests := s.listenerRequests - 1, scanRequested := true));
    } else {
      match s.processing
      case Idle =>
        assert Takes(s, StartScan, s.(scanRequested := false, processing := Started));
      case Started =>
        assert Takes(s, TakeInterrupt,
                     s.(record := Take(s.record),
                        processing := Taken(TakenValue(s.record), TakeRequestsScan(s.record))));
      case Taken(_, scanAgain) =>
        assert Takes(s, FinishProcessing, s.(processing := Idle, scanRequested := s.scanRequested || scanAgain));
    }
  }

  function Requests(s: System): nat {
    s.listenerRequests + if s.modeRequest then 1 else 0
  }

  function Stage(processing: Processing): nat {
    match processing
    case Taken(_, _) => 2
    case Idle => 1
    case Started => 0
  }

  /** And whatever happens on its own comes nearer to an empty queue: the measure falls lexicographically. */
  lemma InternalStepsDrain(s: System, step: Step, s': System)
    requires Takes(s, step, s') && Internal(step) && s.record.queue != []
    ensures || |s'.record.queue| < |s.record.queue|
            || (|s'.record.queue| == |s.record.queue|
                && (Requests(s') < Requests(s)
                    || (Requests(s') == Requests(s) && Stage(s'.processing) < Stage(s.processing))))
  {
  }

  /** Within one period of the I/O Intr mode only full queues lose interrupts. */
  lemma {:induction false} OnlyOverflowsInModePeriod(states: seq<System>, steps: seq<Step>, k: nat)
    requires IsRun(states, steps) && k <= |steps|
    requires forall i :: k <= i <= |steps| ==> states[i].record.modeEnabled
    ensures CountOf(states[|steps|].record.removed, Superseded) == CountOf(states[k].record.removed, Superseded)
    decreases |steps|
  {
    if k < |steps| {
      var n := |steps| - 1;
      OnlyOverflowsInModePeriod(states[..n + 1], steps[..n], k);
      assert Takes(states[n], steps[n], states[n + 1]);
      var r := states[n].record;
      match steps[n]
      case Interrupt(flags) =>
        RunKeepsInv(states[..n + 1], steps[..n]);
        OverflowDropsOldestWhenFull(r, flags);
        if flags * r.mask != {} && |r.queue| == QUEUE_LIMIT {
          OneMore(r.removed, Removal(r.queue[0], Overflowed), Superseded);
        }
      case TakeInterrupt =>
        if r.queue != [] {
          OneMore(r.removed, Removal(r.queue[0], Delivered), Superseded);
        }
      case _ =>
    }
  }

  lemma OneMore(removed: seq<Removal>, last: Removal, fate: Fate)
    ensures CountOf(removed + [last], fate) == CountOf(removed, fate) + if last.fate == fate then 1 else 0
  {
    assert (removed + [last])[..|removed|] == removed;
  }
}
