/**
 The interrupt record while it joins the scan list. EPICS adds a record to the list of the I/O Intr records only after
 `getInterruptInfo` has returned, and that function has already requested the scan for what is queued. A scan that
 passes over the list in between does not process the record.
 */
module InterruptJoining {
  import opened InterruptRecord
  import opened InterruptWakeup

  /** A record that is joining has its mode switched on, but is not in the list yet. */
  datatype Listing = Listing(system: System, joining: bool)

  datatype ListingStep =
    | Other(step: Step)
    | MissScan
    | Join

  /** Joining holds the lock of the record, like processing and the change of the mode. */
  ghost predicate Moves(l: Listing, step: ListingStep, l': Listing) {
    match step
    case Other(s) =>
      && Takes(l.system, s, l'.system)
      && (l.joining ==> !s.ChangeMode? && !s.StartScan? && !s.StartOther?)
      && l'.joining == (l.joining || s == ChangeMode(0))
    case MissScan =>
      && l.joining && l.system.scanRequested
      && l' == l.(system := l.system.(scanRequested := false))
    case Join =>
      l.joining && !l.system.modeRequest && l' == l.(joining := false)
  }

  ghost predicate InitListing(l: Listing) {
    Init(l.system) && !l.joining
  }

  ghost predicate JoiningIsIdle(l: Listing) {
    l.joining ==> l.system.processing == Idle && l.system.record.modeEnabled
  }

  /** Interrupts are queued in the I/O Intr mode, but nothing is going to process them. */
  ghost predicate Lost(l: Listing) {
    l.system.record.modeEnabled && l.system.record.queue != [] && !Woken(l.system)
  }

  /** The scan that passes over the list is the last one that was going to look at the queued interrupts. */
  predicate Loses(l: Listing, step: ListingStep) {
    && step == MissScan && l.system.record.queue != []
    && l.system.listenerRequests == 0 && !l.system.modeRequest
  }

  /** Somebody processes the record for another reason, or switches the mode. */
  predicate Helps(step: ListingStep) {
    step.Other? && (step.step.StartOther? || step.step.ChangeMode?)
  }

  lemma MoveKeepsQueue(l: Listing, step: ListingStep, l': Listing)
    requires Moves(l, step, l') && Conserved(l.system.record) && JoiningIsIdle(l)
    ensures Conserved(l'.system.record) && JoiningIsIdle(l')
  {
    if step.Other? {
      match step.step
      case Interrupt(flags) => ListenConserves(l.system.record, flags);
      case TakeInterrupt => TakeConserves(l.system.record);
      case _ =>
    }
  }

  /** A wakeup is lost in a step if and only if a scan misses the record and no other one was on its way. */
  lemma MoveLosesWakeup(l: Listing, step: ListingStep, l': Listing)
    requires Moves(l, step, l') && Conserved(l.system.record) && JoiningIsIdle(l)
    ensures Lost(l') <==> Loses(l, step) || (Lost(l) && !Helps(step))
  {
    if step.Other? && !Lost(l) {
      StepKeepsInv(l.system, step.step, l'.system);
    }
  }

  ghost predicate IsListingRun(states: seq<Listing>, steps: seq<ListingStep>) {
    && |states| == |steps| + 1
    && InitListing(states[0])
    && forall i {:trigger steps[i]} :: 0 <= i < |steps| ==> Moves(states[i], steps[i], states[i + 1])
  }

  lemma {:induction false} ListingRunKeepsQueue(states: seq<Listing>, steps: seq<ListingStep>)
    requires IsListingRun(states, steps)
    ensures Conserved(states[|steps|].system.record) && JoiningIsIdle(states[|steps|])
    decreases |steps|
  {
    if steps != [] {
      var n := |steps| - 1;
      ListingRunKeepsQueue(states[..n + 1], steps[..n]);
      MoveKeepsQueue(states[n], steps[n], states[n + 1]);
    }
  }

  /** Step k loses the wakeup, and up to the end of the run nobody helps. */
  ghost predicate LostSince(states: seq<Listing>, steps: seq<ListingStep>, k: nat)
    requires k < |steps| < |states|
  {
    Loses(states[k], steps[k]) && forall j :: k < j < |steps| ==> !Helps(steps[j])
  }

  lemma LostSinceLastStep(states: seq<Listing>, steps: seq<ListingStep>, k: nat)
    requires k + 1 < |steps| < |states|
    ensures var n := |steps| - 1;
            LostSince(states, steps, k) <==> LostSince(states[..n + 1], steps[..n], k) && !Helps(steps[n])
  {
    assert forall j :: k < j < |steps| - 1 ==> steps[..|steps| - 1][j] == steps[j];
  }

  /** In every run, queued interrupts wait without a wakeup if and only if a scan missed the record while it was
      joining, no other request was on its way then, and since then nobody has processed it for another reason. */
  lemma {:induction false} LostExactlySinceMissedScan(states: seq<Listing>, steps: seq<ListingStep>)
    requires IsListingRun(states, steps)
    ensures Lost(states[|steps|]) <==> exists k :: 0 <= k < |steps| && LostSince(states, steps, k)
    decreases |steps|
  {
    if steps != [] {
      var n := |steps| - 1;
      var before, done := states[..n + 1], steps[..n];
      LostExactlySinceMissedScan(before, done);
      ListingRunKeepsQueue(before, done);
      MoveLosesWakeup(states[n], steps[n], states[n + 1]);
      forall k | 0 <= k < n
        ensures LostSince(states, steps, k) <==> LostSince(before, done, k) && !Helps(steps[n])
      {
        LostSinceLastStep(states, steps, k);
      }
      assert LostSince(states, steps, n) <==> Loses(states[n], steps[n]);
    }
  }

  /** A record that has lost its wakeup shows no interrupt on its own, and further ones do not wake it. */
  lemma LostIsStuck(l: Listing, step: ListingStep, l': Listing)
    requires Lost(l) && JoiningIsIdle(l) && Conserved(l.system.record) && Moves(l, step, l')
    ensures Helps(step) || (Lost(l') && step != Other(TakeInterrupt) && step != Other(StartScan))
  {
    MoveLosesWakeup(l, step, l');
  }

  /** An interrupt arrives before the mode is switched on, and a scan passes over the list before the record is in it:
      the interrupt stays in the queue. */
  lemma WakeupCanBeLost(mask: Flags, flag: Bit) returns (states: seq<Listing>, steps: seq<ListingStep>)
    requires flag in mask
    ensures IsListingRun(states, steps) && Lost(states[|steps|]) && !states[|steps|].joining
    ensures states[|steps|].system.record.queue == [{flag}]
  {
    var flags := {flag};
    assert flags * mask == flags;
    var off := Record([], false, mask, [], []);
    var queued := Listen(off, flags);
    assert queued.queue == [flags] && !queued.modeEnabled;
    var on := SetMode(queued, 0);
    var s0 := Listing(System(off, false, 0, false, Idle), false);
    var s1 := Listing(System(queued, false, 0, false, Idle), false);
    var s2 := Listing(System(on, false, 0, true, Idle), true);
    var s3 := Listing(System(on, true, 0, false, Idle), true);
    var s4 := Listing(System(on, false, 0, false, Idle), true);
    var s5 := Listing(System(on, false, 0, false, Idle), false);
    states := [s0, s1, s2, s3, s4, s5];
    steps := [Other(Interrupt(flags)), Other(ChangeMode(0)), Other(ModeRequestsScan), MissScan, Join];
    assert Moves(s0, steps[0], s1);
    assert Moves(s1, steps[1], s2);
    assert Moves(s2, steps[2], s3);
    assert Moves(s3, steps[3], s4);
    assert Moves(s4, steps[4], s5);
  }
}
