/**
 The record that passes interrupts on: a bounded queue between the interrupt listener and the processing of the
 record. Each block that holds the mutex is one method.
 */
module InterruptRecord {

  type Bit = b: int | 0 <= b < 32

  // A 32-bit number of interrupt flags, as the set of the bits that are set.
  type Flags = set<Bit>

  const QUEUE_LIMIT: nat := 1024

  /** How an interrupt left the queue: it was put into the record, the queue was full when another one arrived, or
      another one arrived outside of the I/O Intr mode. */
  datatype Fate = Delivered | Overflowed | Superseded

  datatype Removal = Removal(flags: Flags, fate: Fate)

  /** History: what was accepted, and what has left the queue again. */
  datatype Record = Record(
    queue: seq<Flags>,
    modeEnabled: bool,
    mask: Flags,
    accepted: seq<Flags>,
    removed: seq<Removal>)

  function Gone(queue: seq<Flags>, fate: Fate): seq<Removal> {
    seq(|queue|, i requires 0 <= i < |queue| => Removal(queue[i], fate))
  }

  function FlagsOf(removed: seq<Removal>): seq<Flags> {
    seq(|removed|, i requires 0 <= i < |removed| => removed[i].flags)
  }

  // ----- the interrupt listener -----

  /** How many of the oldest interrupts make room for a new one. */
  function Room(r: Record): (n: nat)
    ensures n <= |r.queue|
  {
    if r.modeEnabled then (if |r.queue| >= QUEUE_LIMIT then |r.queue| - QUEUE_LIMIT + 1 else 0) else |r.queue|
  }

  /** An interrupt is queued, and the oldest ones make room for it. */
  function Accept(r: Record, flags: Flags): Record {
    var n := Room(r);
    r.(queue := r.queue[n..] + [flags],
       accepted := r.accepted + [flags],
       removed := r.removed + Gone(r.queue[..n], if r.modeEnabled then Overflowed else Superseded))
  }

  /** Interrupts without a flag of the mask are ignored. */
  function Listen(r: Record, flags: Flags): Record {
    if flags * r.mask == {} then r else Accept(r, flags * r.mask)
  }

  predicate ListenRequestsScan(r: Record, flags: Flags) {
    flags * r.mask != {} && r.modeEnabled && r.queue == []
  }

  // ----- the mode -----

  function SetMode(r: Record, command: int): Record {
    r.(modeEnabled := command == 0)
  }

  predicate SetModeRequestsScan(r: Record, command: int) {
    command == 0 && r.queue != []
  }

  // ----- processing -----

  function Take(r: Record): Record {
    if r.queue == [] then r
    else r.(queue := r.queue[1..], removed := r.removed + [Removal(r.queue[0], Delivered)])
  }

  function TakenValue(r: Record): Flags {
    if r.queue == [] then {} else r.queue[0]
  }

  predicate TakeRequestsScan(r: Record) {
    |r.queue| > 1 && r.modeEnabled
  }

  class MrfInterruptRecord {
    const interruptFlagsMask: Flags
    var interruptFlagsQueue: seq<Flags>
    var interruptModeEnabled: bool
    ghost var accepted: seq<Flags>
    ghost var removed: seq<Removal>

    ghost function State(): Record
      reads this
    {
      Record(interruptFlagsQueue, interruptModeEnabled, interruptFlagsMask, accepted, removed)
    }

    constructor (mask: Flags)
      ensures State() == Record([], false, mask, [], [])
    {
      interruptFlagsMask := mask;
      interruptFlagsQueue, interruptModeEnabled := [], false;
      accepted, removed := [], [];
    }

    /** Pops the oldest interrupts until the queue is no longer than the limit. */
    method PopDownTo(limit: nat, ghost fate: Fate)
      modifies this`interruptFlagsQueue, this`removed
      ensures
        var n := if |old(interruptFlagsQueue)| > limit then |old(interruptFlagsQueue)| - limit else 0;
        && interruptFlagsQueue == old(interruptFlagsQueue)[n..]
        && removed == old(removed) + Gone(old(interruptFlagsQueue)[..n], fate)
    {
      ghost var popped := 0;
      while |interruptFlagsQueue| > limit
        invariant popped <= |old(interruptFlagsQueue)|
        invariant popped > 0 ==> |interruptFlagsQueue| >= limit
        invariant interruptFlagsQueue == old(interruptFlagsQueue)[popped..]
        invariant removed == old(removed) + Gone(old(interruptFlagsQueue)[..popped], fate)
        decreases |interruptFlagsQueue|
      {
        removed := removed + [Removal(interruptFlagsQueue[0], fate)];
        interruptFlagsQueue := interruptFlagsQueue[1..];
        popped := popped + 1;
      }
    }

    method MakeRoom()
      modifies this`interruptFlagsQueue, this`removed
      ensures
        var n := Room(old(State()));
        && interruptFlagsQueue == old(interruptFlagsQueue)[n..]
        && removed == old(removed) + Gone(old(interruptFlagsQueue)[..n],
                                          if interruptModeEnabled then Overflowed else Superseded)
    {
      if interruptModeEnabled {
        PopDownTo(QUEUE_LIMIT - 1, Overflowed);
      } else {
        PopDownTo(0, Superseded);
      }
    }

    method OnInterrupt(interruptFlags: Flags) returns (doScanIoRequest: bool)
      modifies this
      ensures State() == Listen(old(State()), interruptFlags)
      ensures doScanIoRequest == ListenRequestsScan(old(State()), interruptFlags)
    {
      var flags := interruptFlags * interruptFlagsMask;
      if flags == {} {
        return false;
      }
      doScanIoRequest := interruptModeEnabled && interruptFlagsQueue == [];
      MakeRoom();
      interruptFlagsQueue := interruptFlagsQueue + [flags];
      accepted := accepted + [flags];
    }

    method GetInterruptInfo(command: int) returns (triggerProcessing: bool)
      modifies this`interruptModeEnabled
      ensures State() == SetMode(old(State()), command)
      ensures triggerProcessing == SetModeRequestsScan(old(State()), command)
    {
      triggerProcessing := false;
      if command == 0 {
        interruptModeEnabled := true;
        triggerProcessing := interruptFlagsQueue != [];
      } else {
        interruptModeEnabled := false;
      }
    }

    method ProcessRecord() returns (interruptFlags: Flags, doScanIoRequest: bool)
      modifies this
      ensures State() == Take(old(State()))
      ensures interruptFlags == TakenValue(old(State()))
      ensures doScanIoRequest == TakeRequestsScan(old(State()))
    {
      if interruptFlagsQueue == [] {
        interruptFlags, doScanIoRequest := {}, false;
      } else {
        interruptFlags := interruptFlagsQueue[0];
        removed := removed + [Removal(interruptFlags, Delivered)];
        interruptFlagsQueue := interruptFlagsQueue[1..];
        doScanIoRequest := interruptFlagsQueue != [] && interruptModeEnabled;
      }
    }
  }

  // ----- the queue -----

  /** Everything that was accepted has either left, in the order of arrival, or is still in the queue. */
  ghost predicate Conserved(r: Record) {
    FlagsOf(r.removed) + r.queue == r.accepted && |r.queue| <= QUEUE_LIMIT
  }

  lemma FlagsOfGone(removed: seq<Removal>, queue: seq<Flags>, fate: Fate)
    ensures FlagsOf(removed + Gone(queue, fate)) == FlagsOf(removed) + queue
  {
  }

  lemma AcceptConserves(r: Record, flags: Flags)
    requires Conserved(r)
    ensures Conserved(Accept(r, flags))
  {
    var n := Room(r);
    FlagsOfGone(r.removed, r.queue[..n], if r.modeEnabled then Overflowed else Superseded);
    assert r.queue == r.queue[..n] + r.queue[n..];
  }

  lemma ListenConserves(r: Record, flags: Flags)
    requires Conserved(r)
    ensures Conserved(Listen(r, flags))
  {
    AcceptConserves(r, flags * r.mask);
  }

  /** In the I/O Intr mode an interrupt is lost only if the queue is full, and then it is the oldest one alone. */
  lemma OverflowDropsOldestWhenFull(r: Record, flags: Flags)
    requires Conserved(r) && r.modeEnabled
    ensures Listen(r, flags).removed
            == if flags * r.mask != {} && |r.queue| == QUEUE_LIMIT
               then r.removed + [Removal(r.queue[0], Overflowed)] else r.removed
  {
    var n := Room(r);
    assert Gone(r.queue[..n], Overflowed) == if n == 1 then [Removal(r.queue[0], Overflowed)] else [];
  }

  lemma TakeConserves(r: Record)
    requires Conserved(r)
    ensures Conserved(Take(r))
  {
    if r.queue != [] {
      var last := [Removal(r.queue[0], Delivered)];
      assert FlagsOf(r.removed + last) == FlagsOf(r.removed) + [r.queue[0]];
      assert r.queue == [r.queue[0]] + r.queue[1..];
    }
  }

  /** The values that the record has shown for interrupts. */
  function DeliveredOf(removed: seq<Removal>): seq<Flags> {
    if removed == [] then []
    else
      var rest := DeliveredOf(removed[..|removed| - 1]);
      var last := removed[|removed| - 1];
      if last.fate == Delivered then rest + [last.flags] else rest
  }

  /** How many interrupts have left the queue with a given fate. */
  function CountOf(removed: seq<Removal>, fate: Fate): nat {
    if removed == [] then 0
    else CountOf(removed[..|removed| - 1], fate) + if removed[|removed| - 1].fate == fate then 1 else 0
  }

  lemma {:induction false} FatesAddUp(removed: seq<Removal>)
    ensures CountOf(removed, Delivered) + CountOf(removed, Overflowed) + CountOf(removed, Superseded) == |removed|
    ensures CountOf(removed, Delivered) == |DeliveredOf(removed)|
  {
    if removed != [] {
      FatesAddUp(removed[..|removed| - 1]);
    }
  }

  /** Accepted = delivered + dropped + queued. */
  lemma CountsAddUp(r: Record)
    requires Conserved(r)
    ensures |r.accepted| == |DeliveredOf(r.removed)| + CountOf(r.removed, Overflowed)
                            + CountOf(r.removed, Superseded) + |r.queue|
  {
    FatesAddUp(r.removed);
  }
}
