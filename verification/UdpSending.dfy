/** The send thread keeps the invariant of the UDP client. */
module UdpSending {
  import opened Common
  import opened UdpArithmetic
  import opened UdpState
  import opened UdpContainers
  import opened UdpInvariants

  // ----- sending -----

  /** Whether a request waits to be sent, for the first time or again. */
  ghost predicate IsNext(q: Queues, id: nat, first: bool) {
    if first then q.newRequests != [] && q.newRequests[0] == id
    else q.retransmitRequests != [] && q.retransmitRequests[0] == id
  }

  /** The packet went out: the request is the last one in flight and has left the queue that it waited in. */
  function Launched(q: Queues, id: nat, now: Time, first: bool): Queues
    requires if first then q.newRequests != [] else q.retransmitRequests != []
  {
    q.(requests := q.requests[id := RecordSend(At(q.requests, id), q, now)],
       nextRef := NextRef(q.nextRef),
       sendCount := q.sendCount + 1,
       refToRequest := q.refToRequest[q.nextRef := id],
       requestsByLastTransmission := q.requestsByLastTransmission + [id],
       requestsByFirstTransmission :=
         if first then q.requestsByFirstTransmission + [id] else q.requestsByFirstTransmission,
       newRequests := if first then q.newRequests[1..] else q.newRequests,
       retransmitRequests := if first then q.retransmitRequests else q.retransmitRequests[1..])
  }

  ghost predicate QueueWindow(q: Queues) {
    forall x, ref :: IsSent(q, x) && ref in At(q.requests, x).sendTime ==>
      q.sendCount - At(q.requests, x).sendTime[ref].seqNumber <= MAX_DISTANCE
  }

  /** The next reference is free. */
  lemma NextRefUnused(q: Queues, answered: set<nat>, clock: Time)
    requires Consistent(q, answered, clock)
    ensures q.nextRef !in q.refToRequest
  {
    if q.nextRef in q.refToRequest {
      var x := q.refToRequest[q.nextRef];
      assert PacketNumbered(q, answered, At(q.requests, x), q.nextRef);
      var n := At(q.requests, x).sendTime[q.nextRef].seqNumber;
      RefsDiffer(q.sendCount, n);
    }
  }

  /** No request in the sets of sent requests was sent later than now. */
  lemma SendAppends(q: Queues, clock: Time, id: nat, now: Time, first: bool)
    requires Partition(q) && Ordered(q, clock) && clock <= now && IsNext(q, id, first)
    requires first <==> At(q.requests, id).sendTime == map[]
    ensures
      var heap := q.requests[id := RecordSend(At(q.requests, id), q, now)];
      && Insert(heap, ByLastSend, q.requestsByLastTransmission, id) == q.requestsByLastTransmission + [id]
      && (first ==>
            Insert(heap, ByFirstSend, q.requestsByFirstTransmission, id) == q.requestsByFirstTransmission + [id])
  {
    var heap := q.requests[id := RecordSend(At(q.requests, id), q, now)];
    LaunchedMembers(q, id, now, first);
    assert forall x :: x in q.requestsByLastTransmission ==> IsSent(q, x) && x != id;
    InsertAppends(heap, ByLastSend, q.requestsByLastTransmission, id);
    if first {
      InsertAppends(heap, ByFirstSend, q.requestsByFirstTransmission, id);
    }
  }

  /** Sending appends to the sets of sent requests. */
  lemma SendLaunches(q: Queues, answered: set<nat>, clock: Time, id: nat, now: Time, first: bool)
    requires Consistent(q, answered, clock) && clock <= now && IsNext(q, id, first)
    ensures
      var sent := TrySendRequest(q, id, Sends(now));
      Launched(q, id, now, first) ==
        if first then sent.(newRequests := sent.newRequests[1..])
        else sent.(retransmitRequests := sent.retransmitRequests[1..])
  {
    NextRefUnused(q, answered, clock);
    FirstMeansNeverSent(q, answered, id, first);
    SendAppends(q, clock, id, now, first);
    AppendingLaunches(q, id, now, first);
  }

  lemma AppendingLaunches(q: Queues, id: nat, now: Time, first: bool)
    requires IsNext(q, id, first) && q.nextRef !in q.refToRequest
    requires first <==> At(q.requests, id).sendTime == map[]
    requires
      var heap := q.requests[id := RecordSend(At(q.requests, id), q, now)];
      && Insert(heap, ByLastSend, q.requestsByLastTransmission, id) == q.requestsByLastTransmission + [id]
      && (first ==>
            Insert(heap, ByFirstSend, q.requestsByFirstTransmission, id) == q.requestsByFirstTransmission + [id])
    ensures
      var sent := TrySendRequest(q, id, Sends(now));
      Launched(q, id, now, first) ==
        if first then sent.(newRequests := sent.newRequests[1..])
        else sent.(retransmitRequests := sent.retransmitRequests[1..])
  {
  }

  lemma LaunchedMembers(q: Queues, id: nat, now: Time, first: bool)
    requires Partition(q) && IsNext(q, id, first)
    ensures forall x :: IsSent(Launched(q, id, now, first), x) <==> IsSent(q, x) || x == id
    ensures forall x :: x in Launched(q, id, now, first).newRequests ==> x in q.newRequests && x != id
    ensures id !in q.requestsByLastTransmission && id in q.requests
    ensures first ==> id !in q.requestsByFirstTransmission && !IsSent(q, id)
    ensures !first ==> IsSent(q, id) && id !in q.newRequests
  {
    var q' := Launched(q, id, now, first);
    assert first ==> id in q.newRequests;
    assert !first ==> id in q.retransmitRequests;
    assert forall x :: x in q.retransmitRequests && !first ==> x == id || x in q.retransmitRequests[1..];
    assert forall x :: x in q'.retransmitRequests ==> x in q.retransmitRequests;
    assert forall x :: x in q'.newRequests ==> x in q.newRequests;
  }

  lemma LaunchKeepsPartition(q: Queues, id: nat, now: Time, first: bool)
    requires Partition(q) && IsNext(q, id, first)
    ensures Partition(Launched(q, id, now, first))
  {
    LaunchedMembers(q, id, now, first);
    var q' := Launched(q, id, now, first);
    assert forall i :: 0 <= i < |q.requestsByLastTransmission| ==>
        q.requestsByLastTransmission[i] in q.requestsByLastTransmission;
    assert forall i :: 0 <= i < |q.requestsByFirstTransmission| ==>
        q.requestsByFirstTransmission[i] in q.requestsByFirstTransmission;
    assert id !in q'.retransmitRequests;
  }

  lemma LaunchKeepsOrdered(q: Queues, answered: set<nat>, clock: Time, id: nat, now: Time, first: bool)
    requires Consistent(q, answered, clock) && clock <= now && IsNext(q, id, first)
    ensures Ordered(Launched(q, id, now, first), now)
  {
    FirstMeansNeverSent(q, answered, id, first);
    LaunchKeepsLastOrder(q, answered, clock, id, now, first);
    LaunchKeepsOtherOrders(q, clock, id, now, first);
    LaunchKeepsTimes(q, clock, id, now, first);
  }

  lemma LaunchKeepsTimes(q: Queues, clock: Time, id: nat, now: Time, first: bool)
    requires Partition(q) && Ordered(q, clock) && clock <= now && IsNext(q, id, first)
    requires first <==> At(q.requests, id).sendTime == map[]
    ensures
      var q' := Launched(q, id, now, first);
      && (forall i, j :: 0 <= i < j < |q'.newRequests| ==>
            At(q'.requests, q'.newRequests[i]).queueTime <= At(q'.requests, q'.newRequests[j]).queueTime)
      && (forall x :: x in q'.newRequests ==> At(q'.requests, x).queueTime <= now)
      && (forall x :: IsSent(q', x) ==>
            At(q'.requests, x).firstSendTime <= now && At(q'.requests, x).lastSendTime <= now)
  {
    LaunchedMembers(q, id, now, first);
    var q' := Launched(q, id, now, first);
    assert forall x :: At(q'.requests, x).queueTime == At(q.requests, x).queueTime;
    assert forall x :: x != id ==> At(q'.requests, x) == At(q.requests, x);
  }

  lemma InFlightBefore(q: Queues, answered: set<nat>, clock: Time, x: nat)
    requires Ordered(q, clock) && Numbered(q, answered) && IsSent(q, x)
    ensures At(q.requests, x).lastSendTime <= clock && At(q.requests, x).lastSeq < q.sendCount
  {
    assert PacketNumbered(q, answered, At(q.requests, x), At(q.requests, x).lastRef);
  }

  lemma LaunchKeepsLastOrder(q: Queues, answered: set<nat>, clock: Time, id: nat, now: Time, first: bool)
    requires Partition(q) && Ordered(q, clock) && Numbered(q, answered) && clock <= now && IsNext(q, id, first)
    ensures
      var q' := Launched(q, id, now, first);
      && Sorted(q'.requests, ByLastSend, q'.requestsByLastTransmission)
      && SentInOrder(q'.requests, q'.requestsByLastTransmission)
  {
    LaunchedMembers(q, id, now, first);
    var q' := Launched(q, id, now, first);
    forall i | 0 <= i < |q.requestsByLastTransmission|
      ensures At(q'.requests, q.requestsByLastTransmission[i]) == At(q.requests, q.requestsByLastTransmission[i])
      ensures At(q.requests, q.requestsByLastTransmission[i]).lastSendTime <= now
      ensures At(q.requests, q.requestsByLastTransmission[i]).lastSeq < q.sendCount
    {
      assert q.requestsByLastTransmission[i] in q.requestsByLastTransmission;
      InFlightBefore(q, answered, clock, q.requestsByLastTransmission[i]);
    }
    AppendLast(q.requests, q'.requests, q.requestsByLastTransmission, id);
  }

  lemma AppendLast(heap: Heap, heap': Heap, ids: seq<nat>, id: nat)
    requires Sorted(heap, ByLastSend, ids) && SentInOrder(heap, ids)
    requires forall i :: 0 <= i < |ids| ==>
               && At(heap', ids[i]) == At(heap, ids[i])
               && At(heap, ids[i]).lastSendTime <= At(heap', id).lastSendTime
               && At(heap, ids[i]).lastSeq < At(heap', id).lastSeq
    ensures Sorted(heap', ByLastSend, ids + [id]) && SentInOrder(heap', ids + [id])
  {
  }

  lemma LaunchKeepsOtherOrders(q: Queues, clock: Time, id: nat, now: Time, first: bool)
    requires Partition(q) && Ordered(q, clock) && clock <= now && IsNext(q, id, first)
    requires first <==> At(q.requests, id).sendTime == map[]
    ensures
      var q' := Launched(q, id, now, first);
      && Sorted(q'.requests, ByFirstSend, q'.requestsByFirstTransmission)
      && Sorted(q'.requests, ByRetransmit, q'.retransmitRequests)
  {
    LaunchedMembers(q, id, now, first);
    var q' := Launched(q, id, now, first);
    assert forall x: nat :: Key(q'.requests, ByRetransmit, x) == Key(q.requests, ByRetransmit, x);
    forall i | 0 <= i < |q.requestsByFirstTransmission|
      ensures Key(q'.requests, ByFirstSend, q.requestsByFirstTransmission[i])
              == Key(q.requests, ByFirstSend, q.requestsByFirstTransmission[i]) <= now
    {
      assert IsSent(q, q.requestsByFirstTransmission[i]);
    }
  }

  lemma FirstMeansNeverSent(q: Queues, answered: set<nat>, id: nat, first: bool)
    requires Partition(q) && Numbered(q, answered) && IsNext(q, id, first)
    ensures first <==> At(q.requests, id).sendTime == map[]
  {
    assert first ==> id in q.newRequests;
    assert !first ==> id in q.retransmitRequests && IsSent(q, id);
    assert !first ==> AwaitsLast(At(q.requests, id));
  }

  lemma LaunchKeepsIndexed(q: Queues, answered: set<nat>, clock: Time, id: nat, now: Time, first: bool)
    requires Consistent(q, answered, clock) && IsNext(q, id, first)
    ensures Indexed(Launched(q, id, now, first))
  {
    NextRefUnused(q, answered, clock);
    LaunchedMembers(q, id, now, first);
    assert first ==> At(q.requests, id).sendTime == map[];
  }

  lemma LaunchKeepsPacket(q: Queues, answered: set<nat>, id: nat, now: Time, first: bool, x: nat, ref: Ref)
    requires Partition(q) && Numbered(q, answered) && IsNext(q, id, first) && QueueWindow(q) && now > 0
    requires IsSent(Launched(q, id, now, first), x)
    requires ref in At(Launched(q, id, now, first).requests, x).sendTime
    ensures PacketNumbered(Launched(q, id, now, first), answered, At(Launched(q, id, now, first).requests, x), ref)
  {
    LaunchedMembers(q, id, now, first);
    assert first ==> id in q.newRequests && At(q.requests, id).sendTime == map[];
    if ref in At(q.requests, x).sendTime {
      assert IsSent(q, x);
      assert PacketNumbered(q, answered, At(q.requests, x), ref);
    }
  }

  lemma LaunchKeepsPackets(q: Queues, answered: set<nat>, id: nat, now: Time, first: bool)
    requires Partition(q) && Numbered(q, answered) && IsNext(q, id, first) && QueueWindow(q) && now > 0
    ensures PacketsNumbered(Launched(q, id, now, first), answered)
  {
    var q' := Launched(q, id, now, first);
    forall x, ref | IsSent(q', x) && ref in At(q'.requests, x).sendTime
      ensures PacketNumbered(q', answered, At(q'.requests, x), ref)
    {
      LaunchKeepsPacket(q, answered, id, now, first, x, ref);
    }
  }

  lemma LaunchKeepsLastRef(q: Queues, answered: set<nat>, id: nat, now: Time, first: bool, x: nat)
    requires Partition(q) && Indexed(q) && Numbered(q, answered) && IsNext(q, id, first)
    requires q.nextRef !in q.refToRequest && IsSent(Launched(q, id, now, first), x)
    ensures AwaitsLast(At(Launched(q, id, now, first).requests, x))
  {
    LaunchedMembers(q, id, now, first);
    assert first ==> id in q.newRequests && At(q.requests, id).sendTime == map[];
    if x == id {
      assert q.nextRef !in At(q.requests, id).sendTime;
    } else {
      assert AwaitsLast(At(q.requests, x));
    }
  }

  lemma LaunchCounts(q: Queues, id: nat, now: Time, first: bool)
    requires IsNext(q, id, first) && q.nextRef == RefOf(q.sendCount)
    ensures Launched(q, id, now, first).nextRef == RefOf(Launched(q, id, now, first).sendCount)
  {
    NextRefCounts(q.sendCount);
  }

  lemma LaunchKeepsNumbered(q: Queues, answered: set<nat>, clock: Time, id: nat, now: Time, first: bool)
    requires Consistent(q, answered, clock) && IsNext(q, id, first) && QueueWindow(q) && now > 0
    ensures Numbered(Launched(q, id, now, first), answered)
  {
    var q' := Launched(q, id, now, first);
    LaunchKeepsPackets(q, answered, id, now, first);
    NextRefUnused(q, answered, clock);
    forall x | IsSent(q', x)
      ensures AwaitsLast(At(q'.requests, x))
    {
      LaunchKeepsLastRef(q, answered, id, now, first, x);
    }
    LaunchCounts(q, id, now, first);
    forall x | x in q'.newRequests
      ensures At(q'.requests, x).sendTime == map[]
    {
      LaunchedMembers(q, id, now, first);
    }
  }

  lemma LaunchKeepsSettled(q: Queues, answered: set<nat>, clock: Time, id: nat, now: Time, first: bool)
    requires Consistent(q, answered, clock) && IsNext(q, id, first)
    ensures Settled(Launched(q, id, now, first))
  {
    LaunchedMembers(q, id, now, first);
    var q' := Launched(q, id, now, first);
    assert first ==> id in q'.requestsByFirstTransmission;
    assert forall x :: x in q.requestsByFirstTransmission ==> x in q'.requestsByFirstTransmission;
  }

  lemma LaunchKeepsConsistent(q: Queues, answered: set<nat>, clock: Time, id: nat, now: Time, first: bool)
    requires Consistent(q, answered, clock) && clock <= now && IsNext(q, id, first) && QueueWindow(q) && now > 0
    ensures Consistent(Launched(q, id, now, first), answered, now)
  {
    LaunchKeepsPartition(q, id, now, first);
    LaunchKeepsOrdered(q, answered, clock, id, now, first);
    LaunchKeepsIndexed(q, answered, clock, id, now, first);
    LaunchKeepsNumbered(q, answered, clock, id, now, first);
    LaunchKeepsSettled(q, answered, clock, id, now, first);
  }

  /** A new request that the socket did not take keeps its place. */
  lemma AgainKeepsSettled(q: Queues)
    requires Settled(q) && q.newRequests != []
    ensures Settled(TrySendRequest(q, q.newRequests[0], Again))
  {
    assert q.newRequests[0] in q.newRequests;
    SameSent(q, TrySendRequest(q, q.newRequests[0], Again));
  }

  lemma AgainKeepsConsistent(q: Queues, answered: set<nat>, clock: Time)
    requires Consistent(q, answered, clock) && q.newRequests != []
    ensures Consistent(TrySendRequest(q, q.newRequests[0], Again), answered, clock)
  {
    assert q.newRequests[0] in q.newRequests;
    AgainKeepsSettled(q);
    SameContainersKeepConsistent(q, TrySendRequest(q, q.newRequests[0], Again), answered, clock);
  }

  lemma PopNewKeepsConsistent(q: Queues, answered: set<nat>, clock: Time)
    requires Consistent(q, answered, clock) && q.newRequests != []
    ensures Consistent(q.(newRequests := q.newRequests[1..]), answered, clock)
  {
    var q' := q.(newRequests := q.newRequests[1..]);
    assert q.requestsByFirstTransmission == q.requestsByFirstTransmission[0..];
    assert Settled(q') by { SameSent(q, q'); }
    RelabelKeepsConsistent(q, q', answered, clock);
  }

  lemma TakeKeepsSettled(q: Queues, id: nat)
    requires Settled(q) && id in q.requests
    ensures Settled(q.(requests := q.requests[id := At(q.requests, id).(callback := None)]))
  {
    SameSent(q, q.(requests := q.requests[id := At(q.requests, id).(callback := None)]));
  }

  lemma TakeKeepsInv(s: State, clock: Time, id: nat)
    requires Inv(s, clock) && id in s.q.requests
    ensures Inv(TakeCallback(s, id), clock)
  {
    TakeKeepsSettled(s.q, id);
    SameContainersKeepConsistent(s.q, TakeCallback(s, id).q, s.tm.answered, clock);
  }

  /** A request that was dropped from the front of the new requests is gone from the heap as well. */
  function Dropped(q: Queues): Queues
    requires q.newRequests != []
  {
    q.(newRequests := q.newRequests[1..], requests := q.requests - {q.newRequests[0]})
  }

  lemma DroppedHeap(q: Queues)
    requires Partition(q) && q.newRequests != []
    ensures forall x :: IsSent(Dropped(q), x) == IsSent(q, x)
    ensures forall x: nat :: x != q.newRequests[0] ==> At(Dropped(q).requests, x) == At(q.requests, x)
    ensures !IsSent(q, q.newRequests[0]) && q.newRequests[0] !in q.requestsByFirstTransmission
    ensures forall x :: x in Dropped(q).newRequests ==> x in q.newRequests && x != q.newRequests[0]
  {
    assert q.newRequests[0] in q.newRequests;
  }

  lemma DropKeepsPartition(q: Queues)
    requires Partition(q) && q.newRequests != []
    ensures Partition(Dropped(q))
  {
    DroppedHeap(q);
  }

  lemma DropKeepsOrdered(q: Queues, clock: Time)
    requires Partition(q) && Ordered(q, clock) && q.newRequests != []
    ensures Ordered(Dropped(q), clock)
  {
    DroppedHeap(q);
    OrderedOnSameKeys(q, Dropped(q), clock);
    assert forall i :: 0 <= i < |Dropped(q).newRequests| ==> Dropped(q).newRequests[i] in Dropped(q).newRequests;
  }

  lemma DropKeepsIndexed(q: Queues)
    requires Partition(q) && Indexed(q) && q.newRequests != []
    ensures Indexed(Dropped(q))
  {
    DroppedHeap(q);
  }

  lemma DropKeepsNumbered(q: Queues, answered: set<nat>)
    requires Partition(q) && Numbered(q, answered) && q.newRequests != []
    ensures Numbered(Dropped(q), answered)
  {
    DroppedHeap(q);
  }

  lemma DropKeepsSettled(q: Queues)
    requires Partition(q) && Settled(q) && q.newRequests != []
    ensures Settled(Dropped(q))
  {
    DroppedHeap(q);
  }

  lemma FailNewKeepsInv(s: State, clock: Time)
    requires Inv(s, clock) && s.q.newRequests != []
    ensures Inv(FailNew(s), clock)
  {
    DropKeepsPartition(s.q);
    DropKeepsOrdered(s.q, clock);
    DropKeepsIndexed(s.q);
    DropKeepsNumbered(s.q, s.tm.answered);
    DropKeepsSettled(s.q);
  }

  /** The one outcome that the invariant does not survive: EAGAIN for a retransmission. */
  ghost predicate RetransmissionRefused(s: State, outcome: Outcome) {
    && outcome.Again?
    && s.cc.congestionWindow > |s.q.requestsByLastTransmission|
    && s.q.retransmitRequests != []
    && !At(s.q.requests, s.q.retransmitRequests[0]).successOrTimeout
  }

  lemma RetransmitKeepsInv(s: State, clock: Time, now: Time, outcome: Outcome)
    requires Inv(s, clock) && clock <= now && now > 0 && QueueWindow(s.q)
    requires s.q.retransmitRequests != []
    requires outcome == Sends(now) || At(s.q.requests, s.q.retransmitRequests[0]).successOrTimeout
    ensures Inv(Retransmit(s, outcome), now)
  {
    var id := s.q.retransmitRequests[0];
    assert id in s.q.retransmitRequests;
    if At(s.q.requests, id).successOrTimeout {
      RemoveKeepsConsistent(s.q, s.tm.answered, clock, id);
      LaterInv(Retransmit(s, outcome), clock, now);
    } else {
      SendLaunches(s.q, s.tm.answered, clock, id, now, false);
      LaunchKeepsConsistent(s.q, s.tm.answered, clock, id, now, false);
    }
  }

  lemma SendNewKeepsInv(s: State, clock: Time, now: Time, outcome: Outcome)
    requires Inv(s, clock) && clock <= now && now > 0 && QueueWindow(s.q)
    requires s.q.newRequests != []
    requires outcome == Sends(now) || outcome.Again?
    ensures Inv(SendNew(s, outcome), now)
  {
    var id := s.q.newRequests[0];
    assert id in s.q.newRequests;
    var sent := TrySendRequest(s.q, id, outcome);
    var t: State;
    if outcome.Sends? {
      SendLaunches(s.q, s.tm.answered, clock, id, now, true);
      LaunchKeepsConsistent(s.q, s.tm.answered, clock, id, now, true);
      t := s.(q := Launched(s.q, id, now, true));
    } else {
      AgainKeepsConsistent(s.q, s.tm.answered, clock);
      PopNewKeepsConsistent(sent, s.tm.answered, clock);
      t := s.(q := if Offline(s) then sent.(newRequests := sent.newRequests[1..]) else sent);
      LaterInv(t, clock, now);
    }
    if Offline(s) {
      TakeKeepsInv(t, now, id);
    }
  }

  lemma SendPartKeepsInv(s: State, clock: Time, now: Time, outcome: Outcome)
    requires Inv(s, clock) && clock <= now && now > 0 && QueueWindow(s.q)
    requires outcome == Sends(now) || (outcome.Again? && !RetransmissionRefused(s, outcome))
    ensures Inv(SendPart(s, outcome), now)
  {
    LaterInv(s, clock, now);
    if s.cc.congestionWindow > |s.q.requestsByLastTransmission| {
      if s.q.retransmitRequests != [] {
        RetransmitKeepsInv(s, clock, now, outcome);
      } else if s.q.newRequests != [] {
        SendNewKeepsInv(s, clock, now, outcome);
      }
    } else if Offline(s) && s.q.newRequests != [] {
      FailNewKeepsInv(s, now);
    }
  }

  // ----- one iteration of the send thread -----

  /** Nothing was sent in between, and whoever waits for replies waited for the same ones before. */
  ghost predicate NoNewPackets(q: Queues, q': Queues) {
    && q'.sendCount == q.sendCount
    && forall x :: IsSent(q', x) ==> IsSent(q, x) && At(q'.requests, x).sendTime == At(q.requests, x).sendTime
  }

  lemma NoNewPacketsKeepsWindow(q: Queues, q': Queues)
    requires QueueWindow(q) && NoNewPackets(q, q')
    ensures QueueWindow(q')
  {
  }

  lemma {:induction false} ExpireQueuedSendsNothing(s: State, cfg: Config, now: Time)
    ensures NoNewPackets(s.q, ExpireQueued(s, cfg, now).q)
    decreases |s.q.newRequests|
  {
    if cfg.queueTimeout != 0 && s.q.newRequests != [] && QueueDeadline(s, cfg, s.q.newRequests[0]) <= now {
      var t := DropExpired(s);
      SameSent(s.q, t.q);
      ExpireQueuedSendsNothing(t, cfg, now);
    }
  }

  lemma {:induction false} ExpireSentSendsNothing(s: State, cfg: Config, now: Time)
    ensures NoNewPackets(s.q, ExpireSent(s, cfg, now).q)
    decreases |s.q.requestsByFirstTransmission|
  {
    if s.q.requestsByFirstTransmission != []
       && RequestDeadline(s, cfg, s.q.requestsByFirstTransmission[0]) <= now {
      SameSent(s.q, ExpireFirst(s).q);
      ExpireSentSendsNothing(ExpireFirst(s), cfg, now);
    }
  }

  lemma LossSendsNothing(s: State, id: nat)
    ensures NoNewPackets(s.q, PacketLossDetected(s, id).q)
    ensures PacketLossDetected(s, id).q.requestsByLastTransmission == s.q.requestsByLastTransmission
  {
    SameSent(s.q, PacketLossDetected(s, id).q);
  }

  lemma MoveSendsNothing(q: Queues)
    requires q.requestsByLastTransmission != []
    ensures NoNewPackets(q, MoveFirst(q))
  {
    MoveFirstKeepsSent(q);
  }

  lemma LoseFirstSendsNothing(s: State, retransmitTime: Time)
    requires s.q.requestsByLastTransmission != []
    ensures NoNewPackets(s.q, LoseFirst(s, retransmitTime).q)
  {
    var id := s.q.requestsByLastTransmission[0];
    var u := WithRetransmitTime(s, id, retransmitTime);
    SameSent(s.q, u.q);
    assert NoNewPackets(s.q, u.q);
    LossSendsNothing(u, id);
    MoveSendsNothing(PacketLossDetected(u, id).q);
    assert LoseFirst(s, retransmitTime).q == MoveFirst(PacketLossDetected(u, id).q);
  }

  lemma {:induction false} DetectSendsNothing(s: State, l: Limits, now: Time, rtoExpired: bool)
    ensures NoNewPackets(s.q, DetectLosses(s, l, now, rtoExpired).0.q)
    decreases |s.q.requestsByLastTransmission|
  {
    var step := DetectStep(s, l, now);
    if step.Some? {
      DetectStepShrinks(s, l, now);
      var id := s.q.requestsByLastTransmission[0];
      if At(s.q.requests, id).successOrTimeout {
        EraseTakesOnly(s.q.requests, ByLastSend, s.q.requestsByLastTransmission, id);
        EraseTakesOnly(s.q.requests, ByRetransmit, s.q.retransmitRequests, id);
      } else if RtoDeadline(s, l, id) <= now {
        LoseFirstSendsNothing(s, RtoDeadline(s, l, id));
      } else {
        LoseFirstSendsNothing(s, EarlyDeadline(s, l, id));
      }
      DetectSendsNothing(step.value.0, l, now, rtoExpired || step.value.1);
    }
  }

  lemma CheckSendsNothing(s: State, cfg: Config, now: Time)
    requires s.tm.retransmissionTimeoutMultiplier > 0
    ensures NoNewPackets(s.q, CheckSentRequests(s, cfg, now).s.q)
  {
    var queued := ExpireQueued(s, cfg, now);
    ExpireQueuedSendsNothing(s, cfg, now);
    var sent := ExpireSent(queued, cfg, now);
    ExpireSentSendsNothing(queued, cfg, now);
    ExpiredKeepsMultiplier(s, cfg, now);
    DetectSendsNothing(sent, LimitsOf(sent, cfg), now, false);
  }

  lemma IterationKeepsInv(s: State, cfg: Config, clock: Time, now: Time, sendTime: Time, outcome: Outcome)
    requires Inv(s, clock) && WithinWindow(s) && 0 < now && clock <= now <= sendTime
    requires outcome == Sends(sendTime)
             || (outcome.Again? && !RetransmissionRefused(CheckSentRequests(s, cfg, now).s, outcome))
    ensures Inv(SendIteration(s, cfg, now, outcome), sendTime)
  {
    var checked := CheckSentRequests(s, cfg, now).s;
    CheckKeepsInv(s, cfg, clock, now);
    CheckSendsNothing(s, cfg, now);
    NoNewPacketsKeepsWindow(s.q, checked.q);
    LaterInv(checked, clock, now);
    SendPartKeepsInv(checked, now, sendTime, outcome);
  }
}
