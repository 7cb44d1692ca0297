/** What every reachable state of the UDP client satisfies while the socket takes every retransmission. */
module UdpInvariants {
  import opened Common
  import opened UdpArithmetic
  import opened UdpState
  import opened UdpContainers

  /** The request has been sent and is either in flight or waiting for its retransmission. */
  ghost predicate IsSent(q: Queues, x: nat) {
    x in q.requestsByLastTransmission || x in q.retransmitRequests
  }

  /** A live request is in exactly one of the new requests, the requests in flight and the retransmissions.
      Only sent requests are still watched for their request timeout. */
  ghost predicate Partition(q: Queues) {
    && NoDuplicates(q.newRequests)
    && NoDuplicates(q.requestsByFirstTransmission)
    && NoDuplicates(q.requestsByLastTransmission)
    && NoDuplicates(q.retransmitRequests)
    && (forall x :: x in q.newRequests ==> !IsSent(q, x) && x in q.requests)
    && (forall x :: x in q.requestsByLastTransmission ==> x !in q.retransmitRequests)
    && (forall x :: x in q.requestsByFirstTransmission ==> IsSent(q, x))
    && (forall x :: IsSent(q, x) ==> x in q.requests)
    && (forall x :: x in q.requests ==> x < q.nextRequest)
  }

  /** Every container is in order, and in the requests in flight the order of time is the order of sending. */
  ghost predicate Ordered(q: Queues, clock: Time) {
    && (forall i, j :: 0 <= i < j < |q.newRequests| ==>
          At(q.requests, q.newRequests[i]).queueTime <= At(q.requests, q.newRequests[j]).queueTime)
    && Sorted(q.requests, ByFirstSend, q.requestsByFirstTransmission)
    && Sorted(q.requests, ByLastSend, q.requestsByLastTransmission)
    && Sorted(q.requests, ByRetransmit, q.retransmitRequests)
    && SentInOrder(q.requests, q.requestsByLastTransmission)
    && (forall x :: x in q.newRequests ==> At(q.requests, x).queueTime <= clock)
    && (forall x :: IsSent(q, x) ==>
          At(q.requests, x).firstSendTime <= clock && At(q.requests, x).lastSendTime <= clock)
  }

  /** The index leads from a reference to a request exactly if the request waits for a reply to it. */
  ghost predicate Indexed(q: Queues) {
    && (forall ref :: ref in q.refToRequest ==>
          IsSent(q, q.refToRequest[ref]) && ref in At(q.requests, q.refToRequest[ref]).sendTime)
    && (forall x, ref :: IsSent(q, x) && ref in At(q.requests, x).sendTime ==>
          ref in q.refToRequest && q.refToRequest[ref] == x)
  }

  ghost predicate PacketNumbered(q: Queues, answered: set<nat>, r: Request, ref: Ref)
    requires ref in r.sendTime
  {
    var n := r.sendTime[ref].seqNumber;
    && RefOf(n) == ref
    && n <= r.lastSeq < q.sendCount
    && q.sendCount - n <= MAX_DISTANCE + 1
    && n !in answered
    && r.sendTime[ref].time > 0
  }

  ghost predicate AwaitsLast(r: Request) {
    r.lastRef in r.sendTime && r.sendTime[r.lastRef].seqNumber == r.lastSeq
  }

  /** References are send counters modulo their width, and each sent request still waits for the reply to the
      last packet that was sent for it. */
  ghost predicate Numbered(q: Queues, answered: set<nat>) {
    && q.nextRef == RefOf(q.sendCount)
    && (forall n :: n in answered ==> n < q.sendCount)
    && (forall x :: x in q.newRequests ==> At(q.requests, x).sendTime == map[])
    && (forall x :: IsSent(q, x) ==> AwaitsLast(At(q.requests, x)))
    && PacketsNumbered(q, answered)
  }

  ghost predicate PacketsNumbered(q: Queues, answered: set<nat>) {
    forall x, ref :: IsSent(q, x) && ref in At(q.requests, x).sendTime ==>
      PacketNumbered(q, answered, At(q.requests, x), ref)
  }

  /** Who has succeeded or timed out holds no callback, and whoever is no longer watched has done so. */
  ghost predicate Settled(q: Queues) {
    && (forall x :: x in q.requests && q.requests[x].successOrTimeout ==> q.requests[x].callback == None)
    && (forall x :: IsSent(q, x) && x !in q.requestsByFirstTransmission ==> At(q.requests, x).successOrTimeout)
    && (forall x :: x in q.newRequests ==> !At(q.requests, x).successOrTimeout)
  }

  ghost predicate Consistent(q: Queues, answered: set<nat>, clock: Time) {
    Partition(q) && Ordered(q, clock) && Indexed(q) && Numbered(q, answered) && Settled(q)
  }

  /** The last received packet is the newest one answered since the last reset. */
  ghost predicate NewestAnswered(tm: Timing) {
    if LastReceivedValid(tm) then
      && tm.lastReceivedRef == RefOf(tm.lastReceivedSeq)
      && tm.lastReceivedSeq in tm.answered
      && forall n :: n in tm.answered ==> n <= tm.lastReceivedSeq
    else tm.answered == {}
  }

  /** Fewer than 2^31 packets were sent since any packet that is still waited for, and since the newest answer. */
  ghost predicate WithinWindow(s: State) {
    && (forall x, ref :: IsSent(s.q, x) && ref in At(s.q.requests, x).sendTime ==>
          s.q.sendCount - At(s.q.requests, x).sendTime[ref].seqNumber <= MAX_DISTANCE)
    && (LastReceivedValid(s.tm) ==> s.q.sendCount - s.tm.lastReceivedSeq <= MAX_DISTANCE)
  }

  ghost predicate Inv(s: State, clock: Time) {
    && Consistent(s.q, s.tm.answered, clock)
    && NewestAnswered(s.tm)
    && ValidMultiplier(s.tm.retransmissionTimeoutMultiplier)
  }

  lemma InitialInv(clock: Time)
    ensures Inv(InitialState(), clock)
  {
    assert PowerOfTwo(0) == 1;
  }

  lemma SameSent(q: Queues, q': Queues)
    requires q'.requestsByLastTransmission == q.requestsByLastTransmission
    requires q'.retransmitRequests == q.retransmitRequests
    ensures forall x :: IsSent(q', x) == IsSent(q, x)
  {
  }

  /** Time may pass. */
  lemma LaterInv(s: State, clock: Time, now: Time)
    requires Inv(s, clock) && clock <= now
    ensures Inv(s, now)
  {
  }

  // ----- queuing -----

  /** A fresh request has joined the new requests at the end. */
  ghost predicate Queued(q: Queues, q': Queues, r: Request) {
    q' == q.(requests := q.requests[q.nextRequest := r], nextRequest := q.nextRequest + 1,
             newRequests := q.newRequests + [q.nextRequest])
  }

  lemma QueuedHeap(q: Queues, q': Queues, r: Request)
    requires Partition(q) && Queued(q, q', r)
    ensures forall x :: IsSent(q', x) == IsSent(q, x)
    ensures forall x: nat :: IsSent(q, x) || x in q.newRequests || x in q.requestsByFirstTransmission ==>
              x < q.nextRequest && At(q'.requests, x) == At(q.requests, x)
    ensures At(q'.requests, q.nextRequest) == r
    ensures forall x :: x in q'.newRequests <==> x in q.newRequests || x == q.nextRequest
  {
  }

  lemma QueuedKeepsPartition(q: Queues, q': Queues, r: Request)
    requires Partition(q) && Queued(q, q', r)
    ensures Partition(q')
  {
    QueuedHeap(q, q', r);
    assert forall i :: 0 <= i < |q.newRequests| ==> q.newRequests[i] in q.newRequests;
  }

  lemma QueuedKeepsOrdered(q: Queues, q': Queues, r: Request, clock: Time, now: Time)
    requires Partition(q) && Ordered(q, clock) && Queued(q, q', r)
    requires clock <= now && r.queueTime == now
    ensures Ordered(q', now)
  {
    QueuedHeap(q, q', r);
    assert forall i :: 0 <= i < |q.newRequests| ==> q.newRequests[i] in q.newRequests;
    OrderedOnSameKeys(q, q', clock);
  }

  /** Order only depends on the requests in the containers. */
  lemma OrderedOnSameKeys(q: Queues, q': Queues, clock: Time)
    requires Ordered(q, clock)
    requires forall x :: IsSent(q, x) || x in q.requestsByFirstTransmission ==> At(q'.requests, x) == At(q.requests, x)
    ensures Sorted(q'.requests, ByFirstSend, q.requestsByFirstTransmission)
    ensures Sorted(q'.requests, ByLastSend, q.requestsByLastTransmission)
    ensures Sorted(q'.requests, ByRetransmit, q.retransmitRequests)
    ensures SentInOrder(q'.requests, q.requestsByLastTransmission)
  {
    assert forall i :: 0 <= i < |q.requestsByFirstTransmission| ==>
        q.requestsByFirstTransmission[i] in q.requestsByFirstTransmission;
    assert forall i :: 0 <= i < |q.requestsByLastTransmission| ==> IsSent(q, q.requestsByLastTransmission[i]);
    assert forall i :: 0 <= i < |q.retransmitRequests| ==> IsSent(q, q.retransmitRequests[i]);
  }

  /** The containers are the same, and the times and numbers that they are ordered by. */
  lemma OrderedOnSameTimes(q: Queues, q': Queues, clock: Time)
    requires Ordered(q, clock)
    requires q'.newRequests == q.newRequests && q'.requestsByFirstTransmission == q.requestsByFirstTransmission
    requires q'.requestsByLastTransmission == q.requestsByLastTransmission
    requires q'.retransmitRequests == q.retransmitRequests
    requires forall x :: SameTimes(At(q.requests, x), At(q'.requests, x))
    ensures Ordered(q', clock)
  {
    SameSent(q, q');
  }

  ghost predicate SameTimes(r: Request, r': Request) {
    && r'.firstSendTime == r.firstSendTime && r'.lastSendTime == r.lastSendTime && r'.queueTime == r.queueTime
    && r'.retransmitTime == r.retransmitTime && r'.lastSeq == r.lastSeq
  }

  lemma QueuedKeepsIndexed(q: Queues, q': Queues, r: Request)
    requires Partition(q) && Indexed(q) && Queued(q, q', r)
    ensures Indexed(q')
  {
    QueuedHeap(q, q', r);
  }

  lemma QueuedKeepsNumbered(q: Queues, q': Queues, r: Request, answered: set<nat>)
    requires Partition(q) && Numbered(q, answered) && Queued(q, q', r) && r.sendTime == map[]
    ensures Numbered(q', answered)
  {
    QueuedHeap(q, q', r);
  }

  lemma QueuedKeepsSettled(q: Queues, q': Queues, r: Request)
    requires Partition(q) && Settled(q) && Queued(q, q', r) && !r.successOrTimeout
    ensures Settled(q')
  {
    QueuedHeap(q, q', r);
  }

  lemma QueueKeepsInv(s: State, clock: Time, now: Time, idempotent: bool)
    requires Inv(s, clock) && clock <= now
    ensures Inv(QueueRequest(s, now, idempotent), now)
  {
    var id := s.q.nextRequest;
    var r := NO_REQUEST.(callback := Some(id), idempotent := idempotent, queueTime := now);
    var q' := QueueRequest(s, now, idempotent).q;
    QueuedKeepsPartition(s.q, q', r);
    QueuedKeepsOrdered(s.q, q', r, clock, now);
    QueuedKeepsIndexed(s.q, q', r);
    QueuedKeepsNumbered(s.q, q', r, s.tm.answered);
    QueuedKeepsSettled(s.q, q', r);
  }

  // ----- steps that neither send nor receive -----

  /** The two requests agree on everything that concerns packets and order. */
  ghost predicate SamePackets(r: Request, r': Request) {
    && r'.firstSendTime == r.firstSendTime && r'.lastSendTime == r.lastSendTime && r'.queueTime == r.queueTime
    && r'.lastSeq == r.lastSeq && r'.sendTime == r.sendTime
  }

  /** Some new requests and some watched requests have left at the front, and requests may have lost their
      callbacks or gained flags. Nothing else has changed. */
  ghost predicate Relabeled(q: Queues, q': Queues) {
    && (forall x :: x in q'.requests <==> x in q.requests)
    && (forall x :: x in q.requests ==> SamePackets(q.requests[x], q'.requests[x]))
    && (forall x :: x in q.retransmitRequests ==>
          At(q'.requests, x).retransmitTime == At(q.requests, x).retransmitTime)
    && (forall x :: IsSent(q, x) ==> At(q'.requests, x).lastRef == At(q.requests, x).lastRef)
    && (exists k :: 0 <= k <= |q.newRequests| && q'.newRequests == q.newRequests[k..])
    && (exists k :: 0 <= k <= |q.requestsByFirstTransmission|
          && q'.requestsByFirstTransmission == q.requestsByFirstTransmission[k..])
    && q'.nextRequest == q.nextRequest
    && q'.requestsByLastTransmission == q.requestsByLastTransmission
    && q'.retransmitRequests == q.retransmitRequests
    && q'.refToRequest == q.refToRequest
    && q'.nextRef == q.nextRef && q'.sendCount == q.sendCount
  }

  lemma RelabelKeepsPartition(q: Queues, q': Queues)
    requires Partition(q) && Relabeled(q, q')
    ensures Partition(q')
  {
    SameSent(q, q');
  }

  lemma RelabelKeepsOrdered(q: Queues, q': Queues, clock: Time)
    requires Ordered(q, clock) && Relabeled(q, q')
    ensures Ordered(q', clock)
  {
    SameSent(q, q');
    assert forall x :: SamePackets(At(q.requests, x), At(q'.requests, x));
  }

  lemma RelabelKeepsIndexed(q: Queues, q': Queues)
    requires Indexed(q) && Relabeled(q, q')
    ensures Indexed(q')
  {
    SameSent(q, q');
    assert forall x :: SamePackets(At(q.requests, x), At(q'.requests, x));
  }

  lemma RelabelKeepsNumbered(q: Queues, q': Queues, answered: set<nat>)
    requires Numbered(q, answered) && Relabeled(q, q')
    ensures Numbered(q', answered)
  {
    SameSent(q, q');
    assert forall x :: SamePackets(At(q.requests, x), At(q'.requests, x));
  }

  lemma RelabelKeepsConsistent(q: Queues, q': Queues, answered: set<nat>, clock: Time)
    requires Consistent(q, answered, clock) && Relabeled(q, q') && Settled(q')
    ensures Consistent(q', answered, clock)
  {
    RelabelKeepsPartition(q, q');
    RelabelKeepsOrdered(q, q', clock);
    RelabelKeepsIndexed(q, q');
    RelabelKeepsNumbered(q, q', answered);
  }

  lemma DropFirstRelabels(q: Queues)
    requires Partition(q) && q.newRequests != []
    ensures Relabeled(q, DropFirst(q))
  {
    assert q.newRequests[0] in q.newRequests;
    assert DropFirst(q).requestsByFirstTransmission == q.requestsByFirstTransmission[0..];
  }

  lemma DropFirstKeepsSettled(q: Queues)
    requires Settled(q) && q.newRequests != []
    ensures Settled(DropFirst(q))
  {
    assert forall x :: x in q.newRequests[1..] ==> x in q.newRequests;
    SameSent(q, DropFirst(q));
  }

  lemma DropFirstKeepsConsistent(q: Queues, answered: set<nat>, clock: Time)
    requires Consistent(q, answered, clock) && q.newRequests != []
    ensures Consistent(DropFirst(q), answered, clock)
  {
    DropFirstRelabels(q);
    DropFirstKeepsSettled(q);
    RelabelKeepsConsistent(q, DropFirst(q), answered, clock);
  }

  lemma {:induction false} ExpireQueuedKeepsInv(s: State, cfg: Config, clock: Time, now: Time)
    requires Inv(s, clock)
    ensures Inv(ExpireQueued(s, cfg, now), clock)
    decreases |s.q.newRequests|
  {
    if cfg.queueTimeout != 0 && s.q.newRequests != [] && QueueDeadline(s, cfg, s.q.newRequests[0]) <= now {
      DropFirstKeepsConsistent(s.q, s.tm.answered, clock);
      ExpireQueuedKeepsInv(DropExpired(s), cfg, clock, now);
    }
  }

  lemma CountTimeoutKeepsInv(s: State, clock: Time)
    requires Inv(s, clock)
    ensures Inv(CountTimeout(s), clock)
  {
    FewerAnswered(s.q, s.tm.answered, {}, clock);
  }

  lemma FewerAnswered(q: Queues, answered: set<nat>, answered': set<nat>, clock: Time)
    requires Consistent(q, answered, clock) && answered' <= answered
    ensures Consistent(q, answered', clock)
  {
  }

  lemma UnwatchRelabels(q: Queues)
    requires Partition(q) && q.requestsByFirstTransmission != []
    ensures Relabeled(q, Unwatch(q))
  {
    var id := q.requestsByFirstTransmission[0];
    assert id in q.requestsByFirstTransmission && IsSent(q, id);
    assert Unwatch(q).newRequests == q.newRequests[0..];
  }

  lemma UnwatchKeepsSettled(q: Queues)
    requires Partition(q) && Settled(q) && q.requestsByFirstTransmission != []
    ensures Settled(Unwatch(q))
  {
    var id := q.requestsByFirstTransmission[0];
    assert id in q.requestsByFirstTransmission && IsSent(q, id);
    SameSent(q, Unwatch(q));
    assert forall x :: x in q.requestsByFirstTransmission ==> x == id || x in q.requestsByFirstTransmission[1..];
  }

  lemma UnwatchKeepsConsistent(q: Queues, answered: set<nat>, clock: Time)
    requires Consistent(q, answered, clock) && q.requestsByFirstTransmission != []
    ensures Consistent(Unwatch(q), answered, clock)
  {
    UnwatchRelabels(q);
    UnwatchKeepsSettled(q);
    RelabelKeepsConsistent(q, Unwatch(q), answered, clock);
  }

  /** The containers are the same, and so are the requests in them, except for callbacks and flags. */
  lemma SameContainersKeepConsistent(q: Queues, q': Queues, answered: set<nat>, clock: Time)
    requires Consistent(q, answered, clock) && Settled(q')
    requires q' == q.(requests := q'.requests)
    requires forall x :: x in q'.requests <==> x in q.requests
    requires forall x :: x in q.requests ==> SamePackets(q.requests[x], q'.requests[x])
    requires forall x :: x in q.retransmitRequests ==>
               At(q'.requests, x).retransmitTime == At(q.requests, x).retransmitTime
    requires forall x :: IsSent(q, x) ==> At(q'.requests, x).lastRef == At(q.requests, x).lastRef
    ensures Consistent(q', answered, clock)
  {
    assert q.newRequests == q.newRequests[0..];
    assert q.requestsByFirstTransmission == q.requestsByFirstTransmission[0..];
    RelabelKeepsConsistent(q, q', answered, clock);
  }

  lemma ExpireFirstKeepsInv(s: State, clock: Time)
    requires Inv(s, clock) && s.q.requestsByFirstTransmission != []
    ensures Inv(ExpireFirst(s), clock)
  {
    UnwatchKeepsConsistent(s.q, s.tm.answered, clock);
    var t := UnwatchFirst(s);
    assert ExpireFirst(s) == CountTimeout(t);
    CountTimeoutKeepsInv(t, clock);
  }

  lemma {:induction false} ExpireSentKeepsInv(s: State, cfg: Config, clock: Time, now: Time)
    requires Inv(s, clock)
    ensures Inv(ExpireSent(s, cfg, now), clock)
    decreases |s.q.requestsByFirstTransmission|
  {
    if s.q.requestsByFirstTransmission != []
       && RequestDeadline(s, cfg, s.q.requestsByFirstTransmission[0]) <= now {
      ExpireFirstKeepsInv(s, clock);
      ExpireSentKeepsInv(ExpireFirst(s), cfg, clock, now);
    }
  }

  // ----- removeRequest -----

  /** Taking a request out of every container for sent requests, and its references out of the index. */
  function Forget(q: Queues, id: nat): Queues {
    q.(refToRequest := q.refToRequest - At(q.requests, id).sendTime.Keys,
       requestsByFirstTransmission := Without(q.requestsByFirstTransmission, id),
       requestsByLastTransmission := Without(q.requestsByLastTransmission, id),
       retransmitRequests := Without(q.retransmitRequests, id))
  }

  /** removeRequest leaves no trace of the request in any container for sent requests. */
  lemma RemoveLeavesNoTrace(q: Queues, clock: Time, id: nat)
    requires Ordered(q, clock) && Indexed(q) && Partition(q)
    ensures RemoveRequest(q, id) == Forget(q, id)
    ensures forall x :: IsSent(RemoveRequest(q, id), x) <==> IsSent(q, x) && x != id
    ensures forall x :: x in RemoveRequest(q, id).requestsByFirstTransmission
              <==> x in q.requestsByFirstTransmission && x != id
    ensures IsSent(q, id) ==>
              forall ref :: ref in RemoveRequest(q, id).refToRequest
                <==> ref in q.refToRequest && q.refToRequest[ref] != id
  {
    EraseIsWithout(q.requests, ByFirstSend, q.requestsByFirstTransmission, id);
    EraseIsWithout(q.requests, ByLastSend, q.requestsByLastTransmission, id);
    EraseIsWithout(q.requests, ByRetransmit, q.retransmitRequests, id);
    WithoutMembers(q.requestsByFirstTransmission, id);
    WithoutMembers(q.requestsByLastTransmission, id);
    WithoutMembers(q.retransmitRequests, id);
  }

  /** The places where the three searches of one removal have ended. */
  datatype Found = Found(first: nat, last: nat, retransmit: nat)

  ghost predicate FindsAll(q: Queues, id: nat, f: Found) {
    && Finds(q.requests, ByFirstSend, q.requestsByFirstTransmission, id, f.first)
    && Finds(q.requests, ByLastSend, q.requestsByLastTransmission, id, f.last)
    && Finds(q.requests, ByRetransmit, q.retransmitRequests, id, f.retransmit)
  }

  /** removeRequest with searches that end there. */
  function RemoveFrom(q: Queues, id: nat, f: Found): Queues
    requires f.first <= |q.requestsByFirstTransmission| && f.last <= |q.requestsByLastTransmission|
    requires f.retransmit <= |q.retransmitRequests|
  {
    q.(refToRequest := q.refToRequest - At(q.requests, id).sendTime.Keys,
       requestsByFirstTransmission := EraseFrom(q.requestsByFirstTransmission, id, f.first),
       requestsByLastTransmission := EraseFrom(q.requestsByLastTransmission, id, f.last),
       retransmitRequests := EraseFrom(q.retransmitRequests, id, f.retransmit))
  }

  /** No search has ended after an occurrence of the request. */
  ghost predicate NoneBefore(q: Queues, id: nat, f: Found)
    requires f.first <= |q.requestsByFirstTransmission| && f.last <= |q.requestsByLastTransmission|
    requires f.retransmit <= |q.retransmitRequests|
  {
    && id !in q.requestsByFirstTransmission[..f.first]
    && id !in q.requestsByLastTransmission[..f.last]
    && id !in q.retransmitRequests[..f.retransmit]
  }

  /** Whichever equal elements the searches return: the request is gone from all sets exactly if none of them comes
      after it, and then, and only then, the result is the one of searches that return the first. */
  lemma RemoveFromAnyEqual(q: Queues, clock: Time, id: nat, f: Found)
    requires Ordered(q, clock) && FindsAll(q, id, f)
    ensures RemoveFrom(q, id, f) == RemoveRequest(q, id) <==> NoneBefore(q, id, f)
    ensures (!IsSent(RemoveFrom(q, id, f), id) && id !in RemoveFrom(q, id, f).requestsByFirstTransmission)
            <==> NoneBefore(q, id, f)
  {
    EraseFromFinds(q.requests, ByFirstSend, q.requestsByFirstTransmission, id, f.first);
    EraseFromFinds(q.requests, ByLastSend, q.requestsByLastTransmission, id, f.last);
    EraseFromFinds(q.requests, ByRetransmit, q.retransmitRequests, id, f.retransmit);
  }

  /** The searches of one set can be chosen independently of the others. */
  lemma SearchesAreIndependent(q: Queues, id: nat)
    ensures (forall f :: FindsAll(q, id, f) ==> NoneBefore(q, id, f)) <==>
              && NoSearchPasses(q.requests, ByFirstSend, q.requestsByFirstTransmission, id)
              && NoSearchPasses(q.requests, ByLastSend, q.requestsByLastTransmission, id)
              && NoSearchPasses(q.requests, ByRetransmit, q.retransmitRequests, id)
  {
    FirstFinds(q.requests, ByFirstSend, q.requestsByFirstTransmission, id);
    FirstFinds(q.requests, ByLastSend, q.requestsByLastTransmission, id);
    FirstFinds(q.requests, ByRetransmit, q.retransmitRequests, id);
    var i: nat :| Finds(q.requests, ByFirstSend, q.requestsByFirstTransmission, id, i);
    var j: nat :| Finds(q.requests, ByLastSend, q.requestsByLastTransmission, id, j);
    var k: nat :| Finds(q.requests, ByRetransmit, q.retransmitRequests, id, k);
    assert forall n: nat :: Finds(q.requests, ByFirstSend, q.requestsByFirstTransmission, id, n) ==>
        FindsAll(q, id, Found(n, j, k));
    assert forall n: nat :: Finds(q.requests, ByLastSend, q.requestsByLastTransmission, id, n) ==>
        FindsAll(q, id, Found(i, n, k));
    assert forall n: nat :: Finds(q.requests, ByRetransmit, q.retransmitRequests, id, n) ==>
        FindsAll(q, id, Found(i, j, n));
  }

  /** So removeRequest does its work for every choice of the searches exactly if the request is the last of the equal
      elements in each set. */
  lemma RemoveFromEveryEqual(q: Queues, clock: Time, id: nat)
    requires Ordered(q, clock)
    ensures (forall f :: FindsAll(q, id, f) ==> RemoveFrom(q, id, f) == RemoveRequest(q, id)) <==>
              && LastOfEqual(q.requests, ByFirstSend, q.requestsByFirstTransmission, id)
              && LastOfEqual(q.requests, ByLastSend, q.requestsByLastTransmission, id)
              && LastOfEqual(q.requests, ByRetransmit, q.retransmitRequests, id)
  {
    forall f | FindsAll(q, id, f)
      ensures RemoveFrom(q, id, f) == RemoveRequest(q, id) <==> NoneBefore(q, id, f)
    {
      RemoveFromAnyEqual(q, clock, id, f);
    }
    SearchesAreIndependent(q, id);
    LastIsNotPassed(q.requests, ByFirstSend, q.requestsByFirstTransmission, id);
    LastIsNotPassed(q.requests, ByLastSend, q.requestsByLastTransmission, id);
    LastIsNotPassed(q.requests, ByRetransmit, q.retransmitRequests, id);
  }

  lemma RemoveKeepsPartition(q: Queues, answered: set<nat>, clock: Time, id: nat)
    requires Consistent(q, answered, clock)
    ensures Partition(RemoveRequest(q, id))
  {
    RemoveLeavesNoTrace(q, clock, id);
    WithoutMembers(q.requestsByFirstTransmission, id);
    WithoutMembers(q.requestsByLastTransmission, id);
    WithoutMembers(q.retransmitRequests, id);
    WithoutKeepsNoDuplicates(q.requestsByFirstTransmission, id);
    WithoutKeepsNoDuplicates(q.requestsByLastTransmission, id);
    WithoutKeepsNoDuplicates(q.retransmitRequests, id);
  }

  lemma RemoveKeepsOrdered(q: Queues, answered: set<nat>, clock: Time, id: nat)
    requires Consistent(q, answered, clock)
    ensures Ordered(RemoveRequest(q, id), clock)
  {
    RemoveLeavesNoTrace(q, clock, id);
    WithoutKeepsSorted(q.requests, ByFirstSend, q.requestsByFirstTransmission, id);
    WithoutKeepsSorted(q.requests, ByLastSend, q.requestsByLastTransmission, id);
    WithoutKeepsSorted(q.requests, ByRetransmit, q.retransmitRequests, id);
    WithoutKeepsSent(q.requests, q.requestsByLastTransmission, id);
  }

  /** The containers for sent requests have been rearranged, or one request has left them all. */
  ghost predicate Rearranged(q: Queues, q': Queues) {
    && q'.requests == q.requests && q'.nextRequest == q.nextRequest && q'.newRequests == q.newRequests
    && q'.nextRef == q.nextRef && q'.sendCount == q.sendCount
    && (forall x :: IsSent(q', x) ==> IsSent(q, x))
    && (forall x :: x in q'.requestsByFirstTransmission <==> x in q.requestsByFirstTransmission && IsSent(q', x))
    && (forall ref :: ref in q'.refToRequest <==> ref in q.refToRequest && IsSent(q', q.refToRequest[ref]))
    && (forall ref :: ref in q'.refToRequest ==> q'.refToRequest[ref] == q.refToRequest[ref])
  }

  lemma RearrangeKeepsIndexed(q: Queues, q': Queues)
    requires Indexed(q) && Rearranged(q, q')
    ensures Indexed(q')
  {
  }

  lemma RearrangeKeepsNumbered(q: Queues, q': Queues, answered: set<nat>)
    requires Numbered(q, answered) && Rearranged(q, q')
    ensures Numbered(q', answered)
  {
    forall x, ref | IsSent(q', x) && ref in At(q'.requests, x).sendTime
      ensures PacketNumbered(q', answered, At(q'.requests, x), ref)
    {
      assert PacketNumbered(q, answered, At(q.requests, x), ref);
    }
  }

  lemma RearrangeKeepsSettled(q: Queues, q': Queues)
    requires Settled(q) && Rearranged(q, q')
    ensures Settled(q')
  {
  }

  lemma RemoveKeepsConsistent(q: Queues, answered: set<nat>, clock: Time, id: nat)
    requires Consistent(q, answered, clock) && IsSent(q, id)
    ensures Consistent(RemoveRequest(q, id), answered, clock)
  {
    var q' := RemoveRequest(q, id);
    RemoveKeepsPartition(q, answered, clock, id);
    RemoveKeepsOrdered(q, answered, clock, id);
    RemoveRearranges(q, clock, id);
    RearrangeKeepsIndexed(q, q');
    RearrangeKeepsNumbered(q, q', answered);
    RearrangeKeepsSettled(q, q');
  }

  lemma RemoveRearranges(q: Queues, clock: Time, id: nat)
    requires Ordered(q, clock) && Indexed(q) && Partition(q) && IsSent(q, id)
    ensures Rearranged(q, RemoveRequest(q, id))
  {
    RemoveLeavesNoTrace(q, clock, id);
  }

  // ----- loss detection -----

  lemma MarkResetRelabels(q: Queues, ids: seq<nat>)
    ensures Relabeled(q, q.(requests := MarkReset(q.requests, ids)))
  {
    assert q.newRequests == q.newRequests[0..];
    assert q.requestsByFirstTransmission == q.requestsByFirstTransmission[0..];
  }

  lemma MarkResetKeepsSettled(q: Queues, ids: seq<nat>)
    requires Settled(q)
    ensures Settled(q.(requests := MarkReset(q.requests, ids)))
  {
    SameSent(q, q.(requests := MarkReset(q.requests, ids)));
  }

  lemma MarkResetKeepsConsistent(q: Queues, answered: set<nat>, clock: Time, ids: seq<nat>)
    requires Consistent(q, answered, clock)
    ensures Consistent(q.(requests := MarkReset(q.requests, ids)), answered, clock)
  {
    MarkResetRelabels(q, ids);
    MarkResetKeepsSettled(q, ids);
    RelabelKeepsConsistent(q, q.(requests := MarkReset(q.requests, ids)), answered, clock);
  }

  lemma LossKeepsInv(s: State, clock: Time, id: nat)
    requires Inv(s, clock)
    ensures Inv(PacketLossDetected(s, id), clock)
  {
    MarkResetKeepsConsistent(s.q, s.tm.answered, clock, s.q.requestsByLastTransmission);
  }

  lemma MoveFirstKeepsSent(q: Queues)
    requires q.requestsByLastTransmission != []
    ensures forall x :: IsSent(MoveFirst(q), x) <==> IsSent(q, x)
  {
    var id := q.requestsByLastTransmission[0];
    InsertMembers(q.requests, ByRetransmit, q.retransmitRequests, id);
    assert forall x :: x in q.requestsByLastTransmission ==> x == id || x in q.requestsByLastTransmission[1..];
  }

  lemma MoveFirstKeepsPartition(q: Queues)
    requires Partition(q) && q.requestsByLastTransmission != []
    ensures Partition(MoveFirst(q))
  {
    var id := q.requestsByLastTransmission[0];
    MoveFirstKeepsSent(q);
    InsertMembers(q.requests, ByRetransmit, q.retransmitRequests, id);
    InsertKeepsNoDuplicates(q.requests, ByRetransmit, q.retransmitRequests, id);
  }

  lemma MoveFirstKeepsOrdered(q: Queues, clock: Time)
    requires Ordered(q, clock) && q.requestsByLastTransmission != []
    ensures Ordered(MoveFirst(q), clock)
  {
    MoveFirstKeepsSent(q);
    InsertKeepsSorted(q.requests, ByRetransmit, q.retransmitRequests, q.requestsByLastTransmission[0]);
  }

  lemma MoveFirstKeepsConsistent(q: Queues, answered: set<nat>, clock: Time)
    requires Consistent(q, answered, clock) && q.requestsByLastTransmission != []
    ensures Consistent(MoveFirst(q), answered, clock)
  {
    MoveFirstKeepsPartition(q);
    MoveFirstKeepsOrdered(q, clock);
    MoveFirstKeepsSent(q);
    RearrangeKeepsIndexed(q, MoveFirst(q));
    RearrangeKeepsNumbered(q, MoveFirst(q), answered);
    RearrangeKeepsSettled(q, MoveFirst(q));
  }

  lemma RetransmitTimeKeepsSettled(q: Queues, id: nat, t: Time)
    requires Settled(q) && id in q.requests
    ensures Settled(q.(requests := q.requests[id := At(q.requests, id).(retransmitTime := t)]))
  {
    SameSent(q, q.(requests := q.requests[id := At(q.requests, id).(retransmitTime := t)]));
  }

  lemma RetransmitTimeKeepsConsistent(q: Queues, answered: set<nat>, clock: Time, id: nat, t: Time)
    requires Consistent(q, answered, clock) && id in q.requestsByLastTransmission
    ensures Consistent(q.(requests := q.requests[id := At(q.requests, id).(retransmitTime := t)]), answered, clock)
  {
    assert IsSent(q, id);
    RetransmitTimeKeepsSettled(q, id, t);
    SameContainersKeepConsistent(q, q.(requests := q.requests[id := At(q.requests, id).(retransmitTime := t)]),
                                 answered, clock);
  }

  lemma LoseFirstKeepsInv(s: State, clock: Time, retransmitTime: Time)
    requires Inv(s, clock) && s.q.requestsByLastTransmission != []
    ensures Inv(LoseFirst(s, retransmitTime), clock)
  {
    var id := s.q.requestsByLastTransmission[0];
    assert id in s.q.requestsByLastTransmission;
    RetransmitTimeKeepsConsistent(s.q, s.tm.answered, clock, id, retransmitTime);
    var u := WithRetransmitTime(s, id, retransmitTime);
    LossKeepsInv(u, clock, id);
    var t := PacketLossDetected(u, id);
    MoveFirstKeepsConsistent(t.q, t.tm.answered, clock);
    assert LoseFirst(s, retransmitTime) == t.(q := MoveFirst(t.q));
  }

  lemma DetectStepKeepsInv(s: State, l: Limits, clock: Time, now: Time)
    requires Inv(s, clock) && DetectStep(s, l, now).Some?
    ensures Inv(DetectStep(s, l, now).value.0, clock)
  {
    var id := s.q.requestsByLastTransmission[0];
    assert id in s.q.requestsByLastTransmission;
    if At(s.q.requests, id).successOrTimeout {
      RemoveKeepsConsistent(s.q, s.tm.answered, clock, id);
    } else if RtoDeadline(s, l, id) <= now {
      LoseFirstKeepsInv(s, clock, RtoDeadline(s, l, id));
    } else {
      LoseFirstKeepsInv(s, clock, EarlyDeadline(s, l, id));
    }
  }

  lemma {:induction false} DetectKeepsInv(s: State, l: Limits, clock: Time, now: Time, rtoExpired: bool)
    requires Inv(s, clock)
    ensures Inv(DetectLosses(s, l, now, rtoExpired).0, clock)
    decreases |s.q.requestsByLastTransmission|
  {
    var step := DetectStep(s, l, now);
    if step.Some? {
      DetectStepShrinks(s, l, now);
      DetectStepKeepsInv(s, l, clock, now);
      DetectKeepsInv(step.value.0, l, clock, now, rtoExpired || step.value.1);
    }
  }

  lemma CheckKeepsInv(s: State, cfg: Config, clock: Time, now: Time)
    requires Inv(s, clock)
    ensures Inv(CheckSentRequests(s, cfg, now).s, clock)
  {
    var queued := ExpireQueued(s, cfg, now);
    ExpireQueuedKeepsInv(s, cfg, clock, now);
    var sent := ExpireSent(queued, cfg, now);
    ExpireSentKeepsInv(queued, cfg, clock, now);
    ExpiredKeepsMultiplier(s, cfg, now);
    var l := LimitsOf(sent, cfg);
    DetectKeepsInv(sent, l, clock, now, false);
    BackoffKeepsPowerOfTwo(DetectLosses(sent, l, now, false).0.tm.retransmissionTimeoutMultiplier);
  }
}
