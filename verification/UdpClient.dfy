/**
 The UDP client as an object: each critical section as a method that updates the fields in place, proved to do
 exactly what its function on the state says.
 */
module UdpClient {
  import opened Common
  import opened UdpArithmetic
  import opened UdpState

  /** The removal loop passes over everything that sorts before the request. */
  lemma {:induction false} EraseSplits(heap: Heap, order: Order, ids: seq<nat>, id: nat, i: nat)
    requires i <= |ids| && forall k :: 0 <= k < i ==> Key(heap, order, ids[k]) < Key(heap, order, id)
    requires i < |ids| ==> Key(heap, order, ids[i]) >= Key(heap, order, id)
    ensures Erase(heap, order, ids, id) ==
              if i < |ids| && Key(heap, order, ids[i]) == Key(heap, order, id)
              then ids[..i] + Without(ids[i..], id) else ids
  {
    if i > 0 {
      EraseSplits(heap, order, ids[1..], id, i - 1);
      HeadSplits(ids, i);
    } else {
      assert ids[0..] == ids;
    }
  }

  lemma HeadSplits(ids: seq<nat>, i: nat)
    requires 0 < i <= |ids|
    ensures ids[1..][i - 1..] == ids[i..] && [ids[0]] + ids[1..][..i - 1] == ids[..i] && [ids[0]] + ids[1..] == ids
  {
  }

  class MrfUdpIpClient {
    const queueTimeout: int
    const requestTimeout: int

    // The request objects; the containers hold references to them.
    var requests: Heap
    var nextRequest: nat
    var newRequests: seq<nat>
    var requestsByFirstTransmission: seq<nat>
    var requestsByLastTransmission: seq<nat>
    var retransmitRequests: seq<nat>
    var refToRequest: map<Ref, nat>
    var nextRef: Ref

    var congestion: Congestion
    var timing: Timing

    var consecutiveRequestTimeoutsCount: int
    var timeoutCallbacks: seq<Option<nat>>

    // History.
    var sendCount: nat
    var delivered: seq<nat>

    function Q(): Queues
      reads this`requests, this`nextRequest, this`newRequests, this`requestsByFirstTransmission
      reads this`requestsByLastTransmission, this`retransmitRequests, this`refToRequest, this`nextRef, this`sendCount
    {
      Queues(requests, nextRequest, newRequests, requestsByFirstTransmission, requestsByLastTransmission,
             retransmitRequests, refToRequest, nextRef, sendCount)
    }

    function S(): State
      reads this
    {
      State(Q(), congestion, timing, consecutiveRequestTimeoutsCount, timeoutCallbacks, delivered)
    }

    function Cfg(): Config {
      Config(queueTimeout, requestTimeout)
    }

    constructor (queueTimeout: int, requestTimeout: int)
      ensures S() == InitialState()
      ensures this.queueTimeout == queueTimeout && this.requestTimeout == requestTimeout
    {
      this.queueTimeout, this.requestTimeout := queueTimeout, requestTimeout;
      requests, nextRequest, newRequests := map[], 0, [];
      requestsByFirstTransmission, requestsByLastTransmission, retransmitRequests := [], [], [];
      refToRequest, nextRef := map[], 0;
      congestion := Congestion(INITIAL_CONGESTION_WINDOW, 0, 0, 0, SIZE_MAX);
      timing := Timing(0, 0, 0, 0, {}, 0, 0, 1, Estimate(0, 0));
      consecutiveRequestTimeoutsCount, timeoutCallbacks := 0, [];
      sendCount, delivered := 0, [];
    }

    // ----- queuing -----

    method Enqueue(now: Time, idempotent: bool)
      modifies this`requests, this`nextRequest, this`newRequests
      ensures S() == QueueRequest(old(S()), now, idempotent)
    {
      var request := nextRequest;
      requests := requests[request := NO_REQUEST.(callback := Some(request), idempotent := idempotent,
                                                  queueTime := now)];
      nextRequest := nextRequest + 1;
      newRequests := newRequests + [request];
    }

    method QueueReadRequest(now: Time)
      modifies this`requests, this`nextRequest, this`newRequests
      ensures S() == QueueRequest(old(S()), now, true)
    {
      Enqueue(now, true);
    }

    method QueueWriteRequest(now: Time)
      modifies this`requests, this`nextRequest, this`newRequests
      ensures S() == QueueRequest(old(S()), now, false)
    {
      Enqueue(now, false);
    }

    // ----- removeRequest -----

    /** Finds the first element that is equal in the order of the set, or the end. */
    method Find(order: Order, ids: seq<nat>, id: nat) returns (i: nat)
      ensures i <= |ids| && UdpState.Erase(requests, order, ids, id) == UdpState.EraseFrom(ids, id, i)
    {
      i := 0;
      while i < |ids| && Key(requests, order, ids[i]) < Key(requests, order, id)
        invariant i <= |ids|
        invariant forall k :: 0 <= k < i ==> Key(requests, order, ids[k]) < Key(requests, order, id)
      {
        i := i + 1;
      }
      EraseSplits(requests, order, ids, id, i);
      if i < |ids| && Key(requests, order, ids[i]) != Key(requests, order, id) {
        i := |ids|;
      }
    }

    /** The removal loop: from the given element on, whichever of the equal ones that is, erases the request itself
        wherever it occurs. */
    method EraseFrom(ids: seq<nat>, id: nat, found: nat) returns (rest: seq<nat>)
      requires found <= |ids|
      ensures rest == UdpState.EraseFrom(ids, id, found)
    {
      rest := ids;
      var i: nat := found;
      while i < |rest|
        invariant i <= |rest|
        invariant UdpState.EraseFrom(ids, id, found) == UdpState.EraseFrom(rest, id, i)
        decreases |rest| - i
      {
        assert rest[i..] == [rest[i]] + rest[i + 1..];
        if rest[i] == id {
          rest := rest[..i] + rest[i + 1..];
        } else {
          assert rest[..i + 1] == rest[..i] + [rest[i]];
          i := i + 1;
        }
      }
    }

    method Erase(order: Order, ids: seq<nat>, id: nat) returns (rest: seq<nat>)
      ensures rest == UdpState.Erase(requests, order, ids, id)
    {
      var found := Find(order, ids, id);
      rest := EraseFrom(ids, id, found);
    }

    method EraseRefs(id: nat)
      modifies this`refToRequest
      ensures refToRequest == old(refToRequest) - At(requests, id).sendTime.Keys
    {
      var refs := At(requests, id).sendTime.Keys;
      while refs != {}
        invariant refs <= At(requests, id).sendTime.Keys
        invariant refToRequest == old(refToRequest) - (At(requests, id).sendTime.Keys - refs)
        decreases |refs|
      {
        var ref :| ref in refs;
        refToRequest := refToRequest - {ref};
        refs := refs - {ref};
      }
    }

    method RemoveRequest(id: nat)
      modifies this`refToRequest, this`requestsByFirstTransmission, this`requestsByLastTransmission
      modifies this`retransmitRequests
      ensures Q() == UdpState.RemoveRequest(old(Q()), id)
    {
      EraseRefs(id);
      requestsByFirstTransmission := Erase(ByFirstSend, requestsByFirstTransmission, id);
      requestsByLastTransmission := Erase(ByLastSend, requestsByLastTransmission, id);
      retransmitRequests := Erase(ByRetransmit, retransmitRequests, id);
    }

    // ----- packetLossDetected -----

    method CountLoss(ref: Ref)
      modifies this`congestion
      ensures congestion == UdpState.CountLoss(old(congestion), ref)
    {
      if congestion.consecutiveLossesCount == 0 {
        congestion := congestion.(consecutiveLossesFirstRef := ref, consecutiveLossesCount := 1);
      } else if (congestion.consecutiveLossesFirstRef + congestion.consecutiveLossesCount) % REF_COUNT == ref {
        congestion := congestion.(
          consecutiveLossesCount := Min(congestion.consecutiveLossesCount + 1, CONSECUTIVE_LOSSES_LIMIT));
      } else {
        congestion := congestion.(consecutiveLossesFirstRef := ref, consecutiveLossesCount := 1);
      }
    }

    method ShrinkWindow(request: Request) returns (reset: bool)
      modifies this`congestion
      ensures congestion == UdpState.ShrinkWindow(old(congestion), request)
      ensures reset == ResetsWindow(old(congestion), request)
    {
      CountLoss(request.lastRef);
      congestion := congestion.(slowStartThreshold := Max(request.packetsInFlightWhenSent / 2, 2));
      reset := congestion.consecutiveLossesCount >= CONSECUTIVE_LOSSES_LIMIT;
      if reset {
        congestion := congestion.(congestionWindow := 1, consecutiveLossesCount := 0);
      } else {
        congestion := congestion.(congestionWindow := Max(congestion.congestionWindow - 1, 1));
      }
      congestion := congestion.(congestionWindowIncrementCounter := 0);
    }

    method PacketLossDetected(id: nat)
      modifies this`requests, this`congestion
      ensures
        var r := At(old(requests), id);
        if r.congestionWindowResetAfterSent then congestion == old(congestion) && requests == old(requests)
        else
          && congestion == UdpState.ShrinkWindow(old(congestion), r)
          && requests == if ResetsWindow(old(congestion), r) then MarkReset(old(requests), requestsByLastTransmission)
                         else old(requests)
    {
      var request := At(requests, id);
      if !request.congestionWindowResetAfterSent {
        var reset := ShrinkWindow(request);
        if reset {
          MarkInFlight();
        }
      }
    }

    method MarkInFlight()
      modifies this`requests
      ensures requests == MarkReset(old(requests), requestsByLastTransmission)
    {
      var i := 0;
      while i < |requestsByLastTransmission|
        invariant 0 <= i <= |requestsByLastTransmission|
        invariant requests == MarkReset(old(requests), requestsByLastTransmission[..i])
      {
        var x := requestsByLastTransmission[i];
        if x in requests {
          requests := requests[x := requests[x].(congestionWindowResetAfterSent := true)];
        }
        i := i + 1;
      }
      assert requestsByLastTransmission[..i] == requestsByLastTransmission;
    }

    // ----- checkSentRequests -----

    /** The first new request has waited too long: it leaves, and its callback is to be called. */
    method TimeOutQueued()
      requires newRequests != []
      modifies this`requests, this`newRequests, this`timeoutCallbacks
      ensures S() == DropExpired(old(S()))
    {
      var id := newRequests[0];
      timeoutCallbacks := timeoutCallbacks + [At(requests, id).callback];
      requests := requests[id := At(requests, id).(callback := None)];
      newRequests := newRequests[1..];
    }

    method ExpireQueued(now: Time) returns (nextCheck: Time)
      modifies this`requests, this`newRequests, this`timeoutCallbacks
      ensures S() == UdpState.ExpireQueued(old(S()), Cfg(), now)
      ensures nextCheck == NextQueueCheck(S(), Cfg())
    {
      nextCheck := 0;
      if queueTimeout != 0 {
        while newRequests != []
          invariant UdpState.ExpireQueued(S(), Cfg(), now) == UdpState.ExpireQueued(old(S()), Cfg(), now)
          invariant nextCheck == 0
          decreases |newRequests|
        {
          var queueTimeoutTime := At(requests, newRequests[0]).queueTime + queueTimeout;
          if queueTimeoutTime <= now {
            TimeOutQueued();
          } else {
            nextCheck := queueTimeoutTime;
            break;
          }
        }
      }
    }

    method ResetCongestion()
      modifies this`congestion
      ensures congestion == UdpState.ResetCongestion(old(congestion))
    {
      congestion := congestion.(congestionWindow := INITIAL_CONGESTION_WINDOW, congestionWindowIncrementCounter := 0,
                                consecutiveLossesCount := 0, slowStartThreshold := SIZE_MAX);
    }

    method ResetTiming()
      modifies this`timing
      ensures timing == UdpState.ResetTiming(old(timing))
    {
      timing := timing.(lastReceivedRoundTripTime := 0, lastReceivedSendTime := 0, answered := {},
                        reorderingWindowMultiplier := 0, reorderingWindowMultiplierResetCounter := 0,
                        estimate := Estimate(0, 0));
    }

    method CountTimeout()
      modifies this`consecutiveRequestTimeoutsCount, this`congestion, this`timing
      ensures S() == UdpState.CountTimeout(old(S()))
    {
      if consecutiveRequestTimeoutsCount <= MAX_REQUEST_TIMEOUTS_BEFORE_OFFLINE {
        consecutiveRequestTimeoutsCount := consecutiveRequestTimeoutsCount + 1;
      } else {
        ResetCongestion();
        ResetTiming();
      }
    }

    /** The request that was sent first is no longer watched, and its callback is to be called. */
    method UnwatchFirst()
      requires requestsByFirstTransmission != []
      modifies this`requests, this`requestsByFirstTransmission, this`timeoutCallbacks
      ensures S() == UdpState.UnwatchFirst(old(S()))
    {
      var id := requestsByFirstTransmission[0];
      timeoutCallbacks := timeoutCallbacks + [At(requests, id).callback];
      requests := requests[id := At(requests, id).(callback := None, successOrTimeout := true)];
      requestsByFirstTransmission := requestsByFirstTransmission[1..];
    }

    method ExpireSent(now: Time, queueCheck: Time) returns (nextCheck: Time)
      modifies this`requests, this`requestsByFirstTransmission, this`timeoutCallbacks
      modifies this`consecutiveRequestTimeoutsCount, this`congestion, this`timing
      ensures S() == UdpState.ExpireSent(old(S()), Cfg(), now)
      ensures nextCheck == NextRequestCheck(S(), Cfg(), queueCheck)
    {
      nextCheck := queueCheck;
      while requestsByFirstTransmission != []
        invariant UdpState.ExpireSent(S(), Cfg(), now) == UdpState.ExpireSent(old(S()), Cfg(), now)
        invariant nextCheck == queueCheck
        decreases |requestsByFirstTransmission|
      {
        var requestTimeoutTime := At(requests, requestsByFirstTransmission[0]).firstSendTime + requestTimeout;
        if requestTimeoutTime <= now {
          UnwatchFirst();
          CountTimeout();
        } else {
          nextCheck := if nextCheck == 0 then requestTimeoutTime else Min(nextCheck, requestTimeoutTime);
          break;
        }
      }
    }

    /** The first packet in flight is lost: its request waits for its retransmission. */
    method RetransmitFirst(retransmitTime: Time)
      requires requestsByLastTransmission != []
      modifies this`requests, this`congestion, this`retransmitRequests, this`requestsByLastTransmission
      ensures S() == LoseFirst(old(S()), retransmitTime)
    {
      var id := requestsByLastTransmission[0];
      requests := requests[id := At(requests, id).(retransmitTime := retransmitTime)];
      PacketLossDetected(id);
      MoveFirst();
    }

    method MoveFirst()
      requires requestsByLastTransmission != []
      modifies this`retransmitRequests, this`requestsByLastTransmission
      ensures Q() == UdpState.MoveFirst(old(Q()))
    {
      retransmitRequests := Insert(requests, ByRetransmit, retransmitRequests, requestsByLastTransmission[0]);
      requestsByLastTransmission := requestsByLastTransmission[1..];
    }

    /** Looks at the first packet in flight. If nothing is to be done for it, the result is when to look again. */
    method DetectFirst(l: Limits, now: Time) returns (done: bool, expired: bool, nextRetransmissionCheck: Time)
      requires requestsByLastTransmission != []
      modifies this`requests, this`congestion, this`retransmitRequests, this`requestsByLastTransmission
      modifies this`requestsByFirstTransmission, this`refToRequest
      ensures !done ==> DetectStep(old(S()), l, now) == Some((S(), expired))
      ensures done ==> DetectStep(old(S()), l, now).None? && S() == old(S()) && !expired
      ensures done ==> nextRetransmissionCheck == RetransmissionCheck(S(), l, requestsByLastTransmission[0])
    {
      done, expired, nextRetransmissionCheck := false, false, 0;
      var id := requestsByLastTransmission[0];
      var request := At(requests, id);
      var rtoExpires := request.lastSendTime + l.rto;
      var earlyRetransmitExpires := request.lastSendTime + l.reorderingWindow + timing.lastReceivedRoundTripTime;
      var responseForLaterTransmissionReceived :=
        timing.lastReceivedSendTime != 0 && RefGreaterThan(timing.lastReceivedRef, request.lastRef);
      ghost var s := S();
      if request.successOrTimeout {
        assert DetectStep(s, l, now) == Some((s.(q := UdpState.RemoveRequest(s.q, id)), false));
        RemoveRequest(id);
      } else if rtoExpires <= now {
        assert DetectStep(s, l, now) == Some((LoseFirst(s, rtoExpires), true));
        RetransmitFirst(rtoExpires);
        expired := true;
      } else if responseForLaterTransmissionReceived && earlyRetransmitExpires <= now {
        assert DetectStep(s, l, now) == Some((LoseFirst(s, earlyRetransmitExpires), false));
        RetransmitFirst(earlyRetransmitExpires);
      } else {
        done := true;
        nextRetransmissionCheck :=
          if responseForLaterTransmissionReceived && earlyRetransmitExpires < rtoExpires
          then earlyRetransmitExpires else rtoExpires;
      }
    }

    method DetectLosses(l: Limits, now: Time, requestCheck: Time) returns (nextCheck: Time, rtoExpired: bool)
      modifies this`requests, this`congestion, this`retransmitRequests, this`requestsByLastTransmission
      modifies this`requestsByFirstTransmission, this`refToRequest
      ensures (S(), rtoExpired) == UdpState.DetectLosses(old(S()), l, now, false)
      ensures nextCheck == NextLossCheck(S(), l, requestCheck)
    {
      nextCheck, rtoExpired := requestCheck, false;
      while requestsByLastTransmission != []
        invariant UdpState.DetectLosses(S(), l, now, rtoExpired) == UdpState.DetectLosses(old(S()), l, now, false)
        invariant nextCheck == requestCheck
        decreases |requestsByLastTransmission|
      {
        ghost var s := S();
        var done, expired, nextRetransmissionCheck := DetectFirst(l, now);
        if done {
          nextCheck := if nextCheck == 0 then nextRetransmissionCheck else Min(nextCheck, nextRetransmissionCheck);
          break;
        }
        DetectStepShrinks(s, l, now);
        rtoExpired := rtoExpired || expired;
      }
    }

    method CheckSentRequests(now: Time) returns (nextCheck: Time)
      requires timing.retransmissionTimeoutMultiplier > 0
      modifies this
      ensures Check(S(), nextCheck) == UdpState.CheckSentRequests(old(S()), Cfg(), now)
    {
      ghost var s := S();
      ExpiredKeepsMultiplier(s, Cfg(), now);
      nextCheck := ExpireQueued(now);
      nextCheck := ExpireSent(now, nextCheck);
      var l := Limits(
        RetransmissionTimeout(requestTimeout, timing.estimate.smoothed, timing.estimate.variation,
                              timing.retransmissionTimeoutMultiplier),
        Quotient(timing.reorderingWindowMultiplier * timing.estimate.smoothed, 4));
      var rtoExpired;
      nextCheck, rtoExpired := DetectLosses(l, now, nextCheck);
      if rtoExpired {
        var multiplier := timing.retransmissionTimeoutMultiplier;
        timing := timing.(retransmissionTimeoutMultiplier := Max(Wrap(multiplier * 2), multiplier));
      }
    }

    // ----- trySendRequest and the send thread -----

    /** The packet went out. */
    method RecordSend(id: nat, now: Time)
      modifies this`requests, this`nextRef, this`sendCount, this`requestsByFirstTransmission, this`refToRequest
      modifies this`requestsByLastTransmission
      ensures Q() == UdpState.TrySendRequest(old(Q()), id, Sends(now))
    {
      var first := At(requests, id).sendTime == map[];
      requests := requests[id := UdpState.RecordSend(At(requests, id), Q(), now)];
      EnterSets(id, first);
      nextRef, sendCount := NextRef(nextRef), sendCount + 1;
    }

    method EnterSets(id: nat, first: bool)
      modifies this`requestsByFirstTransmission, this`refToRequest, this`requestsByLastTransmission
      ensures requestsByFirstTransmission
              == if first then Insert(requests, ByFirstSend, old(requestsByFirstTransmission), id)
                 else old(requestsByFirstTransmission)
      ensures refToRequest
              == if nextRef in old(refToRequest) then old(refToRequest) else old(refToRequest)[nextRef := id]
      ensures requestsByLastTransmission == Insert(requests, ByLastSend, old(requestsByLastTransmission), id)
    {
      if first {
        requestsByFirstTransmission := Insert(requests, ByFirstSend, requestsByFirstTransmission, id);
      }
      if nextRef !in refToRequest {
        refToRequest := refToRequest[nextRef := id];
      }
      requestsByLastTransmission := Insert(requests, ByLastSend, requestsByLastTransmission, id);
    }

    method TrySendRequest(id: nat, outcome: Outcome) returns (sent: bool)
      modifies this`requests, this`nextRef, this`sendCount, this`requestsByFirstTransmission, this`refToRequest
      modifies this`requestsByLastTransmission
      ensures Q() == UdpState.TrySendRequest(old(Q()), id, outcome)
      ensures sent == outcome.Sends?
    {
      sent := outcome.Sends?;
      if sent {
        RecordSend(id, outcome.now);
      } else {
        requests := requests[id := At(requests, id).(lastRef := nextRef)];
      }
    }

    /** The callback of a request is swapped out of it and called. */
    method TakeCallback(id: nat)
      modifies this`requests, this`delivered
      ensures S() == UdpState.TakeCallback(old(S()), id)
    {
      delivered := delivered + CallbackOf(At(requests, id).callback);
      requests := requests[id := At(requests, id).(callback := None)];
    }

    method Retransmit(outcome: Outcome)
      requires retransmitRequests != []
      modifies this`requests, this`nextRef, this`sendCount, this`requestsByFirstTransmission, this`refToRequest
      modifies this`requestsByLastTransmission, this`retransmitRequests
      ensures S() == UdpState.Retransmit(old(S()), outcome)
    {
      var id := retransmitRequests[0];
      if At(requests, id).successOrTimeout {
        RemoveRequest(id);
      } else {
        var sent := TrySendRequest(id, outcome);
        if sent {
          retransmitRequests := retransmitRequests[1..];
        }
      }
    }

    method TryNew(outcome: Outcome)
      requires newRequests != []
      modifies this`requests, this`nextRef, this`sendCount, this`requestsByFirstTransmission, this`refToRequest
      modifies this`requestsByLastTransmission, this`newRequests
      ensures S() == UdpState.TryNew(old(S()), outcome)
    {
      var sent := TrySendRequest(newRequests[0], outcome);
      if consecutiveRequestTimeoutsCount > MAX_REQUEST_TIMEOUTS_BEFORE_OFFLINE || sent {
        newRequests := newRequests[1..];
      }
    }

    method SendNew(outcome: Outcome)
      requires newRequests != []
      modifies this`requests, this`nextRef, this`sendCount, this`requestsByFirstTransmission, this`refToRequest
      modifies this`requestsByLastTransmission, this`newRequests, this`delivered
      ensures S() == UdpState.SendNew(old(S()), outcome)
    {
      var id := newRequests[0];
      TryNew(outcome);
      if consecutiveRequestTimeoutsCount > MAX_REQUEST_TIMEOUTS_BEFORE_OFFLINE {
        TakeCallback(id);
      }
    }

    method FailNew()
      requires newRequests != []
      modifies this`requests, this`newRequests, this`delivered
      ensures S() == UdpState.FailNew(old(S()))
    {
      var id := newRequests[0];
      delivered := delivered + CallbackOf(At(requests, id).callback);
      newRequests := newRequests[1..];
      requests := requests - {id};
    }

    method SendPart(outcome: Outcome)
      modifies this`requests, this`nextRef, this`sendCount, this`requestsByFirstTransmission, this`refToRequest
      modifies this`requestsByLastTransmission, this`newRequests, this`retransmitRequests, this`delivered
      ensures S() == UdpState.SendPart(old(S()), outcome)
    {
      var offline := consecutiveRequestTimeoutsCount > MAX_REQUEST_TIMEOUTS_BEFORE_OFFLINE;
      if congestion.congestionWindow > |requestsByLastTransmission| {
        if retransmitRequests != [] {
          Retransmit(outcome);
        } else if newRequests != [] {
          SendNew(outcome);
        }
      } else if offline && newRequests != [] {
        FailNew();
      }
    }

    method DeliverTimeouts()
      modifies this`timeoutCallbacks, this`delivered
      ensures S() == UdpState.DeliverTimeouts(old(S()))
    {
      var local := timeoutCallbacks;
      timeoutCallbacks := [];
      var i := 0;
      while i < |local|
        invariant 0 <= i <= |local|
        invariant delivered + Present(local[i..]) == old(delivered) + Present(local)
        invariant timeoutCallbacks == []
      {
        assert local[i..] == [local[i]] + local[i + 1..];
        delivered := delivered + CallbackOf(local[i]);
        i := i + 1;
      }
      assert local[i..] == [];
    }

    /** One iteration of the send thread, and when it should look again at the latest. */
    method SendIteration(now: Time, outcome: Outcome) returns (nextCheckTime: Time)
      requires timing.retransmissionTimeoutMultiplier > 0
      modifies this
      ensures S() == UdpState.SendIteration(old(S()), Cfg(), now, outcome)
      ensures nextCheckTime == UdpState.CheckSentRequests(old(S()), Cfg(), now).nextCheck
    {
      nextCheckTime := CheckSentRequests(now);
      SendPart(outcome);
      DeliverTimeouts();
    }

    // ----- the receive thread -----

    method UpdateRoundTripTime(measurement: int)
      modifies this`timing
      ensures timing == old(timing).(estimate := UdpArithmetic.UpdateRoundTripTime(
                                       old(timing).estimate, measurement, |requestsByFirstTransmission|))
    {
      var smoothed, variation := timing.estimate.smoothed, timing.estimate.variation;
      if smoothed == 0 && variation == 0 {
        smoothed, variation := measurement, Quotient(measurement, 2);
      } else {
        var k := Max(|requestsByFirstTransmission| / 2, 1);
        var diff := if smoothed > measurement then smoothed - measurement else measurement - smoothed;
        variation := Quotient((4 * k - 1) * variation + diff, 4 * k);
        smoothed := Quotient((8 * k - 1) * smoothed + measurement, 8 * k);
      }
      timing := timing.(estimate := Estimate(smoothed, variation));
    }

    method GrowWindow(request: Request)
      modifies this`congestion
      ensures congestion == UdpState.GrowWindow(old(congestion), request)
    {
      if !request.congestionWindowResetAfterSent {
        if congestion.congestionWindow <= congestion.slowStartThreshold {
          congestion := congestion.(congestionWindow := congestion.congestionWindow + 1);
        } else if congestion.congestionWindow == request.packetsInFlightWhenSent {
          congestion := congestion.(
            congestionWindowIncrementCounter := congestion.congestionWindowIncrementCounter + 1);
          if congestion.congestionWindowIncrementCounter == 2 {
            congestion := congestion.(congestionWindow := congestion.congestionWindow + 1);
            congestion := congestion.(congestionWindowIncrementCounter := 0);
          }
        }
      }
    }

    method RecordAnswer(ref: Ref, sent: Sent, roundTripTime: int)
      modifies this`timing
      ensures timing == UdpState.RecordAnswer(old(timing), ref, sent, roundTripTime)
    {
      if timing.lastReceivedSendTime != 0 && RefGreaterThan(timing.lastReceivedRef, ref) {
        timing := timing.(reorderingWindowMultiplier := Max(timing.reorderingWindowMultiplier, 1));
      } else {
        timing := timing.(lastReceivedRef := ref, lastReceivedSeq := sent.seqNumber);
        timing := timing.(lastReceivedRoundTripTime := roundTripTime);
        timing := timing.(lastReceivedSendTime := sent.time);
      }
      timing := timing.(answered := timing.answered + {sent.seqNumber});
    }

    method AdjustReordering(request: Request, ref: Ref)
      modifies this`timing
      ensures timing == UdpState.AdjustReordering(old(timing), request, ref)
    {
      if ref != request.lastRef && timing.reorderingWindowMultiplier != 0 {
        timing := timing.(reorderingWindowMultiplier := Max(timing.reorderingWindowMultiplier + 1, 4));
        timing := timing.(reorderingWindowMultiplierResetCounter := 16);
      }
      if ref == request.lastRef && request.firstSendTime != request.lastSendTime
         && timing.reorderingWindowMultiplier > 1 {
        timing := timing.(reorderingWindowMultiplierResetCounter := timing.reorderingWindowMultiplierResetCounter - 1);
        if timing.reorderingWindowMultiplierResetCounter == 0 {
          timing := timing.(reorderingWindowMultiplier := 1);
        }
      }
    }

    method TimeAnswer(request: Request, ref: Ref, receiveTime: Time)
      modifies this`timing
      ensures timing == UdpState.TimeAnswer(old(timing), request, ref, receiveTime, |requestsByFirstTransmission|)
    {
      if ref in request.sendTime {
        var roundTripTime := receiveTime - request.sendTime[ref].time;
        UpdateRoundTripTime(roundTripTime);
        RecordAnswer(ref, request.sendTime[ref], roundTripTime);
        AdjustReordering(request, ref);
      }
    }

    /** The packet is no longer waited for. */
    method EraseSendTime(id: nat, ref: Ref)
      modifies this`refToRequest, this`requests
      ensures Q() == AfterSendTimeErased(old(Q()), id, ref)
    {
      refToRequest := refToRequest - {ref};
      requests := requests[id := At(requests, id).(sendTime := At(requests, id).sendTime - {ref})];
    }

    method MeasureReply(request: Request, ref: Ref, receiveTime: Time)
      modifies this`timing
      ensures timing == UdpState.TimeAnswer(old(timing).(retransmissionTimeoutMultiplier := 1), request, ref,
                                          receiveTime, |requestsByFirstTransmission|)
    {
      timing := timing.(retransmissionTimeoutMultiplier := 1);
      TimeAnswer(request, ref, receiveTime);
    }

    method CountReply(request: Request, ref: Ref, receiveTime: Time)
      modifies this`consecutiveRequestTimeoutsCount, this`congestion, this`timing
      ensures S() == UdpState.CountReply(old(S()), request, ref, receiveTime)
    {
      consecutiveRequestTimeoutsCount := 0;
      GrowWindow(request);
      MeasureReply(request, ref, receiveTime);
    }

    method Answer(id: nat, ref: Ref, receiveTime: Time)
      requires ref in refToRequest && refToRequest[ref] == id
      modifies this
      ensures S() == UdpState.Answer(old(S()), ref, receiveTime)
    {
      CountReply(At(requests, id), ref, receiveTime);
      EraseSendTime(id, ref);
    }

    method Complete(id: nat, ref: Ref)
      modifies this`requests, this`delivered, this`refToRequest, this`requestsByFirstTransmission
      modifies this`requestsByLastTransmission, this`retransmitRequests
      ensures S() == UdpState.Complete(old(S()), id, ref)
    {
      var request := At(requests, id);
      if request.idempotent || ref == request.lastRef {
        TakeCallback(id);
        requests := requests[id := At(requests, id).(successOrTimeout := true)];
        if ref == request.lastRef {
          RemoveRequest(id);
        }
      }
    }

    /** The body of the receive loop for a packet that has arrived. */
    method ReceivePacket(ref: Ref, receiveTime: Time)
      modifies this
      ensures S() == UdpState.ReceivePacket(old(S()), ref, receiveTime)
    {
      if ref in refToRequest {
        var id := refToRequest[ref];
        Answer(id, ref, receiveTime);
        Complete(id, ref);
      }
    }
  }

  /** A client is made only with valid timeouts; otherwise there is an exception and no client. */
  method CreateClient(queueTimeout: int, requestTimeout: int) returns (client: MrfUdpIpClient?)
    ensures client != null <==> queueTimeout >= 0 && requestTimeout > 0
    ensures client != null ==> fresh(client) && client.S() == InitialState()
    ensures client != null ==> client.Cfg() == Config(queueTimeout, requestTimeout)
  {
    if queueTimeout < 0 {
      return null;
    }
    if requestTimeout <= 0 {
      return null;
    }
    client := new MrfUdpIpClient(queueTimeout, requestTimeout);
  }
}
