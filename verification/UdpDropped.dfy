/**
 When a request that has settled (by its request timeout or by a reply to an earlier packet) is finally dropped. Its
 own retransmission timeout does not matter, only what is in flight before it.
 */
module UdpDropped {
  import opened Common
  import opened UdpState
  import opened UdpContainers
  import opened UdpInvariants
  import opened UdpDeadlines
  import opened UdpCallbacks
  import opened UdpRuns
  import opened UdpRefusedSend
  import opened UdpOverlooked

  // ----- in every run a sent request is in one set, once -----

  ghost predicate SentOnce(q: Queues) {
    && NoDuplicates(q.requestsByLastTransmission) && NoDuplicates(q.retransmitRequests)
    && forall x :: x in q.requestsByLastTransmission ==> x !in q.retransmitRequests
  }

  lemma {:induction false} EraseKeepsNoDuplicates(heap: Heap, order: Order, ids: seq<nat>, id: nat)
    requires NoDuplicates(ids)
    ensures NoDuplicates(Erase(heap, order, ids, id))
  {
    if ids != [] {
      if Key(heap, order, ids[0]) < Key(heap, order, id) {
        EraseKeepsNoDuplicates(heap, order, ids[1..], id);
        EraseTakesOnly(heap, order, ids[1..], id);
        Prepend(heap, order, ids[0], Erase(heap, order, ids[1..], id));
      } else {
        WithoutKeepsNoDuplicates(ids, id);
      }
    }
  }

  lemma RemoveKeepsOnce(q: Queues, id: nat)
    requires SentOnce(q)
    ensures SentOnce(RemoveRequest(q, id))
  {
    EraseKeepsNoDuplicates(q.requests, ByLastSend, q.requestsByLastTransmission, id);
    EraseKeepsNoDuplicates(q.requests, ByRetransmit, q.retransmitRequests, id);
    EraseTakesOnly(q.requests, ByLastSend, q.requestsByLastTransmission, id);
    EraseTakesOnly(q.requests, ByRetransmit, q.retransmitRequests, id);
  }

  lemma MoveFirstKeepsOnce(q: Queues)
    requires SentOnce(q) && q.requestsByLastTransmission != []
    ensures SentOnce(MoveFirst(q))
  {
    var id := q.requestsByLastTransmission[0];
    InsertMembers(q.requests, ByRetransmit, q.retransmitRequests, id);
    InsertKeepsNoDuplicates(q.requests, ByRetransmit, q.retransmitRequests, id);
  }

  lemma DetectStepKeepsOnce(s: State, l: Limits, now: Time)
    requires SentOnce(s.q) && DetectStep(s, l, now).Some?
    ensures SentOnce(DetectStep(s, l, now).value.0.q)
  {
    var id := s.q.requestsByLastTransmission[0];
    if At(s.q.requests, id).successOrTimeout {
      RemoveKeepsOnce(s.q, id);
    } else {
      var deadline := if RtoDeadline(s, l, id) <= now then RtoDeadline(s, l, id) else EarlyDeadline(s, l, id);
      MoveFirstKeepsOnce(PacketLossDetected(WithRetransmitTime(s, id, deadline), id).q);
    }
  }

  lemma {:induction false} DetectKeepsOnce(s: State, l: Limits, now: Time, rtoExpired: bool)
    requires SentOnce(s.q)
    ensures SentOnce(DetectLosses(s, l, now, rtoExpired).0.q)
    decreases |s.q.requestsByLastTransmission|
  {
    var step := DetectStep(s, l, now);
    if step.Some? {
      DetectStepShrinks(s, l, now);
      DetectStepKeepsOnce(s, l, now);
      DetectKeepsOnce(step.value.0, l, now, rtoExpired || step.value.1);
    }
  }

  ghost predicate SameSets(q: Queues, q': Queues) {
    && q'.requestsByLastTransmission == q.requestsByLastTransmission
    && q'.retransmitRequests == q.retransmitRequests
  }

  lemma {:induction false} ExpireQueuedKeepsSets(s: State, cfg: Config, now: Time)
    ensures SameSets(s.q, ExpireQueued(s, cfg, now).q)
    decreases |s.q.newRequests|
  {
    if cfg.queueTimeout != 0 && s.q.newRequests != [] && QueueDeadline(s, cfg, s.q.newRequests[0]) <= now {
      ExpireQueuedKeepsSets(DropExpired(s), cfg, now);
    }
  }

  lemma {:induction false} ExpireSentKeepsSets(s: State, cfg: Config, now: Time)
    ensures SameSets(s.q, ExpireSent(s, cfg, now).q)
    decreases |s.q.requestsByFirstTransmission|
  {
    if s.q.requestsByFirstTransmission != [] && Due(s, cfg, now, s.q.requestsByFirstTransmission[0]) {
      ExpireSentKeepsSets(ExpireFirst(s), cfg, now);
    }
  }

  lemma CheckKeepsOnce(s: State, cfg: Config, now: Time)
    requires SentOnce(s.q) && s.tm.retransmissionTimeoutMultiplier > 0
    ensures SentOnce(Expired(s, cfg, now).q) && SentOnce(CheckSentRequests(s, cfg, now).s.q)
  {
    ExpireQueuedKeepsSets(s, cfg, now);
    ExpireSentKeepsSets(ExpireQueued(s, cfg, now), cfg, now);
    ExpiredKeepsMultiplier(s, cfg, now);
    DetectKeepsOnce(Expired(s, cfg, now), LimitsOf(Expired(s, cfg, now), cfg), now, false);
  }

  lemma LaunchKeepsOnce(q: Queues, id: nat, now: Time)
    requires SentOnce(q) && id !in q.requestsByLastTransmission
    ensures NoDuplicates(TrySendRequest(q, id, Sends(now)).requestsByLastTransmission)
    ensures forall x :: x in TrySendRequest(q, id, Sends(now)).requestsByLastTransmission
                        <==> x in q.requestsByLastTransmission || x == id
  {
    var heap := TrySendRequest(q, id, Sends(now)).requests;
    InsertKeepsNoDuplicates(heap, ByLastSend, q.requestsByLastTransmission, id);
    InsertMembers(heap, ByLastSend, q.requestsByLastTransmission, id);
  }

  lemma SendKeepsOnce(s: State, outcome: Outcome)
    requires SentOnce(s.q) && Unsent(s.q)
    ensures SentOnce(SendPart(s, outcome).q)
  {
    var q := s.q;
    if s.cc.congestionWindow > |q.requestsByLastTransmission| && q.retransmitRequests != [] {
      var id := q.retransmitRequests[0];
      assert id in q.retransmitRequests;
      RemoveKeepsOnce(q, id);
      if outcome.Sends? {
        LaunchKeepsOnce(q, id, outcome.now);
      }
    } else if s.cc.congestionWindow > |q.requestsByLastTransmission| && q.newRequests != [] {
      var id := q.newRequests[0];
      assert id in q.newRequests && !IsSent(q, id);
      if outcome.Sends? {
        LaunchKeepsOnce(q, id, outcome.now);
      }
    }
  }

  lemma StepKeepsOnce(m: Moment, cfg: Config, step: Step, m': Moment)
    requires CallbackInv(m.s) && Takes(m, cfg, step, m') && SentOnce(m.s.q)
    ensures SentOnce(m'.s.q)
  {
    match step
    case Queue(_, _) =>
    case Iterate(now, outcome) =>
      CheckKeepsCallbacks(m.s, cfg, now);
      CheckKeepsOnce(m.s, cfg, now);
      SendKeepsOnce(CheckSentRequests(m.s, cfg, now).s, outcome);
    case Receive(ref, receiveTime) =>
      if ref in m.s.q.refToRequest {
        var id := m.s.q.refToRequest[ref];
        var t := TakeCallback(Answer(m.s, ref, receiveTime), id);
        RemoveKeepsOnce(t.q.(requests := t.q.requests[id := At(t.q.requests, id).(successOrTimeout := true)]), id);
      }
  }

  lemma {:induction false} RunKeepsOnce(cfg: Config, moments: seq<Moment>, steps: seq<Step>, n: nat)
    requires IsRun(cfg, moments, steps) && n <= |steps|
    ensures SentOnce(moments[n].s.q)
  {
    if n > 0 {
      RunKeepsOnce(cfg, moments, steps, n - 1);
      CallbacksAt(cfg, moments, steps, n - 1);
      StepKeepsOnce(moments[n - 1], cfg, steps[n - 1], moments[n]);
    }
  }

  // ----- what stays in flight -----

  /** The request has settled, or its packet counts as lost. */
  ghost predicate Leaves(s: State, l: Limits, now: Time, x: nat) {
    || At(s.q.requests, x).successOrTimeout
    || RtoDeadline(s, l, x) <= now
    || (LaterResponseReceived(s, x) && EarlyDeadline(s, l, x) <= now)
  }

  /** Some request that stays in flight is x or stands before x. */
  ghost predicate BehindStaying(s: State, l: Limits, now: Time, ids: seq<nat>, x: nat) {
    exists i :: 0 <= i < |ids| && Before(ids, i, x) && !Leaves(s, l, now, ids[i])
  }

  lemma StayingInTail(s: State, l: Limits, now: Time, ids: seq<nat>, x: nat)
    requires ids != [] && Leaves(s, l, now, ids[0])
    ensures BehindStaying(s, l, now, ids, x) <==> BehindStaying(s, l, now, ids[1..], x) && x != ids[0]
  {
    if i :| 0 <= i < |ids| && Before(ids, i, x) && !Leaves(s, l, now, ids[i]) {
      BeforeInTail(ids, i - 1, x);
      assert Before(ids[1..], i - 1, x) && ids[1..][i - 1] == ids[i];
    }
    if i :| 0 <= i < |ids[1..]| && Before(ids[1..], i, x) && !Leaves(s, l, now, ids[1..][i]) {
      BeforeInTail(ids, i, x);
      assert ids[1..][i] == ids[i + 1];
    }
  }

  /** The loss of one packet does not bring another one nearer to its deadlines. */
  ghost predicate SameLoss(s: State, t: State) {
    && t.tm == s.tm
    && forall x :: var r, r' := At(s.q.requests, x), At(t.q.requests, x);
         && r'.lastSendTime == r.lastSendTime && r'.lastRef == r.lastRef
         && r'.successOrTimeout == r.successOrTimeout
  }

  lemma SameLeaving(s: State, t: State, l: Limits, now: Time, ids: seq<nat>, x: nat)
    requires SameLoss(s, t)
    ensures BehindStaying(s, l, now, ids, x) <==> BehindStaying(t, l, now, ids, x)
  {
    assert forall y :: Leaves(s, l, now, y) == Leaves(t, l, now, y);
  }

  lemma LoseFirstTakesFirst(s: State, deadline: Time)
    requires s.q.requestsByLastTransmission != []
    ensures
      var t := LoseFirst(s, deadline);
      && t.q.requestsByLastTransmission == s.q.requestsByLastTransmission[1..]
      && SameLoss(s, t)
      && forall x :: x in t.q.retransmitRequests
                     <==> x in s.q.retransmitRequests || x == s.q.requestsByLastTransmission[0]
  {
    var id := s.q.requestsByLastTransmission[0];
    var t := PacketLossDetected(WithRetransmitTime(s, id, deadline), id);
    InsertMembers(t.q.requests, ByRetransmit, t.q.retransmitRequests, id);
  }

  lemma DetectStepTakesFirst(s: State, l: Limits, now: Time)
    requires SentOnce(s.q) && DetectStep(s, l, now).Some?
    ensures
      var t, id := DetectStep(s, l, now).value.0, s.q.requestsByLastTransmission[0];
      && t.q.requestsByLastTransmission == s.q.requestsByLastTransmission[1..]
      && SameLoss(s, t) && Leaves(s, l, now, id)
      && forall x :: x in t.q.retransmitRequests ==>
           x in s.q.retransmitRequests || (x == id && !At(s.q.requests, x).successOrTimeout)
  {
    var ids := s.q.requestsByLastTransmission;
    var id := ids[0];
    if At(s.q.requests, id).successOrTimeout {
      assert id !in ids[1..];
      WithoutMembers(ids[1..], id);
      EraseTakesOnly(s.q.requests, ByRetransmit, s.q.retransmitRequests, id);
    } else {
      LoseFirstTakesFirst(s, if RtoDeadline(s, l, id) <= now then RtoDeadline(s, l, id) else EarlyDeadline(s, l, id));
    }
  }

  /** Whoever has settled leaves for good once everything before it leaves. */
  lemma {:induction false} SettledLeaves(s: State, l: Limits, now: Time, rtoExpired: bool, x: nat)
    requires SentOnce(s.q) && At(s.q.requests, x).successOrTimeout && x !in s.q.retransmitRequests
    ensures IsSent(DetectLosses(s, l, now, rtoExpired).0.q, x)
            <==> BehindStaying(s, l, now, s.q.requestsByLastTransmission, x)
    decreases |s.q.requestsByLastTransmission|
  {
    var ids := s.q.requestsByLastTransmission;
    var step := DetectStep(s, l, now);
    if step.Some? {
      var t := step.value.0;
      DetectStepShrinks(s, l, now);
      DetectStepTakesFirst(s, l, now);
      DetectStepKeepsOnce(s, l, now);
      SettledLeaves(t, l, now, rtoExpired || step.value.1, x);
      SameLeaving(s, t, l, now, ids[1..], x);
      StayingInTail(s, l, now, ids, x);
      StayingIsListed(s, l, now, ids[1..], x);
    } else if ids != [] {
      assert !Leaves(s, l, now, ids[0]);
      assert x in ids <==> Before(ids, 0, x);
      StayingIsListed(s, l, now, ids, x);
    }
  }

  lemma StayingIsListed(s: State, l: Limits, now: Time, ids: seq<nat>, x: nat)
    ensures BehindStaying(s, l, now, ids, x) ==> x in ids
  {
  }

  /** In every run: a request in flight that has timed out (or otherwise settled) is kept by a check at time `now` if
      and only if some request before it has neither settled nor lost its packet. Its own deadlines play no part. */
  lemma SettledIsDropped(cfg: Config, moments: seq<Moment>, steps: seq<Step>, now: Time, x: nat)
    requires IsRun(cfg, moments, steps)
    ensures moments[|steps|].s.tm.retransmissionTimeoutMultiplier > 0
    ensures
      var s := moments[|steps|].s;
      var expired := Expired(s, cfg, now);
      x in s.q.requestsByLastTransmission && At(expired.q.requests, x).successOrTimeout ==>
        (IsSent(CheckSentRequests(s, cfg, now).s.q, x)
         <==> BehindStaying(expired, CheckLimits(s, cfg, now), now, s.q.requestsByLastTransmission, x))
  {
    var s := moments[|steps|].s;
    EveryRunKeepsCallbacks(cfg, moments, steps);
    RunKeepsOnce(cfg, moments, steps, |steps|);
    CheckDropsSettled(s, cfg, now, x);
  }

  lemma CheckDropsSettled(s: State, cfg: Config, now: Time, x: nat)
    requires SentOnce(s.q) && s.tm.retransmissionTimeoutMultiplier > 0
    ensures
      var expired := Expired(s, cfg, now);
      x in s.q.requestsByLastTransmission && At(expired.q.requests, x).successOrTimeout ==>
        (IsSent(CheckSentRequests(s, cfg, now).s.q, x)
         <==> BehindStaying(expired, CheckLimits(s, cfg, now), now, s.q.requestsByLastTransmission, x))
  {
    var expired := Expired(s, cfg, now);
    CheckKeepsOnce(s, cfg, now);
    ExpireQueuedKeepsSets(s, cfg, now);
    ExpireSentKeepsSets(ExpireQueued(s, cfg, now), cfg, now);
    ExpiredKeepsMultiplier(s, cfg, now);
    if x in s.q.requestsByLastTransmission && At(expired.q.requests, x).successOrTimeout {
      SettledLeaves(expired, CheckLimits(s, cfg, now), now, false, x);
      var detected := DetectLosses(expired, CheckLimits(s, cfg, now), now, false);
      SameSent(detected.0.q, BackOff(detected.0, detected.1).q);
    }
  }
}
