/**
 Only the heads of the ordered containers are inspected, and that is enough: after a check no deadline has
 passed, and the wake-up time is not later than any deadline that is left.
 */
module UdpDeadlines {
  import opened UdpArithmetic
  import opened UdpState
  import opened UdpContainers
  import opened UdpInvariants
  import opened UdpSending

  ghost predicate IsQueueDeadline(s: State, cfg: Config, d: Time) {
    cfg.queueTimeout != 0 && exists x :: x in s.q.newRequests && d == QueueDeadline(s, cfg, x)
  }

  ghost predicate IsRequestDeadline(s: State, cfg: Config, d: Time) {
    exists x :: x in s.q.requestsByFirstTransmission && d == RequestDeadline(s, cfg, x)
  }

  /** The retransmission timeout of a packet in flight, or the end of the reordering window if a packet that was
      sent later has been answered. */
  ghost predicate IsLossDeadline(s: State, l: Limits, d: Time) {
    exists x :: x in s.q.requestsByLastTransmission
      && (d == RtoDeadline(s, l, x) || (LaterResponseReceived(s, x) && d == EarlyDeadline(s, l, x)))
  }

  // ----- what the later parts of a check leave alone -----

  /** The new requests and the times that requests were queued and first sent at are the same. */
  ghost predicate SameQueue(q: Queues, q': Queues) {
    && q'.newRequests == q.newRequests
    && (forall x :: At(q'.requests, x).queueTime == At(q.requests, x).queueTime)
    && (forall x :: At(q'.requests, x).firstSendTime == At(q.requests, x).firstSendTime)
    && (forall x :: x in q'.requestsByFirstTransmission ==> x in q.requestsByFirstTransmission)
  }

  lemma {:induction false} ExpireSentKeepsQueue(s: State, cfg: Config, now: Time)
    ensures SameQueue(s.q, ExpireSent(s, cfg, now).q)
    decreases |s.q.requestsByFirstTransmission|
  {
    if s.q.requestsByFirstTransmission != []
       && RequestDeadline(s, cfg, s.q.requestsByFirstTransmission[0]) <= now {
      assert SameQueue(s.q, ExpireFirst(s).q);
      ExpireSentKeepsQueue(ExpireFirst(s), cfg, now);
    }
  }

  lemma LossKeepsQueue(s: State, id: nat)
    ensures SameQueue(s.q, PacketLossDetected(s, id).q) && PacketLossDetected(s, id).tm == s.tm
  {
  }

  lemma LoseFirstKeepsQueue(s: State, retransmitTime: Time)
    requires s.q.requestsByLastTransmission != []
    ensures SameQueue(s.q, LoseFirst(s, retransmitTime).q) && LoseFirst(s, retransmitTime).tm == s.tm
  {
    var id := s.q.requestsByLastTransmission[0];
    var u := WithRetransmitTime(s, id, retransmitTime);
    LossKeepsQueue(u, id);
  }

  lemma DetectStepKeepsQueue(s: State, l: Limits, now: Time)
    requires DetectStep(s, l, now).Some?
    ensures SameQueue(s.q, DetectStep(s, l, now).value.0.q) && DetectStep(s, l, now).value.0.tm == s.tm
  {
    var id := s.q.requestsByLastTransmission[0];
    if At(s.q.requests, id).successOrTimeout {
      EraseTakesOnly(s.q.requests, ByFirstSend, s.q.requestsByFirstTransmission, id);
    } else if RtoDeadline(s, l, id) <= now {
      LoseFirstKeepsQueue(s, RtoDeadline(s, l, id));
    } else {
      LoseFirstKeepsQueue(s, EarlyDeadline(s, l, id));
    }
  }

  lemma {:induction false} DetectKeepsQueue(s: State, l: Limits, now: Time, rtoExpired: bool)
    ensures SameQueue(s.q, DetectLosses(s, l, now, rtoExpired).0.q)
    ensures DetectLosses(s, l, now, rtoExpired).0.tm == s.tm
    decreases |s.q.requestsByLastTransmission|
  {
    var step := DetectStep(s, l, now);
    if step.Some? {
      DetectStepShrinks(s, l, now);
      DetectStepKeepsQueue(s, l, now);
      DetectKeepsQueue(step.value.0, l, now, rtoExpired || step.value.1);
    }
  }

  /** A check never makes an older packet the newest answered one. */
  ghost predicate SameOrNoAnswer(tm: Timing, tm': Timing) {
    LastReceivedValid(tm') ==> LastReceivedValid(tm) && tm'.lastReceivedSeq == tm.lastReceivedSeq
  }

  lemma {:induction false} ExpireSentKeepsAnswer(s: State, cfg: Config, now: Time)
    ensures SameOrNoAnswer(s.tm, ExpireSent(s, cfg, now).tm)
    decreases |s.q.requestsByFirstTransmission|
  {
    if s.q.requestsByFirstTransmission != []
       && RequestDeadline(s, cfg, s.q.requestsByFirstTransmission[0]) <= now {
      assert SameOrNoAnswer(s.tm, ExpireFirst(s).tm);
      ExpireSentKeepsAnswer(ExpireFirst(s), cfg, now);
    }
  }

  // ----- each loop stops at the first head whose deadline has not passed -----

  lemma {:induction false} ExpireQueuedStops(s: State, cfg: Config, now: Time)
    ensures
      var t := ExpireQueued(s, cfg, now);
      cfg.queueTimeout != 0 && t.q.newRequests != [] ==> QueueDeadline(t, cfg, t.q.newRequests[0]) > now
    decreases |s.q.newRequests|
  {
    if cfg.queueTimeout != 0 && s.q.newRequests != [] && QueueDeadline(s, cfg, s.q.newRequests[0]) <= now {
      ExpireQueuedStops(DropExpired(s), cfg, now);
    }
  }

  lemma {:induction false} ExpireSentStops(s: State, cfg: Config, now: Time)
    ensures
      var t := ExpireSent(s, cfg, now);
      t.q.requestsByFirstTransmission != [] ==> RequestDeadline(t, cfg, t.q.requestsByFirstTransmission[0]) > now
    decreases |s.q.requestsByFirstTransmission|
  {
    if s.q.requestsByFirstTransmission != []
       && RequestDeadline(s, cfg, s.q.requestsByFirstTransmission[0]) <= now {
      ExpireSentStops(ExpireFirst(s), cfg, now);
    }
  }

  lemma {:induction false} DetectStops(s: State, l: Limits, now: Time, rtoExpired: bool)
    ensures DetectStep(DetectLosses(s, l, now, rtoExpired).0, l, now).None?
    decreases |s.q.requestsByLastTransmission|
  {
    var step := DetectStep(s, l, now);
    if step.Some? {
      DetectStepShrinks(s, l, now);
      DetectStops(step.value.0, l, now, rtoExpired || step.value.1);
    }
  }

  // ----- what the head stands for -----

  lemma QueueHeadIsFirst(s: State, cfg: Config, clock: Time, d: Time)
    requires Ordered(s.q, clock) && IsQueueDeadline(s, cfg, d)
    ensures s.q.newRequests != [] && QueueDeadline(s, cfg, s.q.newRequests[0]) <= d
  {
  }

  lemma RequestHeadIsFirst(s: State, cfg: Config, clock: Time, d: Time)
    requires Ordered(s.q, clock) && IsRequestDeadline(s, cfg, d)
    ensures s.q.requestsByFirstTransmission != []
    ensures RequestDeadline(s, cfg, s.q.requestsByFirstTransmission[0]) <= d
  {
    var x :| x in s.q.requestsByFirstTransmission && d == RequestDeadline(s, cfg, x);
    var ids := s.q.requestsByFirstTransmission;
    assert Key(s.q.requests, ByFirstSend, ids[0]) <= Key(s.q.requests, ByFirstSend, x);
  }

  ghost predicate AnswerWithin(s: State) {
    LastReceivedValid(s.tm) ==> s.q.sendCount - s.tm.lastReceivedSeq <= MAX_DISTANCE
  }

  /** A later response has been received exactly if the newest answered packet was sent later: references agree
      with the order of sending. */
  lemma LaterResponseMeansLaterSend(s: State, clock: Time, x: nat)
    requires Inv(s, clock) && QueueWindow(s.q) && AnswerWithin(s) && IsSent(s.q, x)
    ensures LaterResponseReceived(s, x)
            <==> LastReceivedValid(s.tm) && s.tm.lastReceivedSeq >= At(s.q.requests, x).lastSeq
  {
    var r := At(s.q.requests, x);
    assert AwaitsLast(r) && PacketNumbered(s.q, s.tm.answered, r, r.lastRef);
    if LastReceivedValid(s.tm) {
      assert s.tm.lastReceivedSeq < s.q.sendCount;
      RefOrderIsSendOrder(s.tm.lastReceivedSeq, r.lastSeq);
    }
  }

  lemma LossHeadIsFirst(s: State, l: Limits, clock: Time, d: Time)
    requires Inv(s, clock) && QueueWindow(s.q) && AnswerWithin(s) && IsLossDeadline(s, l, d)
    ensures s.q.requestsByLastTransmission != []
    ensures RetransmissionCheck(s, l, s.q.requestsByLastTransmission[0]) <= d
  {
    var ids := s.q.requestsByLastTransmission;
    var x :| x in ids && (d == RtoDeadline(s, l, x) || (LaterResponseReceived(s, x) && d == EarlyDeadline(s, l, x)));
    assert IsSent(s.q, x) && ids[0] in ids && IsSent(s.q, ids[0]);
    assert Key(s.q.requests, ByLastSend, ids[0]) <= Key(s.q.requests, ByLastSend, x);
    LaterResponseMeansLaterSend(s, clock, x);
    LaterResponseMeansLaterSend(s, clock, ids[0]);
  }

  // ----- the whole check -----

  /** The limits that the loss detection of a check works with. */
  function CheckLimits(s: State, cfg: Config, now: Time): Limits
    requires s.tm.retransmissionTimeoutMultiplier > 0
  {
    ExpiredKeepsMultiplier(s, cfg, now);
    LimitsOf(Expired(s, cfg, now), cfg)
  }

  /** Nothing is overdue in the state, and the time is not later than any deadline and only zero without any. */
  ghost predicate AllAhead(s: State, cfg: Config, l: Limits, now: Time, nextCheck: Time) {
    forall d: Time :: IsQueueDeadline(s, cfg, d) || IsRequestDeadline(s, cfg, d) || IsLossDeadline(s, l, d) ==>
      now < d && 0 < nextCheck <= d
  }

  lemma EarlierOf(nextCheck: Time, t: Time, now: Time)
    requires 0 < now < t && (nextCheck == 0 || now < nextCheck)
    ensures now < Earlier(nextCheck, t) <= t
    ensures nextCheck != 0 ==> Earlier(nextCheck, t) <= nextCheck
    ensures Earlier(nextCheck, t) == t || Earlier(nextCheck, t) == nextCheck
  {
  }

  /** The wake-up time that the first two loops arrive at. */
  function CheckAfterExpiry(s: State, cfg: Config, now: Time): Time {
    NextRequestCheck(Expired(s, cfg, now), cfg, NextQueueCheck(ExpireQueued(s, cfg, now), cfg))
  }

  lemma QueueDeadlineIsAhead(s: State, cfg: Config, clock: Time, now: Time, d: Time)
    requires Inv(s, clock) && IsQueueDeadline(ExpireQueued(s, cfg, now), cfg, d)
    ensures now < NextQueueCheck(ExpireQueued(s, cfg, now), cfg) <= d
  {
    ExpireQueuedKeepsInv(s, cfg, clock, now);
    ExpireQueuedStops(s, cfg, now);
    QueueHeadIsFirst(ExpireQueued(s, cfg, now), cfg, clock, d);
  }

  lemma QueueCheckIsDeadline(s: State, cfg: Config, now: Time)
    ensures
      var queued := ExpireQueued(s, cfg, now);
      NextQueueCheck(queued, cfg) != 0 ==>
        now < NextQueueCheck(queued, cfg) && IsQueueDeadline(queued, cfg, NextQueueCheck(queued, cfg))
  {
    ExpireQueuedStops(s, cfg, now);
  }

  lemma QueuePartIsComplete(s: State, cfg: Config, clock: Time, now: Time)
    requires Inv(s, clock) && 0 < now
    ensures
      var t := Expired(s, cfg, now);
      var nextCheck := NextQueueCheck(ExpireQueued(s, cfg, now), cfg);
      && (forall d: Time :: IsQueueDeadline(t, cfg, d) ==> now < d && 0 < nextCheck <= d)
      && (nextCheck != 0 ==> now < nextCheck && IsQueueDeadline(t, cfg, nextCheck))
  {
    var queued := ExpireQueued(s, cfg, now);
    ExpireSentKeepsQueue(queued, cfg, now);
    QueueCheckIsDeadline(s, cfg, now);
    SameQueueDeadlines(queued, Expired(s, cfg, now), cfg, NextQueueCheck(queued, cfg));
    forall d: Time | IsQueueDeadline(Expired(s, cfg, now), cfg, d)
      ensures now < d && 0 < NextQueueCheck(queued, cfg) <= d
    {
      SameQueueDeadlines(queued, Expired(s, cfg, now), cfg, d);
      QueueDeadlineIsAhead(s, cfg, clock, now, d);
    }
  }

  lemma RequestPartIsComplete(s: State, cfg: Config, clock: Time, now: Time, d: Time)
    requires Inv(s, clock) && IsRequestDeadline(Expired(s, cfg, now), cfg, d)
    ensures
      var t := Expired(s, cfg, now);
      && t.q.requestsByFirstTransmission != []
      && now < RequestDeadline(t, cfg, t.q.requestsByFirstTransmission[0]) <= d
  {
    var queued := ExpireQueued(s, cfg, now);
    ExpireQueuedKeepsInv(s, cfg, clock, now);
    ExpireSentKeepsInv(queued, cfg, clock, now);
    ExpireSentStops(queued, cfg, now);
    RequestHeadIsFirst(Expired(s, cfg, now), cfg, clock, d);
  }

  lemma ExpiryIsComplete(s: State, cfg: Config, clock: Time, now: Time)
    requires Inv(s, clock) && 0 < now
    ensures
      var t := Expired(s, cfg, now);
      var nextCheck := CheckAfterExpiry(s, cfg, now);
      && (forall d: Time :: IsQueueDeadline(t, cfg, d) || IsRequestDeadline(t, cfg, d) ==>
            now < d && 0 < nextCheck <= d)
      && (nextCheck != 0 ==>
            now < nextCheck && (IsQueueDeadline(t, cfg, nextCheck) || IsRequestDeadline(t, cfg, nextCheck)))
  {
    var t := Expired(s, cfg, now);
    QueuePartIsComplete(s, cfg, clock, now);
    if t.q.requestsByFirstTransmission != [] {
      var head := RequestDeadline(t, cfg, t.q.requestsByFirstTransmission[0]);
      assert IsRequestDeadline(t, cfg, head);
      RequestPartIsComplete(s, cfg, clock, now, head);
      EarlierOf(NextQueueCheck(ExpireQueued(s, cfg, now), cfg), head, now);
    }
    forall d: Time | IsRequestDeadline(t, cfg, d)
      ensures now < d && 0 < CheckAfterExpiry(s, cfg, now) <= d
    {
      RequestPartIsComplete(s, cfg, clock, now, d);
    }
  }

  /** When the loss detection stops at a head, that head is not overdue. */
  lemma LossDetectionIsComplete(s: State, l: Limits, clock: Time, now: Time, d: Time)
    requires Inv(s, clock) && QueueWindow(s.q) && AnswerWithin(s)
    requires DetectStep(s, l, now).None? && IsLossDeadline(s, l, d)
    ensures s.q.requestsByLastTransmission != []
    ensures now < RetransmissionCheck(s, l, s.q.requestsByLastTransmission[0]) <= d
  {
    LossHeadIsFirst(s, l, clock, d);
  }

  lemma SameQueueDeadlines(s: State, t: State, cfg: Config, d: Time)
    requires SameQueue(s.q, t.q)
    ensures IsQueueDeadline(t, cfg, d) <==> IsQueueDeadline(s, cfg, d)
    ensures IsRequestDeadline(t, cfg, d) ==> IsRequestDeadline(s, cfg, d)
  {
  }

  lemma BackOffKeepsDeadlines(s: State, rtoExpired: bool, cfg: Config, l: Limits, d: Time)
    ensures IsQueueDeadline(BackOff(s, rtoExpired), cfg, d) == IsQueueDeadline(s, cfg, d)
    ensures IsRequestDeadline(BackOff(s, rtoExpired), cfg, d) == IsRequestDeadline(s, cfg, d)
    ensures IsLossDeadline(BackOff(s, rtoExpired), l, d) == IsLossDeadline(s, l, d)
  {
    var t := BackOff(s, rtoExpired);
    assert forall x: nat :: LaterResponseReceived(t, x) == LaterResponseReceived(s, x);
    assert forall x: nat :: EarlyDeadline(t, l, x) == EarlyDeadline(s, l, x);
    assert forall x: nat :: RtoDeadline(t, l, x) == RtoDeadline(s, l, x);
  }

  /** The loss detection as it runs in a check. */
  lemma DetectionReady(s: State, cfg: Config, clock: Time, now: Time, l: Limits)
    requires Inv(s, clock) && WithinWindow(s)
    ensures
      var detected := DetectLosses(Expired(s, cfg, now), l, now, false).0;
      Inv(detected, clock) && QueueWindow(detected.q) && AnswerWithin(detected) && DetectStep(detected, l, now).None?
  {
    var queued := ExpireQueued(s, cfg, now);
    var expired := Expired(s, cfg, now);
    ExpireQueuedKeepsInv(s, cfg, clock, now);
    ExpireSentKeepsInv(queued, cfg, clock, now);
    DetectKeepsInv(expired, l, clock, now, false);
    ExpireQueuedSendsNothing(s, cfg, now);
    ExpireSentSendsNothing(queued, cfg, now);
    DetectSendsNothing(expired, l, now, false);
    ExpireQueuedKeepsTiming(s, cfg, now);
    ExpireSentKeepsAnswer(queued, cfg, now);
    DetectKeepsQueue(expired, l, now, false);
    DetectStops(expired, l, now, false);
  }

  /** Only heads are inspected, and still nothing in any container is overdue after a check. The time to wake up
      is later than now, is zero only if no deadline is left, is never later than a deadline that is left, and is
      itself a deadline. */
  lemma CheckIsComplete(s: State, cfg: Config, clock: Time, now: Time)
    requires Inv(s, clock) && WithinWindow(s) && 0 < now
    ensures
      var expired := Expired(s, cfg, now);
      var l := CheckLimits(s, cfg, now);
      var check := CheckSentRequests(s, cfg, now);
      && AllAhead(check.s, cfg, l, now, check.nextCheck)
      && (check.nextCheck != 0 ==>
            && now < check.nextCheck
            && (IsQueueDeadline(expired, cfg, check.nextCheck) || IsRequestDeadline(expired, cfg, check.nextCheck)
                || IsLossDeadline(check.s, l, check.nextCheck)))
  {
    var expired := Expired(s, cfg, now);
    var l := CheckLimits(s, cfg, now);
    var check := CheckSentRequests(s, cfg, now);
    var (detected, rtoExpired) := DetectLosses(expired, l, now, false);
    var first := CheckAfterExpiry(s, cfg, now);
    ExpiryIsComplete(s, cfg, clock, now);
    DetectionReady(s, cfg, clock, now, l);
    DetectKeepsQueue(expired, l, now, false);
    if detected.q.requestsByLastTransmission != [] {
      var head := RetransmissionCheck(detected, l, detected.q.requestsByLastTransmission[0]);
      assert IsLossDeadline(detected, l, head);
      LossDetectionIsComplete(detected, l, clock, now, head);
      EarlierOf(first, head, now);
      BackOffKeepsDeadlines(detected, rtoExpired, cfg, l, head);
    }
    forall d: Time | IsQueueDeadline(check.s, cfg, d) || IsRequestDeadline(check.s, cfg, d)
                     || IsLossDeadline(check.s, l, d)
      ensures now < d && 0 < check.nextCheck <= d
    {
      BackOffKeepsDeadlines(detected, rtoExpired, cfg, l, d);
      SameQueueDeadlines(expired, detected, cfg, d);
      if IsLossDeadline(detected, l, d) {
        LossDetectionIsComplete(detected, l, clock, now, d);
      }
    }
  }
}
