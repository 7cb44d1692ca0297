/** Congestion control: the bounds of the window, and the packets that a reset has made irrelevant to it. */
module UdpCongestion {
  import opened UdpArithmetic
  import opened UdpState
  import opened UdpContainers
  import opened UdpInvariants
  import opened UdpSending
  import opened UdpReceiving
  import opened UdpDeadlines

  ghost predicate CongestionInv(cc: Congestion) {
    && cc.congestionWindow >= 1
    && cc.slowStartThreshold >= 2
    && cc.consecutiveLossesCount < CONSECUTIVE_LOSSES_LIMIT
  }

  /** Replies and losses for the request leave the congestion window alone until it is sent again. */
  ghost predicate Flagged(q: Queues, x: nat) {
    At(q.requests, x).congestionWindowResetAfterSent
  }

  /** A request that was not sent again in between is the same one in flight and has kept its flag. */
  ghost predicate FlagsKept(q: Queues, q': Queues) {
    && q'.sendCount >= q.sendCount
    && forall x: nat :: IsSent(q', x) && At(q'.requests, x).lastSeq < q.sendCount ==>
         && IsSent(q, x)
         && At(q'.requests, x).lastSeq == At(q.requests, x).lastSeq
         && (Flagged(q, x) ==> Flagged(q', x))
  }

  lemma FlagsKeptTransitive(q: Queues, q': Queues, q'': Queues)
    requires FlagsKept(q, q') && FlagsKept(q', q'')
    ensures FlagsKept(q, q'')
  {
  }

  /** Flags do not get lost. */
  ghost predicate AllFlagsKept(q: Queues, q': Queues) {
    && q'.sendCount == q.sendCount
    && forall x: nat :: (Flagged(q, x) ==> Flagged(q', x)) && At(q'.requests, x).lastSeq == At(q.requests, x).lastSeq
  }

  /** The third adjacent loss resets the window to one and flags every packet in flight. Any other loss takes one
      packet off the window, down to one. */
  lemma LossOfPacket(s: State, id: nat)
    requires CongestionInv(s.cc)
    ensures
      var t := PacketLossDetected(s, id);
      var adjacent := (s.cc.consecutiveLossesFirstRef + s.cc.consecutiveLossesCount) % REF_COUNT
                      == At(s.q.requests, id).lastRef;
      && CongestionInv(t.cc)
      && AllFlagsKept(s.q, t.q)
      && (Flagged(s.q, id) ==> t == s)
      && (!Flagged(s.q, id) && s.cc.consecutiveLossesCount == 2 && adjacent ==>
            && t.cc.congestionWindow == 1 && t.cc.consecutiveLossesCount == 0
            && forall x :: x in s.q.requestsByLastTransmission && x in s.q.requests ==> Flagged(t.q, x))
      && (!Flagged(s.q, id) && !(s.cc.consecutiveLossesCount == 2 && adjacent) ==>
            t.cc.congestionWindow == Max(s.cc.congestionWindow - 1, 1) && t.q == s.q)
  {
  }

  lemma LoseFirstKeepsCongestion(s: State, retransmitTime: Time)
    requires CongestionInv(s.cc) && s.q.requestsByLastTransmission != []
    ensures CongestionInv(LoseFirst(s, retransmitTime).cc)
    ensures AllFlagsKept(s.q, LoseFirst(s, retransmitTime).q)
    ensures Flagged(s.q, s.q.requestsByLastTransmission[0]) ==> LoseFirst(s, retransmitTime).cc == s.cc
  {
    var id := s.q.requestsByLastTransmission[0];
    var u := WithRetransmitTime(s, id, retransmitTime);
    assert AllFlagsKept(s.q, u.q) && (Flagged(s.q, id) ==> Flagged(u.q, id));
    LossOfPacket(u, id);
  }

  lemma DetectStepKeepsCongestion(s: State, l: Limits, now: Time)
    requires CongestionInv(s.cc) && DetectStep(s, l, now).Some?
    ensures CongestionInv(DetectStep(s, l, now).value.0.cc)
    ensures AllFlagsKept(s.q, DetectStep(s, l, now).value.0.q)
    ensures Flagged(s.q, s.q.requestsByLastTransmission[0]) ==> DetectStep(s, l, now).value.0.cc == s.cc
  {
    var id := s.q.requestsByLastTransmission[0];
    if At(s.q.requests, id).successOrTimeout {
    } else if RtoDeadline(s, l, id) <= now {
      LoseFirstKeepsCongestion(s, RtoDeadline(s, l, id));
    } else {
      LoseFirstKeepsCongestion(s, EarlyDeadline(s, l, id));
    }
  }

  lemma {:induction false} DetectKeepsCongestion(s: State, l: Limits, now: Time, rtoExpired: bool)
    requires CongestionInv(s.cc)
    ensures CongestionInv(DetectLosses(s, l, now, rtoExpired).0.cc)
    ensures AllFlagsKept(s.q, DetectLosses(s, l, now, rtoExpired).0.q)
    decreases |s.q.requestsByLastTransmission|
  {
    var step := DetectStep(s, l, now);
    if step.Some? {
      DetectStepShrinks(s, l, now);
      DetectStepKeepsCongestion(s, l, now);
      DetectKeepsCongestion(step.value.0, l, now, rtoExpired || step.value.1);
    }
  }

  // ----- a reset in the middle of a check -----

  /** The loss detection that starts in s comes to t. */
  ghost predicate Reaches(s: State, l: Limits, now: Time, t: State)
    decreases |s.q.requestsByLastTransmission|
  {
    || t == s
    || (&& DetectStep(s, l, now).Some?
        && (DetectStepShrinks(s, l, now); Reaches(DetectStep(s, l, now).value.0, l, now, t)))
  }

  /** The next thing that the loss detection does is to declare the first packet in flight lost. */
  ghost predicate Loses(s: State, l: Limits, now: Time) {
    DetectStep(s, l, now).Some? && !At(s.q.requests, s.q.requestsByLastTransmission[0]).successOrTimeout
  }

  /** And this is the loss that resets the window. */
  ghost predicate Resets(s: State, l: Limits, now: Time) {
    && Loses(s, l, now)
    && !Flagged(s.q, s.q.requestsByLastTransmission[0])
    && ResetsWindow(s.cc, At(s.q.requests, s.q.requestsByLastTransmission[0]))
  }

  lemma LostAtReset(s: State, retransmitTime: Time)
    requires Partition(s.q) && s.q.requestsByLastTransmission != []
    requires !Flagged(s.q, s.q.requestsByLastTransmission[0])
    requires ResetsWindow(s.cc, At(s.q.requests, s.q.requestsByLastTransmission[0]))
    ensures LoseFirst(s, retransmitTime).cc.congestionWindow == 1
    ensures LoseFirst(s, retransmitTime).cc.consecutiveLossesCount == 0
    ensures forall x :: x in s.q.requestsByLastTransmission ==> Flagged(LoseFirst(s, retransmitTime).q, x)
  {
    var id := s.q.requestsByLastTransmission[0];
    assert id in s.q.requestsByLastTransmission;
    forall x | x in s.q.requestsByLastTransmission
      ensures Flagged(LoseFirst(s, retransmitTime).q, x)
    {
      assert IsSent(s.q, x) && x in s.q.requests;
    }
  }

  /** A reset takes the window to one and flags every packet in flight, the lost one included. */
  lemma ResetFlagsAll(s: State, l: Limits, now: Time)
    requires Partition(s.q) && Resets(s, l, now)
    ensures DetectStep(s, l, now).value.0.cc.congestionWindow == 1
    ensures DetectStep(s, l, now).value.0.cc.consecutiveLossesCount == 0
    ensures forall x :: x in s.q.requestsByLastTransmission ==> Flagged(DetectStep(s, l, now).value.0.q, x)
  {
    var id := s.q.requestsByLastTransmission[0];
    if RtoDeadline(s, l, id) <= now {
      LostAtReset(s, RtoDeadline(s, l, id));
    } else {
      LostAtReset(s, EarlyDeadline(s, l, id));
    }
  }

  lemma {:induction false} ReachedKeepsInv(s: State, l: Limits, clock: Time, now: Time, t: State)
    requires Inv(s, clock) && CongestionInv(s.cc) && Reaches(s, l, now, t)
    ensures Inv(t, clock) && CongestionInv(t.cc) && AllFlagsKept(s.q, t.q)
    decreases |s.q.requestsByLastTransmission|
  {
    if t != s {
      var u := DetectStep(s, l, now).value.0;
      DetectStepShrinks(s, l, now);
      DetectStepKeepsInv(s, l, clock, now);
      DetectStepKeepsCongestion(s, l, now);
      ReachedKeepsInv(u, l, clock, now, t);
      AllFlagsKeptTransitive(s.q, u.q, t.q);
    }
  }

  lemma AllFlagsKeptTransitive(q: Queues, q': Queues, q'': Queues)
    requires AllFlagsKept(q, q') && AllFlagsKept(q', q'')
    ensures AllFlagsKept(q, q'')
  {
  }

  lemma {:induction false} ReachedEndsAlike(s: State, l: Limits, now: Time, t: State, b: bool, b': bool)
    requires Reaches(s, l, now, t)
    ensures DetectLosses(s, l, now, b).0 == DetectLosses(t, l, now, b').0
    decreases |s.q.requestsByLastTransmission|
  {
    if DetectStep(s, l, now).Some? {
      var u := DetectStep(s, l, now).value;
      DetectStepShrinks(s, l, now);
      ReachedEndsAlike(u.0, l, now, if t == s then u.0 else t, b || u.1, if t == s then b' || u.1 else b');
    }
  }

  /** The reset happens somewhere in the detection that starts in s; its flags are there when the detection ends. */
  lemma ResetLastsForDetection(s: State, l: Limits, clock: Time, now: Time, t: State)
    requires Inv(s, clock) && CongestionInv(s.cc) && Reaches(s, l, now, t) && Resets(t, l, now)
    ensures forall x :: x in t.q.requestsByLastTransmission ==> Flagged(DetectLosses(s, l, now, false).0.q, x)
  {
    ReachedKeepsInv(s, l, clock, now, t);
    ResetFlagsAll(t, l, now);
    var u := DetectStep(t, l, now).value;
    DetectStepShrinks(t, l, now);
    DetectStepKeepsCongestion(t, l, now);
    DetectKeepsCongestion(u.0, l, now, u.1);
    ReachedEndsAlike(s, l, now, t, false, false);
  }

  /** After a reset in the middle of a check, every packet that was in flight is still flagged when the check ends. */
  lemma ResetLastsForCheck(s: State, cfg: Config, clock: Time, now: Time, t: State)
    requires Inv(s, clock) && CongestionInv(s.cc)
    requires Reaches(Expired(s, cfg, now), CheckLimits(s, cfg, now), now, t) && Resets(t, CheckLimits(s, cfg, now), now)
    ensures forall x :: x in t.q.requestsByLastTransmission ==> Flagged(CheckSentRequests(s, cfg, now).s.q, x)
  {
    ExpiredKeepsAll(s, cfg, clock, now);
    ResetLastsForDetection(Expired(s, cfg, now), CheckLimits(s, cfg, now), clock, now, t);
  }

  lemma ExpiredKeepsAll(s: State, cfg: Config, clock: Time, now: Time)
    requires Inv(s, clock) && CongestionInv(s.cc)
    ensures Inv(Expired(s, cfg, now), clock) && CongestionInv(Expired(s, cfg, now).cc)
    ensures AllFlagsKept(s.q, Expired(s, cfg, now).q)
  {
    var queued := ExpireQueued(s, cfg, now);
    ExpireQueuedKeepsInv(s, cfg, clock, now);
    ExpireSentKeepsInv(queued, cfg, clock, now);
    ExpireQueuedKeepsTiming(s, cfg, now);
    ExpireQueuedKeepsFlags(s, cfg, now);
    ExpireSentKeepsCongestion(queued, cfg, now);
    AllFlagsKeptTransitive(s.q, queued.q, Expired(s, cfg, now).q);
  }

  /** The loss of a flagged packet changes nothing, wherever in a check it is detected. */
  lemma FlaggedLossIsIgnored(s: State, cfg: Config, clock: Time, now: Time, t: State)
    requires Inv(s, clock) && CongestionInv(s.cc)
    requires Reaches(Expired(s, cfg, now), CheckLimits(s, cfg, now), now, t) && Loses(t, CheckLimits(s, cfg, now), now)
    requires Flagged(s.q, t.q.requestsByLastTransmission[0])
    ensures DetectStep(t, CheckLimits(s, cfg, now), now).value.0.cc == t.cc
  {
    var expired, l := Expired(s, cfg, now), CheckLimits(s, cfg, now);
    ExpiredKeepsAll(s, cfg, clock, now);
    ReachedKeepsInv(expired, l, clock, now, t);
    DetectStepKeepsCongestion(t, l, now);
  }

  lemma {:induction false} ExpireQueuedKeepsFlags(s: State, cfg: Config, now: Time)
    ensures AllFlagsKept(s.q, ExpireQueued(s, cfg, now).q)
    decreases |s.q.newRequests|
  {
    if cfg.queueTimeout != 0 && s.q.newRequests != [] && QueueDeadline(s, cfg, s.q.newRequests[0]) <= now {
      ExpireQueuedKeepsFlags(DropExpired(s), cfg, now);
    }
  }

  lemma {:induction false} ExpireSentKeepsCongestion(s: State, cfg: Config, now: Time)
    requires CongestionInv(s.cc)
    ensures CongestionInv(ExpireSent(s, cfg, now).cc)
    ensures AllFlagsKept(s.q, ExpireSent(s, cfg, now).q)
    decreases |s.q.requestsByFirstTransmission|
  {
    if s.q.requestsByFirstTransmission != []
       && RequestDeadline(s, cfg, s.q.requestsByFirstTransmission[0]) <= now {
      assert AllFlagsKept(s.q, ExpireFirst(s).q);
      ExpireSentKeepsCongestion(ExpireFirst(s), cfg, now);
    }
  }

  lemma CheckKeepsCongestion(s: State, cfg: Config, now: Time)
    requires CongestionInv(s.cc) && s.tm.retransmissionTimeoutMultiplier > 0
    ensures CongestionInv(CheckSentRequests(s, cfg, now).s.cc)
    ensures AllFlagsKept(s.q, CheckSentRequests(s, cfg, now).s.q)
  {
    var queued := ExpireQueued(s, cfg, now);
    ExpireQueuedKeepsTiming(s, cfg, now);
    ExpireQueuedKeepsFlags(s, cfg, now);
    var sent := ExpireSent(queued, cfg, now);
    ExpireSentKeepsCongestion(queued, cfg, now);
    ExpiredKeepsMultiplier(s, cfg, now);
    DetectKeepsCongestion(sent, LimitsOf(sent, cfg), now, false);
  }

  /** A packet is sent only while fewer packets are in flight than the window allows. */
  lemma SendsWithinWindow(s: State, outcome: Outcome)
    ensures SendPart(s, outcome).cc == s.cc
    ensures SendPart(s, outcome).q.sendCount != s.q.sendCount ==>
              && |s.q.requestsByLastTransmission| < s.cc.congestionWindow
              && SendPart(s, outcome).q.sendCount == s.q.sendCount + 1
              && |SendPart(s, outcome).q.requestsByLastTransmission| <= SendPart(s, outcome).cc.congestionWindow
  {
    var t := SendPart(s, outcome);
    if t.q.sendCount != s.q.sendCount {
      var id := if s.q.retransmitRequests != [] then s.q.retransmitRequests[0] else s.q.newRequests[0];
      InsertMembers(TrySendRequest(s.q, id, outcome).requests, ByLastSend, s.q.requestsByLastTransmission, id);
    }
  }

  lemma IterationKeepsCongestion(s: State, cfg: Config, now: Time, outcome: Outcome)
    requires CongestionInv(s.cc) && s.tm.retransmissionTimeoutMultiplier > 0
    ensures CongestionInv(SendIteration(s, cfg, now, outcome).cc)
  {
    CheckKeepsCongestion(s, cfg, now);
    SendsWithinWindow(CheckSentRequests(s, cfg, now).s, outcome);
  }

  lemma RemoveMembers(q: Queues, id: nat)
    ensures forall x :: IsSent(RemoveRequest(q, id), x) ==> IsSent(q, x)
  {
    EraseTakesOnly(q.requests, ByLastSend, q.requestsByLastTransmission, id);
    EraseTakesOnly(q.requests, ByRetransmit, q.retransmitRequests, id);
  }

  lemma TryKeepsFlags(q: Queues, id: nat, outcome: Outcome)
    ensures FlagsKept(q, TrySendRequest(q, id, outcome))
  {
    var q' := TrySendRequest(q, id, outcome);
    if outcome.Sends? {
      InsertMembers(q'.requests, ByLastSend, q.requestsByLastTransmission, id);
      assert forall x: nat :: IsSent(q', x) ==> IsSent(q, x) || x == id;
    } else {
      SameSent(q, q');
    }
  }

  ghost predicate FewerSent(q: Queues, q': Queues) {
    && q'.sendCount == q.sendCount
    && forall x: nat :: IsSent(q', x) ==>
         && IsSent(q, x)
         && At(q'.requests, x).lastSeq == At(q.requests, x).lastSeq
         && (Flagged(q, x) ==> Flagged(q', x))
  }

  lemma FewerKeepFlags(q: Queues, q': Queues, q'': Queues)
    requires FlagsKept(q, q') && FewerSent(q', q'')
    ensures FlagsKept(q, q'')
  {
  }

  lemma RetransmitKeepsFlags(s: State, outcome: Outcome)
    requires s.q.retransmitRequests != []
    ensures FlagsKept(s.q, Retransmit(s, outcome).q)
  {
    var id := s.q.retransmitRequests[0];
    if At(s.q.requests, id).successOrTimeout {
      RemoveMembers(s.q, id);
    } else {
      TryKeepsFlags(s.q, id, outcome);
      FewerKeepFlags(s.q, TrySendRequest(s.q, id, outcome), Retransmit(s, outcome).q);
    }
  }

  lemma SendNewKeepsFlags(s: State, outcome: Outcome)
    requires s.q.newRequests != []
    ensures FlagsKept(s.q, SendNew(s, outcome).q)
  {
    var id := s.q.newRequests[0];
    TryKeepsFlags(s.q, id, outcome);
    SameSent(TrySendRequest(s.q, id, outcome), SendNew(s, outcome).q);
    FewerKeepFlags(s.q, TrySendRequest(s.q, id, outcome), SendNew(s, outcome).q);
  }

  /** Only the request that is sent loses its flag. */
  lemma SendKeepsFlags(s: State, clock: Time, outcome: Outcome)
    requires Inv(s, clock)
    ensures FlagsKept(s.q, SendPart(s, outcome).q)
  {
    if s.cc.congestionWindow > |s.q.requestsByLastTransmission| && s.q.retransmitRequests != [] {
      RetransmitKeepsFlags(s, outcome);
    } else if s.cc.congestionWindow > |s.q.requestsByLastTransmission| && s.q.newRequests != [] {
      SendNewKeepsFlags(s, outcome);
    } else if Offline(s) && s.q.newRequests != [] {
      DroppedHeap(s.q);
    }
  }

  lemma IterationKeepsFlags(s: State, cfg: Config, clock: Time, now: Time, outcome: Outcome)
    requires Inv(s, clock) && CongestionInv(s.cc)
    ensures FlagsKept(s.q, SendIteration(s, cfg, now, outcome).q)
  {
    var checked := CheckSentRequests(s, cfg, now).s;
    CheckKeepsCongestion(s, cfg, now);
    CheckSendsNothing(s, cfg, now);
    assert FlagsKept(s.q, checked.q);
    CheckKeepsInv(s, cfg, clock, now);
    SendKeepsFlags(checked, clock, outcome);
    FlagsKeptTransitive(s.q, checked.q, SendPart(checked, outcome).q);
  }

  lemma GrowKeepsCongestion(cc: Congestion, r: Request)
    requires CongestionInv(cc)
    ensures CongestionInv(GrowWindow(cc, r))
    ensures cc.congestionWindow <= GrowWindow(cc, r).congestionWindow <= cc.congestionWindow + 1
    ensures r.congestionWindowResetAfterSent ==> GrowWindow(cc, r) == cc
  {
  }

  /** A reply to a packet that was in flight when the window was reset does not open the window. */
  lemma ReceiveKeepsCongestion(s: State, ref: Ref, receiveTime: Time)
    requires CongestionInv(s.cc)
    ensures CongestionInv(ReceivePacket(s, ref, receiveTime).cc)
    ensures ref in s.q.refToRequest && Flagged(s.q, s.q.refToRequest[ref]) ==>
              ReceivePacket(s, ref, receiveTime).cc == s.cc
    ensures ref !in s.q.refToRequest ==> ReceivePacket(s, ref, receiveTime) == s
  {
    if ref in s.q.refToRequest {
      var r := At(s.q.requests, s.q.refToRequest[ref]);
      assert ReceivePacket(s, ref, receiveTime).cc == GrowWindow(s.cc, r);
      GrowKeepsCongestion(s.cc, r);
    }
  }

  lemma ReplyKeepsFlags(q: Queues, ref: Ref)
    requires ref in q.refToRequest
    ensures FlagsKept(q, AfterReply(q, ref))
  {
    RemoveMembers(q, q.refToRequest[ref]);
  }

  lemma ReceiveKeepsFlags(s: State, clock: Time, ref: Ref, receiveTime: Time)
    requires Inv(s, clock)
    ensures FlagsKept(s.q, ReceivePacket(s, ref, receiveTime).q)
  {
    if ref in s.q.refToRequest {
      ReceiveIsAfterReply(s, ref, receiveTime);
      ReplyKeepsFlags(s.q, ref);
    }
  }

  lemma QueueKeepsFlags(s: State, clock: Time, now: Time, idempotent: bool)
    requires Inv(s, clock)
    ensures FlagsKept(s.q, QueueRequest(s, now, idempotent).q)
  {
    SameSent(s.q, QueueRequest(s, now, idempotent).q);
  }

  // ----- what the order of references is worth -----

  /** A packet is only declared lost early if a packet that was sent strictly later has been answered. */
  lemma EarlyLossNeedsNewerAnswer(s: State, l: Limits, clock: Time, now: Time)
    requires Inv(s, clock) && WithinWindow(s) && DetectStep(s, l, now).Some?
    requires !At(s.q.requests, s.q.requestsByLastTransmission[0]).successOrTimeout
    requires RtoDeadline(s, l, s.q.requestsByLastTransmission[0]) > now
    ensures exists n :: n in s.tm.answered && n > At(s.q.requests, s.q.requestsByLastTransmission[0]).lastSeq
  {
    var id := s.q.requestsByLastTransmission[0];
    assert id in s.q.requestsByLastTransmission && IsSent(s.q, id);
    var r := At(s.q.requests, id);
    LaterResponseMeansLaterSend(s, clock, id);
    assert AwaitsLast(r) && PacketNumbered(s.q, s.tm.answered, r, r.lastRef);
    assert s.tm.lastReceivedSeq in s.tm.answered;
  }

  /** A request that must not be repeated succeeds only on the reply to the packet that was sent last for it. */
  lemma WriteSucceedsOnLastPacket(s: State, clock: Time, ref: Ref, receiveTime: Time)
    requires Inv(s, clock) && WithinWindow(s) && ref in s.q.refToRequest
    ensures
      var r := At(s.q.requests, s.q.refToRequest[ref]);
      && ref in r.sendTime
      && (ReceivePacket(s, ref, receiveTime).delivered != s.delivered ==>
            r.idempotent || r.sendTime[ref].seqNumber == r.lastSeq)
      && (r.sendTime[ref].seqNumber == r.lastSeq ==>
            ReceivePacket(s, ref, receiveTime).delivered == s.delivered + CallbackOf(r.callback))
  {
    var id := s.q.refToRequest[ref];
    var r := At(s.q.requests, id);
    assert IsSent(s.q, id) && PacketNumbered(s.q, s.tm.answered, r, ref);
    assert AwaitsLast(r) && PacketNumbered(s.q, s.tm.answered, r, r.lastRef);
  }
}
