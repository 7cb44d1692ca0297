/**
 Every callback is called at most once and none is forgotten, whether or not the socket takes each packet. This
 does not depend on any order in the containers.
 */
module UdpCallbacks {
  import opened Common
  import opened UdpArithmetic
  import opened UdpState
  import opened UdpContainers
  import opened UdpInvariants

  /** The request still has its callback. */
  ghost predicate Holds(q: Queues, x: nat) {
    At(q.requests, x).callback.Some?
  }

  function Count(b: bool): nat {
    if b then 1 else 0
  }

  /** In how many places the callback that was queued with request x is. */
  ghost function Places(s: State, x: nat): nat {
    Count(Holds(s.q, x)) + multiset(s.timeoutCallbacks)[Some(x)] + multiset(s.delivered)[x]
  }

  ghost predicate Counted(s: State) {
    && (forall x: nat :: Places(s, x) == Count(x < s.q.nextRequest))
    && (forall x: nat :: Holds(s.q, x) ==> At(s.q.requests, x).callback.value == x)
  }

  /** A request that still has its callback is watched for a timeout and has not succeeded. */
  ghost predicate Watched(q: Queues) {
    forall x: nat :: Holds(q, x) ==>
      (x in q.newRequests || x in q.requestsByFirstTransmission) && !At(q.requests, x).successOrTimeout
  }

  ghost predicate Unsent(q: Queues) {
    && NoDuplicates(q.newRequests)
    && (forall x :: x in q.newRequests ==> !IsSent(q, x) && x < q.nextRequest && At(q.requests, x).sendTime == map[])
    && (forall x: nat :: IsSent(q, x) ==> x < q.nextRequest)
  }

  ghost predicate CallbackInv(s: State) {
    Counted(s) && Watched(s.q) && Unsent(s.q)
  }

  /** What the invariant says about one callback: it has been called once, or it is about to be called because of
      a timeout, or it is with a request that is watched for a timeout; and only one of these. */
  lemma CallbackInOnePlace(s: State, x: nat)
    requires CallbackInv(s) && x < s.q.nextRequest
    ensures multiset(s.delivered)[x] <= 1
    ensures x in s.delivered || Some(x) in s.timeoutCallbacks
            || (Holds(s.q, x) && (x in s.q.newRequests || x in s.q.requestsByFirstTransmission))
    ensures x in s.delivered ==> Some(x) !in s.timeoutCallbacks && !Holds(s.q, x)
    ensures Some(x) in s.timeoutCallbacks ==> !Holds(s.q, x)
  {
    assert Places(s, x) == 1;
    assert x in multiset(s.delivered) <==> x in s.delivered;
    assert Some(x) in multiset(s.timeoutCallbacks) <==> Some(x) in s.timeoutCallbacks;
  }

  lemma InitialCallbackInv()
    ensures CallbackInv(InitialState())
  {
  }

  // ----- steps that move no callback -----

  ghost predicate SameCallbacks(s: State, t: State) {
    && t.timeoutCallbacks == s.timeoutCallbacks && t.delivered == s.delivered
    && t.q.nextRequest == s.q.nextRequest && t.q.newRequests == s.q.newRequests
    && (forall x :: At(t.q.requests, x).callback == At(s.q.requests, x).callback)
    && (forall x :: At(t.q.requests, x).successOrTimeout == At(s.q.requests, x).successOrTimeout)
    && (forall x :: x in s.q.newRequests ==> At(t.q.requests, x).sendTime == At(s.q.requests, x).sendTime)
    && (forall x :: IsSent(t.q, x) ==> IsSent(s.q, x))
    && (forall x :: x in s.q.requestsByFirstTransmission && Holds(s.q, x) ==> x in t.q.requestsByFirstTransmission)
  }

  lemma SameCallbacksKeepInv(s: State, t: State)
    requires CallbackInv(s) && SameCallbacks(s, t)
    ensures CallbackInv(t)
  {
    assert forall x :: Holds(t.q, x) == Holds(s.q, x);
    assert forall x :: Places(t, x) == Places(s, x);
  }

  // ----- one request gives up its callback -----

  ghost predicate Moved(s: State, t: State, id: nat) {
    && t.q.nextRequest == s.q.nextRequest
    && (forall x :: x != id ==> At(t.q.requests, x).callback == At(s.q.requests, x).callback)
    && At(t.q.requests, id).callback == None
    && (|| (t.timeoutCallbacks == s.timeoutCallbacks + [At(s.q.requests, id).callback] && t.delivered == s.delivered)
        || (t.timeoutCallbacks == s.timeoutCallbacks
            && t.delivered == s.delivered + CallbackOf(At(s.q.requests, id).callback)))
  }

  lemma MovedKeepsCount(s: State, t: State, id: nat)
    requires Counted(s) && Moved(s, t, id)
    ensures Counted(t)
  {
    forall x: nat
      ensures Places(t, x) == Places(s, x)
    {
      assert x != id ==> Holds(t.q, x) == Holds(s.q, x);
    }
  }

  // ----- queuing -----

  lemma QueueKeepsCallbacks(s: State, now: Time, idempotent: bool)
    requires CallbackInv(s)
    ensures CallbackInv(QueueRequest(s, now, idempotent))
  {
    var t := QueueRequest(s, now, idempotent);
    var id := s.q.nextRequest;
    assert Places(s, id) == 0;
    assert forall x :: x != id ==> Holds(t.q, x) == Holds(s.q, x);
    assert forall x :: x != id ==> Places(t, x) == Places(s, x);
    assert Places(t, id) == 1;
    SameSent(s.q, t.q);
  }

  // ----- the check -----

  lemma DropExpiredKeepsCallbacks(s: State)
    requires CallbackInv(s) && s.q.newRequests != []
    ensures CallbackInv(DropExpired(s))
  {
    var t, id := DropExpired(s), s.q.newRequests[0];
    MovedKeepsCount(s, t, id);
    SameSent(s.q, t.q);
    assert forall x :: x in s.q.newRequests ==> x == id || x in t.q.newRequests;
  }

  lemma {:induction false} ExpireQueuedKeepsCallbacks(s: State, cfg: Config, now: Time)
    requires CallbackInv(s)
    ensures CallbackInv(ExpireQueued(s, cfg, now))
    decreases |s.q.newRequests|
  {
    if cfg.queueTimeout != 0 && s.q.newRequests != [] && QueueDeadline(s, cfg, s.q.newRequests[0]) <= now {
      DropExpiredKeepsCallbacks(s);
      ExpireQueuedKeepsCallbacks(DropExpired(s), cfg, now);
    }
  }

  lemma ExpireFirstKeepsCallbacks(s: State)
    requires CallbackInv(s) && s.q.requestsByFirstTransmission != []
    ensures CallbackInv(ExpireFirst(s))
  {
    var t := ExpireFirst(s);
    var id := s.q.requestsByFirstTransmission[0];
    assert t.q == Unwatch(s.q);
    MovedKeepsCount(s, t, id);
    SameSent(s.q, t.q);
    assert forall x :: x in s.q.requestsByFirstTransmission ==> x == id || x in t.q.requestsByFirstTransmission;
  }

  lemma {:induction false} ExpireSentKeepsCallbacks(s: State, cfg: Config, now: Time)
    requires CallbackInv(s)
    ensures CallbackInv(ExpireSent(s, cfg, now))
    decreases |s.q.requestsByFirstTransmission|
  {
    if s.q.requestsByFirstTransmission != []
       && RequestDeadline(s, cfg, s.q.requestsByFirstTransmission[0]) <= now {
      ExpireFirstKeepsCallbacks(s);
      ExpireSentKeepsCallbacks(ExpireFirst(s), cfg, now);
    }
  }

  /** Only requests without a callback are removed. */
  lemma RemoveKeepsCallbacks(s: State, id: nat)
    requires CallbackInv(s) && !Holds(s.q, id)
    ensures CallbackInv(s.(q := RemoveRequest(s.q, id)))
  {
    EraseTakesOnly(s.q.requests, ByFirstSend, s.q.requestsByFirstTransmission, id);
    EraseTakesOnly(s.q.requests, ByLastSend, s.q.requestsByLastTransmission, id);
    EraseTakesOnly(s.q.requests, ByRetransmit, s.q.retransmitRequests, id);
    SameCallbacksKeepInv(s, s.(q := RemoveRequest(s.q, id)));
  }

  lemma LossMovesNoCallback(s: State, id: nat)
    ensures SameCallbacks(s, PacketLossDetected(s, id))
    ensures PacketLossDetected(s, id).q == s.q.(requests := PacketLossDetected(s, id).q.requests)
  {
    SameSent(s.q, PacketLossDetected(s, id).q);
  }

  lemma LoseFirstKeepsCallbacks(s: State, retransmitTime: Time)
    requires CallbackInv(s) && s.q.requestsByLastTransmission != []
    ensures CallbackInv(LoseFirst(s, retransmitTime))
  {
    var id := s.q.requestsByLastTransmission[0];
    var u := WithRetransmitTime(s, id, retransmitTime);
    SameCallbacksKeepInv(s, u);
    var t := PacketLossDetected(u, id);
    LossMovesNoCallback(u, id);
    SameCallbacksKeepInv(u, t);
    MoveFirstKeepsSent(t.q);
    assert LoseFirst(s, retransmitTime) == t.(q := MoveFirst(t.q));
    SameCallbacksKeepInv(t, LoseFirst(s, retransmitTime));
  }

  lemma {:induction false} DetectKeepsCallbacks(s: State, l: Limits, now: Time, rtoExpired: bool)
    requires CallbackInv(s)
    ensures CallbackInv(DetectLosses(s, l, now, rtoExpired).0)
    decreases |s.q.requestsByLastTransmission|
  {
    var step := DetectStep(s, l, now);
    if step.Some? {
      DetectStepShrinks(s, l, now);
      var id := s.q.requestsByLastTransmission[0];
      if At(s.q.requests, id).successOrTimeout {
        RemoveKeepsCallbacks(s, id);
      } else if RtoDeadline(s, l, id) <= now {
        LoseFirstKeepsCallbacks(s, RtoDeadline(s, l, id));
      } else {
        LoseFirstKeepsCallbacks(s, EarlyDeadline(s, l, id));
      }
      DetectKeepsCallbacks(step.value.0, l, now, rtoExpired || step.value.1);
    }
  }

  lemma CheckKeepsCallbacks(s: State, cfg: Config, now: Time)
    requires CallbackInv(s) && s.tm.retransmissionTimeoutMultiplier > 0
    ensures CallbackInv(CheckSentRequests(s, cfg, now).s)
  {
    var queued := ExpireQueued(s, cfg, now);
    ExpireQueuedKeepsCallbacks(s, cfg, now);
    var sent := ExpireSent(queued, cfg, now);
    ExpireSentKeepsCallbacks(queued, cfg, now);
    ExpiredKeepsMultiplier(s, cfg, now);
    var l := LimitsOf(sent, cfg);
    var (detected, rtoExpired) := DetectLosses(sent, l, now, false);
    DetectKeepsCallbacks(sent, l, now, false);
    SameSent(detected.q, BackOff(detected, rtoExpired).q);
    SameCallbacksKeepInv(detected, BackOff(detected, rtoExpired));
  }

  // ----- sending -----

  lemma TakeKeepsCallbacks(s: State, id: nat)
    requires CallbackInv(s)
    ensures CallbackInv(TakeCallback(s, id))
  {
    MovedKeepsCount(s, TakeCallback(s, id), id);
    SameSent(s.q, TakeCallback(s, id).q);
  }

  /** Sending a request again moves no callback. */
  lemma ResendKeepsCallbacks(s: State, id: nat, outcome: Outcome)
    requires CallbackInv(s) && IsSent(s.q, id)
    ensures CallbackInv(s.(q := TrySendRequest(s.q, id, outcome)))
  {
    var t := s.(q := TrySendRequest(s.q, id, outcome));
    if outcome.Sends? {
      InsertMembers(t.q.requests, ByLastSend, s.q.requestsByLastTransmission, id);
      InsertMembers(t.q.requests, ByFirstSend, s.q.requestsByFirstTransmission, id);
    }
    SameCallbacksKeepInv(s, t);
  }

  lemma RetransmitKeepsCallbacks(s: State, outcome: Outcome)
    requires CallbackInv(s) && s.q.retransmitRequests != []
    ensures CallbackInv(Retransmit(s, outcome))
  {
    var id := s.q.retransmitRequests[0];
    assert id in s.q.retransmitRequests && IsSent(s.q, id);
    if At(s.q.requests, id).successOrTimeout {
      RemoveKeepsCallbacks(s, id);
    } else {
      ResendKeepsCallbacks(s, id, outcome);
      SameCallbacksKeepInv(s.(q := TrySendRequest(s.q, id, outcome)), Retransmit(s, outcome));
    }
  }

  /** A new request has been sent. */
  function SentNew(s: State, now: Time): State
    requires s.q.newRequests != []
  {
    var q := TrySendRequest(s.q, s.q.newRequests[0], Sends(now));
    s.(q := q.(newRequests := q.newRequests[1..]))
  }

  lemma SentNewMembers(s: State, now: Time)
    requires Unsent(s.q) && s.q.newRequests != []
    ensures forall x: nat :: IsSent(SentNew(s, now).q, x) ==> IsSent(s.q, x) || x == s.q.newRequests[0]
    ensures forall x :: x in s.q.requestsByFirstTransmission || x == s.q.newRequests[0] ==>
              x in SentNew(s, now).q.requestsByFirstTransmission
  {
    var t := SentNew(s, now);
    var id := s.q.newRequests[0];
    assert id in s.q.newRequests;
    InsertMembers(t.q.requests, ByLastSend, s.q.requestsByLastTransmission, id);
    InsertMembers(t.q.requests, ByFirstSend, s.q.requestsByFirstTransmission, id);
  }

  lemma SentNewKeepsCount(s: State, now: Time)
    requires Counted(s) && s.q.newRequests != []
    ensures Counted(SentNew(s, now))
  {
    var t := SentNew(s, now);
    assert forall x :: At(t.q.requests, x).callback == At(s.q.requests, x).callback;
    assert forall x :: Holds(t.q, x) == Holds(s.q, x);
    assert forall x :: Places(t, x) == Places(s, x);
  }

  /** A new request that has been sent is watched from then on. */
  lemma FirstSendKeepsCallbacks(s: State, now: Time)
    requires CallbackInv(s) && s.q.newRequests != []
    ensures CallbackInv(SentNew(s, now))
  {
    SentNewMembers(s, now);
    SentNewKeepsCount(s, now);
    var t := SentNew(s, now);
    var id := s.q.newRequests[0];
    assert id in s.q.newRequests;
    assert forall x :: x in t.q.newRequests ==> x in s.q.newRequests && x != id;
    assert forall x :: x != id ==> At(t.q.requests, x) == At(s.q.requests, x);
    assert Unsent(t.q);
    assert forall x :: x in s.q.newRequests ==> x == id || x in t.q.newRequests;
    assert forall x :: Holds(t.q, x) == Holds(s.q, x);
    assert forall x :: At(t.q.requests, x).successOrTimeout == At(s.q.requests, x).successOrTimeout;
  }

  lemma AgainKeepsCallbacks(s: State)
    requires CallbackInv(s) && s.q.newRequests != []
    ensures CallbackInv(s.(q := TrySendRequest(s.q, s.q.newRequests[0], Again)))
  {
    var t := s.(q := TrySendRequest(s.q, s.q.newRequests[0], Again));
    SameSent(s.q, t.q);
    SameCallbacksKeepInv(s, t);
  }

  /** A request may leave the new requests when its callback has been taken. */
  lemma PopKeepsCallbacks(s: State)
    requires CallbackInv(s) && s.q.newRequests != [] && !Holds(s.q, s.q.newRequests[0])
    ensures CallbackInv(s.(q := s.q.(newRequests := s.q.newRequests[1..])))
  {
    var t := s.(q := s.q.(newRequests := s.q.newRequests[1..]));
    SameSent(s.q, t.q);
    assert forall x :: Holds(t.q, x) == Holds(s.q, x);
    assert forall x :: Places(t, x) == Places(s, x);
    assert forall x :: x in s.q.newRequests ==> x == s.q.newRequests[0] || x in t.q.newRequests;
  }

  lemma SendNewKeepsCallbacks(s: State, outcome: Outcome)
    requires CallbackInv(s) && s.q.newRequests != []
    ensures CallbackInv(SendNew(s, outcome))
  {
    var id := s.q.newRequests[0];
    if outcome.Sends? {
      FirstSendKeepsCallbacks(s, outcome.now);
      var sent := SentNew(s, outcome.now);
      TakeKeepsCallbacks(sent, id);
      assert SendNew(s, outcome) == if Offline(s) then TakeCallback(sent, id) else sent;
    } else {
      AgainKeepsCallbacks(s);
      var tried := s.(q := TrySendRequest(s.q, id, Again));
      var taken := TakeCallback(tried, id);
      TakeKeepsCallbacks(tried, id);
      PopKeepsCallbacks(taken);
      var popped := taken.(q := taken.q.(newRequests := taken.q.newRequests[1..]));
      assert SendNew(s, outcome) == if Offline(s) then popped else tried;
    }
  }

  lemma FailNewKeepsCallbacks(s: State)
    requires CallbackInv(s) && s.q.newRequests != []
    ensures CallbackInv(FailNew(s))
  {
    var id := s.q.newRequests[0];
    var t := FailNew(s);
    MovedKeepsCount(s, t, id);
    SameSent(s.q, t.q);
    assert forall x :: x in s.q.newRequests ==> x == id || x in t.q.newRequests;
  }

  lemma {:induction false} PresentCounts(callbacks: seq<Option<nat>>, x: nat)
    ensures multiset(Present(callbacks))[x] == multiset(callbacks)[Some(x)]
  {
    if callbacks != [] {
      var first, rest := callbacks[0], callbacks[1..];
      PresentCounts(rest, x);
      assert callbacks == [first] + rest;
      assert multiset(callbacks) == multiset{first} + multiset(rest);
      assert multiset(CallbackOf(first) + Present(rest)) == multiset(CallbackOf(first)) + multiset(Present(rest));
    }
  }

  lemma DeliverKeepsCallbacks(s: State)
    requires CallbackInv(s)
    ensures CallbackInv(DeliverTimeouts(s)) && DeliverTimeouts(s).timeoutCallbacks == []
  {
    var t := DeliverTimeouts(s);
    forall x: nat
      ensures Places(t, x) == Places(s, x)
    {
      PresentCounts(s.timeoutCallbacks, x);
      assert Holds(t.q, x) == Holds(s.q, x);
    }
  }

  /** One iteration of the send thread, whatever the socket says. Afterwards a callback that has not been called
      is with a request that is watched. */
  lemma IterationKeepsCallbacks(s: State, cfg: Config, now: Time, outcome: Outcome)
    requires CallbackInv(s) && s.tm.retransmissionTimeoutMultiplier > 0
    ensures CallbackInv(SendIteration(s, cfg, now, outcome))
    ensures SendIteration(s, cfg, now, outcome).timeoutCallbacks == []
  {
    var checked := CheckSentRequests(s, cfg, now).s;
    CheckKeepsCallbacks(s, cfg, now);
    if checked.cc.congestionWindow > |checked.q.requestsByLastTransmission| {
      if checked.q.retransmitRequests != [] {
        RetransmitKeepsCallbacks(checked, outcome);
      } else if checked.q.newRequests != [] {
        SendNewKeepsCallbacks(checked, outcome);
      }
    } else if Offline(checked) && checked.q.newRequests != [] {
      FailNewKeepsCallbacks(checked);
    }
    DeliverKeepsCallbacks(SendPart(checked, outcome));
  }

  // ----- receiving -----

  lemma AnswerKeepsCallbacks(s: State, ref: Ref, receiveTime: Time)
    requires CallbackInv(s) && ref in s.q.refToRequest
    ensures CallbackInv(Answer(s, ref, receiveTime))
  {
    var t := Answer(s, ref, receiveTime);
    SameSent(s.q, t.q);
    SameCallbacksKeepInv(s, t);
  }

  lemma SucceedKeepsCallbacks(s: State, id: nat)
    requires CallbackInv(s) && !Holds(s.q, id)
    ensures
      CallbackInv(s.(q := s.q.(requests := s.q.requests[id := At(s.q.requests, id).(successOrTimeout := true)])))
  {
    var t := s.(q := s.q.(requests := s.q.requests[id := At(s.q.requests, id).(successOrTimeout := true)]));
    SameSent(s.q, t.q);
    assert forall x :: Holds(t.q, x) == Holds(s.q, x);
    assert forall x :: Places(t, x) == Places(s, x);
  }

  lemma ReceiveKeepsCallbacks(s: State, ref: Ref, receiveTime: Time)
    requires CallbackInv(s)
    ensures CallbackInv(ReceivePacket(s, ref, receiveTime))
  {
    if ref in s.q.refToRequest {
      var answered := Answer(s, ref, receiveTime);
      var id := s.q.refToRequest[ref];
      AnswerKeepsCallbacks(s, ref, receiveTime);
      TakeKeepsCallbacks(answered, id);
      var taken := TakeCallback(answered, id);
      SucceedKeepsCallbacks(taken, id);
      var done := taken.(q := taken.q.(requests :=
                    taken.q.requests[id := At(taken.q.requests, id).(successOrTimeout := true)]));
      RemoveKeepsCallbacks(done, id);
    }
  }
}
