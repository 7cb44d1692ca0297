/**
 What goes wrong when the socket answers EAGAIN to a retransmission: the request then takes a reference for its
 last one that no packet was sent with.
 */
module UdpRefusedSend {
  import opened Common
  import opened UdpArithmetic
  import opened UdpState
  import opened UdpContainers
  import opened UdpInvariants
  import opened UdpSending
  import opened UdpCallbacks
  import opened UdpCongestion
  import opened UdpRuns

  /** The request waits for a reply that cannot come. */
  lemma RefusalBreaksInv(s: State, clock: Time, now: Time, outcome: Outcome)
    requires Inv(s, clock) && RetransmissionRefused(s, outcome)
    ensures !Inv(SendPart(s, outcome), now)
  {
    var id := s.q.retransmitRequests[0];
    assert id in s.q.retransmitRequests && IsSent(s.q, id);
    NextRefUnused(s.q, s.tm.answered, clock);
    var q' := SendPart(s, outcome).q;
    assert IsSent(q', id) && !AwaitsLast(At(q'.requests, id));
  }

  /** The send part of an iteration keeps the invariant exactly if it is not a refused retransmission. */
  lemma SendKeepsInvUnlessRefused(s: State, clock: Time, now: Time, outcome: Outcome)
    requires Inv(s, clock) && QueueWindow(s.q) && 0 < now && clock <= now
    requires outcome.Sends? ==> outcome.now == now
    ensures Inv(SendPart(s, outcome), now) <==> !RetransmissionRefused(s, outcome)
  {
    if RetransmissionRefused(s, outcome) {
      RefusalBreaksInv(s, clock, now, outcome);
    } else {
      SendPartKeepsInv(s, clock, now, outcome);
    }
  }

  /** The send part of the state would retransmit its first candidate. */
  ghost predicate Retransmits(s: State) {
    && s.cc.congestionWindow > |s.q.requestsByLastTransmission|
    && s.q.retransmitRequests != []
    && !At(s.q.requests, s.q.retransmitRequests[0]).successOrTimeout
  }

  /** A retransmission that goes out is taken for a new request, is watched once more and starts its timeout over,
      exactly if the request waits for no reply. */
  lemma StartsOverWithoutReplies(s: State, now: Time)
    requires Retransmits(s)
    ensures
      var id := s.q.retransmitRequests[0];
      var r, t := At(s.q.requests, id), SendPart(s, Sends(now));
      && multiset(t.q.requestsByFirstTransmission)[id]
         == multiset(s.q.requestsByFirstTransmission)[id] + (if r.sendTime == map[] then 1 else 0)
      && At(t.q.requests, id).firstSendTime == (if r.sendTime == map[] then now else r.firstSendTime)
  {
    var id := s.q.retransmitRequests[0];
    InsertCounts(SendPart(s, Sends(now)).q.requests, ByFirstSend, s.q.requestsByFirstTransmission, id);
  }

  lemma {:induction false} InsertCounts(heap: Heap, order: Order, ids: seq<nat>, id: nat)
    ensures multiset(Insert(heap, order, ids, id)) == multiset(ids) + multiset{id}
  {
    if ids != [] {
      InsertCounts(heap, order, ids[1..], id);
      assert ids == [ids[0]] + ids[1..];
    }
  }

  // ----- what each step does to the packets of a request -----

  /** The request that the send part tries to send, if the window allows it. */
  ghost predicate Tries(s: State, x: nat) {
    && s.cc.congestionWindow > |s.q.requestsByLastTransmission|
    && if s.q.retransmitRequests != [] then s.q.retransmitRequests[0] == x && !At(s.q.requests, x).successOrTimeout
       else s.q.newRequests != [] && s.q.newRequests[0] == x
  }

  ghost predicate TriesAt(m: Moment, cfg: Config, step: Step, x: nat) {
    && step.Iterate? && m.s.tm.retransmissionTimeoutMultiplier > 0
    && Tries(CheckSentRequests(m.s, cfg, step.checkTime).s, x)
  }

  /** In this step the socket has answered EAGAIN to a packet for x. */
  ghost predicate RefusedAt(m: Moment, cfg: Config, step: Step, x: nat) {
    TriesAt(m, cfg, step, x) && step.outcome.Again?
  }

  ghost predicate SentAt(m: Moment, cfg: Config, step: Step, x: nat) {
    TriesAt(m, cfg, step, x) && step.outcome.Sends?
  }

  /** Nothing was sent or refused for the request. Replies may have come, and who has settled remains so. */
  ghost predicate OnlyReplies(r: Request, r': Request) {
    && r'.lastRef == r.lastRef && r'.lastSeq == r.lastSeq
    && (forall ref :: ref in r'.sendTime ==> ref in r.sendTime && r'.sendTime[ref] == r.sendTime[ref])
    && (r.successOrTimeout ==> r'.successOrTimeout)
    && (r.lastRef in r.sendTime ==> r.lastRef in r'.sendTime || r'.successOrTimeout)
  }

  ghost predicate NothingSent(q: Queues, q': Queues) {
    && q'.nextRef == q.nextRef && q'.sendCount == q.sendCount
    && (forall x :: IsSent(q', x) ==> IsSent(q, x))
    && (forall x: nat :: OnlyReplies(At(q.requests, x), At(q'.requests, x)))
  }

  lemma {:induction false} ExpireQueuedUnsent(s: State, cfg: Config, now: Time)
    ensures NothingSent(s.q, ExpireQueued(s, cfg, now).q)
    decreases |s.q.newRequests|
  {
    if cfg.queueTimeout != 0 && s.q.newRequests != [] && QueueDeadline(s, cfg, s.q.newRequests[0]) <= now {
      SameSent(s.q, DropExpired(s).q);
      ExpireQueuedUnsent(DropExpired(s), cfg, now);
      UnsentTransitive(s.q, DropExpired(s).q, ExpireQueued(s, cfg, now).q);
    }
  }

  lemma UnsentTransitive(q: Queues, q': Queues, q'': Queues)
    requires NothingSent(q, q') && NothingSent(q', q'')
    ensures NothingSent(q, q'')
  {
    forall x: nat
      ensures OnlyReplies(At(q.requests, x), At(q''.requests, x))
    {
      assert OnlyReplies(At(q.requests, x), At(q'.requests, x));
      assert OnlyReplies(At(q'.requests, x), At(q''.requests, x));
    }
  }

  lemma {:induction false} ExpireSentUnsent(s: State, cfg: Config, now: Time)
    ensures NothingSent(s.q, ExpireSent(s, cfg, now).q)
    decreases |s.q.requestsByFirstTransmission|
  {
    if s.q.requestsByFirstTransmission != []
       && RequestDeadline(s, cfg, s.q.requestsByFirstTransmission[0]) <= now {
      SameSent(s.q, ExpireFirst(s).q);
      ExpireSentUnsent(ExpireFirst(s), cfg, now);
      UnsentTransitive(s.q, ExpireFirst(s).q, ExpireSent(s, cfg, now).q);
    }
  }

  lemma LossUnsent(s: State, id: nat)
    ensures NothingSent(s.q, PacketLossDetected(s, id).q)
  {
    SameSent(s.q, PacketLossDetected(s, id).q);
  }

  lemma LoseFirstUnsent(s: State, retransmitTime: Time)
    requires s.q.requestsByLastTransmission != []
    ensures NothingSent(s.q, LoseFirst(s, retransmitTime).q)
  {
    var id := s.q.requestsByLastTransmission[0];
    var u := WithRetransmitTime(s, id, retransmitTime);
    SameSent(s.q, u.q);
    LossUnsent(u, id);
    var t := PacketLossDetected(u, id);
    MoveFirstKeepsSent(t.q);
    UnsentTransitive(s.q, u.q, t.q);
    UnsentTransitive(s.q, t.q, MoveFirst(t.q));
  }

  lemma DetectStepUnsent(s: State, l: Limits, now: Time)
    requires DetectStep(s, l, now).Some?
    ensures NothingSent(s.q, DetectStep(s, l, now).value.0.q)
  {
    var id := s.q.requestsByLastTransmission[0];
    if At(s.q.requests, id).successOrTimeout {
      RemoveMembers(s.q, id);
    } else if RtoDeadline(s, l, id) <= now {
      LoseFirstUnsent(s, RtoDeadline(s, l, id));
    } else {
      LoseFirstUnsent(s, EarlyDeadline(s, l, id));
    }
  }

  lemma {:induction false} DetectUnsent(s: State, l: Limits, now: Time, rtoExpired: bool)
    ensures NothingSent(s.q, DetectLosses(s, l, now, rtoExpired).0.q)
    decreases |s.q.requestsByLastTransmission|
  {
    var step := DetectStep(s, l, now);
    if step.Some? {
      DetectStepShrinks(s, l, now);
      DetectStepUnsent(s, l, now);
      DetectUnsent(step.value.0, l, now, rtoExpired || step.value.1);
      UnsentTransitive(s.q, step.value.0.q, DetectLosses(s, l, now, rtoExpired).0.q);
    }
  }

  lemma CheckUnsent(s: State, cfg: Config, now: Time)
    requires s.tm.retransmissionTimeoutMultiplier > 0
    ensures NothingSent(s.q, CheckSentRequests(s, cfg, now).s.q)
  {
    var queued := ExpireQueued(s, cfg, now);
    ExpireQueuedUnsent(s, cfg, now);
    ExpireSentUnsent(queued, cfg, now);
    ExpiredKeepsMultiplier(s, cfg, now);
    var expired := Expired(s, cfg, now);
    DetectUnsent(expired, LimitsOf(expired, cfg), now, false);
    UnsentTransitive(s.q, queued.q, expired.q);
    UnsentTransitive(s.q, expired.q, CheckSentRequests(s, cfg, now).s.q);
  }

  lemma CompleteUnsent(s: State, id: nat, ref: Ref)
    ensures Complete(s, id, ref).q.nextRef == s.q.nextRef && Complete(s, id, ref).q.sendCount == s.q.sendCount
    ensures forall x :: IsSent(Complete(s, id, ref).q, x) ==> IsSent(s.q, x)
    ensures
      var r := At(s.q.requests, id);
      Complete(s, id, ref).q.requests
      == if r.idempotent || ref == r.lastRef
         then s.q.requests[id := r.(callback := None, successOrTimeout := true)] else s.q.requests
  {
    var t := TakeCallback(s, id);
    var done := t.(q := t.q.(requests := t.q.requests[id := At(t.q.requests, id).(successOrTimeout := true)]));
    RemoveMembers(done.q, id);
    SameSent(s.q, done.q);
  }

  lemma ReceiveUnsent(s: State, ref: Ref, receiveTime: Time)
    ensures NothingSent(s.q, ReceivePacket(s, ref, receiveTime).q)
  {
    if ref in s.q.refToRequest {
      var t := Answer(s, ref, receiveTime);
      SameSent(s.q, t.q);
      CompleteUnsent(t, s.q.refToRequest[ref], ref);
    }
  }

  /** What the record of a request looks like after it has been sent. */
  ghost predicate JustSent(q: Queues, r: Request, r': Request) {
    && r'.lastRef == q.nextRef && r'.lastSeq == q.sendCount && q.nextRef in r'.sendTime
    && forall ref :: ref in r'.sendTime ==>
         || (ref in r.sendTime && r'.sendTime[ref] == r.sendTime[ref])
         || (ref == q.nextRef && r'.sendTime[ref].seqNumber == q.sendCount)
  }

  ghost predicate JustRefused(q: Queues, r: Request, r': Request) {
    && r'.lastRef == q.nextRef && r'.lastSeq == r.lastSeq
    && forall ref :: ref in r'.sendTime ==> ref in r.sendTime && r'.sendTime[ref] == r.sendTime[ref]
  }

  /** The send part changes the packets of nobody but the request that it tries; a new request may be dropped. */
  ghost predicate SendEffect(s: State, outcome: Outcome, t: State, x: nat) {
    var r, r' := At(s.q.requests, x), At(t.q.requests, x);
    if Tries(s, x) then
      if outcome.Sends? then JustSent(s.q, r, r') else JustRefused(s.q, r, r')
    else OnlyReplies(r, r') || (x in s.q.newRequests && r' == NO_REQUEST)
  }

  lemma TryEffect(q: Queues, id: nat, outcome: Outcome)
    ensures
      var r, r' := At(q.requests, id), At(TrySendRequest(q, id, outcome).requests, id);
      if outcome.Sends? then JustSent(q, r, r') else JustRefused(q, r, r')
    ensures forall x :: x != id ==> At(TrySendRequest(q, id, outcome).requests, x) == At(q.requests, x)
  {
  }

  lemma SendNewEffect(s: State, outcome: Outcome, x: nat)
    requires s.q.newRequests != []
    ensures
      var r, r' := At(s.q.requests, x), At(SendNew(s, outcome).q.requests, x);
      if x != s.q.newRequests[0] then r' == r
      else if outcome.Sends? then JustSent(s.q, r, r') else JustRefused(s.q, r, r')
  {
    TryEffect(s.q, s.q.newRequests[0], outcome);
    assert TryNew(s, outcome).q.requests == TrySendRequest(s.q, s.q.newRequests[0], outcome).requests;
  }

  lemma SendPartEffect(s: State, outcome: Outcome, x: nat)
    ensures SendEffect(s, outcome, SendPart(s, outcome), x)
  {
    if s.cc.congestionWindow > |s.q.requestsByLastTransmission| {
      if s.q.retransmitRequests != [] {
        TryEffect(s.q, s.q.retransmitRequests[0], outcome);
      } else if s.q.newRequests != [] {
        SendNewEffect(s, outcome, x);
      }
    }
  }

  lemma SendPartSent(s: State, outcome: Outcome, x: nat)
    requires IsSent(SendPart(s, outcome).q, x)
    ensures IsSent(s.q, x) || (Tries(s, x) && outcome.Sends?)
  {
    if s.cc.congestionWindow > |s.q.requestsByLastTransmission| && s.q.retransmitRequests != [] {
      var id := s.q.retransmitRequests[0];
      if At(s.q.requests, id).successOrTimeout {
        RemoveMembers(s.q, id);
      } else if outcome.Sends? {
        InsertMembers(TrySendRequest(s.q, id, outcome).requests, ByLastSend, s.q.requestsByLastTransmission, id);
      }
    } else if s.cc.congestionWindow > |s.q.requestsByLastTransmission| && s.q.newRequests != [] && outcome.Sends? {
      var id := s.q.newRequests[0];
      InsertMembers(TrySendRequest(s.q, id, outcome).requests, ByLastSend, s.q.requestsByLastTransmission, id);
    }
  }

  // ----- what is known in every run, with EAGAIN at any time -----

  /** A packet that is waited for was sent no later than the last one for the request, under the reference of its
      number. */
  ghost predicate RequestCounted(q: Queues, x: nat) {
    var r := At(q.requests, x);
    && (IsSent(q, x) || r.sendTime != map[] ==> r.lastSeq < q.sendCount)
    && forall ref: Ref :: ref in r.sendTime ==>
         RefOf(r.sendTime[ref].seqNumber) == ref && r.sendTime[ref].seqNumber <= r.lastSeq
  }

  /** References are send counters. */
  ghost predicate CountersAgree(q: Queues) {
    && q.nextRef == RefOf(q.sendCount)
    && forall x: nat :: RequestCounted(q, x)
  }

  lemma RepliesShrink(r: Request, r': Request)
    requires OnlyReplies(r, r') && r'.sendTime != map[]
    ensures r.sendTime != map[]
  {
    var ref :| ref in r'.sendTime;
    assert ref in r.sendTime;
  }

  lemma UnsentKeepsCounters(q: Queues, q': Queues)
    requires CountersAgree(q) && NothingSent(q, q')
    ensures CountersAgree(q')
  {
    forall x: nat
      ensures RequestCounted(q', x)
    {
      assert RequestCounted(q, x) && OnlyReplies(At(q.requests, x), At(q'.requests, x));
      if At(q'.requests, x).sendTime != map[] {
        RepliesShrink(At(q.requests, x), At(q'.requests, x));
      }
    }
  }

  lemma SendCounts(s: State, outcome: Outcome)
    requires s.q.nextRef == RefOf(s.q.sendCount)
    ensures SendPart(s, outcome).q.nextRef == RefOf(SendPart(s, outcome).q.sendCount)
    ensures SendPart(s, outcome).q.sendCount >= s.q.sendCount
    ensures forall x :: Tries(s, x) && outcome.Sends? ==> SendPart(s, outcome).q.sendCount == s.q.sendCount + 1
  {
    NextRefCounts(s.q.sendCount);
  }

  lemma SendKeepsCounted(s: State, outcome: Outcome, x: nat)
    requires CountersAgree(s.q)
    ensures RequestCounted(SendPart(s, outcome).q, x)
  {
    var t := SendPart(s, outcome);
    var r, r' := At(s.q.requests, x), At(t.q.requests, x);
    assert RequestCounted(s.q, x);
    SendCounts(s, outcome);
    SendPartEffect(s, outcome, x);
    if IsSent(t.q, x) {
      SendPartSent(s, outcome, x);
    }
    if OnlyReplies(r, r') && r'.sendTime != map[] {
      RepliesShrink(r, r');
    }
  }

  lemma SendKeepsCounters(s: State, outcome: Outcome)
    requires CountersAgree(s.q)
    ensures CountersAgree(SendPart(s, outcome).q)
  {
    SendCounts(s, outcome);
    forall x: nat
      ensures RequestCounted(SendPart(s, outcome).q, x)
    {
      SendKeepsCounted(s, outcome, x);
    }
  }

  lemma QueueKeepsCounters(s: State, now: Time, idempotent: bool)
    requires CountersAgree(s.q) && CallbackInv(s)
    ensures CountersAgree(QueueRequest(s, now, idempotent).q)
  {
    var t := QueueRequest(s, now, idempotent);
    SameSent(s.q, t.q);
    forall x: nat
      ensures RequestCounted(t.q, x)
    {
      assert RequestCounted(s.q, x);
    }
  }

  lemma StepKeepsCounters(m: Moment, cfg: Config, step: Step, m': Moment)
    requires CountersAgree(m.s.q) && CallbackInv(m.s) && Takes(m, cfg, step, m')
    ensures CountersAgree(m'.s.q) && m'.s.q.sendCount >= m.s.q.sendCount
  {
    match step
    case Queue(now, idempotent) =>
      QueueKeepsCounters(m.s, now, idempotent);
    case Iterate(now, outcome) =>
      var checked := CheckSentRequests(m.s, cfg, now).s;
      CheckUnsent(m.s, cfg, now);
      UnsentKeepsCounters(m.s.q, checked.q);
      SendKeepsCounters(checked, outcome);
      SendCounts(checked, outcome);
    case Receive(ref, receiveTime) =>
      ReceiveUnsent(m.s, ref, receiveTime);
      UnsentKeepsCounters(m.s.q, m'.s.q);
  }

  lemma CallbacksAt(cfg: Config, moments: seq<Moment>, steps: seq<Step>, i: nat)
    requires IsRun(cfg, moments, steps) && i <= |steps|
    ensures CallbackInv(moments[i].s)
  {
    EveryRunKeepsCallbacks(cfg, moments[..i + 1], steps[..i]);
  }

  lemma {:induction false} RunKeepsCounters(cfg: Config, moments: seq<Moment>, steps: seq<Step>, i: nat)
    requires IsRun(cfg, moments, steps) && i <= |steps|
    ensures CountersAgree(moments[i].s.q)
    ensures forall j :: 0 <= j <= i ==> moments[j].s.q.sendCount <= moments[i].s.q.sendCount
  {
    if i > 0 {
      RunKeepsCounters(cfg, moments, steps, i - 1);
      CallbacksAt(cfg, moments, steps, i - 1);
      StepKeepsCounters(moments[i - 1], cfg, steps[i - 1], moments[i]);
    }
  }

  /** What one step does to the packets of request x. Who is not tried loses packets only to replies; or the request
      is a fresh or a dropped one. */
  ghost predicate StepEffect(m: Moment, cfg: Config, step: Step, m': Moment, x: nat) {
    var r, r' := At(m.s.q.requests, x), At(m'.s.q.requests, x);
    && (IsSent(m'.s.q, x) ==> IsSent(m.s.q, x) || SentAt(m, cfg, step, x))
    && if SentAt(m, cfg, step, x) then JustSent(m.s.q, r, r')
       else if RefusedAt(m, cfg, step, x) then JustRefused(m.s.q, r, r')
       else OnlyReplies(r, r') || (r'.sendTime == map[] && !IsSent(m'.s.q, x))
  }

  lemma IterationEffect(m: Moment, cfg: Config, step: Step, m': Moment, x: nat)
    requires CallbackInv(m.s) && Takes(m, cfg, step, m') && step.Iterate?
    ensures StepEffect(m, cfg, step, m', x)
  {
    var checked := CheckSentRequests(m.s, cfg, step.checkTime).s;
    CheckUnsent(m.s, cfg, step.checkTime);
    CheckKeepsCallbacks(m.s, cfg, step.checkTime);
    assert OnlyReplies(At(m.s.q.requests, x), At(checked.q.requests, x));
    SendPartEffect(checked, step.outcome, x);
    assert m'.s.q == SendPart(checked, step.outcome).q;
    if IsSent(m'.s.q, x) {
      SendPartSent(checked, step.outcome, x);
    }
  }

  lemma StepHasEffect(m: Moment, cfg: Config, step: Step, m': Moment, x: nat)
    requires CallbackInv(m.s) && Takes(m, cfg, step, m')
    ensures StepEffect(m, cfg, step, m', x)
  {
    match step
    case Queue(now, idempotent) =>
      SameSent(m.s.q, m'.s.q);
    case Iterate(now, outcome) =>
      IterationEffect(m, cfg, step, m', x);
    case Receive(ref, receiveTime) =>
      ReceiveUnsent(m.s, ref, receiveTime);
  }

  // ----- what a refused retransmission costs -----

  /** Before moment n the socket has refused a packet for x, at a time when more than `count` packets had been sent. */
  ghost predicate RefusedSince(cfg: Config, moments: seq<Moment>, steps: seq<Step>, n: nat, x: nat, count: nat)
    requires n <= |steps| < |moments|
  {
    exists j :: 0 <= j < n && RefusedAt(moments[j], cfg, steps[j], x) && moments[j].s.q.sendCount > count
  }

  lemma RefusedSinceStep(cfg: Config, moments: seq<Moment>, steps: seq<Step>, n: nat, x: nat, count: nat)
    requires n < |steps| < |moments|
    ensures RefusedSince(cfg, moments, steps, n + 1, x, count) <==>
              || RefusedSince(cfg, moments, steps, n, x, count)
              || (RefusedAt(moments[n], cfg, steps[n], x) && moments[n].s.q.sendCount > count)
  {
  }

  /** The request still waits for the reply to the packet that was sent last for it. */
  ghost predicate AwaitsOwn(r: Request) {
    RefOf(r.lastSeq) in r.sendTime && r.sendTime[RefOf(r.lastSeq)].seqNumber == r.lastSeq
  }

  /** The reference that the client takes for the last one is the one of the last packet, or of a later number. */
  ghost predicate LastRefTells(q: Queues, r: Request, refused: bool) {
    AwaitsOwn(r) ==>
      if refused then exists number: nat :: r.lastSeq < number <= q.sendCount && r.lastRef == RefOf(number)
      else r.lastRef == RefOf(r.lastSeq)
  }

  lemma EffectKeepsTelling(m: Moment, cfg: Config, step: Step, m': Moment, x: nat, before: bool, after: bool)
    requires CountersAgree(m.s.q) && StepEffect(m, cfg, step, m', x) && m'.s.q.sendCount >= m.s.q.sendCount
    requires LastRefTells(m.s.q, At(m.s.q.requests, x), before)
    requires SentAt(m, cfg, step, x) ==> !after
    requires RefusedAt(m, cfg, step, x) && At(m.s.q.requests, x).sendTime != map[] ==> after
    requires !TriesAt(m, cfg, step, x) && OnlyReplies(At(m.s.q.requests, x), At(m'.s.q.requests, x)) ==> after == before
    ensures LastRefTells(m'.s.q, At(m'.s.q.requests, x), after)
  {
    var r, r' := At(m.s.q.requests, x), At(m'.s.q.requests, x);
    assert RequestCounted(m.s.q, x);
    if RefusedAt(m, cfg, step, x) && AwaitsOwn(r') {
      assert r.lastSeq < m.s.q.sendCount && r'.lastRef == RefOf(m.s.q.sendCount);
    }
  }

  ghost predicate LastRefTellsAt(cfg: Config, moments: seq<Moment>, steps: seq<Step>, n: nat, x: nat)
    requires n <= |steps| < |moments|
  {
    var r := At(moments[n].s.q.requests, x);
    LastRefTells(moments[n].s.q, r, RefusedSince(cfg, moments, steps, n, x, r.lastSeq))
  }

  ghost predicate LastRefGoesOn(cfg: Config, moments: seq<Moment>, steps: seq<Step>, n: nat, x: nat)
    requires n < |steps| < |moments|
  {
    LastRefTellsAt(cfg, moments, steps, n, x) ==> LastRefTellsAt(cfg, moments, steps, n + 1, x)
  }

  lemma {:induction false} LastRefByInduction(cfg: Config, moments: seq<Moment>, steps: seq<Step>, n: nat, x: nat)
    requires n <= |steps| < |moments| && LastRefTellsAt(cfg, moments, steps, 0, x)
    requires forall k :: 0 <= k < |steps| ==> LastRefGoesOn(cfg, moments, steps, k, x)
    ensures LastRefTellsAt(cfg, moments, steps, n, x)
  {
    if n > 0 {
      LastRefByInduction(cfg, moments, steps, n - 1, x);
      assert LastRefGoesOn(cfg, moments, steps, n - 1, x);
    }
  }

  lemma LastRefInRuns(cfg: Config, moments: seq<Moment>, steps: seq<Step>, n: nat, x: nat)
    requires IsRun(cfg, moments, steps) && n <= |steps|
    ensures LastRefTellsAt(cfg, moments, steps, n, x)
  {
    assert !AwaitsOwn(At(moments[0].s.q.requests, x));
    forall k | 0 <= k < |steps|
      ensures LastRefGoesOn(cfg, moments, steps, k, x)
    {
      if LastRefTellsAt(cfg, moments, steps, k, x) {
        LastRefStep(cfg, moments, steps, k, x);
      }
    }
    LastRefByInduction(cfg, moments, steps, n, x);
  }

  lemma LastRefStep(cfg: Config, moments: seq<Moment>, steps: seq<Step>, n: nat, x: nat)
    requires IsRun(cfg, moments, steps) && n < |steps| && LastRefTellsAt(cfg, moments, steps, n, x)
    ensures LastRefTellsAt(cfg, moments, steps, n + 1, x)
  {
    var m, m' := moments[n], moments[n + 1];
    var r, r' := At(m.s.q.requests, x), At(m'.s.q.requests, x);
    RunKeepsCounters(cfg, moments, steps, n);
    CallbacksAt(cfg, moments, steps, n);
    StepKeepsCounters(m, cfg, steps[n], m');
    StepHasEffect(m, cfg, steps[n], m', x);
    RefusedSinceStep(cfg, moments, steps, n, x, r'.lastSeq);
    assert RequestCounted(m.s.q, x);
    EffectKeepsTelling(m, cfg, steps[n], m', x, RefusedSince(cfg, moments, steps, n, x, r.lastSeq),
                       RefusedSince(cfg, moments, steps, n + 1, x, r'.lastSeq));
  }

  /** In every run, with EAGAIN at any time: the reply to the packet that was sent last for a write completes the
      write exactly if the socket has not refused a packet for it since. */
  lemma WriteCompletesUnlessRefused(cfg: Config, moments: seq<Moment>, steps: seq<Step>, ref: Ref, receiveTime: Time)
    requires IsRun(cfg, moments, steps)
    requires ref in moments[|steps|].s.q.refToRequest
    requires
      var q := moments[|steps|].s.q;
      var r := At(q.requests, q.refToRequest[ref]);
      && !r.idempotent && r.callback.Some?
      && ref in r.sendTime && r.sendTime[ref].seqNumber == r.lastSeq
      && q.sendCount - r.lastSeq < REF_COUNT
    ensures
      var s := moments[|steps|].s;
      var x := s.q.refToRequest[ref];
      var r := At(s.q.requests, x);
      ReceivePacket(s, ref, receiveTime).delivered
      == if RefusedSince(cfg, moments, steps, |steps|, x, r.lastSeq) then s.delivered
         else s.delivered + [r.callback.value]
  {
    var s := moments[|steps|].s;
    var x := s.q.refToRequest[ref];
    var r := At(s.q.requests, x);
    RunKeepsCounters(cfg, moments, steps, |steps|);
    assert RequestCounted(s.q, x);
    LastRefInRuns(cfg, moments, steps, |steps|, x);
    if RefusedSince(cfg, moments, steps, |steps|, x, r.lastSeq) {
      var number: nat :| r.lastSeq < number <= s.q.sendCount && r.lastRef == RefOf(number);
      RefsDiffer(r.lastSeq, number);
    }
  }

  /** A request that was sent and not settled waits for the reply to what it takes for its last packet, unless a packet
      for it was refused since. */
  ghost predicate AwaitsUnlessRefused(q: Queues, x: nat, refused: bool) {
    var r := At(q.requests, x);
    IsSent(q, x) ==> r.successOrTimeout || refused || r.lastRef in r.sendTime
  }

  lemma EffectKeepsAwaiting(m: Moment, cfg: Config, step: Step, m': Moment, x: nat, before: bool, after: bool)
    requires CountersAgree(m.s.q) && StepEffect(m, cfg, step, m', x)
    requires AwaitsUnlessRefused(m.s.q, x, before)
    requires RefusedAt(m, cfg, step, x) && IsSent(m.s.q, x) ==> after
    requires !TriesAt(m, cfg, step, x) && OnlyReplies(At(m.s.q.requests, x), At(m'.s.q.requests, x)) ==> after == before
    ensures AwaitsUnlessRefused(m'.s.q, x, after)
  {
  }

  ghost predicate AwaitsAt(cfg: Config, moments: seq<Moment>, steps: seq<Step>, n: nat, x: nat)
    requires n <= |steps| < |moments|
  {
    var q := moments[n].s.q;
    AwaitsUnlessRefused(q, x, RefusedSince(cfg, moments, steps, n, x, At(q.requests, x).lastSeq))
  }

  ghost predicate AwaitsGoesOn(cfg: Config, moments: seq<Moment>, steps: seq<Step>, n: nat, x: nat)
    requires n < |steps| < |moments|
  {
    AwaitsAt(cfg, moments, steps, n, x) ==> AwaitsAt(cfg, moments, steps, n + 1, x)
  }

  lemma {:induction false} AwaitsByInduction(cfg: Config, moments: seq<Moment>, steps: seq<Step>, n: nat, x: nat)
    requires n <= |steps| < |moments| && AwaitsAt(cfg, moments, steps, 0, x)
    requires forall k :: 0 <= k < |steps| ==> AwaitsGoesOn(cfg, moments, steps, k, x)
    ensures AwaitsAt(cfg, moments, steps, n, x)
  {
    if n > 0 {
      AwaitsByInduction(cfg, moments, steps, n - 1, x);
      assert AwaitsGoesOn(cfg, moments, steps, n - 1, x);
    }
  }

  lemma AwaitsInRuns(cfg: Config, moments: seq<Moment>, steps: seq<Step>, n: nat, x: nat)
    requires IsRun(cfg, moments, steps) && n <= |steps|
    ensures AwaitsAt(cfg, moments, steps, n, x)
  {
    assert !IsSent(moments[0].s.q, x);
    forall k | 0 <= k < |steps|
      ensures AwaitsGoesOn(cfg, moments, steps, k, x)
    {
      if AwaitsAt(cfg, moments, steps, k, x) {
        AwaitsStep(cfg, moments, steps, k, x);
      }
    }
    AwaitsByInduction(cfg, moments, steps, n, x);
  }

  lemma AwaitsStep(cfg: Config, moments: seq<Moment>, steps: seq<Step>, n: nat, x: nat)
    requires IsRun(cfg, moments, steps) && n < |steps| && AwaitsAt(cfg, moments, steps, n, x)
    ensures AwaitsAt(cfg, moments, steps, n + 1, x)
  {
    var m, m' := moments[n], moments[n + 1];
    var r, r' := At(m.s.q.requests, x), At(m'.s.q.requests, x);
    RunKeepsCounters(cfg, moments, steps, n);
    CallbacksAt(cfg, moments, steps, n);
    StepHasEffect(m, cfg, steps[n], m', x);
    RefusedSinceStep(cfg, moments, steps, n, x, r'.lastSeq);
    assert RequestCounted(m.s.q, x);
    EffectKeepsAwaiting(m, cfg, steps[n], m', x, RefusedSince(cfg, moments, steps, n, x, r.lastSeq),
                        RefusedSince(cfg, moments, steps, n + 1, x, r'.lastSeq));
  }

  /** In every run: a retransmission that goes out starts the timeout of its request over only if the socket has
      refused a packet for it since it was sent. A request that still has its callback is then watched twice. */
  lemma StartsOverOnlyAfterRefusal(cfg: Config, moments: seq<Moment>, steps: seq<Step>, now: Time, sendTime: Time)
    requires IsRun(cfg, moments, steps)
    ensures moments[|steps|].s.tm.retransmissionTimeoutMultiplier > 0
    ensures
      var s := moments[|steps|].s;
      var checked := CheckSentRequests(s, cfg, now).s;
      Retransmits(checked) && At(checked.q.requests, checked.q.retransmitRequests[0]).sendTime == map[] ==>
        var id := checked.q.retransmitRequests[0];
        var t := SendPart(checked, Sends(sendTime));
        && RefusedSince(cfg, moments, steps, |steps|, id, At(s.q.requests, id).lastSeq)
        && At(t.q.requests, id).firstSendTime == sendTime
        && (At(checked.q.requests, id).callback.Some? ==> multiset(t.q.requestsByFirstTransmission)[id] >= 2)
  {
    var s := moments[|steps|].s;
    EveryRunKeepsCallbacks(cfg, moments, steps);
    var checked := CheckSentRequests(s, cfg, now).s;
    CheckUnsent(s, cfg, now);
    CheckKeepsCallbacks(s, cfg, now);
    if Retransmits(checked) && At(checked.q.requests, checked.q.retransmitRequests[0]).sendTime == map[] {
      var id := checked.q.retransmitRequests[0];
      assert id in checked.q.retransmitRequests && IsSent(checked.q, id);
      AwaitsInRuns(cfg, moments, steps, |steps|, id);
      assert OnlyReplies(At(s.q.requests, id), At(checked.q.requests, id));
      StartsOverWithoutReplies(checked, sendTime);
      assert Holds(checked.q, id) ==> id in checked.q.requestsByFirstTransmission;
    }
  }
}
