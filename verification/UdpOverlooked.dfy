/**
 Request timeouts in every run, with EAGAIN at any time. Only the head of the watched requests is looked at, and a
 request whose timeout has started over stands where it was, before requests that are older now.
 */
module UdpOverlooked {
  import opened UdpArithmetic
  import opened UdpState
  import opened UdpContainers
  import opened UdpInvariants
  import opened UdpDeadlines
  import opened UdpCallbacks
  import opened UdpRuns
  import opened UdpRefusedSend

  ghost predicate Due(s: State, cfg: Config, now: Time, x: nat) {
    RequestDeadline(s, cfg, x) <= now
  }

  /** The deadline of x has passed, and the check has left x watched, with its callback. */
  ghost predicate Overlooked(s: State, cfg: Config, now: Time, x: nat)
    requires s.tm.retransmissionTimeoutMultiplier > 0
  {
    var t := CheckSentRequests(s, cfg, now).s;
    x in t.q.requestsByFirstTransmission && Holds(t.q, x) && Due(t, cfg, now, x)
  }

  /** Element i is x where it first occurs, or stands before it. */
  predicate Before(ids: seq<nat>, i: nat, x: nat)
    requires i < |ids|
  {
    x in ids[i..] && x !in ids[..i]
  }

  /** Among the requests in the list, one whose deadline has not passed stands before x. */
  ghost predicate Behind(s: State, cfg: Config, now: Time, ids: seq<nat>, x: nat) {
    exists i :: 0 <= i < |ids| && Before(ids, i, x) && !Due(s, cfg, now, ids[i])
  }

  /** The deadline of x has passed, but not that of some request that is watched before it. */
  ghost predicate Hidden(s: State, cfg: Config, now: Time, x: nat) {
    Holds(s.q, x) && Due(s, cfg, now, x) && Behind(s, cfg, now, s.q.requestsByFirstTransmission, x)
  }

  // ----- one check -----

  lemma BeforeInTail(ids: seq<nat>, i: nat, x: nat)
    requires i + 1 < |ids|
    ensures Before(ids, i + 1, x) <==> Before(ids[1..], i, x) && x != ids[0]
  {
    assert ids[1..][i..] == ids[i + 1..];
    assert ids[..i + 1] == [ids[0]] + ids[1..][..i];
  }

  lemma BehindInTail(s: State, cfg: Config, now: Time, ids: seq<nat>, x: nat)
    requires ids != [] && Due(s, cfg, now, ids[0])
    ensures Behind(s, cfg, now, ids, x) <==> Behind(s, cfg, now, ids[1..], x) && x != ids[0]
  {
    if i :| 0 <= i < |ids| && Before(ids, i, x) && !Due(s, cfg, now, ids[i]) {
      BeforeInTail(ids, i - 1, x);
      assert Before(ids[1..], i - 1, x) && ids[1..][i - 1] == ids[i];
    }
    if i :| 0 <= i < |ids[1..]| && Before(ids[1..], i, x) && !Due(s, cfg, now, ids[1..][i]) {
      BeforeInTail(ids, i, x);
      assert ids[1..][i] == ids[i + 1];
    }
  }

  lemma SameDeadlines(s: State, t: State, cfg: Config, now: Time, ids: seq<nat>, x: nat)
    requires forall y :: At(t.q.requests, y).firstSendTime == At(s.q.requests, y).firstSendTime
    ensures Behind(t, cfg, now, ids, x) <==> Behind(s, cfg, now, ids, x)
  {
    assert forall y :: Due(t, cfg, now, y) == Due(s, cfg, now, y);
  }

  lemma HiddenAfterFirst(s: State, cfg: Config, now: Time, x: nat)
    requires s.q.requestsByFirstTransmission != [] && Due(s, cfg, now, s.q.requestsByFirstTransmission[0])
    ensures Hidden(s, cfg, now, x) <==> Hidden(ExpireFirst(s), cfg, now, x)
  {
    var t, ids := ExpireFirst(s), s.q.requestsByFirstTransmission;
    assert t.q == Unwatch(s.q);
    BehindInTail(s, cfg, now, ids, x);
    SameDeadlines(s, t, cfg, now, ids[1..], x);
    assert Holds(t.q, x) <==> Holds(s.q, x) && x != ids[0];
  }

  lemma {:induction false} ExpirySkipsHidden(s: State, cfg: Config, now: Time, x: nat)
    ensures
      var t := ExpireSent(s, cfg, now);
      x in t.q.requestsByFirstTransmission && Holds(t.q, x) && Due(t, cfg, now, x) <==> Hidden(s, cfg, now, x)
    decreases |s.q.requestsByFirstTransmission|
  {
    var ids := s.q.requestsByFirstTransmission;
    if ids != [] {
      if Due(s, cfg, now, ids[0]) {
        HiddenAfterFirst(s, cfg, now, x);
        ExpirySkipsHidden(ExpireFirst(s), cfg, now, x);
      } else {
        assert x in ids <==> Before(ids, 0, x);
      }
    }
  }

  lemma DetectStepMovesNoCallback(s: State, l: Limits, now: Time, x: nat)
    requires DetectStep(s, l, now).Some?
    ensures Holds(DetectStep(s, l, now).value.0.q, x) == Holds(s.q, x)
  {
    var id := s.q.requestsByLastTransmission[0];
    if !At(s.q.requests, id).successOrTimeout {
      var deadline := if RtoDeadline(s, l, id) <= now then RtoDeadline(s, l, id) else EarlyDeadline(s, l, id);
      LossMovesNoCallback(WithRetransmitTime(s, id, deadline), id);
    }
  }

  lemma {:induction false} DetectMovesNoCallback(s: State, l: Limits, now: Time, rtoExpired: bool, x: nat)
    ensures Holds(DetectLosses(s, l, now, rtoExpired).0.q, x) == Holds(s.q, x)
    decreases |s.q.requestsByLastTransmission|
  {
    var step := DetectStep(s, l, now);
    if step.Some? {
      DetectStepShrinks(s, l, now);
      DetectStepMovesNoCallback(s, l, now, x);
      DetectMovesNoCallback(step.value.0, l, now, rtoExpired || step.value.1, x);
    }
  }

  lemma {:induction false} ExpireQueuedKeepsWatched(s: State, cfg: Config, now: Time, x: nat)
    requires x !in s.q.newRequests
    ensures
      var t := ExpireQueued(s, cfg, now);
      && t.q.requestsByFirstTransmission == s.q.requestsByFirstTransmission
      && x !in t.q.newRequests && Holds(t.q, x) == Holds(s.q, x)
      && forall y :: At(t.q.requests, y).firstSendTime == At(s.q.requests, y).firstSendTime
    decreases |s.q.newRequests|
  {
    if cfg.queueTimeout != 0 && s.q.newRequests != [] && QueueDeadline(s, cfg, s.q.newRequests[0]) <= now {
      ExpireQueuedKeepsWatched(DropExpired(s), cfg, now, x);
    }
  }

  /** A check overlooks exactly the requests that are hidden behind one whose time has not come. */
  lemma CheckOverlooksHidden(s: State, cfg: Config, now: Time, x: nat)
    requires CallbackInv(s) && s.tm.retransmissionTimeoutMultiplier > 0 && x !in s.q.newRequests
    ensures Overlooked(s, cfg, now, x) <==> Hidden(s, cfg, now, x)
  {
    var queued, sent, t := ExpireQueued(s, cfg, now), Expired(s, cfg, now), CheckSentRequests(s, cfg, now).s;
    ExpireQueuedKeepsWatched(s, cfg, now, x);
    SameDeadlines(s, queued, cfg, now, s.q.requestsByFirstTransmission, x);
    ExpirySkipsHidden(queued, cfg, now, x);
    ExpireSentKeepsQueue(queued, cfg, now);
    ExpiredKeepsMultiplier(s, cfg, now);
    DetectKeepsQueue(sent, LimitsOf(sent, cfg), now, false);
    DetectMovesNoCallback(sent, LimitsOf(sent, cfg), now, false, x);
    CheckKeepsCallbacks(s, cfg, now);
    assert Holds(t.q, x) ==> x in t.q.requestsByFirstTransmission;
  }

  lemma CheckWatchesLess(s: State, cfg: Config, now: Time, x: nat)
    requires CallbackInv(s) && s.tm.retransmissionTimeoutMultiplier > 0 && x !in s.q.requestsByFirstTransmission
    ensures !Overlooked(s, cfg, now, x) && !Hidden(s, cfg, now, x)
  {
    var sent := Expired(s, cfg, now);
    ExpireQueuedKeepsSent(s, cfg, now);
    ExpireSentKeepsQueue(ExpireQueued(s, cfg, now), cfg, now);
    ExpiredKeepsMultiplier(s, cfg, now);
    DetectKeepsQueue(sent, LimitsOf(sent, cfg), now, false);
  }

  lemma {:induction false} ExpireQueuedKeepsSent(s: State, cfg: Config, now: Time)
    ensures ExpireQueued(s, cfg, now).q.requestsByFirstTransmission == s.q.requestsByFirstTransmission
    decreases |s.q.newRequests|
  {
    if cfg.queueTimeout != 0 && s.q.newRequests != [] && QueueDeadline(s, cfg, s.q.newRequests[0]) <= now {
      ExpireQueuedKeepsSent(DropExpired(s), cfg, now);
    }
  }

  // ----- the order of the watched requests -----

  /** Only a restarted request can stand before an older one. */
  ghost predicate OlderFirst(heap: Heap, ids: seq<nat>, restarted: set<nat>) {
    forall i, j :: 0 <= i < j < |ids| && ids[i] !in restarted ==>
      At(heap, ids[i]).firstSendTime <= At(heap, ids[j]).firstSendTime
  }

  ghost predicate WatchInv(q: Queues, clock: Time, restarted: set<nat>) {
    && OlderFirst(q.requests, q.requestsByFirstTransmission, restarted)
    && forall x :: x in q.requestsByFirstTransmission ==>
         At(q.requests, x).firstSendTime <= clock && x !in q.newRequests && x < q.nextRequest
  }

  /** What an operation that sends nothing may do. */
  ghost predicate SameWatch(q: Queues, q': Queues) {
    && (forall x :: x in q.requestsByFirstTransmission ==>
          At(q'.requests, x).firstSendTime == At(q.requests, x).firstSendTime)
    && (forall x :: x in q'.newRequests ==> x in q.newRequests)
    && q'.nextRequest == q.nextRequest
  }

  lemma ShorterWatch(q: Queues, q': Queues, clock: Time, restarted: set<nat>, k: nat)
    requires WatchInv(q, clock, restarted) && SameWatch(q, q')
    requires k <= |q.requestsByFirstTransmission|
    requires q'.requestsByFirstTransmission == q.requestsByFirstTransmission[k..]
    ensures WatchInv(q', clock, restarted)
  {
    var ids := q.requestsByFirstTransmission;
    assert forall i :: 0 <= i < |ids| - k ==> ids[k..][i] == ids[i + k] && ids[i + k] in ids;
  }

  lemma PrependOlder(heap: Heap, id: nat, ids: seq<nat>, restarted: set<nat>)
    requires OlderFirst(heap, ids, restarted)
    requires id in restarted || forall x :: x in ids ==> At(heap, id).firstSendTime <= At(heap, x).firstSendTime
    ensures OlderFirst(heap, [id] + ids, restarted)
  {
    assert forall j :: 0 < j <= |ids| ==> ([id] + ids)[j] == ids[j - 1] && ids[j - 1] in ids;
  }

  lemma {:induction false} WithoutKeepsOlder(heap: Heap, ids: seq<nat>, id: nat, restarted: set<nat>)
    requires OlderFirst(heap, ids, restarted)
    ensures OlderFirst(heap, Without(ids, id), restarted)
  {
    if ids != [] {
      WithoutKeepsOlder(heap, ids[1..], id, restarted);
      WithoutMembers(ids[1..], id);
      PrependOlder(heap, ids[0], Without(ids[1..], id), restarted);
    }
  }

  lemma {:induction false} EraseKeepsOlder(heap: Heap, ids: seq<nat>, id: nat, restarted: set<nat>)
    requires OlderFirst(heap, ids, restarted)
    ensures OlderFirst(heap, Erase(heap, ByFirstSend, ids, id), restarted)
  {
    if ids != [] {
      if Key(heap, ByFirstSend, ids[0]) < Key(heap, ByFirstSend, id) {
        EraseKeepsOlder(heap, ids[1..], id, restarted);
        EraseTakesOnly(heap, ByFirstSend, ids[1..], id);
        PrependOlder(heap, ids[0], Erase(heap, ByFirstSend, ids[1..], id), restarted);
      } else {
        WithoutKeepsOlder(heap, ids, id, restarted);
      }
    }
  }

  lemma RemoveKeepsWatch(q: Queues, id: nat, clock: Time, restarted: set<nat>)
    requires WatchInv(q, clock, restarted)
    ensures WatchInv(RemoveRequest(q, id), clock, restarted)
  {
    EraseKeepsOlder(q.requests, q.requestsByFirstTransmission, id, restarted);
    EraseTakesOnly(q.requests, ByFirstSend, q.requestsByFirstTransmission, id);
  }

  lemma {:induction false} ExpireQueuedKeepsWatch(s: State, cfg: Config, now: Time, clock: Time, restarted: set<nat>)
    requires WatchInv(s.q, clock, restarted)
    ensures WatchInv(ExpireQueued(s, cfg, now).q, clock, restarted)
    decreases |s.q.newRequests|
  {
    if cfg.queueTimeout != 0 && s.q.newRequests != [] && QueueDeadline(s, cfg, s.q.newRequests[0]) <= now {
      ShorterWatch(s.q, DropExpired(s).q, clock, restarted, 0);
      ExpireQueuedKeepsWatch(DropExpired(s), cfg, now, clock, restarted);
    }
  }

  lemma {:induction false} ExpireSentKeepsWatch(s: State, cfg: Config, now: Time, clock: Time, restarted: set<nat>)
    requires WatchInv(s.q, clock, restarted)
    ensures WatchInv(ExpireSent(s, cfg, now).q, clock, restarted)
    decreases |s.q.requestsByFirstTransmission|
  {
    if s.q.requestsByFirstTransmission != [] && Due(s, cfg, now, s.q.requestsByFirstTransmission[0]) {
      ShorterWatch(s.q, ExpireFirst(s).q, clock, restarted, 1);
      ExpireSentKeepsWatch(ExpireFirst(s), cfg, now, clock, restarted);
    }
  }

  lemma LoseFirstKeepsWatch(s: State, retransmitTime: Time, clock: Time, restarted: set<nat>)
    requires s.q.requestsByLastTransmission != [] && WatchInv(s.q, clock, restarted)
    ensures WatchInv(LoseFirst(s, retransmitTime).q, clock, restarted)
  {
    LoseFirstKeepsQueue(s, retransmitTime);
    ShorterWatch(s.q, LoseFirst(s, retransmitTime).q, clock, restarted, 0);
  }

  lemma {:induction false} DetectKeepsWatch(s: State, l: Limits, now: Time, rtoExpired: bool, clock: Time,
                                            restarted: set<nat>)
    requires WatchInv(s.q, clock, restarted)
    ensures WatchInv(DetectLosses(s, l, now, rtoExpired).0.q, clock, restarted)
    decreases |s.q.requestsByLastTransmission|
  {
    var step := DetectStep(s, l, now);
    if step.Some? {
      DetectStepShrinks(s, l, now);
      var id := s.q.requestsByLastTransmission[0];
      if At(s.q.requests, id).successOrTimeout {
        RemoveKeepsWatch(s.q, id, clock, restarted);
      } else if RtoDeadline(s, l, id) <= now {
        LoseFirstKeepsWatch(s, RtoDeadline(s, l, id), clock, restarted);
      } else {
        LoseFirstKeepsWatch(s, EarlyDeadline(s, l, id), clock, restarted);
      }
      DetectKeepsWatch(step.value.0, l, now, rtoExpired || step.value.1, clock, restarted);
    }
  }

  lemma CheckKeepsWatch(s: State, cfg: Config, now: Time, clock: Time, restarted: set<nat>)
    requires WatchInv(s.q, clock, restarted) && s.tm.retransmissionTimeoutMultiplier > 0
    ensures WatchInv(CheckSentRequests(s, cfg, now).s.q, clock, restarted)
  {
    ExpireQueuedKeepsWatch(s, cfg, now, clock, restarted);
    ExpireSentKeepsWatch(ExpireQueued(s, cfg, now), cfg, now, clock, restarted);
    ExpiredKeepsMultiplier(s, cfg, now);
    var sent := Expired(s, cfg, now);
    DetectKeepsWatch(sent, LimitsOf(sent, cfg), now, false, clock, restarted);
  }

  lemma ReceiveKeepsWatch(s: State, ref: Ref, receiveTime: Time, clock: Time, restarted: set<nat>)
    requires WatchInv(s.q, clock, restarted)
    ensures WatchInv(ReceivePacket(s, ref, receiveTime).q, clock, restarted)
  {
    if ref in s.q.refToRequest {
      var id, t := s.q.refToRequest[ref], Answer(s, ref, receiveTime);
      ShorterWatch(s.q, t.q, clock, restarted, 0);
      var taken := TakeCallback(t, id);
      var done := taken.q.(requests :=
                    taken.q.requests[id := At(taken.q.requests, id).(successOrTimeout := true)]);
      ShorterWatch(t.q, done, clock, restarted, 0);
      RemoveKeepsWatch(done, id, clock, restarted);
    }
  }

  // ----- sending -----

  /** The request whose timeout starts over in the send part. */
  ghost function StartedOver(s: State, outcome: Outcome): set<nat> {
    if outcome.Sends? && Retransmits(s) && At(s.q.requests, s.q.retransmitRequests[0]).sendTime == map[]
    then {s.q.retransmitRequests[0]} else {}
  }

  /** A request joins the watched ones, now. */
  lemma WatchOneMore(q: Queues, q': Queues, id: nat, clock: Time, now: Time, restarted: set<nat>)
    requires WatchInv(q, clock, restarted) && clock <= now && id < q.nextRequest == q'.nextRequest
    requires forall x :: x in q'.newRequests ==> x in q.newRequests && x != id
    requires forall x :: x != id ==> At(q'.requests, x).firstSendTime == At(q.requests, x).firstSendTime
    requires At(q'.requests, id).firstSendTime == now
    requires q'.requestsByFirstTransmission == Insert(q'.requests, ByFirstSend, q.requestsByFirstTransmission, id)
    requires id in q.requestsByFirstTransmission ==> id in restarted
    ensures WatchInv(q', now, restarted)
  {
    var ids := q.requestsByFirstTransmission;
    InsertAppends(q'.requests, ByFirstSend, ids, id);
    assert forall i :: 0 <= i < |ids| ==> ids[i] in ids && (ids + [id])[i] == ids[i];
  }

  lemma MoreRestarted(q: Queues, clock: Time, restarted: set<nat>, others: set<nat>)
    requires WatchInv(q, clock, restarted)
    ensures WatchInv(q, clock, restarted + others)
  {
  }

  lemma RetransmitKeepsWatch(s: State, outcome: Outcome, clock: Time, restarted: set<nat>)
    requires CallbackInv(s) && WatchInv(s.q, clock, restarted) && Retransmits(s)
    requires outcome.Sends? ==> clock <= outcome.now
    ensures WatchInv(SendPart(s, outcome).q, if outcome.Sends? then outcome.now else clock,
                     restarted + StartedOver(s, outcome))
  {
    var id, t := s.q.retransmitRequests[0], SendPart(s, outcome);
    assert id in s.q.retransmitRequests && IsSent(s.q, id);
    MoreRestarted(s.q, clock, restarted, StartedOver(s, outcome));
    if outcome.Sends? && At(s.q.requests, id).sendTime == map[] {
      WatchOneMore(s.q, t.q, id, clock, outcome.now, restarted + {id});
    } else {
      ShorterWatch(s.q, t.q, clock, restarted, 0);
    }
  }

  lemma SendNewKeepsWatch(s: State, outcome: Outcome, clock: Time, restarted: set<nat>)
    requires CallbackInv(s) && WatchInv(s.q, clock, restarted) && s.q.newRequests != []
    requires outcome.Sends? ==> clock <= outcome.now
    ensures WatchInv(SendNew(s, outcome).q, if outcome.Sends? then outcome.now else clock, restarted)
  {
    var id, t := s.q.newRequests[0], SendNew(s, outcome);
    assert id in s.q.newRequests && At(s.q.requests, id).sendTime == map[] && id < s.q.nextRequest;
    if outcome.Sends? {
      var u := TryNew(s, outcome);
      WatchOneMore(s.q, u.q, id, clock, outcome.now, restarted);
      ShorterWatch(u.q, t.q, outcome.now, restarted, 0);
    } else {
      ShorterWatch(s.q, t.q, clock, restarted, 0);
    }
  }

  lemma SendKeepsWatch(s: State, outcome: Outcome, clock: Time, restarted: set<nat>)
    requires CallbackInv(s) && WatchInv(s.q, clock, restarted)
    requires outcome.Sends? ==> clock <= outcome.now
    ensures WatchInv(SendPart(s, outcome).q, if outcome.Sends? then outcome.now else clock,
                     restarted + StartedOver(s, outcome))
  {
    if s.cc.congestionWindow > |s.q.requestsByLastTransmission| {
      if Retransmits(s) {
        RetransmitKeepsWatch(s, outcome, clock, restarted);
      } else if s.q.retransmitRequests != [] {
        RemoveKeepsWatch(s.q, s.q.retransmitRequests[0], clock, restarted);
      } else if s.q.newRequests != [] {
        SendNewKeepsWatch(s, outcome, clock, restarted);
      }
    } else if Offline(s) && s.q.newRequests != [] {
      assert s.q.newRequests[0] in s.q.newRequests;
      ShorterWatch(s.q, FailNew(s).q, clock, restarted, 0);
    }
  }

  // ----- all runs -----

  ghost function StartedOverAt(m: Moment, cfg: Config, step: Step): set<nat> {
    if step.Iterate? && m.s.tm.retransmissionTimeoutMultiplier > 0
    then StartedOver(CheckSentRequests(m.s, cfg, step.checkTime).s, step.outcome) else {}
  }

  /** The requests whose timeout has started over in the first n steps. */
  ghost function Restarted(cfg: Config, moments: seq<Moment>, steps: seq<Step>, n: nat): set<nat>
    requires n <= |steps| < |moments|
  {
    if n == 0 then {}
    else Restarted(cfg, moments, steps, n - 1) + StartedOverAt(moments[n - 1], cfg, steps[n - 1])
  }

  lemma StepKeepsWatch(m: Moment, cfg: Config, step: Step, m': Moment, restarted: set<nat>)
    requires CallbackInv(m.s) && Takes(m, cfg, step, m') && WatchInv(m.s.q, m.clock, restarted)
    ensures WatchInv(m'.s.q, m'.clock, restarted + StartedOverAt(m, cfg, step))
  {
    match step
    case Queue(now, idempotent) =>
    case Iterate(now, outcome) =>
      CheckKeepsCallbacks(m.s, cfg, now);
      CheckKeepsWatch(m.s, cfg, now, m.clock, restarted);
      SendKeepsWatch(CheckSentRequests(m.s, cfg, now).s, outcome, m.clock, restarted);
    case Receive(ref, receiveTime) =>
      ReceiveKeepsWatch(m.s, ref, receiveTime, m.clock, restarted);
  }

  ghost predicate WatchAt(cfg: Config, moments: seq<Moment>, steps: seq<Step>, n: nat)
    requires n <= |steps| < |moments|
  {
    WatchInv(moments[n].s.q, moments[n].clock, Restarted(cfg, moments, steps, n))
  }

  lemma WatchStep(cfg: Config, moments: seq<Moment>, steps: seq<Step>, n: nat)
    requires IsRun(cfg, moments, steps) && n < |steps| && WatchAt(cfg, moments, steps, n)
    ensures WatchAt(cfg, moments, steps, n + 1)
  {
    CallbacksAt(cfg, moments, steps, n);
    StepKeepsWatch(moments[n], cfg, steps[n], moments[n + 1], Restarted(cfg, moments, steps, n));
  }

  ghost predicate WatchGoesOn(cfg: Config, moments: seq<Moment>, steps: seq<Step>, n: nat)
    requires n < |steps| < |moments|
  {
    WatchAt(cfg, moments, steps, n) ==> WatchAt(cfg, moments, steps, n + 1)
  }

  lemma {:induction false} WatchByInduction(cfg: Config, moments: seq<Moment>, steps: seq<Step>, n: nat)
    requires n <= |steps| < |moments| && WatchAt(cfg, moments, steps, 0)
    requires forall k :: 0 <= k < |steps| ==> WatchGoesOn(cfg, moments, steps, k)
    ensures WatchAt(cfg, moments, steps, n)
  {
    if n > 0 {
      WatchByInduction(cfg, moments, steps, n - 1);
      assert WatchGoesOn(cfg, moments, steps, n - 1);
    }
  }

  /** In every run only restarted requests are watched before older ones. */
  lemma RunKeepsWatch(cfg: Config, moments: seq<Moment>, steps: seq<Step>)
    requires IsRun(cfg, moments, steps)
    ensures WatchAt(cfg, moments, steps, |steps|)
  {
    assert WatchAt(cfg, moments, steps, 0);
    forall k | 0 <= k < |steps|
      ensures WatchGoesOn(cfg, moments, steps, k)
    {
      if WatchAt(cfg, moments, steps, k) {
        WatchStep(cfg, moments, steps, k);
      }
    }
    WatchByInduction(cfg, moments, steps, |steps|);
  }

  /** In every run: a check at time `now` overlooks the timeout of x exactly if the deadline of x has passed and that of
      some request watched before it has not. */
  lemma OverlookedInRuns(cfg: Config, moments: seq<Moment>, steps: seq<Step>, now: Time, x: nat)
    requires IsRun(cfg, moments, steps)
    ensures moments[|steps|].s.tm.retransmissionTimeoutMultiplier > 0
    ensures Overlooked(moments[|steps|].s, cfg, now, x) <==> Hidden(moments[|steps|].s, cfg, now, x)
  {
    var s := moments[|steps|].s;
    EveryRunKeepsCallbacks(cfg, moments, steps);
    if x in s.q.requestsByFirstTransmission {
      RunKeepsWatch(cfg, moments, steps);
      CheckOverlooksHidden(s, cfg, now, x);
    } else {
      CheckWatchesLess(s, cfg, now, x);
    }
  }

  /** Request y, which was restarted, is younger than x. */
  ghost predicate Younger(q: Queues, restarted: set<nat>, y: nat, x: nat) {
    y in restarted && At(q.requests, y).firstSendTime > At(q.requests, x).firstSendTime
  }

  /** Request x still has its callback, and is watched behind a restarted request that is younger. */
  ghost predicate BehindRestarted(q: Queues, restarted: set<nat>, x: nat) {
    var ids := q.requestsByFirstTransmission;
    Holds(q, x) && exists i :: 0 <= i < |ids| && Before(ids, i, x) && Younger(q, restarted, ids[i], x)
  }

  /** If the watched requests are in order but for the restarted ones, that is the only way to be hidden. */
  lemma HiddenBehindRestarted(s: State, cfg: Config, now: Time, x: nat, restarted: set<nat>)
    requires OlderFirst(s.q.requests, s.q.requestsByFirstTransmission, restarted) && Hidden(s, cfg, now, x)
    ensures BehindRestarted(s.q, restarted, x)
  {
    var ids := s.q.requestsByFirstTransmission;
    var i :| 0 <= i < |ids| && Before(ids, i, x) && !Due(s, cfg, now, ids[i]);
    var k :| 0 <= k < |ids[i..]| && ids[i..][k] == x;
    assert ids[i + k] == x;
    assert Younger(s.q, restarted, ids[i], x);
  }

  lemma RestartedHides(s: State, cfg: Config, x: nat, restarted: set<nat>)
    requires BehindRestarted(s.q, restarted, x)
    ensures Hidden(s, cfg, RequestDeadline(s, cfg, x), x)
  {
    var ids := s.q.requestsByFirstTransmission;
    var i :| 0 <= i < |ids| && Before(ids, i, x) && Younger(s.q, restarted, ids[i], x);
    assert !Due(s, cfg, RequestDeadline(s, cfg, x), ids[i]);
  }

  ghost predicate OverlookedOnce(s: State, cfg: Config, x: nat)
    requires s.tm.retransmissionTimeoutMultiplier > 0
  {
    exists now :: Overlooked(s, cfg, now, x)
  }

  lemma OverlookedOnlyIfHidden(s: State, cfg: Config, x: nat, restarted: set<nat>)
    requires s.tm.retransmissionTimeoutMultiplier > 0
    requires OlderFirst(s.q.requests, s.q.requestsByFirstTransmission, restarted)
    requires forall now :: Overlooked(s, cfg, now, x) <==> Hidden(s, cfg, now, x)
    ensures OverlookedOnce(s, cfg, x) <==> BehindRestarted(s.q, restarted, x)
  {
    if BehindRestarted(s.q, restarted, x) {
      RestartedHides(s, cfg, x, restarted);
      assert Overlooked(s, cfg, RequestDeadline(s, cfg, x), x);
    }
    if now :| Overlooked(s, cfg, now, x) {
      HiddenBehindRestarted(s, cfg, now, x, restarted);
    }
  }

  /** In every run: there is a time at which a check would overlook the timeout of x if and only if a request whose
      timeout has started over is watched before x, and x is the older one. */
  lemma OverlookedBehindRestarted(cfg: Config, moments: seq<Moment>, steps: seq<Step>, x: nat)
    requires IsRun(cfg, moments, steps)
    ensures moments[|steps|].s.tm.retransmissionTimeoutMultiplier > 0
    ensures
      var s := moments[|steps|].s;
      OverlookedOnce(s, cfg, x) <==> BehindRestarted(s.q, Restarted(cfg, moments, steps, |steps|), x)
  {
    var s := moments[|steps|].s;
    EveryRunKeepsCallbacks(cfg, moments, steps);
    RunKeepsWatch(cfg, moments, steps);
    forall now
      ensures Overlooked(s, cfg, now, x) <==> Hidden(s, cfg, now, x)
    {
      OverlookedInRuns(cfg, moments, steps, now, x);
    }
    OverlookedOnlyIfHidden(s, cfg, x, Restarted(cfg, moments, steps, |steps|));
  }
}
