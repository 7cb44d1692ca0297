/** Whole runs of the UDP client: any sequence of queued requests, send iterations and arriving packets. */
module UdpRuns {
  import opened UdpArithmetic
  import opened UdpState
  import opened UdpContainers
  import opened UdpInvariants
  import opened UdpSending
  import opened UdpReceiving
  import opened UdpDeadlines
  import opened UdpCallbacks
  import opened UdpCongestion

  datatype Step =
    | Queue(queueTime: Time, idempotent: bool)
    | Iterate(checkTime: Time, outcome: Outcome)
    | Receive(ref: Ref, receiveTime: Time)

  /** A state and the last time that the clock has shown. */
  datatype Moment = Moment(s: State, clock: Time)

  /** Readings of the clock are positive and never go back. */
  ghost predicate ClockAllows(clock: Time, step: Step, clock': Time) {
    match step
    case Queue(now, _) => 0 < now && clock <= now == clock'
    case Iterate(now, Sends(sendTime)) => 0 < now && clock <= now <= sendTime == clock'
    case Iterate(now, Again) => 0 < now && clock <= now == clock'
    case Receive(_, _) => clock' == clock
  }

  ghost predicate Takes(m: Moment, cfg: Config, step: Step, m': Moment) {
    && ClockAllows(m.clock, step, m'.clock)
    && match step
       case Queue(now, idempotent) => m'.s == QueueRequest(m.s, now, idempotent)
       case Iterate(now, outcome) =>
         m.s.tm.retransmissionTimeoutMultiplier > 0 && m'.s == SendIteration(m.s, cfg, now, outcome)
       case Receive(ref, receiveTime) => m'.s == ReceivePacket(m.s, ref, receiveTime)
  }

  ghost predicate IsRun(cfg: Config, moments: seq<Moment>, steps: seq<Step>) {
    && |moments| == |steps| + 1
    && moments[0].s == InitialState()
    && forall i {:trigger steps[i]} :: 0 <= i < |steps| ==> Takes(moments[i], cfg, steps[i], moments[i + 1])
  }

  // ----- what holds in every run, whatever the socket and the peer do -----

  ghost predicate AlwaysInv(s: State) {
    CallbackInv(s) && CongestionInv(s.cc) && ValidMultiplier(s.tm.retransmissionTimeoutMultiplier)
  }

  lemma CheckKeepsMultiplier(s: State, cfg: Config, now: Time)
    requires ValidMultiplier(s.tm.retransmissionTimeoutMultiplier)
    ensures ValidMultiplier(CheckSentRequests(s, cfg, now).s.tm.retransmissionTimeoutMultiplier)
  {
    ExpiredKeepsMultiplier(s, cfg, now);
    var expired := Expired(s, cfg, now);
    DetectKeepsQueue(expired, LimitsOf(expired, cfg), now, false);
    BackoffKeepsPowerOfTwo(s.tm.retransmissionTimeoutMultiplier);
  }

  lemma StepKeepsAlways(m: Moment, cfg: Config, step: Step, m': Moment)
    requires AlwaysInv(m.s) && Takes(m, cfg, step, m')
    ensures AlwaysInv(m'.s)
  {
    match step
    case Queue(now, idempotent) =>
      QueueKeepsCallbacks(m.s, now, idempotent);
    case Iterate(now, outcome) =>
      IterationKeepsCallbacks(m.s, cfg, now, outcome);
      IterationKeepsCongestion(m.s, cfg, now, outcome);
      CheckKeepsMultiplier(m.s, cfg, now);
    case Receive(ref, receiveTime) =>
      ReceiveKeepsCallbacks(m.s, ref, receiveTime);
      ReceiveKeepsCongestion(m.s, ref, receiveTime);
      OneIsValid();
  }

  /** In every run, also offline and also when the socket refuses packets: each callback is in exactly one place,
      the congestion window and the backoff stay in range. */
  lemma {:induction false} EveryRunKeepsCallbacks(cfg: Config, moments: seq<Moment>, steps: seq<Step>)
    requires IsRun(cfg, moments, steps)
    ensures AlwaysInv(moments[|steps|].s)
    decreases |steps|
  {
    if steps == [] {
      InitialCallbackInv();
      OneIsValid();
    } else {
      var n := |steps| - 1;
      EveryRunKeepsCallbacks(cfg, moments[..n + 1], steps[..n]);
      StepKeepsAlways(moments[n], cfg, steps[n], moments[n + 1]);
    }
  }

  // ----- the round-trip time estimate -----

  /** Whether a request timeout of this check resets the estimates. */
  predicate ExpiryResets(s: State, cfg: Config, now: Time)
    decreases |s.q.requestsByFirstTransmission|
  {
    && s.q.requestsByFirstTransmission != []
    && RequestDeadline(s, cfg, s.q.requestsByFirstTransmission[0]) <= now
    && (Offline(s) || ExpiryResets(ExpireFirst(s), cfg, now))
  }

  lemma {:induction false} ExpiryKeepsEstimate(s: State, cfg: Config, now: Time)
    ensures ExpireSent(s, cfg, now).tm.estimate
            == if ExpiryResets(s, cfg, now) then Estimate(0, 0) else s.tm.estimate
    ensures Offline(s) ==> Offline(ExpireSent(s, cfg, now))
    decreases |s.q.requestsByFirstTransmission|
  {
    if s.q.requestsByFirstTransmission != []
       && RequestDeadline(s, cfg, s.q.requestsByFirstTransmission[0]) <= now {
      ExpiryKeepsEstimate(ExpireFirst(s), cfg, now);
    }
  }

  lemma IterationKeepsEstimate(s: State, cfg: Config, now: Time, outcome: Outcome)
    requires s.tm.retransmissionTimeoutMultiplier > 0
    ensures SendIteration(s, cfg, now, outcome).tm.estimate
            == if ExpiryResets(ExpireQueued(s, cfg, now), cfg, now) then Estimate(0, 0) else s.tm.estimate
  {
    var checked := CheckSentRequests(s, cfg, now).s;
    ExpireQueuedKeepsTiming(s, cfg, now);
    ExpiryKeepsEstimate(ExpireQueued(s, cfg, now), cfg, now);
    ExpiredKeepsMultiplier(s, cfg, now);
    DetectKeepsQueue(Expired(s, cfg, now), LimitsOf(Expired(s, cfg, now), cfg), now, false);
    assert SendPart(checked, outcome).tm == checked.tm;
  }

  /** The samples after one more step: a valid reply adds one, a reset drops all. */
  ghost function SamplesAfter(s: State, cfg: Config, step: Step, samples: seq<(int, nat)>): seq<(int, nat)> {
    match step
    case Queue(_, _) => samples
    case Iterate(now, _) => if ExpiryResets(ExpireQueued(s, cfg, now), cfg, now) then [] else samples
    case Receive(ref, receiveTime) =>
      if ref in s.q.refToRequest && ref in At(s.q.requests, s.q.refToRequest[ref]).sendTime
      then samples + [(receiveTime - At(s.q.requests, s.q.refToRequest[ref]).sendTime[ref].time,
                       |s.q.requestsByFirstTransmission|)]
      else samples
  }

  /** The round-trip times that were measured since the last reset, each with the number of unanswered requests. */
  ghost function Samples(cfg: Config, moments: seq<Moment>, steps: seq<Step>, n: nat): seq<(int, nat)>
    requires n <= |steps| < |moments|
  {
    if n == 0 then []
    else SamplesAfter(moments[n - 1].s, cfg, steps[n - 1], Samples(cfg, moments, steps, n - 1))
  }

  lemma ReceiveMeasures(s: State, ref: Ref, receiveTime: Time)
    ensures ReceivePacket(s, ref, receiveTime).tm.estimate
            == if ref in s.q.refToRequest && ref in At(s.q.requests, s.q.refToRequest[ref]).sendTime
               then UpdateRoundTripTime(s.tm.estimate,
                                        receiveTime - At(s.q.requests, s.q.refToRequest[ref]).sendTime[ref].time,
                                        |s.q.requestsByFirstTransmission|)
               else s.tm.estimate
  {
  }

  lemma MeasuredNext(samples: seq<(int, nat)>, sample: (int, nat))
    ensures Measured(samples + [sample]) == UpdateRoundTripTime(Measured(samples), sample.0, sample.1)
  {
    assert (samples + [sample])[..|samples|] == samples;
  }

  lemma StepMeasures(m: Moment, cfg: Config, step: Step, m': Moment, samples: seq<(int, nat)>)
    requires Takes(m, cfg, step, m') && m.s.tm.estimate == Measured(samples)
    ensures m'.s.tm.estimate == Measured(SamplesAfter(m.s, cfg, step, samples))
  {
    match step
    case Queue(_, _) =>
    case Iterate(now, outcome) =>
      IterationKeepsEstimate(m.s, cfg, now, outcome);
    case Receive(ref, receiveTime) =>
      ReceiveMeasures(m.s, ref, receiveTime);
      if SamplesAfter(m.s, cfg, step, samples) != samples {
        var sample := SamplesAfter(m.s, cfg, step, samples)[|samples|];
        MeasuredNext(samples, sample);
      }
  }

  /** In every run the estimate is the one that these samples make, one after the other. */
  lemma {:induction false} EstimateIsMeasured(cfg: Config, moments: seq<Moment>, steps: seq<Step>, n: nat)
    requires IsRun(cfg, moments, steps) && n <= |steps|
    ensures moments[n].s.tm.estimate == Measured(Samples(cfg, moments, steps, n))
  {
    if n > 0 {
      EstimateIsMeasured(cfg, moments, steps, n - 1);
      StepMeasures(moments[n - 1], cfg, steps[n - 1], moments[n], Samples(cfg, moments, steps, n - 1));
    }
  }

  /** So while the clock does not make a round trip negative, the smoothed time stays between the smallest and the
      largest sample since the last reset, and the variation between zero and the largest. */
  lemma EstimateWithinSamplesInRuns(cfg: Config, moments: seq<Moment>, steps: seq<Step>, low: int, high: int)
    requires IsRun(cfg, moments, steps) && 0 <= low
    requires Samples(cfg, moments, steps, |steps|) != []
    requires forall i :: 0 <= i < |Samples(cfg, moments, steps, |steps|)| ==>
               low <= Samples(cfg, moments, steps, |steps|)[i].0 <= high
    ensures low <= moments[|steps|].s.tm.estimate.smoothed <= high
    ensures 0 <= moments[|steps|].s.tm.estimate.variation <= high
  {
    EstimateIsMeasured(cfg, moments, steps, |steps|);
    EstimateWithinSamples(Samples(cfg, moments, steps, |steps|), low, high);
  }

  // ----- what holds while the socket takes every retransmission and references do not wrap into each other -----

  ghost predicate Smooth(m: Moment, cfg: Config, step: Step) {
    && WithinWindow(m.s)
    && (step.Iterate? && m.s.tm.retransmissionTimeoutMultiplier > 0 ==>
          !RetransmissionRefused(CheckSentRequests(m.s, cfg, step.checkTime).s, step.outcome))
  }

  ghost predicate SmoothRun(cfg: Config, moments: seq<Moment>, steps: seq<Step>) {
    IsRun(cfg, moments, steps) && forall i :: 0 <= i < |steps| ==> Smooth(moments[i], cfg, steps[i])
  }

  lemma StepKeepsInv(m: Moment, cfg: Config, step: Step, m': Moment)
    requires Inv(m.s, m.clock) && Takes(m, cfg, step, m') && Smooth(m, cfg, step)
    ensures Inv(m'.s, m'.clock)
  {
    match step
    case Queue(now, idempotent) =>
      QueueKeepsInv(m.s, m.clock, now, idempotent);
    case Iterate(now, outcome) =>
      IterationKeepsInv(m.s, cfg, m.clock, now, m'.clock, outcome);
    case Receive(ref, receiveTime) =>
      ReceiveKeepsInv(m.s, m.clock, ref, receiveTime);
  }

  /** In such a run every live request is in exactly one queue, every container is in order, the reference index
      agrees with the requests, and the last received packet is the newest answered one. */
  lemma {:induction false} SmoothRunKeepsInv(cfg: Config, moments: seq<Moment>, steps: seq<Step>)
    requires SmoothRun(cfg, moments, steps)
    ensures Inv(moments[|steps|].s, moments[|steps|].clock)
    decreases |steps|
  {
    if steps == [] {
      InitialInv(moments[0].clock);
    } else {
      var n := |steps| - 1;
      SmoothRunKeepsInv(cfg, moments[..n + 1], steps[..n]);
      StepKeepsInv(moments[n], cfg, steps[n], moments[n + 1]);
    }
  }

  /** No deadline is overlooked at any point of a run. */
  lemma NothingOverdueInRuns(cfg: Config, moments: seq<Moment>, steps: seq<Step>, now: Time)
    requires SmoothRun(cfg, moments, steps) && WithinWindow(moments[|steps|].s) && 0 < now
    ensures
      var s := moments[|steps|].s;
      && s.tm.retransmissionTimeoutMultiplier > 0
      && AllAhead(CheckSentRequests(s, cfg, now).s, cfg, CheckLimits(s, cfg, now), now,
                  CheckSentRequests(s, cfg, now).nextCheck)
  {
    SmoothRunKeepsInv(cfg, moments, steps);
    CheckIsComplete(moments[|steps|].s, cfg, moments[|steps|].clock, now);
  }

  /** What the send part leaves in the queues has its deadlines from before, or has just been sent. */
  lemma SendKeepsDeadlines(s: State, cfg: Config, clock: Time, outcome: Outcome, x: nat)
    requires Inv(s, clock)
    ensures
      var t := SendPart(s, outcome);
      && (x in t.q.newRequests ==> x in s.q.newRequests && QueueDeadline(t, cfg, x) == QueueDeadline(s, cfg, x))
      && (x in t.q.requestsByFirstTransmission ==>
            || (x in s.q.requestsByFirstTransmission && RequestDeadline(t, cfg, x) == RequestDeadline(s, cfg, x))
            || (outcome.Sends? && RequestDeadline(t, cfg, x) == outcome.now + cfg.requestTimeout))
  {
    var q := s.q;
    if s.cc.congestionWindow > |q.requestsByLastTransmission| && q.retransmitRequests != [] {
      var id := q.retransmitRequests[0];
      assert id in q.retransmitRequests && IsSent(q, id) && AwaitsLast(At(q.requests, id));
      EraseTakesOnly(q.requests, ByFirstSend, q.requestsByFirstTransmission, id);
    } else if s.cc.congestionWindow > |q.requestsByLastTransmission| && q.newRequests != [] {
      var id := q.newRequests[0];
      assert id in q.newRequests && At(q.requests, id).sendTime == map[];
      InsertMembers(TrySendRequest(q, id, outcome).requests, ByFirstSend, q.requestsByFirstTransmission, id);
    } else if Offline(s) && q.newRequests != [] {
      DroppedHeap(q);
    }
  }

  /** Every callback comes in time: after an iteration that has looked at the clock at `now`, a callback that was queued
      has been called, or is with a request whose queue timeout (if there is one) or request timeout is still ahead. */
  lemma OverdueIsDelivered(cfg: Config, moments: seq<Moment>, steps: seq<Step>, x: nat)
    requires SmoothRun(cfg, moments, steps) && cfg.requestTimeout > 0
    requires steps != [] && steps[|steps| - 1].Iterate? && x < moments[|steps|].s.q.nextRequest
    ensures
      var s, now := moments[|steps|].s, steps[|steps| - 1].checkTime;
      || x in s.delivered
      || (x in s.q.newRequests && (cfg.queueTimeout == 0 || now < QueueDeadline(s, cfg, x)))
      || (x in s.q.requestsByFirstTransmission && now < RequestDeadline(s, cfg, x))
  {
    var n := |steps| - 1;
    var m, s, now := moments[n], moments[n + 1].s, steps[n].checkTime;
    SmoothRunKeepsInv(cfg, moments[..n + 1], steps[..n]);
    EveryRunKeepsCallbacks(cfg, moments[..n + 1], steps[..n]);
    assert Takes(m, cfg, steps[n], moments[n + 1]) && Smooth(m, cfg, steps[n]);
    CalledOrAhead(m.s, cfg, m.clock, now, steps[n].outcome, x);
  }

  lemma CalledOrAhead(s: State, cfg: Config, clock: Time, now: Time, outcome: Outcome, x: nat)
    requires Inv(s, clock) && WithinWindow(s) && CallbackInv(s) && 0 < now && cfg.requestTimeout > 0
    requires outcome.Sends? ==> now <= outcome.now
    requires x < SendIteration(s, cfg, now, outcome).q.nextRequest
    ensures
      var t := SendIteration(s, cfg, now, outcome);
      || x in t.delivered
      || (x in t.q.newRequests && (cfg.queueTimeout == 0 || now < QueueDeadline(t, cfg, x)))
      || (x in t.q.requestsByFirstTransmission && now < RequestDeadline(t, cfg, x))
  {
    var checked, t := CheckSentRequests(s, cfg, now).s, SendIteration(s, cfg, now, outcome);
    IterationKeepsCallbacks(s, cfg, now, outcome);
    CallbackInOnePlace(t, x);
    CheckIsComplete(s, cfg, clock, now);
    CheckKeepsInv(s, cfg, clock, now);
    SendKeepsDeadlines(checked, cfg, clock, outcome, x);
    assert QueueDeadline(t, cfg, x) == QueueDeadline(SendPart(checked, outcome), cfg, x);
    assert RequestDeadline(t, cfg, x) == RequestDeadline(SendPart(checked, outcome), cfg, x);
    if cfg.queueTimeout != 0 && x in checked.q.newRequests {
      assert IsQueueDeadline(checked, cfg, QueueDeadline(checked, cfg, x));
    }
    if x in checked.q.requestsByFirstTransmission {
      assert IsRequestDeadline(checked, cfg, RequestDeadline(checked, cfg, x));
    }
  }

  lemma StepKeepsFlags(m: Moment, cfg: Config, step: Step, m': Moment)
    requires Inv(m.s, m.clock) && CongestionInv(m.s.cc) && Takes(m, cfg, step, m')
    ensures FlagsKept(m.s.q, m'.s.q)
  {
    match step
    case Queue(now, idempotent) =>
      QueueKeepsFlags(m.s, m.clock, now, idempotent);
    case Iterate(now, outcome) =>
      IterationKeepsFlags(m.s, cfg, m.clock, now, outcome);
    case Receive(ref, receiveTime) =>
      ReceiveKeepsFlags(m.s, m.clock, ref, receiveTime);
  }

  lemma {:induction false} RunKeepsFlags(cfg: Config, moments: seq<Moment>, steps: seq<Step>, i: nat)
    requires SmoothRun(cfg, moments, steps) && i <= |steps|
    ensures FlagsKept(moments[i].s.q, moments[|steps|].s.q)
    decreases |steps|
  {
    if i < |steps| {
      var n := |steps| - 1;
      RunKeepsFlags(cfg, moments[..n + 1], steps[..n], i);
      SmoothRunKeepsInv(cfg, moments[..n + 1], steps[..n]);
      EveryRunKeepsCallbacks(cfg, moments[..n + 1], steps[..n]);
      StepKeepsFlags(moments[n], cfg, steps[n], moments[n + 1]);
      FlagsKeptTransitive(moments[i].s.q, moments[n].s.q, moments[n + 1].s.q);
    }
  }

  // ----- a reset of the window, and everything after it -----

  /** The check of this step comes to t, and the loss that it detects there resets the window. */
  ghost predicate ResetAt(m: Moment, cfg: Config, step: Step, t: State) {
    && step.Iterate? && m.s.tm.retransmissionTimeoutMultiplier > 0
    && Reaches(Expired(m.s, cfg, step.checkTime), CheckLimits(m.s, cfg, step.checkTime), step.checkTime, t)
    && Resets(t, CheckLimits(m.s, cfg, step.checkTime), step.checkTime)
  }

  /** Request x has a packet out, or waits for its retransmission, and nothing was sent for it since `sendCount`
      packets had been sent. */
  ghost predicate NotSentSince(q: Queues, x: nat, sendCount: nat) {
    IsSent(q, x) && At(q.requests, x).lastSeq < sendCount
  }

  lemma RunPrefix(cfg: Config, moments: seq<Moment>, steps: seq<Step>, i: nat)
    requires SmoothRun(cfg, moments, steps) && i <= |steps|
    ensures Inv(moments[i].s, moments[i].clock) && AlwaysInv(moments[i].s)
  {
    SmoothRunKeepsInv(cfg, moments[..i + 1], steps[..i]);
    EveryRunKeepsCallbacks(cfg, moments[..i + 1], steps[..i]);
  }

  /** The iteration with the reset leaves flagged whatever it does not send itself. */
  lemma ResetFlags(m: Moment, cfg: Config, step: Step, m': Moment, t: State, x: nat)
    requires Inv(m.s, m.clock) && AlwaysInv(m.s) && Takes(m, cfg, step, m')
    requires ResetAt(m, cfg, step, t) && x in t.q.requestsByLastTransmission
    requires NotSentSince(m'.s.q, x, m.s.q.sendCount)
    ensures Flagged(m'.s.q, x)
  {
    var now := step.checkTime;
    var checked := CheckSentRequests(m.s, cfg, now).s;
    ResetLastsForCheck(m.s, cfg, m.clock, now, t);
    CheckKeepsCongestion(m.s, cfg, now);
    CheckKeepsInv(m.s, cfg, m.clock, now);
    SendKeepsFlags(checked, m.clock, step.outcome);
    assert FlagsKept(checked.q, m'.s.q);
  }

  lemma ResetStaysFlagged(cfg: Config, moments: seq<Moment>, steps: seq<Step>, k: nat, t: State, x: nat)
    requires SmoothRun(cfg, moments, steps) && k < |steps|
    requires ResetAt(moments[k], cfg, steps[k], t) && x in t.q.requestsByLastTransmission
    requires NotSentSince(moments[|steps|].s.q, x, moments[k].s.q.sendCount)
    ensures Flagged(moments[|steps|].s.q, x)
  {
    RunKeepsFlags(cfg, moments, steps, k + 1);
    RunPrefix(cfg, moments, steps, k);
    StepKeepsFlags(moments[k], cfg, steps[k], moments[k + 1]);
    ResetFlags(moments[k], cfg, steps[k], moments[k + 1], t, x);
  }

  /** However long after a reset: the check of iteration k has taken the window to one because of a third adjacent
      loss, when x had a packet in flight (or was the lost one). Until x is sent again, neither a reply to it changes
      the congestion control, nor does its loss, at whatever point of a later check it is detected. */
  lemma ResetOutlastsRuns(cfg: Config, moments: seq<Moment>, steps: seq<Step>, k: nat, t: State, x: nat,
                          ref: Ref, receiveTime: Time, now: Time, u: State)
    requires SmoothRun(cfg, moments, steps) && k < |steps|
    requires ResetAt(moments[k], cfg, steps[k], t) && x in t.q.requestsByLastTransmission
    requires NotSentSince(moments[|steps|].s.q, x, moments[k].s.q.sendCount)
    ensures DetectStep(t, CheckLimits(moments[k].s, cfg, steps[k].checkTime), steps[k].checkTime)
              .value.0.cc.congestionWindow == 1
    ensures
      var s := moments[|steps|].s;
      && s.tm.retransmissionTimeoutMultiplier > 0
      && (ref in s.q.refToRequest && s.q.refToRequest[ref] == x ==> ReceivePacket(s, ref, receiveTime).cc == s.cc)
      && (&& Reaches(Expired(s, cfg, now), CheckLimits(s, cfg, now), now, u)
          && Loses(u, CheckLimits(s, cfg, now), now) && u.q.requestsByLastTransmission[0] == x
          ==> DetectStep(u, CheckLimits(s, cfg, now), now).value.0.cc == u.cc)
  {
    var m, s := moments[k], moments[|steps|].s;
    ResetStaysFlagged(cfg, moments, steps, k, t, x);
    RunPrefix(cfg, moments, steps, k);
    RunPrefix(cfg, moments, steps, |steps|);
    ExpiredKeepsAll(m.s, cfg, m.clock, steps[k].checkTime);
    ReachedKeepsInv(Expired(m.s, cfg, steps[k].checkTime), CheckLimits(m.s, cfg, steps[k].checkTime), m.clock,
                    steps[k].checkTime, t);
    ResetFlagsAll(t, CheckLimits(m.s, cfg, steps[k].checkTime), steps[k].checkTime);
    ReceiveKeepsCongestion(s, ref, receiveTime);
    if && Reaches(Expired(s, cfg, now), CheckLimits(s, cfg, now), now, u)
       && Loses(u, CheckLimits(s, cfg, now), now) && u.q.requestsByLastTransmission[0] == x {
      FlaggedLossIsIgnored(s, cfg, moments[|steps|].clock, now, u);
    }
  }
}
