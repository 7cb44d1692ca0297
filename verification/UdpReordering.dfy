/**
 How wide the reordering window becomes. Its multiplier is meant to be at most four, so that the window is at most the
 smoothed round-trip time.
 */
module UdpReordering {
  import opened UdpArithmetic
  import opened UdpState
  import opened UdpDeadlines
  import opened UdpRuns

  /** What a run has shown since the last reset of the estimates: whether packets were reordered, how many spurious
      retransmissions there were after that, and how many retransmissions were answered since the last one of them.
      Sixteen of these let the spurious ones be forgotten. */
  datatype Reordering = Reordering(seen: bool, spurious: nat, calm: nat)

  const NO_REORDERING: Reordering := Reordering(false, 0, 0)

  const CALM_LIMIT: nat := 16

  /** One reply. It is late if a packet that was sent later had been answered before, and spurious was the
      retransmission if the reply is to an earlier packet of its request. */
  function AfterReply(h: Reordering, late: bool, spurious: bool, retransmitted: bool): Reordering {
    var seen := h.seen || late;
    if spurious && seen then Reordering(seen, h.spurious + 1, 0)
    else if !spurious && retransmitted && h.spurious > 0 then
      if h.calm + 1 == CALM_LIMIT then Reordering(seen, 0, 0) else Reordering(seen, h.spurious, h.calm + 1)
    else Reordering(seen, h.spurious, h.calm)
  }

  ghost function ReorderingAfter(s: State, cfg: Config, step: Step, h: Reordering): Reordering {
    match step
    case Queue(_, _) => h
    case Iterate(now, _) => if ExpiryResets(ExpireQueued(s, cfg, now), cfg, now) then NO_REORDERING else h
    case Receive(ref, _) =>
      if ref in s.q.refToRequest && ref in At(s.q.requests, s.q.refToRequest[ref]).sendTime then
        var r := At(s.q.requests, s.q.refToRequest[ref]);
        AfterReply(h, LastReceivedValid(s.tm) && RefGreaterThan(s.tm.lastReceivedRef, ref), ref != r.lastRef,
                   r.firstSendTime != r.lastSendTime)
      else h
  }

  ghost function History(cfg: Config, moments: seq<Moment>, steps: seq<Step>, n: nat): Reordering
    requires n <= |steps| < |moments|
  {
    if n == 0 then NO_REORDERING
    else ReorderingAfter(moments[n - 1].s, cfg, steps[n - 1], History(cfg, moments, steps, n - 1))
  }

  /** The multiplier is three more than the number of spurious retransmissions that are remembered. */
  predicate Counts(tm: Timing, h: Reordering) {
    if h.spurious > 0 then
      && h.seen && h.calm < CALM_LIMIT
      && tm.reorderingWindowMultiplier == 3 + h.spurious
      && tm.reorderingWindowMultiplierResetCounter == CALM_LIMIT - h.calm
    else h.calm == 0 && tm.reorderingWindowMultiplier == if h.seen then 1 else 0
  }

  lemma ReplyCounts(tm: Timing, r: Request, ref: Ref, sent: Sent, roundTripTime: int, h: Reordering)
    requires Counts(tm, h)
    ensures Counts(AdjustReordering(RecordAnswer(tm, ref, sent, roundTripTime), r, ref),
                   AfterReply(h, LastReceivedValid(tm) && RefGreaterThan(tm.lastReceivedRef, ref), ref != r.lastRef,
                              r.firstSendTime != r.lastSendTime))
  {
  }

  lemma {:induction false} ExpiryCounts(s: State, cfg: Config, now: Time, h: Reordering)
    requires Counts(s.tm, h)
    ensures Counts(ExpireSent(s, cfg, now).tm, if ExpiryResets(s, cfg, now) then NO_REORDERING else h)
    decreases |s.q.requestsByFirstTransmission|
  {
    if s.q.requestsByFirstTransmission != []
       && RequestDeadline(s, cfg, s.q.requestsByFirstTransmission[0]) <= now {
      if Offline(s) {
        ExpiryCounts(ExpireFirst(s), cfg, now, NO_REORDERING);
      } else {
        ExpiryCounts(ExpireFirst(s), cfg, now, h);
      }
    }
  }

  lemma IterationCounts(s: State, cfg: Config, now: Time, outcome: Outcome, h: Reordering)
    requires s.tm.retransmissionTimeoutMultiplier > 0 && Counts(s.tm, h)
    ensures Counts(SendIteration(s, cfg, now, outcome).tm, ReorderingAfter(s, cfg, Iterate(now, outcome), h))
  {
    var checked := CheckSentRequests(s, cfg, now).s;
    ExpireQueuedKeepsTiming(s, cfg, now);
    ExpiryCounts(ExpireQueued(s, cfg, now), cfg, now, h);
    ExpiredKeepsMultiplier(s, cfg, now);
    DetectKeepsQueue(Expired(s, cfg, now), LimitsOf(Expired(s, cfg, now), cfg), now, false);
    assert SendPart(checked, outcome).tm == checked.tm;
  }

  lemma ReceiveCounts(s: State, ref: Ref, receiveTime: Time, h: Reordering)
    requires Counts(s.tm, h)
    ensures Counts(ReceivePacket(s, ref, receiveTime).tm,
                   ReorderingAfter(s, Config(0, 0), Receive(ref, receiveTime), h))
  {
    if ref in s.q.refToRequest && ref in At(s.q.requests, s.q.refToRequest[ref]).sendTime {
      var r := At(s.q.requests, s.q.refToRequest[ref]);
      var roundTripTime := receiveTime - r.sendTime[ref].time;
      var tm := s.tm.(retransmissionTimeoutMultiplier := 1,
                      estimate := UpdateRoundTripTime(s.tm.estimate, roundTripTime,
                                                      |s.q.requestsByFirstTransmission|));
      ReplyCounts(tm, r, ref, r.sendTime[ref], roundTripTime, h);
    }
  }

  lemma StepCounts(m: Moment, cfg: Config, step: Step, m': Moment, h: Reordering)
    requires Takes(m, cfg, step, m') && Counts(m.s.tm, h)
    ensures Counts(m'.s.tm, ReorderingAfter(m.s, cfg, step, h))
  {
    match step
    case Queue(_, _) =>
    case Iterate(now, outcome) =>
      IterationCounts(m.s, cfg, now, outcome, h);
    case Receive(ref, receiveTime) =>
      ReceiveCounts(m.s, ref, receiveTime, h);
  }

  lemma {:induction false} HistoryCounts(cfg: Config, moments: seq<Moment>, steps: seq<Step>, n: nat)
    requires IsRun(cfg, moments, steps) && n <= |steps|
    ensures Counts(moments[n].s.tm, History(cfg, moments, steps, n))
  {
    if n > 0 {
      HistoryCounts(cfg, moments, steps, n - 1);
      StepCounts(moments[n - 1], cfg, steps[n - 1], moments[n], History(cfg, moments, steps, n - 1));
    }
  }

  /** In every run: the multiplier exceeds four if and only if at least two spurious retransmissions are remembered. It
      grows by one with each, without any limit. */
  lemma ExceedsFourAfterTwo(cfg: Config, moments: seq<Moment>, steps: seq<Step>)
    requires IsRun(cfg, moments, steps)
    ensures
      var multiplier := moments[|steps|].s.tm.reorderingWindowMultiplier;
      var h := History(cfg, moments, steps, |steps|);
      && (multiplier > 4 <==> h.spurious >= 2)
      && multiplier == (if h.spurious > 0 then 3 + h.spurious else if h.seen then 1 else 0)
  {
    HistoryCounts(cfg, moments, steps, |steps|);
  }
}
