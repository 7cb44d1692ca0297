/** Runs of the UDP client in which the code departs from its own comments. */
module UdpTimingExamples {
  import opened Common
  import opened UdpArithmetic
  import opened UdpState
  import opened UdpInvariants
  import opened UdpDeadlines
  import opened UdpRuns
  import opened UdpDropped
  import opened UdpExamples

  // ----- a request that has timed out is dropped before its retransmission timeout -----

  const MILLISECOND: Time := SECOND / 1000

  const SHORT: Config := Config(0, 50 * MILLISECOND)

  const SHORT_STEPS: seq<Step> := [Queue(1, false), Iterate(1, Sends(1))]

  function ShortMoments(): seq<Moment> {
    [Moment(InitialState(), 0), Moment(QueuedState(), 1), Moment(SentState(), 1)]
  }

  lemma ShortIsRun()
    ensures IsRun(SHORT, ShortMoments(), SHORT_STEPS)
  {
    var s := QueuedState();
    assert CheckSentRequests(s, SHORT, 1).s == s;
    assert SendPart(s, Sends(1)).q.requests == map[0 := SENT_WRITE];
    ExampleIsQueued();
    forall i | 0 <= i < |SHORT_STEPS|
      ensures Takes(ShortMoments()[i], SHORT, SHORT_STEPS[i], ShortMoments()[i + 1])
    {
    }
  }

  /** The request timeout is 50 ms and the retransmission timeout 100 ms. A check between the two drops the request, so
      a late response finds nothing. */
  lemma DroppedBeforeTimeout(now: Time)
    requires 1 + 50 * MILLISECOND <= now < 1 + 100 * MILLISECOND
    ensures
      var moments := ShortMoments();
      var s := moments[2].s;
      && IsRun(SHORT, moments, SHORT_STEPS)
      && IsSent(s.q, 0) && s.tm.retransmissionTimeoutMultiplier > 0
      && now < RtoDeadline(Expired(s, SHORT, now), CheckLimits(s, SHORT, now), 0)
      && !IsSent(CheckSentRequests(s, SHORT, now).s.q, 0)
  {
    ShortIsRun();
    SettledIsDropped(SHORT, ShortMoments(), SHORT_STEPS, now, 0);
  }

  // ----- the multiplier of the reordering window exceeds four -----

  const RESENT_STEPS: seq<Step> := [
    Queue(1, false),
    Iterate(1, Sends(1)),
    Iterate(2 * SECOND, Sends(2 * SECOND)),
    Iterate(4 * SECOND, Sends(4 * SECOND)),
    Iterate(8 * SECOND, Sends(8 * SECOND))]

  const SENT_TWICE: Request :=
    SENT_WRITE.(retransmitTime := 1 + SECOND, lastRef := 1, lastSeq := 1, lastSendTime := 2 * SECOND,
                sendTime := map[0 := Sent(1, 0), 1 := Sent(2 * SECOND, 1)])

  const SENT_THREE_TIMES: Request :=
    SENT_TWICE.(retransmitTime := 4 * SECOND, lastRef := 2, lastSeq := 2, lastSendTime := 4 * SECOND,
                sendTime := map[0 := Sent(1, 0), 1 := Sent(2 * SECOND, 1), 2 := Sent(4 * SECOND, 2)])

  const SENT_FOUR_TIMES: Request :=
    SENT_THREE_TIMES.(retransmitTime := 8 * SECOND, lastRef := 3, lastSeq := 3, lastSendTime := 8 * SECOND,
                      sendTime := map[0 := Sent(1, 0), 1 := Sent(2 * SECOND, 1), 2 := Sent(4 * SECOND, 2),
                                      3 := Sent(8 * SECOND, 3)])

  /** The request has been sent again; n packets have been sent for it. */
  function SentAgain(r: Request, refs: map<Ref, nat>, n: nat, cc: Congestion, multiplier: int): State
    requires n < REF_COUNT
  {
    InitialState().(q := Queues(map[0 := r], 1, [], [0], [0], [], refs, n, n),
                    cc := cc,
                    tm := InitialState().tm.(retransmissionTimeoutMultiplier := multiplier))
  }

  /** The request after the loss of its last packet and a retransmission. */
  function Resent(r: Request, rto: int, n: nat, now: Time): Request
    requires n < REF_COUNT
  {
    r.(retransmitTime := r.lastSendTime + rto, lastRef := n, lastSeq := n, lastSendTime := now,
       packetsInFlightWhenSent := 1, sendTime := r.sendTime[n := Sent(now, n)])
  }

  lemma LosesOnly(s: State, l: Limits, now: Time)
    requires s.q.requestsByLastTransmission == [0] && RtoDeadline(s, l, 0) <= now
    requires !At(s.q.requests, 0).successOrTimeout
    ensures DetectLosses(s, l, now, false) == (LoseFirst(s, RtoDeadline(s, l, 0)), true)
  {
    var lost := LoseFirst(s, RtoDeadline(s, l, 0));
    assert DetectStep(s, l, now) == Some((lost, true));
    DetectStepShrinks(s, l, now);
    assert DetectStep(lost, l, now) == None;
  }

  /** The state after the loss of the only request. */
  function Lost(r: Request, deadline: Time, refs: map<Ref, nat>, n: nat, cc: Congestion, multiplier: int): State
    requires n < REF_COUNT
  {
    var lost := r.(retransmitTime := deadline, congestionWindowResetAfterSent := ResetsWindow(cc, r));
    InitialState().(q := Queues(map[0 := lost], 1, [], [0], [], [0], refs, n, n),
                    cc := ShrinkWindow(cc, r),
                    tm := InitialState().tm.(retransmissionTimeoutMultiplier := multiplier))
  }

  lemma LosesFirst(r: Request, deadline: Time, refs: map<Ref, nat>, n: nat, cc: Congestion, multiplier: int)
    requires n < REF_COUNT && !r.congestionWindowResetAfterSent
    ensures LoseFirst(SentAgain(r, refs, n, cc, multiplier), deadline) == Lost(r, deadline, refs, n, cc, multiplier)
  {
    var lost := LoseFirst(SentAgain(r, refs, n, cc, multiplier), deadline);
    assert lost.q.requests == Lost(r, deadline, refs, n, cc, multiplier).q.requests;
  }

  lemma CheckLoses(r: Request, refs: map<Ref, nat>, n: nat, cc: Congestion, multiplier: int, rto: int, now: Time)
    requires n < REF_COUNT && multiplier > 0 && !r.successOrTimeout && !r.congestionWindowResetAfterSent
    requires rto == RetransmissionTimeout(EXAMPLE.requestTimeout, 0, 0, multiplier)
    requires r.lastSendTime + rto <= now < r.firstSendTime + EXAMPLE.requestTimeout
    ensures CheckSentRequests(SentAgain(r, refs, n, cc, multiplier), EXAMPLE, now).s
            == Lost(r, r.lastSendTime + rto, refs, n, cc, Backoff(multiplier))
  {
    var s := SentAgain(r, refs, n, cc, multiplier);
    assert Expired(s, EXAMPLE, now) == s;
    LosesOnly(s, LimitsOf(s, EXAMPLE), now);
    LosesFirst(r, r.lastSendTime + rto, refs, n, cc, multiplier);
  }

  /** The only request is lost and sent again in the same iteration. */
  lemma GoesOutAgain(r: Request, refs: map<Ref, nat>, n: nat, cc: Congestion, multiplier: int, rto: int, now: Time)
    requires n + 1 < REF_COUNT && multiplier > 0 && !r.successOrTimeout && !r.congestionWindowResetAfterSent
    requires n !in r.sendTime && n !in refs && 0 in r.sendTime
    requires rto == RetransmissionTimeout(EXAMPLE.requestTimeout, 0, 0, multiplier)
    requires r.lastSendTime + rto <= now < r.firstSendTime + EXAMPLE.requestTimeout
    ensures
      SendIteration(SentAgain(r, refs, n, cc, multiplier), EXAMPLE, now, Sends(now))
      == SentAgain(Resent(r, rto, n, now), refs[n := 0], n + 1, ShrinkWindow(cc, r), Backoff(multiplier))
  {
    CheckLoses(r, refs, n, cc, multiplier, rto, now);
    LostGoesOut(SentAgain(r, refs, n, cc, multiplier), r, rto, refs, n, cc, Backoff(multiplier), now);
  }

  lemma LostGoesOut(s: State, r: Request, rto: int, refs: map<Ref, nat>, n: nat, cc: Congestion, multiplier: int,
                    now: Time)
    requires n + 1 < REF_COUNT && !r.successOrTimeout && n !in r.sendTime && n !in refs && 0 in r.sendTime
    requires s.tm.retransmissionTimeoutMultiplier > 0 && !r.congestionWindowResetAfterSent
    requires CheckSentRequests(s, EXAMPLE, now).s == Lost(r, r.lastSendTime + rto, refs, n, cc, multiplier)
    ensures SendIteration(s, EXAMPLE, now, Sends(now))
            == SentAgain(Resent(r, rto, n, now), refs[n := 0], n + 1, ShrinkWindow(cc, r), multiplier)
  {
    var lost := Lost(r, r.lastSendTime + rto, refs, n, cc, multiplier);
    LaunchesAgain(lost.q, At(lost.q.requests, 0), refs, n, now);
  }

  lemma LaunchesAgain(q: Queues, r: Request, refs: map<Ref, nat>, n: nat, now: Time)
    requires n + 1 < REF_COUNT && n !in r.sendTime && n !in refs && 0 in r.sendTime
    requires q == Queues(map[0 := r], 1, [], [0], [], [0], refs, n, n)
    ensures
      var r' := r.(lastRef := n, lastSeq := n, lastSendTime := now, congestionWindowResetAfterSent := false,
                   packetsInFlightWhenSent := 1, sendTime := r.sendTime[n := Sent(now, n)]);
      TrySendRequest(q, 0, Sends(now)) == Queues(map[0 := r'], 1, [], [0], [0], [0], refs[n := 0], n + 1, n + 1)
  {
    var t := TrySendRequest(q, 0, Sends(now));
    assert t.requests == map[0 := RecordSend(r, q, now)];
  }

  function SentTwice(): State {
    SentAgain(SENT_TWICE, map[0 := 0, 1 := 0], 2, Congestion(3, 0, 1, 0, 2), 2)
  }

  function SentThreeTimes(): State {
    SentAgain(SENT_THREE_TIMES, map[0 := 0, 1 := 0, 2 := 0], 3, Congestion(2, 0, 2, 0, 2), 4)
  }

  function SentFourTimes(): State {
    SentAgain(SENT_FOUR_TIMES, map[0 := 0, 1 := 0, 2 := 0, 3 := 0], 4, Congestion(1, 0, 0, 0, 2), 8)
  }

  lemma SecondTime()
    ensures SendIteration(SentState(), EXAMPLE, 2 * SECOND, Sends(2 * SECOND)) == SentTwice()
  {
    var refs: map<Ref, nat> := map[0 := 0];
    GoesOutAgain(SENT_WRITE, refs, 1, InitialState().cc, 1, SECOND, 2 * SECOND);
    assert Resent(SENT_WRITE, SECOND, 1, 2 * SECOND) == SENT_TWICE by {
      assert SENT_WRITE.sendTime[1 := Sent(2 * SECOND, 1)] == SENT_TWICE.sendTime;
    }
    assert refs[1 := 0] == map[0 := 0, 1 := 0];
    assert ShrinkWindow(InitialState().cc, SENT_WRITE) == Congestion(3, 0, 1, 0, 2);
  }

  lemma ThirdTime()
    ensures SendIteration(SentTwice(), EXAMPLE, 4 * SECOND, Sends(4 * SECOND)) == SentThreeTimes()
  {
    var refs: map<Ref, nat> := map[0 := 0, 1 := 0];
    GoesOutAgain(SENT_TWICE, refs, 2, Congestion(3, 0, 1, 0, 2), 2, 2 * SECOND, 4 * SECOND);
    assert Resent(SENT_TWICE, 2 * SECOND, 2, 4 * SECOND) == SENT_THREE_TIMES by {
      assert SENT_TWICE.sendTime[2 := Sent(4 * SECOND, 2)] == SENT_THREE_TIMES.sendTime;
    }
    assert refs[2 := 0] == map[0 := 0, 1 := 0, 2 := 0];
  }

  lemma FourthTime()
    ensures SendIteration(SentThreeTimes(), EXAMPLE, 8 * SECOND, Sends(8 * SECOND)) == SentFourTimes()
  {
    var refs: map<Ref, nat> := map[0 := 0, 1 := 0, 2 := 0];
    GoesOutAgain(SENT_THREE_TIMES, refs, 3, Congestion(2, 0, 2, 0, 2), 4, 4 * SECOND, 8 * SECOND);
    assert Resent(SENT_THREE_TIMES, 4 * SECOND, 3, 8 * SECOND) == SENT_FOUR_TIMES by {
      assert SENT_THREE_TIMES.sendTime[3 := Sent(8 * SECOND, 3)] == SENT_FOUR_TIMES.sendTime;
    }
    assert refs[3 := 0] == map[0 := 0, 1 := 0, 2 := 0, 3 := 0];
  }

  /** A reply to an earlier packet of the only request. */
  lemma RepliesToEarlier(s: State, ref: Ref, receiveTime: Time)
    requires s.q.refToRequest.Keys == At(s.q.requests, 0).sendTime.Keys
    requires ref in s.q.refToRequest && s.q.refToRequest[ref] == 0
    requires ref != At(s.q.requests, 0).lastRef && !At(s.q.requests, 0).idempotent
    ensures
      var t := ReceivePacket(s, ref, receiveTime);
      var late := LastReceivedValid(s.tm) && RefGreaterThan(s.tm.lastReceivedRef, ref);
      var multiplier := if late then Max(s.tm.reorderingWindowMultiplier, 1) else s.tm.reorderingWindowMultiplier;
      && t.q.refToRequest == s.q.refToRequest - {ref}
      && At(t.q.requests, 0) == At(s.q.requests, 0).(sendTime := At(s.q.requests, 0).sendTime - {ref})
      && t.tm.reorderingWindowMultiplier == (if multiplier == 0 then 0 else Max(multiplier + 1, 4))
      && t.tm.lastReceivedRef == (if late then s.tm.lastReceivedRef else ref)
      && t.tm.lastReceivedSendTime
         == (if late then s.tm.lastReceivedSendTime else At(s.q.requests, 0).sendTime[ref].time)
  {
  }

  function ResentMoments(): seq<Moment> {
    [Moment(InitialState(), 0), Moment(QueuedState(), 1), Moment(SentState(), 1), Moment(SentTwice(), 2 * SECOND),
     Moment(SentThreeTimes(), 4 * SECOND), Moment(SentFourTimes(), 8 * SECOND)]
  }

  lemma ResentStarts(i: nat)
    requires i < 2
    ensures Takes(ResentMoments()[i], EXAMPLE, RESENT_STEPS[i], ResentMoments()[i + 1])
  {
    match i
    case 0 => ExampleIsQueued();
    case _ => ExampleIsSent();
  }

  lemma ResentGoesOn(i: nat)
    requires 2 <= i < 5
    ensures Takes(ResentMoments()[i], EXAMPLE, RESENT_STEPS[i], ResentMoments()[i + 1])
  {
    match i
    case 2 => SecondTime();
    case 3 => ThirdTime();
    case _ => FourthTime();
  }

  lemma ResentIsRun()
    ensures IsRun(EXAMPLE, ResentMoments(), RESENT_STEPS)
  {
    forall i | 0 <= i < |RESENT_STEPS|
      ensures Takes(ResentMoments()[i], EXAMPLE, RESENT_STEPS[i], ResentMoments()[i + 1])
    {
      if i < 2 { ResentStarts(i); } else { ResentGoesOn(i); }
    }
  }

  /** A run goes on with a packet that arrives. */
  lemma ThenReceives(moments: seq<Moment>, steps: seq<Step>, ref: Ref, receiveTime: Time)
    returns (moments': seq<Moment>, steps': seq<Step>)
    requires IsRun(EXAMPLE, moments, steps)
    ensures IsRun(EXAMPLE, moments', steps') && steps' == steps + [Receive(ref, receiveTime)]
    ensures moments'[|steps'|].s == ReceivePacket(moments[|steps|].s, ref, receiveTime)
  {
    var m := moments[|steps|];
    var m' := Moment(ReceivePacket(m.s, ref, receiveTime), m.clock);
    moments', steps' := moments + [m'], steps + [Receive(ref, receiveTime)];
    assert Takes(m, EXAMPLE, Receive(ref, receiveTime), m');
  }

  lemma ThenThreeReplies(moments: seq<Moment>, steps: seq<Step>, s: State)
    returns (moments': seq<Moment>, steps': seq<Step>)
    requires IsRun(EXAMPLE, moments, steps) && moments[|steps|].s == s
    ensures IsRun(EXAMPLE, moments', steps')
    ensures steps' == steps + [Receive(1, 9 * SECOND), Receive(0, 9 * SECOND), Receive(2, 9 * SECOND)]
    ensures moments'[|steps'|].s
            == ReceivePacket(ReceivePacket(ReceivePacket(s, 1, 9 * SECOND), 0, 9 * SECOND), 2, 9 * SECOND)
  {
    moments', steps' := ThenReceives(moments, steps, 1, 9 * SECOND);
    moments', steps' := ThenReceives(moments', steps', 0, 9 * SECOND);
    moments', steps' := ThenReceives(moments', steps', 2, 9 * SECOND);
  }

  lemma SpuriousReplies(s: State)
    requires s == SentFourTimes()
    ensures
      ReceivePacket(ReceivePacket(ReceivePacket(s, 1, 9 * SECOND), 0, 9 * SECOND), 2, 9 * SECOND)
        .tm.reorderingWindowMultiplier == 5
  {
    var s1 := ReceivePacket(s, 1, 9 * SECOND);
    RepliesToEarlier(s, 1, 9 * SECOND);
    var s2 := ReceivePacket(s1, 0, 9 * SECOND);
    RepliesToEarlier(s1, 0, 9 * SECOND);
    RepliesToEarlier(s2, 2, 9 * SECOND);
  }

  /** A write is sent four times. The replies to the second, the first and the third packet come in this order, and the
      window becomes wider than the smoothed round-trip time. */
  lemma MultiplierExceedsFour() returns (moments: seq<Moment>, steps: seq<Step>)
    ensures IsRun(EXAMPLE, moments, steps)
    ensures steps == RESENT_STEPS + [Receive(1, 9 * SECOND), Receive(0, 9 * SECOND), Receive(2, 9 * SECOND)]
    ensures moments[|steps|].s.tm.reorderingWindowMultiplier == 5
  {
    ResentIsRun();
    SpuriousReplies(SentFourTimes());
    moments, steps := ThenThreeReplies(ResentMoments(), RESENT_STEPS, SentFourTimes());
  }
}
