/** Runs of the UDP client that reach the states in which a property fails. */
module UdpExamples {
  import opened Common
  import opened UdpArithmetic
  import opened UdpState
  import opened UdpContainers
  import opened UdpInvariants
  import opened UdpRuns
  import opened UdpRefusedSend
  import opened UdpOverlooked

  // ----- a retransmission is refused -----

  const EXAMPLE: Config := Config(0, 10 * TICKS_PER_SECOND)

  const EXAMPLE_STEPS: seq<Step> := [
    Queue(1, false),
    Iterate(1, Sends(1)),
    Iterate(2 * TICKS_PER_SECOND, Again),
    Receive(0, 2 * TICKS_PER_SECOND),
    Iterate(3 * TICKS_PER_SECOND, Sends(3 * TICKS_PER_SECOND))]

  const NEW_WRITE: Request := NO_REQUEST.(callback := Some(0), queueTime := 1)

  const SENT_WRITE: Request :=
    NEW_WRITE.(firstSendTime := 1, lastSendTime := 1, packetsInFlightWhenSent := 1, sendTime := map[0 := Sent(1, 0)])

  const REFUSED_WRITE: Request := SENT_WRITE.(retransmitTime := 1 + TICKS_PER_SECOND, lastRef := 1)

  const ANSWERED_WRITE: Request := REFUSED_WRITE.(sendTime := map[])

  const RESTARTED_WRITE: Request :=
    ANSWERED_WRITE.(lastRef := 1, lastSeq := 1, firstSendTime := 3 * TICKS_PER_SECOND,
                    lastSendTime := 3 * TICKS_PER_SECOND, sendTime := map[1 := Sent(3 * TICKS_PER_SECOND, 1)])

  function QueuedState(): State {
    InitialState().(q := Queues(map[0 := NEW_WRITE], 1, [0], [], [], [], map[], 0, 0))
  }

  function SentState(): State {
    InitialState().(q := Queues(map[0 := SENT_WRITE], 1, [], [0], [0], [], map[0 := 0], 1, 1))
  }

  /** The packet is lost, and its retransmission refused. */
  function RefusedState(): State {
    InitialState().(q := Queues(map[0 := REFUSED_WRITE], 1, [], [0], [], [0], map[0 := 0], 1, 1),
                    cc := Congestion(3, 0, 1, 0, 2),
                    tm := InitialState().tm.(retransmissionTimeoutMultiplier := 2))
  }

  /** The reply to the packet has come after all; nobody was told. */
  function AnsweredState(): State {
    RefusedState().(q := Queues(map[0 := ANSWERED_WRITE], 1, [], [0], [], [0], map[], 1, 1),
                    tm := Timing(0, 2 * TICKS_PER_SECOND - 1, 1, 0, {0}, 0, 0, 1,
                                 Estimate(2 * TICKS_PER_SECOND - 1, TICKS_PER_SECOND - 1)))
  }

  /** The write has been sent a second time, as a new request. */
  function RestartedState(): State {
    AnsweredState().(q := Queues(map[0 := RESTARTED_WRITE], 1, [], [0, 0], [0], [], map[1 := 0], 2, 2))
  }

  lemma ExampleIsSent()
    ensures SendIteration(QueuedState(), EXAMPLE, 1, Sends(1)) == SentState()
  {
    var s := QueuedState();
    assert CheckSentRequests(s, EXAMPLE, 1).s == s;
    assert SendPart(s, Sends(1)).q.requests == map[0 := SENT_WRITE];
  }

  lemma ExampleIsRefused()
    ensures SendIteration(SentState(), EXAMPLE, 2 * TICKS_PER_SECOND, Again) == RefusedState()
  {
    var s := SentState();
    var now := 2 * TICKS_PER_SECOND;
    assert Expired(s, EXAMPLE, now) == s;
    var l := LimitsOf(s, EXAMPLE);
    assert l == Limits(TICKS_PER_SECOND, 0);
    var lost := LoseFirst(s, 1 + TICKS_PER_SECOND);
    assert DetectStep(s, l, now) == Some((lost, true));
    DetectStepShrinks(s, l, now);
    assert DetectStep(lost, l, now) == None;
    assert lost.q.requests == map[0 := SENT_WRITE.(retransmitTime := 1 + TICKS_PER_SECOND)];
    assert SendPart(BackOff(lost, true), Again).q.requests == map[0 := REFUSED_WRITE];
  }

  lemma ExampleIsAnswered()
    ensures ReceivePacket(RefusedState(), 0, 2 * TICKS_PER_SECOND) == AnsweredState()
  {
    var t := Answer(RefusedState(), 0, 2 * TICKS_PER_SECOND);
    assert SENT_WRITE.sendTime - {0} == map[];
    assert t.q.requests == map[0 := ANSWERED_WRITE];
    assert t.q.refToRequest == map[];
  }

  lemma ExampleStartsOver()
    ensures SendIteration(AnsweredState(), EXAMPLE, 3 * TICKS_PER_SECOND, Sends(3 * TICKS_PER_SECOND))
            == RestartedState()
  {
    var s := AnsweredState();
    assert CheckSentRequests(s, EXAMPLE, 3 * TICKS_PER_SECOND).s == s;
    var t := SendPart(s, Sends(3 * TICKS_PER_SECOND));
    InsertAppends(map[0 := RESTARTED_WRITE], ByFirstSend, [0], 0);
    assert t.q.requests == map[0 := RESTARTED_WRITE];
    assert t.q.refToRequest == map[1 := 0];
  }

  function ExampleMoments(): seq<Moment> {
    [Moment(InitialState(), 0), Moment(QueuedState(), 1), Moment(SentState(), 1),
     Moment(RefusedState(), 2 * TICKS_PER_SECOND), Moment(AnsweredState(), 2 * TICKS_PER_SECOND),
     Moment(RestartedState(), 3 * TICKS_PER_SECOND)]
  }

  lemma ExampleIsQueued()
    ensures QueueRequest(InitialState(), 1, false) == QueuedState()
  {
  }

  lemma ExampleTakes(i: nat)
    requires i < |EXAMPLE_STEPS|
    ensures Takes(ExampleMoments()[i], EXAMPLE, EXAMPLE_STEPS[i], ExampleMoments()[i + 1])
  {
    match i
    case 0 => ExampleIsQueued();
    case 1 => ExampleIsSent();
    case 2 => ExampleIsRefused();
    case 3 => ExampleIsAnswered();
    case _ => ExampleStartsOver();
  }

  lemma ExampleIsRun()
    ensures IsRun(EXAMPLE, ExampleMoments(), EXAMPLE_STEPS)
  {
    forall i | 0 <= i < |EXAMPLE_STEPS|
      ensures Takes(ExampleMoments()[i], EXAMPLE, EXAMPLE_STEPS[i], ExampleMoments()[i + 1])
    {
      ExampleTakes(i);
    }
  }

  lemma ExampleRefuses()
    ensures RefusedAt(ExampleMoments()[2], EXAMPLE, EXAMPLE_STEPS[2], 0)
  {
    var s := SentState();
    var now := 2 * TICKS_PER_SECOND;
    assert Expired(s, EXAMPLE, now) == s;
    var l := LimitsOf(s, EXAMPLE);
    var lost := LoseFirst(s, 1 + TICKS_PER_SECOND);
    assert DetectStep(s, l, now) == Some((lost, true));
    DetectStepShrinks(s, l, now);
    assert DetectStep(lost, l, now) == None;
    assert CheckSentRequests(s, EXAMPLE, now).s == BackOff(lost, true);
  }

  /** A write is queued and sent, the packet seems lost, and its retransmission is refused. Then the reply to the packet
      comes, but it is not taken as the success of the write. The write is sent again instead: it is in the set of
      watched requests twice, and its timeout has started over. */
  lemma RefusedWriteIsSentAsNew()
    ensures
      var moments := ExampleMoments();
      && IsRun(EXAMPLE, moments, EXAMPLE_STEPS)
      && RefusedAt(moments[2], EXAMPLE, EXAMPLE_STEPS[2], 0)
      && EXAMPLE_STEPS[3].Receive? && moments[3].s.q.refToRequest == map[EXAMPLE_STEPS[3].ref := 0]
      && moments[5].s.delivered == []
      && moments[5].s.q.requestsByFirstTransmission == [0, 0]
      && At(moments[5].s.q.requests, 0).firstSendTime == moments[5].clock > At(moments[2].s.q.requests, 0).firstSendTime
  {
    ExampleIsRun();
    ExampleRefuses();
  }

  // ----- two requests are sent at the same time -----

  const TWIN_STEPS: seq<Step> := [Queue(1, false), Queue(1, false), Iterate(1, Sends(1)), Iterate(1, Sends(1))]

  const OTHER_WRITE: Request := NEW_WRITE.(callback := Some(1))

  const OTHER_SENT: Request :=
    OTHER_WRITE.(firstSendTime := 1, lastSendTime := 1, lastRef := 1, lastSeq := 1, packetsInFlightWhenSent := 2,
                 sendTime := map[1 := Sent(1, 1)])

  function BothQueuedState(): State {
    InitialState().(q := Queues(map[0 := NEW_WRITE, 1 := OTHER_WRITE], 2, [0, 1], [], [], [], map[], 0, 0))
  }

  function OneSentState(): State {
    InitialState().(q := Queues(map[0 := SENT_WRITE, 1 := OTHER_WRITE], 2, [1], [0], [0], [], map[0 := 0], 1, 1))
  }

  function BothSentState(): State {
    InitialState().(q := Queues(map[0 := SENT_WRITE, 1 := OTHER_SENT], 2, [], [0, 1], [0, 1], [],
                                map[0 := 0, 1 := 1], 2, 2))
  }

  lemma TwinIsQueued()
    ensures QueueRequest(QueuedState(), 1, false) == BothQueuedState()
  {
  }

  lemma TwinIsSent()
    ensures SendIteration(BothQueuedState(), EXAMPLE, 1, Sends(1)) == OneSentState()
  {
    var s := BothQueuedState();
    assert CheckSentRequests(s, EXAMPLE, 1).s == s;
    assert SendPart(s, Sends(1)).q.requests == map[0 := SENT_WRITE, 1 := OTHER_WRITE];
  }

  lemma OtherTwinIsSent()
    ensures SendIteration(OneSentState(), EXAMPLE, 1, Sends(1)) == BothSentState()
  {
    var s := OneSentState();
    assert CheckSentRequests(s, EXAMPLE, 1).s == s;
    var heap := map[0 := SENT_WRITE, 1 := OTHER_SENT];
    InsertAppends(heap, ByFirstSend, [0], 1);
    InsertAppends(heap, ByLastSend, [0], 1);
    assert SendPart(s, Sends(1)).q.requests == heap;
  }

  function TwinMoments(): seq<Moment> {
    [Moment(InitialState(), 0), Moment(QueuedState(), 1), Moment(BothQueuedState(), 1), Moment(OneSentState(), 1),
     Moment(BothSentState(), 1)]
  }

  lemma TwinsAreRun()
    ensures IsRun(EXAMPLE, TwinMoments(), TWIN_STEPS)
  {
    forall i | 0 <= i < |TWIN_STEPS|
      ensures Takes(TwinMoments()[i], EXAMPLE, TWIN_STEPS[i], TwinMoments()[i + 1])
    {
      match i
      case 0 => ExampleIsQueued();
      case 1 => TwinIsQueued();
      case 2 => TwinIsSent();
      case _ => OtherTwinIsSent();
    }
  }

  /** Two writes are sent at the same time. A search for the first one may return the second one, which is equal in
      both orders; the removal then leaves the first one in both sets. */
  lemma SearchMayPassRequest()
    ensures
      var moments := TwinMoments();
      var q := moments[4].s.q;
      && IsRun(EXAMPLE, moments, TWIN_STEPS)
      && FindsAll(q, 0, Found(1, 1, 0))
      && RemoveFrom(q, 0, Found(1, 1, 0)).requestsByFirstTransmission == [0, 1]
      && RemoveFrom(q, 0, Found(1, 1, 0)).requestsByLastTransmission == [0, 1]
  {
    TwinsAreRun();
  }

  // ----- a deadline is overlooked -----

  const SECOND: Time := TICKS_PER_SECOND

  const LATER: Time := SECOND / 2

  const HIDING_STEPS: seq<Step> := [
    Queue(1, false),
    Iterate(1, Sends(1)),
    Queue(LATER, false),
    Iterate(LATER, Sends(LATER)),
    Iterate(SECOND + 1, Again),
    Receive(0, 2 * SECOND),
    Iterate(3 * SECOND, Sends(3 * SECOND))]

  const SECOND_WRITE: Request := NO_REQUEST.(callback := Some(1), queueTime := LATER)

  const SECOND_SENT: Request :=
    SECOND_WRITE.(firstSendTime := LATER, lastSendTime := LATER, lastRef := 1, lastSeq := 1,
                  packetsInFlightWhenSent := 2, sendTime := map[1 := Sent(LATER, 1)])

  const FIRST_REFUSED: Request := REFUSED_WRITE.(lastRef := 2)

  const FIRST_ANSWERED: Request := FIRST_REFUSED.(sendTime := map[])

  const FIRST_RESTARTED: Request :=
    FIRST_ANSWERED.(lastSeq := 2, firstSendTime := 3 * SECOND, lastSendTime := 3 * SECOND,
                    packetsInFlightWhenSent := 2, sendTime := map[2 := Sent(3 * SECOND, 2)])

  function SecondQueued(): State {
    SentState().(q := Queues(map[0 := SENT_WRITE, 1 := SECOND_WRITE], 2, [1], [0], [0], [], map[0 := 0], 1, 1))
  }

  function SecondSent(): State {
    SentState().(q := Queues(map[0 := SENT_WRITE, 1 := SECOND_SENT], 2, [], [0, 1], [0, 1], [],
                             map[0 := 0, 1 := 1], 2, 2))
  }

  function FirstRefused(): State {
    RefusedState().(q := Queues(map[0 := FIRST_REFUSED, 1 := SECOND_SENT], 2, [], [0, 1], [1], [0],
                                map[0 := 0, 1 := 1], 2, 2))
  }

  function FirstAnswered(): State {
    AnsweredState().(q := Queues(map[0 := FIRST_ANSWERED, 1 := SECOND_SENT], 2, [], [0, 1], [1], [0],
                                 map[1 := 1], 2, 2))
  }

  function FirstRestarted(): State {
    AnsweredState().(q := Queues(map[0 := FIRST_RESTARTED, 1 := SECOND_SENT], 2, [], [0, 1, 0], [1, 0], [],
                                 map[1 := 1, 2 := 0], 3, 3))
  }

  lemma SecondIsQueued()
    ensures QueueRequest(SentState(), LATER, false) == SecondQueued()
  {
  }

  lemma SecondIsSent()
    ensures SendIteration(SecondQueued(), EXAMPLE, LATER, Sends(LATER)) == SecondSent()
  {
    var s := SecondQueued();
    assert Expired(s, EXAMPLE, LATER) == s;
    assert DetectStep(s, LimitsOf(s, EXAMPLE), LATER) == None;
    assert CheckSentRequests(s, EXAMPLE, LATER).s == s;
    var heap := map[0 := SENT_WRITE, 1 := SECOND_SENT];
    InsertAppends(heap, ByFirstSend, [0], 1);
    InsertAppends(heap, ByLastSend, [0], 1);
    assert SendPart(s, Sends(LATER)).q.requests == heap;
    assert SendPart(s, Sends(LATER)).q.refToRequest == map[0 := 0, 1 := 1];
  }

  lemma FirstIsRefused()
    ensures SendIteration(SecondSent(), EXAMPLE, SECOND + 1, Again) == FirstRefused()
  {
    var s, now := SecondSent(), SECOND + 1;
    assert Expired(s, EXAMPLE, now) == s;
    var l := LimitsOf(s, EXAMPLE);
    assert l == Limits(SECOND, 0);
    var lost := LoseFirst(s, 1 + SECOND);
    assert DetectStep(s, l, now) == Some((lost, true));
    DetectStepShrinks(s, l, now);
    assert lost.q.requestsByLastTransmission == [1];
    assert DetectStep(lost, l, now) == None;
    assert lost.q.requests == map[0 := SENT_WRITE.(retransmitTime := 1 + SECOND), 1 := SECOND_SENT];
    assert SendPart(BackOff(lost, true), Again).q.requests == map[0 := FIRST_REFUSED, 1 := SECOND_SENT];
  }

  lemma FirstIsAnswered()
    ensures ReceivePacket(FirstRefused(), 0, 2 * SECOND) == FirstAnswered()
  {
    var t := Answer(FirstRefused(), 0, 2 * SECOND);
    assert SENT_WRITE.sendTime - {0} == map[];
    assert t.q.requests == map[0 := FIRST_ANSWERED, 1 := SECOND_SENT];
    assert t.q.refToRequest == map[1 := 1];
  }

  lemma FirstIsRestarted()
    ensures SendIteration(FirstAnswered(), EXAMPLE, 3 * SECOND, Sends(3 * SECOND)) == FirstRestarted()
  {
    var s, now := FirstAnswered(), 3 * SECOND;
    assert Expired(s, EXAMPLE, now) == s;
    assert DetectStep(s, LimitsOf(s, EXAMPLE), now) == None;
    assert CheckSentRequests(s, EXAMPLE, now).s == s;
    var heap := map[0 := FIRST_RESTARTED, 1 := SECOND_SENT];
    InsertAppends(heap, ByFirstSend, [0, 1], 0);
    InsertAppends(heap, ByLastSend, [1], 0);
    assert SendPart(s, Sends(now)).q.requests == heap;
    assert SendPart(s, Sends(now)).q.refToRequest == map[1 := 1, 2 := 0];
  }

  function HidingMoments(): seq<Moment> {
    [Moment(InitialState(), 0), Moment(QueuedState(), 1), Moment(SentState(), 1), Moment(SecondQueued(), LATER),
     Moment(SecondSent(), LATER), Moment(FirstRefused(), SECOND + 1), Moment(FirstAnswered(), SECOND + 1),
     Moment(FirstRestarted(), 3 * SECOND)]
  }

  lemma HidingStarts(i: nat)
    requires i < 2
    ensures Takes(HidingMoments()[i], EXAMPLE, HIDING_STEPS[i], HidingMoments()[i + 1])
  {
    match i
    case 0 => ExampleIsQueued();
    case _ => ExampleIsSent();
  }

  lemma HidingGoesOn(i: nat)
    requires 2 <= i < 4
    ensures Takes(HidingMoments()[i], EXAMPLE, HIDING_STEPS[i], HidingMoments()[i + 1])
  {
    match i
    case 2 => SecondIsQueued();
    case _ => SecondIsSent();
  }

  lemma HidingEnds(i: nat)
    requires 4 <= i < 7
    ensures Takes(HidingMoments()[i], EXAMPLE, HIDING_STEPS[i], HidingMoments()[i + 1])
  {
    match i
    case 4 => FirstIsRefused();
    case 5 => FirstIsAnswered();
    case _ => FirstIsRestarted();
  }

  lemma HidingIsRun()
    ensures IsRun(EXAMPLE, HidingMoments(), HIDING_STEPS)
  {
    forall i | 0 <= i < |HIDING_STEPS|
      ensures Takes(HidingMoments()[i], EXAMPLE, HIDING_STEPS[i], HidingMoments()[i + 1])
    {
      if i < 2 { HidingStarts(i); } else if i < 4 { HidingGoesOn(i); } else { HidingEnds(i); }
    }
  }

  lemma SecondIsHidden(now: Time)
    requires LATER + EXAMPLE.requestTimeout <= now < 3 * SECOND + EXAMPLE.requestTimeout
    ensures Hidden(FirstRestarted(), EXAMPLE, now, 1)
  {
    var s := FirstRestarted();
    var ids := s.q.requestsByFirstTransmission;
    assert ids == [0, 1, 0];
    assert Before(ids, 0, 1) by {
      assert ids[0..] == ids && ids[1] == 1;
    }
    assert !Due(s, EXAMPLE, now, ids[0]);
  }

  /** The first of two writes is refused a retransmission and starts over. Its new deadline is later, but it is still
      watched before the second write, whose deadline passes without notice until then. */
  lemma RestartedHidesDeadline(now: Time)
    requires LATER + EXAMPLE.requestTimeout <= now < 3 * SECOND + EXAMPLE.requestTimeout
    ensures
      var moments := HidingMoments();
      var s := moments[7].s;
      && IsRun(EXAMPLE, moments, HIDING_STEPS)
      && s.q.requestsByFirstTransmission == [0, 1, 0]
      && s.tm.retransmissionTimeoutMultiplier > 0
      && RequestDeadline(s, EXAMPLE, 1) <= now
      && Overlooked(s, EXAMPLE, now, 1)
  {
    HidingIsRun();
    SecondIsHidden(now);
    OverlookedInRuns(EXAMPLE, HidingMoments(), HIDING_STEPS, now, 1);
  }
}
