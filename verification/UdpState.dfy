/**
 The state of the UDP client as a value, and each of its critical sections as a
 function on that value. A request is an identity into the heap `requests`, as a
 shared pointer is in the source; the containers hold identities. Fields named as
 history record what happened and are never read by the client.
 */
module UdpState {
  import opened Common
  import opened UdpArithmetic

  // The clock starts at a positive time; zero stands for "not set".
  type Time = int

  /** A packet that was sent and not answered. History: seq, how many packets were sent before it. */
  datatype Sent = Sent(time: Time, seqNumber: nat)

  /** A callback is known by the identity of the request that it was queued with. */
  datatype Request = Request(
    callback: Option<nat>,
    congestionWindowResetAfterSent: bool,
    firstSendTime: Time,
    idempotent: bool,
    lastRef: Ref,
    lastSeq: nat,                   // history: how many packets were sent before the last one
    lastSendTime: Time,
    packetsInFlightWhenSent: nat,
    queueTime: Time,
    retransmitTime: Time,
    sendTime: map<Ref, Sent>,
    successOrTimeout: bool)

  type Heap = map<nat, Request>

  const NO_REQUEST: Request :=
    Request(None, false, 0, false, 0, 0, 0, 0, 0, 0, map[], false)

  /** Dereferences a request. */
  function At(heap: Heap, id: nat): Request {
    if id in heap then heap[id] else NO_REQUEST
  }

  /** The three orders that the sets of sent requests are kept in. */
  datatype Order = ByFirstSend | ByLastSend | ByRetransmit

  function Key(heap: Heap, order: Order, id: nat): Time {
    match order
    case ByFirstSend => At(heap, id).firstSendTime
    case ByLastSend => At(heap, id).lastSendTime
    case ByRetransmit => At(heap, id).retransmitTime
  }

  /** Inserting into an ordered multiset with the end as a hint: after everything that does not sort later. */
  function Insert(heap: Heap, order: Order, ids: seq<nat>, id: nat): seq<nat> {
    if ids == [] || Key(heap, order, id) < Key(heap, order, ids[0]) then [id] + ids
    else [ids[0]] + Insert(heap, order, ids[1..], id)
  }

  function Without(ids: seq<nat>, id: nat): seq<nat> {
    if ids == [] then []
    else if ids[0] == id then Without(ids[1..], id)
    else [ids[0]] + Without(ids[1..], id)
  }

  /** The removal loop over an ordered multiset: it starts at the first element whose key is not smaller, and
      only if that key is equal. */
  function Erase(heap: Heap, order: Order, ids: seq<nat>, id: nat): seq<nat> {
    if ids == [] then []
    else if Key(heap, order, ids[0]) < Key(heap, order, id) then [ids[0]] + Erase(heap, order, ids[1..], id)
    else if Key(heap, order, ids[0]) == Key(heap, order, id) then Without(ids, id)
    else ids
  }

  /** What the removal loop leaves when it starts at element i. */
  function EraseFrom(ids: seq<nat>, id: nat, i: nat): seq<nat>
    requires i <= |ids|
  {
    ids[..i] + Without(ids[i..], id)
  }

  /** What the search of an ordered multiset may return: any element that is equal in its order, or the end if there
      is none. */
  predicate Finds(heap: Heap, order: Order, ids: seq<nat>, id: nat, i: nat) {
    if i < |ids| then Key(heap, order, ids[i]) == Key(heap, order, id)
    else i == |ids| && forall x :: x in ids ==> Key(heap, order, x) != Key(heap, order, id)
  }

  datatype Queues = Queues(
    requests: Heap,
    nextRequest: nat,               // identity of the next request object
    newRequests: seq<nat>,
    requestsByFirstTransmission: seq<nat>,
    requestsByLastTransmission: seq<nat>,
    retransmitRequests: seq<nat>,
    refToRequest: map<Ref, nat>,
    nextRef: Ref,
    sendCount: nat)                 // history: nextRef before wrapping

  datatype Congestion = Congestion(
    congestionWindow: nat,
    congestionWindowIncrementCounter: int,
    consecutiveLossesCount: nat,
    consecutiveLossesFirstRef: Ref,
    slowStartThreshold: nat)

  datatype Timing = Timing(
    lastReceivedRef: Ref,
    lastReceivedRoundTripTime: int,
    lastReceivedSendTime: Time,
    lastReceivedSeq: nat,           // history: lastReceivedRef before wrapping
    answered: set<nat>,             // history: the packets answered since the last reset
    reorderingWindowMultiplier: int,
    reorderingWindowMultiplierResetCounter: int,
    retransmissionTimeoutMultiplier: int,
    estimate: Estimate)

  datatype State = State(
    q: Queues,
    cc: Congestion,
    tm: Timing,
    consecutiveRequestTimeoutsCount: int,
    timeoutCallbacks: seq<Option<nat>>,
    delivered: seq<nat>)            // history: the callbacks that have been called

  datatype Config = Config(queueTimeout: int, requestTimeout: int)

  const CONSECUTIVE_LOSSES_LIMIT: nat := 3
  const INITIAL_CONGESTION_WINDOW: nat := 4
  const MAX_REQUEST_TIMEOUTS_BEFORE_OFFLINE: int := 2
  const SIZE_MAX: nat := 0xffff_ffff_ffff_ffff

  function InitialState(): State {
    State(
      Queues(map[], 0, [], [], [], [], map[], 0, 0),
      Congestion(INITIAL_CONGESTION_WINDOW, 0, 0, 0, SIZE_MAX),
      Timing(0, 0, 0, 0, {}, 0, 0, 1, Estimate(0, 0)),
      0, [], [])
  }

  predicate Offline(s: State) {
    s.consecutiveRequestTimeoutsCount > MAX_REQUEST_TIMEOUTS_BEFORE_OFFLINE
  }

  function CallbackOf(callback: Option<nat>): seq<nat> {
    if callback.Some? then [callback.value] else []
  }

  /** The callbacks in a list, leaving out the empty ones. */
  function Present(callbacks: seq<Option<nat>>): seq<nat> {
    if callbacks == [] then [] else CallbackOf(callbacks[0]) + Present(callbacks[1..])
  }

  // ----- queuing -----

  function QueueRequest(s: State, now: Time, idempotent: bool): State {
    var id := s.q.nextRequest;
    var r := NO_REQUEST.(callback := Some(id), idempotent := idempotent, queueTime := now);
    s.(q := s.q.(requests := s.q.requests[id := r], nextRequest := id + 1, newRequests := s.q.newRequests + [id]))
  }

  // ----- removeRequest -----

  function RemoveRequest(q: Queues, id: nat): Queues {
    q.(refToRequest := q.refToRequest - At(q.requests, id).sendTime.Keys,
       requestsByFirstTransmission := Erase(q.requests, ByFirstSend, q.requestsByFirstTransmission, id),
       requestsByLastTransmission := Erase(q.requests, ByLastSend, q.requestsByLastTransmission, id),
       retransmitRequests := Erase(q.requests, ByRetransmit, q.retransmitRequests, id))
  }

  // ----- packetLossDetected -----

  function MarkReset(heap: Heap, ids: seq<nat>): Heap {
    map id | id in heap ::
      if id in ids then heap[id].(congestionWindowResetAfterSent := true) else heap[id]
  }

  /** The bookkeeping of adjacent losses. */
  function CountLoss(cc: Congestion, ref: Ref): Congestion {
    if cc.consecutiveLossesCount != 0
       && (cc.consecutiveLossesFirstRef + cc.consecutiveLossesCount) % REF_COUNT == ref
    then cc.(consecutiveLossesCount := Min(cc.consecutiveLossesCount + 1, CONSECUTIVE_LOSSES_LIMIT))
    else cc.(consecutiveLossesFirstRef := ref, consecutiveLossesCount := 1)
  }

  /** Whether the loss is the one too many that resets the window. */
  predicate ResetsWindow(cc: Congestion, r: Request) {
    CountLoss(cc, r.lastRef).consecutiveLossesCount >= CONSECUTIVE_LOSSES_LIMIT
  }

  function ShrinkWindow(cc: Congestion, r: Request): Congestion {
    var counted := CountLoss(cc, r.lastRef).(slowStartThreshold := Max(r.packetsInFlightWhenSent / 2, 2),
                                             congestionWindowIncrementCounter := 0);
    if ResetsWindow(cc, r) then counted.(congestionWindow := 1, consecutiveLossesCount := 0)
    else counted.(congestionWindow := Max(cc.congestionWindow - 1, 1))
  }

  function PacketLossDetected(s: State, id: nat): State {
    var r := At(s.q.requests, id);
    if r.congestionWindowResetAfterSent then s
    else
      s.(cc := ShrinkWindow(s.cc, r),
         q := if ResetsWindow(s.cc, r)
              then s.q.(requests := MarkReset(s.q.requests, s.q.requestsByLastTransmission)) else s.q)
  }

  // ----- checkSentRequests -----

  function Earlier(nextCheck: Time, t: Time): Time {
    if nextCheck == 0 then t else Min(nextCheck, t)
  }

  function QueueDeadline(s: State, cfg: Config, id: nat): Time {
    At(s.q.requests, id).queueTime + cfg.queueTimeout
  }

  function RequestDeadline(s: State, cfg: Config, id: nat): Time {
    At(s.q.requests, id).firstSendTime + cfg.requestTimeout
  }

  /** The first new request leaves, and its callback with it. */
  function DropFirst(q: Queues): Queues
    requires q.newRequests != []
  {
    var id := q.newRequests[0];
    q.(requests := q.requests[id := At(q.requests, id).(callback := None)], newRequests := q.newRequests[1..])
  }

  /** Its callback is to be called because of a timeout. */
  function DropExpired(s: State): State
    requires s.q.newRequests != []
  {
    s.(timeoutCallbacks := s.timeoutCallbacks + [At(s.q.requests, s.q.newRequests[0]).callback], q := DropFirst(s.q))
  }

  function ExpireQueued(s: State, cfg: Config, now: Time): State
    decreases |s.q.newRequests|
  {
    if cfg.queueTimeout == 0 || s.q.newRequests == [] then s
    else if QueueDeadline(s, cfg, s.q.newRequests[0]) <= now then ExpireQueued(DropExpired(s), cfg, now)
    else s
  }

  function ResetCongestion(cc: Congestion): Congestion {
    cc.(congestionWindow := INITIAL_CONGESTION_WINDOW, congestionWindowIncrementCounter := 0,
        consecutiveLossesCount := 0, slowStartThreshold := SIZE_MAX)
  }

  function ResetTiming(tm: Timing): Timing {
    tm.(lastReceivedRoundTripTime := 0, lastReceivedSendTime := 0, answered := {}, reorderingWindowMultiplier := 0,
        reorderingWindowMultiplierResetCounter := 0, estimate := Estimate(0, 0))
  }

  /** What one more request timeout does to the connection: it counts, or it resets the estimates. */
  function CountTimeout(s: State): State {
    if s.consecutiveRequestTimeoutsCount <= MAX_REQUEST_TIMEOUTS_BEFORE_OFFLINE
    then s.(consecutiveRequestTimeoutsCount := s.consecutiveRequestTimeoutsCount + 1)
    else s.(cc := ResetCongestion(s.cc), tm := ResetTiming(s.tm))
  }

  /** The first sent request is no longer watched, and gives up its callback. */
  function Unwatch(q: Queues): Queues
    requires q.requestsByFirstTransmission != []
  {
    var id := q.requestsByFirstTransmission[0];
    q.(requests := q.requests[id := At(q.requests, id).(callback := None, successOrTimeout := true)],
       requestsByFirstTransmission := q.requestsByFirstTransmission[1..])
  }

  /** Its callback is to be called because of a timeout. */
  function UnwatchFirst(s: State): State
    requires s.q.requestsByFirstTransmission != []
  {
    var callback := At(s.q.requests, s.q.requestsByFirstTransmission[0]).callback;
    s.(timeoutCallbacks := s.timeoutCallbacks + [callback], q := Unwatch(s.q))
  }

  /** The first sent request times out. */
  function ExpireFirst(s: State): State
    requires s.q.requestsByFirstTransmission != []
  {
    CountTimeout(UnwatchFirst(s))
  }

  function ExpireSent(s: State, cfg: Config, now: Time): State
    decreases |s.q.requestsByFirstTransmission|
  {
    if s.q.requestsByFirstTransmission == [] then s
    else if RequestDeadline(s, cfg, s.q.requestsByFirstTransmission[0]) <= now then ExpireSent(ExpireFirst(s), cfg, now)
    else s
  }

  function Rto(s: State, cfg: Config): int
    requires s.tm.retransmissionTimeoutMultiplier > 0
  {
    RetransmissionTimeout(cfg.requestTimeout, s.tm.estimate.smoothed, s.tm.estimate.variation,
                          s.tm.retransmissionTimeoutMultiplier)
  }

  function ReorderingWindow(s: State): int {
    Quotient(s.tm.reorderingWindowMultiplier * s.tm.estimate.smoothed, 4)
  }

  /** The two limits that the loss detection of one check works with. */
  datatype Limits = Limits(rto: int, reorderingWindow: int)

  function RtoDeadline(s: State, l: Limits, id: nat): Time {
    At(s.q.requests, id).lastSendTime + l.rto
  }

  function EarlyDeadline(s: State, l: Limits, id: nat): Time {
    At(s.q.requests, id).lastSendTime + l.reorderingWindow + s.tm.lastReceivedRoundTripTime
  }

  predicate LastReceivedValid(tm: Timing) {
    tm.lastReceivedSendTime != 0
  }

  predicate LaterResponseReceived(s: State, id: nat) {
    LastReceivedValid(s.tm) && RefGreaterThan(s.tm.lastReceivedRef, At(s.q.requests, id).lastRef)
  }

  /** The request of the first packet in flight moves to the set of retransmissions. */
  function MoveFirst(q: Queues): Queues
    requires q.requestsByLastTransmission != []
  {
    var id := q.requestsByLastTransmission[0];
    q.(retransmitRequests := Insert(q.requests, ByRetransmit, q.retransmitRequests, id),
       requestsByLastTransmission := q.requestsByLastTransmission[1..])
  }

  function WithRetransmitTime(s: State, id: nat, retransmitTime: Time): State {
    s.(q := s.q.(requests := s.q.requests[id := At(s.q.requests, id).(retransmitTime := retransmitTime)]))
  }

  /** The first packet in flight is lost. */
  function LoseFirst(s: State, retransmitTime: Time): State
    requires s.q.requestsByLastTransmission != []
  {
    var id := s.q.requestsByLastTransmission[0];
    var t := PacketLossDetected(WithRetransmitTime(s, id, retransmitTime), id);
    t.(q := MoveFirst(t.q))
  }

  /** One round of the loss detection, or None when it is done. */
  function DetectStep(s: State, l: Limits, now: Time): Option<(State, bool)> {
    if s.q.requestsByLastTransmission == [] then None
    else
      var id := s.q.requestsByLastTransmission[0];
      if At(s.q.requests, id).successOrTimeout then
        Some((s.(q := RemoveRequest(s.q, id)), false))
      else if RtoDeadline(s, l, id) <= now then
        Some((LoseFirst(s, RtoDeadline(s, l, id)), true))
      else if LaterResponseReceived(s, id) && EarlyDeadline(s, l, id) <= now then
        Some((LoseFirst(s, EarlyDeadline(s, l, id)), false))
      else None
  }

  lemma WithoutShrinks(ids: seq<nat>, id: nat)
    ensures |Without(ids, id)| <= |ids|
    ensures ids != [] && ids[0] == id ==> |Without(ids, id)| < |ids|
  {
  }

  lemma DetectStepShrinks(s: State, l: Limits, now: Time)
    requires DetectStep(s, l, now).Some?
    ensures |DetectStep(s, l, now).value.0.q.requestsByLastTransmission| < |s.q.requestsByLastTransmission|
  {
    var ids := s.q.requestsByLastTransmission;
    WithoutShrinks(ids, ids[0]);
  }

  function DetectLosses(s: State, l: Limits, now: Time, rtoExpired: bool): (State, bool)
    decreases |s.q.requestsByLastTransmission|
  {
    var step := DetectStep(s, l, now);
    if step.None? then (s, rtoExpired)
    else
      DetectStepShrinks(s, l, now);
      DetectLosses(step.value.0, l, now, rtoExpired || step.value.1)
  }

  datatype Check = Check(s: State, nextCheck: Time)

  /** The next queue timeout after the expired requests have left. */
  function NextQueueCheck(s: State, cfg: Config): Time {
    if cfg.queueTimeout != 0 && s.q.newRequests != [] then QueueDeadline(s, cfg, s.q.newRequests[0]) else 0
  }

  function NextRequestCheck(s: State, cfg: Config, nextCheck: Time): Time {
    if s.q.requestsByFirstTransmission == [] then nextCheck
    else Earlier(nextCheck, RequestDeadline(s, cfg, s.q.requestsByFirstTransmission[0]))
  }

  function RetransmissionCheck(s: State, l: Limits, id: nat): Time {
    if LaterResponseReceived(s, id) && EarlyDeadline(s, l, id) < RtoDeadline(s, l, id) then EarlyDeadline(s, l, id)
    else RtoDeadline(s, l, id)
  }

  function NextLossCheck(s: State, l: Limits, nextCheck: Time): Time {
    if s.q.requestsByLastTransmission == [] then nextCheck
    else Earlier(nextCheck, RetransmissionCheck(s, l, s.q.requestsByLastTransmission[0]))
  }

  function LimitsOf(s: State, cfg: Config): Limits
    requires s.tm.retransmissionTimeoutMultiplier > 0
  {
    Limits(Rto(s, cfg), ReorderingWindow(s))
  }

  function BackOff(s: State, rtoExpired: bool): State {
    if rtoExpired
    then s.(tm := s.tm.(retransmissionTimeoutMultiplier := Backoff(s.tm.retransmissionTimeoutMultiplier)))
    else s
  }

  lemma ExpireKeepsMultiplier(s: State, cfg: Config, now: Time)
    ensures ExpireSent(s, cfg, now).tm.retransmissionTimeoutMultiplier == s.tm.retransmissionTimeoutMultiplier
    decreases |s.q.requestsByFirstTransmission|
  {
    if s.q.requestsByFirstTransmission != []
       && RequestDeadline(s, cfg, s.q.requestsByFirstTransmission[0]) <= now {
      ExpireKeepsMultiplier(ExpireFirst(s), cfg, now);
    }
  }

  lemma ExpireQueuedKeepsTiming(s: State, cfg: Config, now: Time)
    ensures ExpireQueued(s, cfg, now).tm == s.tm && ExpireQueued(s, cfg, now).cc == s.cc
    decreases |s.q.newRequests|
  {
    if cfg.queueTimeout != 0 && s.q.newRequests != [] && QueueDeadline(s, cfg, s.q.newRequests[0]) <= now {
      ExpireQueuedKeepsTiming(DropExpired(s), cfg, now);
    }
  }

  function Expired(s: State, cfg: Config, now: Time): State {
    ExpireSent(ExpireQueued(s, cfg, now), cfg, now)
  }

  lemma ExpiredKeepsMultiplier(s: State, cfg: Config, now: Time)
    ensures Expired(s, cfg, now).tm.retransmissionTimeoutMultiplier == s.tm.retransmissionTimeoutMultiplier
  {
    ExpireQueuedKeepsTiming(s, cfg, now);
    ExpireKeepsMultiplier(ExpireQueued(s, cfg, now), cfg, now);
  }

  function CheckSentRequests(s: State, cfg: Config, now: Time): Check
    requires s.tm.retransmissionTimeoutMultiplier > 0
  {
    var queued := ExpireQueued(s, cfg, now);
    var sent := ExpireSent(queued, cfg, now);
    ExpiredKeepsMultiplier(s, cfg, now);
    var l := LimitsOf(sent, cfg);
    var (detected, rtoExpired) := DetectLosses(sent, l, now, false);
    Check(BackOff(detected, rtoExpired),
          NextLossCheck(detected, l, NextRequestCheck(sent, cfg, NextQueueCheck(queued, cfg))))
  }

  // ----- trySendRequest and the send loop -----

  /** What the socket says to a packet: it goes out, or EAGAIN. */
  datatype Outcome = Sends(now: Time) | Again

  function RecordSend(r: Request, q: Queues, now: Time): Request {
    r.(lastRef := q.nextRef,
       lastSeq := q.sendCount,
       firstSendTime := if r.sendTime == map[] then now else r.firstSendTime,
       congestionWindowResetAfterSent := false,
       lastSendTime := now,
       packetsInFlightWhenSent := |q.requestsByLastTransmission| + 1,
       sendTime := if q.nextRef in r.sendTime then r.sendTime else r.sendTime[q.nextRef := Sent(now, q.sendCount)])
  }

  function TrySendRequest(q: Queues, id: nat, outcome: Outcome): Queues {
    var r := At(q.requests, id);
    match outcome
    case Again => q.(requests := q.requests[id := r.(lastRef := q.nextRef)])
    case Sends(now) =>
      var heap := q.requests[id := RecordSend(r, q, now)];
      q.(requests := heap,
         nextRef := NextRef(q.nextRef),
         sendCount := q.sendCount + 1,
         requestsByFirstTransmission :=
           if r.sendTime == map[] then Insert(heap, ByFirstSend, q.requestsByFirstTransmission, id)
           else q.requestsByFirstTransmission,
         refToRequest := if q.nextRef in q.refToRequest then q.refToRequest else q.refToRequest[q.nextRef := id],
         requestsByLastTransmission := Insert(heap, ByLastSend, q.requestsByLastTransmission, id))
  }

  /** The callback of a request is taken out of it and called. */
  function TakeCallback(s: State, id: nat): State {
    var r := At(s.q.requests, id);
    s.(q := s.q.(requests := s.q.requests[id := r.(callback := None)]),
       delivered := s.delivered + CallbackOf(r.callback))
  }

  function Retransmit(s: State, outcome: Outcome): State
    requires s.q.retransmitRequests != []
  {
    var id := s.q.retransmitRequests[0];
    if At(s.q.requests, id).successOrTimeout then s.(q := RemoveRequest(s.q, id))
    else
      var q := TrySendRequest(s.q, id, outcome);
      s.(q := if outcome.Sends? then q.(retransmitRequests := q.retransmitRequests[1..]) else q)
  }

  /** A new request is tried, and leaves the queue if it went out. Offline it leaves in any case. */
  function TryNew(s: State, outcome: Outcome): State
    requires s.q.newRequests != []
  {
    var q := TrySendRequest(s.q, s.q.newRequests[0], outcome);
    s.(q := if Offline(s) || outcome.Sends? then q.(newRequests := q.newRequests[1..]) else q)
  }

  function SendNew(s: State, outcome: Outcome): State
    requires s.q.newRequests != []
  {
    if Offline(s) then TakeCallback(TryNew(s, outcome), s.q.newRequests[0]) else TryNew(s, outcome)
  }

  /** Offline, with the window full: the request is dropped and its callback called. */
  function FailNew(s: State): State
    requires s.q.newRequests != []
  {
    var id := s.q.newRequests[0];
    s.(delivered := s.delivered + CallbackOf(At(s.q.requests, id).callback),
       q := s.q.(newRequests := s.q.newRequests[1..], requests := s.q.requests - {id}))
  }

  function SendPart(s: State, outcome: Outcome): State {
    if s.cc.congestionWindow > |s.q.requestsByLastTransmission| then
      if s.q.retransmitRequests != [] then Retransmit(s, outcome)
      else if s.q.newRequests != [] then SendNew(s, outcome)
      else s
    else if Offline(s) && s.q.newRequests != [] then FailNew(s)
    else s
  }

  /** The callbacks of requests that timed out are called, and the list is left empty. */
  function DeliverTimeouts(s: State): State {
    s.(timeoutCallbacks := [], delivered := s.delivered + Present(s.timeoutCallbacks))
  }

  /** One iteration of the send thread. */
  function SendIteration(s: State, cfg: Config, now: Time, outcome: Outcome): State
    requires s.tm.retransmissionTimeoutMultiplier > 0
  {
    DeliverTimeouts(SendPart(CheckSentRequests(s, cfg, now).s, outcome))
  }

  // ----- the receive loop -----

  function GrowWindow(cc: Congestion, r: Request): Congestion {
    if r.congestionWindowResetAfterSent then cc
    else if cc.congestionWindow <= cc.slowStartThreshold then cc.(congestionWindow := cc.congestionWindow + 1)
    else if cc.congestionWindow == r.packetsInFlightWhenSent then
      if cc.congestionWindowIncrementCounter + 1 == 2
      then cc.(congestionWindow := cc.congestionWindow + 1, congestionWindowIncrementCounter := 0)
      else cc.(congestionWindowIncrementCounter := cc.congestionWindowIncrementCounter + 1)
    else cc
  }

  /** The newest answered packet, or the first sign of reordering. */
  function RecordAnswer(tm: Timing, ref: Ref, sent: Sent, roundTripTime: int): Timing {
    if LastReceivedValid(tm) && RefGreaterThan(tm.lastReceivedRef, ref)
    then tm.(reorderingWindowMultiplier := Max(tm.reorderingWindowMultiplier, 1),
             answered := tm.answered + {sent.seqNumber})
    else tm.(lastReceivedRef := ref, lastReceivedRoundTripTime := roundTripTime, lastReceivedSendTime := sent.time,
             lastReceivedSeq := sent.seqNumber, answered := tm.answered + {sent.seqNumber})
  }

  function AdjustReordering(tm: Timing, r: Request, ref: Ref): Timing {
    var widened :=
      if ref != r.lastRef && tm.reorderingWindowMultiplier != 0
      then tm.(reorderingWindowMultiplier := Max(tm.reorderingWindowMultiplier + 1, 4),
               reorderingWindowMultiplierResetCounter := 16)
      else tm;
    if ref == r.lastRef && r.firstSendTime != r.lastSendTime && widened.reorderingWindowMultiplier > 1 then
      var counter := widened.reorderingWindowMultiplierResetCounter - 1;
      widened.(reorderingWindowMultiplierResetCounter := counter,
               reorderingWindowMultiplier := if counter == 0 then 1 else widened.reorderingWindowMultiplier)
    else widened
  }

  function TimeAnswer(tm: Timing, r: Request, ref: Ref, receiveTime: Time, sentRequests: nat): Timing {
    if ref in r.sendTime then
      var roundTripTime := receiveTime - r.sendTime[ref].time;
      var measured := tm.(estimate := UpdateRoundTripTime(tm.estimate, roundTripTime, sentRequests));
      AdjustReordering(RecordAnswer(measured, ref, r.sendTime[ref], roundTripTime), r, ref)
    else tm
  }

  function AfterSendTimeErased(q: Queues, id: nat, ref: Ref): Queues {
    var r := At(q.requests, id);
    q.(refToRequest := q.refToRequest - {ref}, requests := q.requests[id := r.(sendTime := r.sendTime - {ref})])
  }

  /** What a valid reply does to the window and to the estimates. */
  function CountReply(s: State, r: Request, ref: Ref, receiveTime: Time): State {
    s.(consecutiveRequestTimeoutsCount := 0,
       cc := GrowWindow(s.cc, r),
       tm := TimeAnswer(s.tm.(retransmissionTimeoutMultiplier := 1), r, ref, receiveTime,
                        |s.q.requestsByFirstTransmission|))
  }

  /** A valid reply, up to the point where it may complete its request. */
  function Answer(s: State, ref: Ref, receiveTime: Time): State
    requires ref in s.q.refToRequest
  {
    var id := s.q.refToRequest[ref];
    CountReply(s, At(s.q.requests, id), ref, receiveTime).(q := AfterSendTimeErased(s.q, id, ref))
  }

  function Complete(s: State, id: nat, ref: Ref): State {
    var r := At(s.q.requests, id);
    if r.idempotent || ref == r.lastRef then
      var taken := TakeCallback(s, id);
      var done := taken.(q := taken.q.(requests :=
                    taken.q.requests[id := At(taken.q.requests, id).(successOrTimeout := true)]));
      if ref == r.lastRef then done.(q := RemoveRequest(done.q, id)) else done
    else s
  }

  /** A packet arrives. */
  function ReceivePacket(s: State, ref: Ref, receiveTime: Time): State {
    if ref in s.q.refToRequest then Complete(Answer(s, ref, receiveTime), s.q.refToRequest[ref], ref) else s
  }
}
