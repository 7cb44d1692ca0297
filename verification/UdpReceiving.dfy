/** The receive thread keeps the invariant of the UDP client. */
module UdpReceiving {
  import opened Common
  import opened UdpArithmetic
  import opened UdpState
  import opened UdpInvariants

  /** A reply takes one packet off the list of those that the request waits for. The request may lose its
      callback and succeed. */
  ghost predicate Unawaits(r: Request, r': Request, ref: Ref) {
    && SamePackets(r, r'.(sendTime := r.sendTime))
    && r'.lastRef == r.lastRef && r'.retransmitTime == r.retransmitTime
    && r'.sendTime == r.sendTime - {ref}
    && (r.successOrTimeout ==> r'.successOrTimeout)
    && (r'.successOrTimeout ==> r'.callback == None)
  }

  function Unawait(q: Queues, id: nat, ref: Ref, r': Request): Queues {
    q.(refToRequest := q.refToRequest - {ref}, requests := q.requests[id := r'])
  }

  ghost predicate Replied(q: Queues, id: nat, ref: Ref, r': Request) {
    ref in q.refToRequest && id == q.refToRequest[ref] && Unawaits(At(q.requests, id), r', ref)
  }

  lemma UnawaitHeap(q: Queues, id: nat, ref: Ref, r': Request)
    requires Partition(q) && Indexed(q) && Replied(q, id, ref, r')
    ensures IsSent(q, id) && id in q.requests && ref in At(q.requests, id).sendTime
    ensures forall x :: IsSent(Unawait(q, id, ref, r'), x) == IsSent(q, x)
    ensures forall x :: x != id ==> At(Unawait(q, id, ref, r').requests, x) == At(q.requests, x)
    ensures id !in q.newRequests
  {
  }

  lemma UnawaitKeepsPartition(q: Queues, id: nat, ref: Ref, r': Request)
    requires Partition(q) && Indexed(q) && Replied(q, id, ref, r')
    ensures Partition(Unawait(q, id, ref, r'))
  {
    UnawaitHeap(q, id, ref, r');
  }

  lemma UnawaitKeepsOrdered(q: Queues, clock: Time, id: nat, ref: Ref, r': Request)
    requires Partition(q) && Indexed(q) && Ordered(q, clock) && Replied(q, id, ref, r')
    ensures Ordered(Unawait(q, id, ref, r'), clock)
  {
    UnawaitHeap(q, id, ref, r');
    OrderedOnSameTimes(q, Unawait(q, id, ref, r'), clock);
  }

  lemma UnawaitKeepsIndexed(q: Queues, id: nat, ref: Ref, r': Request)
    requires Partition(q) && Indexed(q) && Replied(q, id, ref, r')
    ensures Indexed(Unawait(q, id, ref, r'))
  {
    UnawaitHeap(q, id, ref, r');
  }

  /** The request still waits for the reply to its last packet, unless that is the one that has arrived. */
  lemma UnawaitKeepsNumbered(q: Queues, answered: set<nat>, id: nat, ref: Ref, r': Request)
    requires Partition(q) && Indexed(q) && Numbered(q, answered) && Replied(q, id, ref, r') && ref != r'.lastRef
    ensures Numbered(Unawait(q, id, ref, r'), answered)
  {
    UnawaitHeap(q, id, ref, r');
    var q' := Unawait(q, id, ref, r');
    forall x, other | IsSent(q', x) && other in At(q'.requests, x).sendTime
      ensures PacketNumbered(q', answered, At(q'.requests, x), other)
    {
      assert PacketNumbered(q, answered, At(q.requests, x), other);
    }
  }

  lemma UnawaitKeepsSettled(q: Queues, id: nat, ref: Ref, r': Request)
    requires Partition(q) && Indexed(q) && Settled(q) && Replied(q, id, ref, r')
    ensures Settled(Unawait(q, id, ref, r'))
  {
    UnawaitHeap(q, id, ref, r');
  }

  lemma UnawaitKeepsConsistent(q: Queues, answered: set<nat>, clock: Time, id: nat, ref: Ref, r': Request)
    requires Consistent(q, answered, clock) && Replied(q, id, ref, r') && ref != r'.lastRef
    ensures Consistent(Unawait(q, id, ref, r'), answered, clock)
  {
    UnawaitKeepsPartition(q, id, ref, r');
    UnawaitKeepsOrdered(q, clock, id, ref, r');
    UnawaitKeepsIndexed(q, id, ref, r');
    UnawaitKeepsNumbered(q, answered, id, ref, r');
    UnawaitKeepsSettled(q, id, ref, r');
  }

  lemma RemoveIgnoresHeap(q: Queues, q': Queues, id: nat)
    requires forall x :: At(q'.requests, x).firstSendTime == At(q.requests, x).firstSendTime
                      && At(q'.requests, x).lastSendTime == At(q.requests, x).lastSendTime
                      && At(q'.requests, x).retransmitTime == At(q.requests, x).retransmitTime
    ensures forall ids, order :: Erase(q'.requests, order, ids, id) == Erase(q.requests, order, ids, id)
  {
    forall ids, order
      ensures Erase(q'.requests, order, ids, id) == Erase(q.requests, order, ids, id)
    {
      EraseOnKeys(q.requests, q'.requests, order, ids, id);
    }
  }

  lemma {:induction false} EraseOnKeys(heap: Heap, heap': Heap, order: Order, ids: seq<nat>, id: nat)
    requires forall x :: Key(heap', order, x) == Key(heap, order, x)
    ensures Erase(heap', order, ids, id) == Erase(heap, order, ids, id)
  {
    if ids != [] {
      EraseOnKeys(heap, heap', order, ids[1..], id);
    }
  }

  // ----- a request that has been removed -----

  /** The object of a request that no container knows any more has changed. */
  ghost predicate Forgotten(q: Queues, q': Queues, id: nat, r': Request) {
    && !IsSent(q, id) && id !in q.newRequests && id !in q.requestsByFirstTransmission && id in q.requests
    && q' == q.(requests := q.requests[id := r'])
    && (r'.successOrTimeout ==> r'.callback == None)
  }

  lemma ForgottenHeap(q: Queues, q': Queues, id: nat, r': Request)
    requires Forgotten(q, q', id, r')
    ensures forall x :: IsSent(q', x) == IsSent(q, x)
    ensures forall x: nat :: x != id ==> At(q'.requests, x) == At(q.requests, x)
  {
  }

  lemma ForgottenKeepsPartition(q: Queues, q': Queues, id: nat, r': Request)
    requires Partition(q) && Forgotten(q, q', id, r')
    ensures Partition(q')
  {
    ForgottenHeap(q, q', id, r');
  }

  lemma ForgottenKeepsOrdered(q: Queues, q': Queues, clock: Time, id: nat, r': Request)
    requires Ordered(q, clock) && Forgotten(q, q', id, r')
    ensures Ordered(q', clock)
  {
    ForgottenHeap(q, q', id, r');
    OrderedOnSameKeys(q, q', clock);
    assert forall i :: 0 <= i < |q.newRequests| ==> q.newRequests[i] in q.newRequests;
  }

  lemma ForgottenKeepsIndexed(q: Queues, q': Queues, id: nat, r': Request)
    requires Indexed(q) && Forgotten(q, q', id, r')
    ensures Indexed(q')
  {
    ForgottenHeap(q, q', id, r');
  }

  lemma ForgottenKeepsNumbered(q: Queues, q': Queues, answered: set<nat>, id: nat, r': Request)
    requires Numbered(q, answered) && Forgotten(q, q', id, r')
    ensures Numbered(q', answered)
  {
    ForgottenHeap(q, q', id, r');
    forall x, other | IsSent(q', x) && other in At(q'.requests, x).sendTime
      ensures PacketNumbered(q', answered, At(q'.requests, x), other)
    {
      assert PacketNumbered(q, answered, At(q.requests, x), other);
    }
  }

  lemma ForgottenKeepsSettled(q: Queues, q': Queues, id: nat, r': Request)
    requires Settled(q) && Forgotten(q, q', id, r')
    ensures Settled(q')
  {
    ForgottenHeap(q, q', id, r');
  }

  lemma ForgottenKeepsConsistent(q: Queues, q': Queues, answered: set<nat>, clock: Time, id: nat, r': Request)
    requires Consistent(q, answered, clock) && Forgotten(q, q', id, r')
    ensures Consistent(q', answered, clock)
  {
    ForgottenKeepsPartition(q, q', id, r');
    ForgottenKeepsOrdered(q, q', clock, id, r');
    ForgottenKeepsIndexed(q, q', id, r');
    ForgottenKeepsNumbered(q, q', answered, id, r');
    ForgottenKeepsSettled(q, q', id, r');
  }

  // ----- the whole step -----

  /** The request after the reply. */
  function Settle(r: Request, ref: Ref): Request {
    var waiting := r.(sendTime := r.sendTime - {ref});
    if r.idempotent || ref == r.lastRef then waiting.(callback := None, successOrTimeout := true) else waiting
  }

  /** The queues after the reply, in one step. */
  function AfterReply(q: Queues, ref: Ref): Queues
    requires ref in q.refToRequest
  {
    var id := q.refToRequest[ref];
    var r := At(q.requests, id);
    if ref == r.lastRef then RemoveRequest(q, id).(requests := q.requests[id := Settle(r, ref)])
    else Unawait(q, id, ref, Settle(r, ref))
  }

  lemma ReceiveIsAfterReply(s: State, ref: Ref, receiveTime: Time)
    requires ref in s.q.refToRequest && ref in At(s.q.requests, s.q.refToRequest[ref]).sendTime
    ensures ReceivePacket(s, ref, receiveTime).q == AfterReply(s.q, ref)
    ensures ReceivePacket(s, ref, receiveTime).tm == Answer(s, ref, receiveTime).tm
  {
    var id := s.q.refToRequest[ref];
    var r := At(s.q.requests, id);
    var q' := ReceivePacket(s, ref, receiveTime).q;
    assert At(Answer(s, ref, receiveTime).q.requests, id) == r.(sendTime := r.sendTime - {ref});
    assert q'.requests == s.q.requests[id := Settle(r, ref)];
    if ref == r.lastRef {
      var q1 := Unawait(s.q, id, ref, Settle(r, ref));
      assert q' == RemoveRequest(q1, id);
      RemoveAfterUnawait(s.q, id, ref);
    }
  }

  lemma RemoveAfterUnawait(q: Queues, id: nat, ref: Ref)
    requires ref in At(q.requests, id).sendTime
    ensures
      var r' := Settle(At(q.requests, id), ref);
      RemoveRequest(Unawait(q, id, ref, r'), id) == RemoveRequest(q, id).(requests := q.requests[id := r'])
  {
    var r := At(q.requests, id);
    RemoveIgnoresHeap(q, Unawait(q, id, ref, Settle(r, ref)), id);
    assert q.refToRequest - {ref} - (r.sendTime - {ref}).Keys == q.refToRequest - r.sendTime.Keys;
  }

  lemma AfterReplyKeepsConsistent(q: Queues, answered: set<nat>, clock: Time, ref: Ref)
    requires Consistent(q, answered, clock) && ref in q.refToRequest
    ensures Consistent(AfterReply(q, ref), answered, clock)
    ensures ref !in AfterReply(q, ref).refToRequest
  {
    var id := q.refToRequest[ref];
    var r := At(q.requests, id);
    assert IsSent(q, id);
    if ref == r.lastRef {
      RemoveLeavesNoTrace(q, clock, id);
      RemoveKeepsConsistent(q, answered, clock, id);
      ForgottenKeepsConsistent(RemoveRequest(q, id), AfterReply(q, ref), answered, clock, id, Settle(r, ref));
    } else {
      UnawaitKeepsConsistent(q, answered, clock, id, ref, Settle(r, ref));
    }
  }

  /** A packet is answered once: nobody waits for it any longer. */
  lemma OneMoreAnswered(q: Queues, answered: set<nat>, clock: Time, n: nat)
    requires Consistent(q, answered, clock) && RefOf(n) !in q.refToRequest && n < q.sendCount
    ensures Consistent(q, answered + {n}, clock)
  {
    OneMoreNumbered(q, answered, n);
  }

  lemma OneMorePacket(q: Queues, answered: set<nat>, r: Request, ref: Ref, n: nat)
    requires ref in r.sendTime && PacketNumbered(q, answered, r, ref) && ref != RefOf(n)
    ensures PacketNumbered(q, answered + {n}, r, ref)
  {
  }

  lemma OneMoreNumbered(q: Queues, answered: set<nat>, n: nat)
    requires Indexed(q) && PacketsNumbered(q, answered) && RefOf(n) !in q.refToRequest
    ensures PacketsNumbered(q, answered + {n})
  {
    forall x, ref | IsSent(q, x) && ref in At(q.requests, x).sendTime
      ensures PacketNumbered(q, answered + {n}, At(q.requests, x), ref)
    {
      OneMorePacket(q, answered, At(q.requests, x), ref, n);
    }
  }

  /** The comparison of references decides rightly which of two answers is the newer one. */
  lemma RecordKeepsNewest(tm: Timing, ref: Ref, sent: Sent, roundTripTime: int)
    requires NewestAnswered(tm) && ref == RefOf(sent.seqNumber) && sent.time > 0
    requires LastReceivedValid(tm) ==> Comparable(tm.lastReceivedSeq, sent.seqNumber)
    ensures
      var tm' := RecordAnswer(tm, ref, sent, roundTripTime);
      tm'.answered == tm.answered + {sent.seqNumber} && NewestAnswered(tm') && LastReceivedValid(tm')
  {
    if LastReceivedValid(tm) {
      RefOrderIsSendOrder(tm.lastReceivedSeq, sent.seqNumber);
    }
  }

  ghost predicate SameNewest(tm: Timing, tm': Timing) {
    && tm'.lastReceivedRef == tm.lastReceivedRef && tm'.lastReceivedSendTime == tm.lastReceivedSendTime
    && tm'.lastReceivedSeq == tm.lastReceivedSeq && tm'.answered == tm.answered
  }

  lemma TimeKeepsNewest(tm: Timing, r: Request, ref: Ref, receiveTime: Time, sentRequests: nat)
    requires NewestAnswered(tm) && ref in r.sendTime
    requires ref == RefOf(r.sendTime[ref].seqNumber) && r.sendTime[ref].time > 0
    requires LastReceivedValid(tm) ==> Comparable(tm.lastReceivedSeq, r.sendTime[ref].seqNumber)
    ensures
      var tm' := TimeAnswer(tm, r, ref, receiveTime, sentRequests);
      && tm'.answered == tm.answered + {r.sendTime[ref].seqNumber}
      && NewestAnswered(tm') && LastReceivedValid(tm')
  {
    var sent := r.sendTime[ref];
    var roundTripTime := receiveTime - sent.time;
    var measured := tm.(estimate := UpdateRoundTripTime(tm.estimate, roundTripTime, sentRequests));
    assert SameNewest(tm, measured);
    RecordKeepsNewest(measured, ref, sent, roundTripTime);
    AdjustKeepsNewest(RecordAnswer(measured, ref, sent, roundTripTime), r, ref);
  }

  lemma AdjustKeepsNewest(tm: Timing, r: Request, ref: Ref)
    ensures SameNewest(tm, AdjustReordering(tm, r, ref))
  {
  }

  /** What is known of the packet that a valid reply belongs to. */
  lemma ReplyMatchesPacket(s: State, clock: Time, ref: Ref)
    requires Inv(s, clock) && WithinWindow(s) && ref in s.q.refToRequest
    ensures
      var r := At(s.q.requests, s.q.refToRequest[ref]);
      && ref in r.sendTime && RefOf(r.sendTime[ref].seqNumber) == ref && r.sendTime[ref].time > 0
      && r.sendTime[ref].seqNumber < s.q.sendCount && r.sendTime[ref].seqNumber !in s.tm.answered
      && (LastReceivedValid(s.tm) ==> Comparable(s.tm.lastReceivedSeq, r.sendTime[ref].seqNumber))
  {
    var r := At(s.q.requests, s.q.refToRequest[ref]);
    assert IsSent(s.q, s.q.refToRequest[ref]) && PacketNumbered(s.q, s.tm.answered, r, ref);
    assert LastReceivedValid(s.tm) ==> s.tm.lastReceivedSeq < s.q.sendCount;
  }

  lemma AnswerKeepsNewest(s: State, clock: Time, ref: Ref, receiveTime: Time)
    requires Inv(s, clock) && WithinWindow(s) && ref in s.q.refToRequest
    ensures ref in At(s.q.requests, s.q.refToRequest[ref]).sendTime
    ensures
      var sent := At(s.q.requests, s.q.refToRequest[ref]).sendTime[ref];
      var tm := Answer(s, ref, receiveTime).tm;
      tm.answered == s.tm.answered + {sent.seqNumber} && NewestAnswered(tm) && LastReceivedValid(tm)
  {
    ReplyMatchesPacket(s, clock, ref);
    TimeKeepsNewest(s.tm.(retransmissionTimeoutMultiplier := 1), At(s.q.requests, s.q.refToRequest[ref]), ref,
                    receiveTime, |s.q.requestsByFirstTransmission|);
  }

  lemma ReceiveKeepsConsistent(s: State, clock: Time, ref: Ref, receiveTime: Time)
    requires Inv(s, clock) && WithinWindow(s) && ref in s.q.refToRequest
    ensures
      var t := ReceivePacket(s, ref, receiveTime);
      Consistent(t.q, t.tm.answered, clock) && t.tm == Answer(s, ref, receiveTime).tm
  {
    ReplyMatchesPacket(s, clock, ref);
    ReceiveIsAfterReply(s, ref, receiveTime);
    AnswerKeepsNewest(s, clock, ref, receiveTime);
    AfterReplyKeepsConsistent(s.q, s.tm.answered, clock, ref);
    OneMoreAnswered(AfterReply(s.q, ref), s.tm.answered, clock,
                    At(s.q.requests, s.q.refToRequest[ref]).sendTime[ref].seqNumber);
  }

  lemma AnswerResetsBackoff(s: State, ref: Ref, receiveTime: Time)
    requires ref in s.q.refToRequest
    ensures Answer(s, ref, receiveTime).tm.retransmissionTimeoutMultiplier == 1
  {
  }

  lemma ReceiveKeepsInv(s: State, clock: Time, ref: Ref, receiveTime: Time)
    requires Inv(s, clock) && WithinWindow(s)
    ensures Inv(ReceivePacket(s, ref, receiveTime), clock)
  {
    if ref in s.q.refToRequest {
      ReceiveKeepsConsistent(s, clock, ref, receiveTime);
      AnswerKeepsNewest(s, clock, ref, receiveTime);
      AnswerResetsBackoff(s, ref, receiveTime);
      OneIsValid();
    }
  }

  lemma OneIsValid()
    ensures ValidMultiplier(1)
  {
    assert PowerOfTwo(0) == 1;
  }
}
