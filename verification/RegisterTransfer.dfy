/**
 A 32-bit write followed by a 32-bit read against a device that knows only 16-bit words. The device may carry out
 each request that is on its way any number of times and at any time, and replies may arrive in any order.
 */
module RegisterTransfer {
  import opened Memory
  import opened UdpIpMemoryAccess

  datatype WriteAction = QueueLow(word: bv16, echo: bv16) | Ended(result: Result<UInt32>)

  /** The callback of the write request for the high word. */
  function OnHighWritten(lowData: bv16, reply: Reply): WriteAction {
    match ResultOf(reply)
    case Failure(code) => Ended(Failure(code))
    case Success(word) => QueueLow(lowData, word)
  }

  /** The callback of the write request for the low word. */
  function OnLowWritten(highData: bv16, reply: Reply): Result<UInt32> {
    match ResultOf(reply)
    case Failure(code) => Failure(code)
    case Success(word) => Success(UInt32(highData, word))
  }

  // ----- the device -----

  predicate ValidAddress(mem: seq<bv8>, address: int, length: nat) {
    0 <= address && address + length <= |mem|
  }

  function ReadWord(mem: seq<bv8>, address: int): Reply {
    if ValidAddress(mem, address, 2) then Reply(Decode16(mem[address..address + 2]), 0) else Reply(0, -1)
  }

  function StoreWord(mem: seq<bv8>, address: int, word: bv16): (mem': seq<bv8>)
    ensures |mem'| == |mem|
  {
    if ValidAddress(mem, address, 2) then mem[..address] + Encode16(word) + mem[address + 2..] else mem
  }

  function WriteReply(mem: seq<bv8>, address: int, word: bv16): Reply {
    if ValidAddress(mem, address, 2) then Reply(word, 0) else Reply(word, -1)
  }

  ghost predicate HoldsWord(mem: seq<bv8>, address: int, word: bv16) {
    ValidAddress(mem, address, 2) && mem[address..address + 2] == Encode16(word)
  }

  lemma StoredWord(mem: seq<bv8>, address: int, word: bv16)
    ensures ValidAddress(mem, address, 2) ==> HoldsWord(StoreWord(mem, address, word), address, word)
  {
  }

  /** Storing one word leaves a word beside it alone. */
  lemma StoreKeepsOther(mem: seq<bv8>, address: int, word: bv16, other: int, held: bv16)
    requires HoldsWord(mem, other, held) && (other + 2 <= address || address + 2 <= other)
    ensures HoldsWord(StoreWord(mem, address, word), other, held)
  {
    var mem' := StoreWord(mem, address, word);
    assert forall k :: other <= k < other + 2 ==> mem'[k] == mem[k];
    assert mem'[other..other + 2] == mem[other..other + 2];
  }

  lemma HeldWordIsRead(mem: seq<bv8>, address: int, word: bv16)
    requires HoldsWord(mem, address, word)
    ensures ReadWord(mem, address) == Reply(word, 0)
  {
    DecodeEncode16(word);
  }

  // ----- client, network and device together -----

  datatype Request = WriteHigh | WriteLow | ReadLow | ReadHigh

  datatype WritePhase = HighQueued | LowQueued(echo: bv16) | Written(result: Result<UInt32>)

  datatype System = System(
    mem: seq<bv8>,
    write: WritePhase,
    lowSent: bool,
    reading: bool,
    shared: Shared,
    replies: set<(Request, Reply)>,
    results: seq<Result<UInt32>>)

  datatype Step = Execute(request: Request) | Reject(request: Request, reply: Reply)
    | Deliver(request: Request, reply: Reply) | StartRead

  /** Requests that were sent once may be on their way for ever. */
  predicate Sent(s: System, request: Request) {
    match request
    case WriteHigh => true
    case WriteLow => s.lowSent
    case _ => s.reading
  }

  /** What the device answers to a request that it carries out. */
  function Answer(mem: seq<bv8>, address: int, value: UInt32, request: Request): Reply {
    match request
    case WriteHigh => WriteReply(mem, address, value.high)
    case WriteLow => WriteReply(mem, address + 2, value.low)
    case ReadLow => ReadWord(mem, address + 2)
    case ReadHigh => ReadWord(mem, address)
  }

  function Stored(mem: seq<bv8>, address: int, value: UInt32, request: Request): seq<bv8> {
    match request
    case WriteHigh => StoreWord(mem, address, value.high)
    case WriteLow => StoreWord(mem, address + 2, value.low)
    case _ => mem
  }

  function Execution(s: System, address: int, value: UInt32, request: Request): System {
    s.(mem := Stored(s.mem, address, value, request),
       replies := s.replies + {(request, Answer(s.mem, address, value, request))})
  }

  /** The reply reaches the callback of its request. The callback of a write request is called once. */
  function Delivery(s: System, value: UInt32, request: Request, reply: Reply): System {
    match request
    case WriteHigh =>
      (match OnHighWritten(value.low, reply)
       case Ended(result) => s.(write := Written(result))
       case QueueLow(_, echo) => s.(write := LowQueued(echo), lowSent := true))
    case WriteLow =>
      if s.write.LowQueued? then s.(write := Written(OnLowWritten(s.write.echo, reply))) else s
    case _ =>
      var (shared, action) := React(s.shared, Event(if request == ReadLow then Low else High, reply));
      s.(shared := shared, results := if action.Report? then s.results + [action.result] else s.results)
  }

  ghost predicate CanDeliver(s: System, request: Request, reply: Reply) {
    && (reply.Reply? ==> (request, reply) in s.replies)
    && match request
       case WriteHigh => s.write.HighQueued?
       case WriteLow => s.write.LowQueued?
       case _ => s.reading
  }

  ghost predicate Takes(s: System, address: int, value: UInt32, step: Step, s': System) {
    match step
    case Execute(request) => Sent(s, request) && s' == Execution(s, address, value, request)
    case Reject(request, reply) =>
      && Sent(s, request) && reply.Reply? && reply.status != 0
      && s' == s.(replies := s.replies + {(request, reply)})
    case Deliver(request, reply) => CanDeliver(s, request, reply) && s' == Delivery(s, value, request, reply)
    case StartRead =>
      && s.write.Written? && s.write.result.Success? && !s.reading
      && s' == s.(reading := true)
  }

  ghost predicate Init(s: System) {
    && s.write == HighQueued && !s.lowSent && !s.reading && s.replies == {} && s.results == []
    && s.shared == After(s.shared.data, [])
  }

  ghost predicate IsRun(address: int, value: UInt32, states: seq<System>, steps: seq<Step>) {
    && |states| == |steps| + 1
    && Init(states[0])
    && forall i {:trigger steps[i]} :: 0 <= i < |steps| ==> Takes(states[i], address, value, steps[i], states[i + 1])
  }

  // ----- the invariant -----

  /** A reply with status zero says what the word in the device is from then on. */
  ghost predicate Truthful(s: System, address: int, value: UInt32, request: Request, reply: Reply) {
    reply.Reply? && reply.status == 0 ==>
      match request
      case WriteHigh => reply.data == value.high && HoldsWord(s.mem, address, value.high)
      case WriteLow => reply.data == value.low && HoldsWord(s.mem, address + 2, value.low)
      case ReadLow => reply.data == value.low
      case ReadHigh => reply.data == value.high
  }

  ghost predicate RepliesTruthful(s: System, address: int, value: UInt32) {
    forall e :: e in s.replies ==> Truthful(s, address, value, e.0, e.1)
  }

  ghost predicate WriteProgress(s: System, address: int, value: UInt32) {
    match s.write
    case HighQueued => true
    case LowQueued(echo) => echo == value.high && HoldsWord(s.mem, address, value.high)
    case Written(result) => result.Success? ==>
      && result.value == value
      && HoldsWord(s.mem, address, value.high) && HoldsWord(s.mem, address + 2, value.low)
  }

  ghost predicate ReadProgress(s: System, value: UInt32) {
    && (s.reading ==> s.write.Written? && s.write.result.Success?)
    && (s.shared.gotLow && !s.shared.gotHigh ==> s.shared.data == Widened(value.low))
    && forall i :: 0 <= i < |s.results| && s.results[i].Success? ==> s.results[i].value == value
  }

  ghost predicate Inv(s: System, address: int, value: UInt32) {
    && RepliesTruthful(s, address, value) && WriteProgress(s, address, value) && ReadProgress(s, value)
    && (s.write.HighQueued? ==> !s.lowSent)
  }

  lemma ExecutionKeepsWords(s: System, address: int, value: UInt32, request: Request)
    ensures
      var mem' := Execution(s, address, value, request).mem;
      && (HoldsWord(s.mem, address, value.high) ==> HoldsWord(mem', address, value.high))
      && (HoldsWord(s.mem, address + 2, value.low) ==> HoldsWord(mem', address + 2, value.low))
      && (request == WriteHigh && ValidAddress(s.mem, address, 2) ==> HoldsWord(mem', address, value.high))
      && (request == WriteLow && ValidAddress(s.mem, address + 2, 2) ==>
            HoldsWord(mem', address + 2, value.low))
  {
    StoredWord(s.mem, address, value.high);
    StoredWord(s.mem, address + 2, value.low);
    if HoldsWord(s.mem, address, value.high) {
      StoreKeepsOther(s.mem, address + 2, value.low, address, value.high);
    }
    if HoldsWord(s.mem, address + 2, value.low) {
      StoreKeepsOther(s.mem, address, value.high, address + 2, value.low);
    }
  }

  lemma ExecuteKeepsInv(s: System, address: int, value: UInt32, request: Request)
    requires Inv(s, address, value) && Sent(s, request)
    ensures Inv(Execution(s, address, value, request), address, value)
  {
    var s' := Execution(s, address, value, request);
    ExecutionKeepsWords(s, address, value, request);
    if s.reading {
      HeldWordIsRead(s.mem, address, value.high);
      HeldWordIsRead(s.mem, address + 2, value.low);
    }
    forall e | e in s'.replies
      ensures Truthful(s', address, value, e.0, e.1)
    {
      if e in s.replies {
        assert Truthful(s, address, value, e.0, e.1);
      }
    }
  }

  lemma WriteDeliveryKeepsProgress(s: System, address: int, value: UInt32, request: Request, reply: Reply)
    requires WriteProgress(s, address, value) && CanDeliver(s, request, reply)
    requires request == WriteHigh || request == WriteLow
    requires Truthful(s, address, value, request, reply)
    ensures WriteProgress(Delivery(s, value, request, reply), address, value)
  {
  }

  /** What the reader makes of a truthful word. */
  lemma ReactKeepsValue(shared: Shared, value: UInt32, e: Event)
    requires shared.gotLow && !shared.gotHigh ==> shared.data == Widened(value.low)
    requires IsWord(e, Low) ==> e.reply.data == value.low
    requires IsWord(e, High) ==> e.reply.data == value.high
    ensures
      var (shared', action) := React(shared, e);
      && (shared'.gotLow && !shared'.gotHigh ==> shared'.data == Widened(value.low))
      && (action.Report? && action.result.Success? ==> action.result.value == value)
  {
    match ResultOf(e.reply)
    case Failure(code) =>
    case Success(word) =>
      if e.half == High {
        OrCompletes(value.high, value.low);
      }
  }

  lemma ReadDeliveryKeepsProgress(s: System, address: int, value: UInt32, request: Request, reply: Reply)
    requires ReadProgress(s, value) && CanDeliver(s, request, reply)
    requires request == ReadLow || request == ReadHigh
    requires Truthful(s, address, value, request, reply)
    ensures ReadProgress(Delivery(s, value, request, reply), value)
  {
    ReactKeepsValue(s.shared, value, Event(if request == ReadLow then Low else High, reply));
  }

  lemma DeliverKeepsInv(s: System, address: int, value: UInt32, request: Request, reply: Reply)
    requires Inv(s, address, value) && CanDeliver(s, request, reply)
    ensures Inv(Delivery(s, value, request, reply), address, value)
  {
    var s' := Delivery(s, value, request, reply);
    assert Truthful(s, address, value, request, reply) by {
      assert reply.Reply? ==> Truthful(s, address, value, (request, reply).0, (request, reply).1);
    }
    if request == WriteHigh || request == WriteLow {
      WriteDeliveryKeepsProgress(s, address, value, request, reply);
    } else {
      ReadDeliveryKeepsProgress(s, address, value, request, reply);
    }
    assert s'.mem == s.mem && s'.replies == s.replies;
    SameTruth(s, s', address, value);
  }

  lemma SameTruth(s: System, s': System, address: int, value: UInt32)
    requires RepliesTruthful(s, address, value) && s'.mem == s.mem && s'.replies == s.replies
    ensures RepliesTruthful(s', address, value)
  {
    forall e | e in s'.replies
      ensures Truthful(s', address, value, e.0, e.1)
    {
      assert Truthful(s, address, value, e.0, e.1);
    }
  }

  lemma StepKeepsInv(s: System, address: int, value: UInt32, step: Step, s': System)
    requires Inv(s, address, value) && Takes(s, address, value, step, s')
    ensures Inv(s', address, value)
  {
    match step
    case Execute(request) =>
      ExecuteKeepsInv(s, address, value, request);
    case Deliver(request, reply) =>
      DeliverKeepsInv(s, address, value, request, reply);
    case _ =>
      forall e | e in s'.replies
        ensures Truthful(s', address, value, e.0, e.1)
      {
        assert e in s.replies ==> Truthful(s, address, value, e.0, e.1);
      }
  }

  lemma {:induction false} RunKeepsInv(address: int, value: UInt32, states: seq<System>, steps: seq<Step>)
    requires IsRun(address, value, states, steps)
    ensures Inv(states[|steps|], address, value)
    decreases |steps|
  {
    if steps != [] {
      var n := |steps| - 1;
      RunKeepsInv(address, value, states[..n + 1], steps[..n]);
      StepKeepsInv(states[n], address, value, steps[n], states[n + 1]);
    }
  }

  lemma WordsMakeRegister(mem: seq<bv8>, address: int, value: UInt32)
    requires HoldsWord(mem, address, value.high) && HoldsWord(mem, address + 2, value.low)
    ensures mem[address..address + 4] == Encode32(Number(value))
  {
    assert mem[address..address + 4] == mem[address..address + 2] + mem[address + 2..address + 4];
    SplitBytes(value);
  }

  lemma SplitBytes(value: UInt32)
    ensures Encode16(value.high) + Encode16(value.low) == Encode32(Number(value))
  {
  }

  /** When a write has completed, the device holds the value in big-endian order, and whatever a read that starts
      afterwards reports is that value. */
  lemma CompletedWriteIsReadBack(address: int, value: UInt32, states: seq<System>, steps: seq<Step>)
    requires IsRun(address, value, states, steps)
    ensures
      var s := states[|steps|];
      && (s.write.Written? && s.write.result.Success? ==>
            && s.write.result.value == value
            && 0 <= address && address + 4 <= |s.mem| && s.mem[address..address + 4] == Encode32(Number(value)))
      && (forall i :: 0 <= i < |s.results| && s.results[i].Success? ==> s.results[i].value == value)
  {
    RunKeepsInv(address, value, states, steps);
    var s := states[|steps|];
    if s.write.Written? && s.write.result.Success? {
      WordsMakeRegister(s.mem, address, value);
    }
  }

  /** The low word is on its way only after the device has confirmed the high word. */
  ghost predicate HighConfirmed(s: System) {
    s.lowSent ==> exists data :: (WriteHigh, Reply(data, 0)) in s.replies
  }

  lemma {:induction false} LowFollowsHigh(address: int, value: UInt32, states: seq<System>, steps: seq<Step>)
    requires IsRun(address, value, states, steps)
    ensures HighConfirmed(states[|steps|])
    decreases |steps|
  {
    if steps != [] {
      var n := |steps| - 1;
      LowFollowsHigh(address, value, states[..n + 1], steps[..n]);
      assert Takes(states[n], address, value, steps[n], states[n + 1]);
      if !states[n].lowSent && states[n + 1].lowSent {
        var reply := steps[n].reply;
        assert reply == Reply(reply.data, 0) && (WriteHigh, reply) in states[n].replies;
      } else if states[n].lowSent {
        var data :| (WriteHigh, Reply(data, 0)) in states[n].replies;
        assert (WriteHigh, Reply(data, 0)) in states[n + 1].replies;
      }
    }
  }
}
