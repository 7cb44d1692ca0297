/**
 A second 32-bit write to the same register, after a first one has completed. Requests of the first one may still be on
 their way, and the device may carry them out at any time.
 */
module SecondWrite {
  import opened Memory
  import opened UdpIpMemoryAccess
  import opened RegisterTransfer

  /** Which halves of a value are those of the first write. */
  datatype Stale = Stale(high: bool, low: bool)

  function Mixed(first: UInt32, second: UInt32, stale: Stale): UInt32 {
    UInt32(if stale.high then first.high else second.high, if stale.low then first.low else second.low)
  }

  /** The system of the second write. History: whether the device holds the words of the first one, the same for each
      word that it has answered to a read, for the low word that the reader has taken, and for each result. */
  datatype Twice = Twice(
    system: System,
    stale: Stale,
    answers: set<(Half, Reply, bool)>,
    lowStale: bool,
    resultStale: seq<Stale>)

  /** A step of the second write and of reading; `stale` belongs to the word that is delivered. Or a request of the
      first write is carried out late. */
  datatype TwiceStep = Own(step: Step, stale: bool) | Late(half: Half)

  function HalfOf(request: Request): Half {
    if request == WriteHigh || request == ReadHigh then High else Low
  }

  predicate IsRead(request: Request) {
    request == ReadLow || request == ReadHigh
  }

  function StaleHalf(stale: Stale, half: Half): bool {
    if half == High then stale.high else stale.low
  }

  function WithHalf(stale: Stale, half: Half, b: bool): Stale {
    if half == High then stale.(high := b) else stale.(low := b)
  }

  function OwnExecution(t: Twice, address: int, second: UInt32, request: Request): Twice {
    var answer := Answer(t.system.mem, address, second, request);
    t.(system := Execution(t.system, address, second, request),
       stale := if IsRead(request) then t.stale else WithHalf(t.stale, HalfOf(request), false),
       answers := if IsRead(request) then t.answers + {(HalfOf(request), answer, StaleHalf(t.stale, HalfOf(request)))}
                  else t.answers)
  }

  function OwnDelivery(t: Twice, second: UInt32, request: Request, reply: Reply, stale: bool): Twice {
    var s' := Delivery(t.system, second, request, reply);
    t.(system := s',
       lowStale := if !t.system.shared.gotLow && s'.shared.gotLow then stale else t.lowStale,
       resultStale := if |s'.results| > |t.system.results| then t.resultStale + [Stale(stale, t.lowStale)]
                      else t.resultStale)
  }

  function LateExecution(t: Twice, address: int, first: UInt32, half: Half): Twice {
    t.(system := t.system.(mem := Stored(t.system.mem, address, first, if half == High then WriteHigh else WriteLow)),
       stale := WithHalf(t.stale, half, true))
  }

  ghost predicate TwiceTakes(t: Twice, address: int, first: UInt32, second: UInt32, step: TwiceStep, t': Twice) {
    match step
    case Late(half) => t' == LateExecution(t, address, first, half)
    case Own(Execute(request), _) => Sent(t.system, request) && t' == OwnExecution(t, address, second, request)
    case Own(Deliver(request, reply), stale) =>
      && CanDeliver(t.system, request, reply)
      && (IsRead(request) && ResultOf(reply).Success? ==> (HalfOf(request), reply, stale) in t.answers)
      && t' == OwnDelivery(t, second, request, reply, stale)
    case Own(other, _) => Takes(t.system, address, second, other, t'.system) && t' == t.(system := t'.system)
  }

  /** The first write has completed, and nothing of the second one has happened. */
  ghost predicate TwiceInit(t: Twice, address: int, first: UInt32) {
    && Init(t.system)
    && HoldsWord(t.system.mem, address, first.high) && HoldsWord(t.system.mem, address + 2, first.low)
    && t.stale == Stale(true, true) && t.answers == {} && t.resultStale == []
  }

  /** The second write begins in the state of the device in which the first one has left it. */
  lemma FirstWriteCompletes(address: int, first: UInt32, states: seq<System>, steps: seq<Step>, t: Twice)
    requires IsRun(address, first, states, steps)
    requires states[|steps|].write.Written? && states[|steps|].write.result.Success?
    requires Init(t.system) && t.system.mem == states[|steps|].mem
    requires t.stale == Stale(true, true) && t.answers == {} && t.resultStale == []
    ensures TwiceInit(t, address, first)
  {
    RunKeepsInv(address, first, states, steps);
  }

  ghost predicate IsTwiceRun(address: int, first: UInt32, second: UInt32, states: seq<Twice>, steps: seq<TwiceStep>) {
    && |states| == |steps| + 1
    && TwiceInit(states[0], address, first)
    && forall i {:trigger steps[i]} :: 0 <= i < |steps| ==>
         TwiceTakes(states[i], address, first, second, steps[i], states[i + 1])
  }

  // ----- the invariant -----

  ghost predicate Holds(mem: seq<bv8>, address: int, value: UInt32) {
    HoldsWord(mem, address, value.high) && HoldsWord(mem, address + 2, value.low)
  }

  function WordOf(value: UInt32, half: Half): bv16 {
    if half == High then value.high else value.low
  }

  ghost predicate Answered(t: Twice, first: UInt32, second: UInt32) {
    forall e :: e in t.answers ==> e.1 == Reply(WordOf(if e.2 then first else second, e.0), 0)
  }

  ghost predicate Echoed(t: Twice, second: UInt32) {
    && (forall e :: e in t.system.replies && !IsRead(e.0) && ResultOf(e.1).Success? ==>
          e.1.data == WordOf(second, HalfOf(e.0)))
    && (t.system.write.LowQueued? ==> t.system.write.echo == second.high)
    && (t.system.write.Written? && t.system.write.result.Success? ==> t.system.write.result.value == second)
  }

  ghost predicate Reported(t: Twice, first: UInt32, second: UInt32) {
    var shared, results := t.system.shared, t.system.results;
    && (shared.gotLow && !shared.gotHigh ==> shared.data == Widened((if t.lowStale then first else second).low))
    && |t.resultStale| == |results|
    && forall i :: 0 <= i < |results| && results[i].Success? ==>
         results[i].value == Mixed(first, second, t.resultStale[i])
  }

  ghost predicate TwiceInv(t: Twice, address: int, first: UInt32, second: UInt32) {
    && Holds(t.system.mem, address, Mixed(first, second, t.stale))
    && Answered(t, first, second) && Echoed(t, second) && Reported(t, first, second)
  }

  lemma StoreReplacesHalf(mem: seq<bv8>, address: int, held: UInt32, value: UInt32, request: Request)
    requires Holds(mem, address, held)
    ensures Holds(Stored(mem, address, value, request), address,
                  if request == WriteHigh then held.(high := value.high)
                  else if request == WriteLow then held.(low := value.low) else held)
  {
    StoredWord(mem, address, value.high);
    StoredWord(mem, address + 2, value.low);
    StoreKeepsOther(mem, address + 2, value.low, address, held.high);
    StoreKeepsOther(mem, address, value.high, address + 2, held.low);
  }

  lemma ExecutionStores(t: Twice, address: int, first: UInt32, second: UInt32, request: Request)
    requires Holds(t.system.mem, address, Mixed(first, second, t.stale))
    ensures
      var t' := OwnExecution(t, address, second, request);
      Holds(t'.system.mem, address, Mixed(first, second, t'.stale))
  {
    StoreReplacesHalf(t.system.mem, address, Mixed(first, second, t.stale), second, request);
  }

  lemma ExecutionAnswers(t: Twice, address: int, first: UInt32, second: UInt32, request: Request)
    requires Holds(t.system.mem, address, Mixed(first, second, t.stale))
    requires Answered(t, first, second) && Echoed(t, second)
    ensures Answered(OwnExecution(t, address, second, request), first, second)
    ensures Echoed(OwnExecution(t, address, second, request), second)
  {
    var held := Mixed(first, second, t.stale);
    HeldWordIsRead(t.system.mem, address, held.high);
    HeldWordIsRead(t.system.mem, address + 2, held.low);
  }

  lemma ExecutionKeepsTwice(t: Twice, address: int, first: UInt32, second: UInt32, request: Request)
    requires TwiceInv(t, address, first, second)
    ensures TwiceInv(OwnExecution(t, address, second, request), address, first, second)
  {
    ExecutionStores(t, address, first, second, request);
    ExecutionAnswers(t, address, first, second, request);
  }

  lemma LateKeepsTwice(t: Twice, address: int, first: UInt32, second: UInt32, half: Half)
    requires TwiceInv(t, address, first, second)
    ensures TwiceInv(LateExecution(t, address, first, half), address, first, second)
  {
    StoreReplacesHalf(t.system.mem, address, Mixed(first, second, t.stale), first,
                      if half == High then WriteHigh else WriteLow);
  }

  lemma DeliveryKeepsTwice(t: Twice, address: int, first: UInt32, second: UInt32, request: Request, reply: Reply,
                           stale: bool)
    requires TwiceInv(t, address, first, second) && CanDeliver(t.system, request, reply)
    requires IsRead(request) && ResultOf(reply).Success? ==> (HalfOf(request), reply, stale) in t.answers
    ensures TwiceInv(OwnDelivery(t, second, request, reply, stale), address, first, second)
  {
    if request == ReadLow {
      LowKeepsReported(t, first, second, reply, stale);
    } else if request == ReadHigh {
      HighKeepsReported(t, first, second, reply, stale);
    } else if ResultOf(reply).Success? {
      assert (request, reply).1.data == WordOf(second, HalfOf(request));
    }
  }

  lemma LowKeepsReported(t: Twice, first: UInt32, second: UInt32, reply: Reply, stale: bool)
    requires Reported(t, first, second) && Answered(t, first, second)
    requires ResultOf(reply).Success? ==> (Low, reply, stale) in t.answers
    ensures Reported(OwnDelivery(t, second, ReadLow, reply, stale), first, second)
  {
    if ResultOf(reply).Success? {
      assert (Low, reply, stale).1 == Reply((if stale then first else second).low, 0);
    }
  }

  lemma HighKeepsReported(t: Twice, first: UInt32, second: UInt32, reply: Reply, stale: bool)
    requires Reported(t, first, second) && Answered(t, first, second)
    requires ResultOf(reply).Success? ==> (High, reply, stale) in t.answers
    ensures Reported(OwnDelivery(t, second, ReadHigh, reply, stale), first, second)
  {
    if ResultOf(reply).Success? {
      assert (High, reply, stale).1 == Reply((if stale then first else second).high, 0);
    }
    ReactKeepsValue(t.system.shared, Mixed(first, second, Stale(stale, t.lowStale)), Event(High, reply));
  }

  lemma TwiceStepKeepsInv(t: Twice, address: int, first: UInt32, second: UInt32, step: TwiceStep, t': Twice)
    requires TwiceInv(t, address, first, second) && TwiceTakes(t, address, first, second, step, t')
    ensures TwiceInv(t', address, first, second)
  {
    match step
    case Late(half) =>
      LateKeepsTwice(t, address, first, second, half);
    case Own(Execute(request), _) =>
      ExecutionKeepsTwice(t, address, first, second, request);
    case Own(Deliver(request, reply), stale) =>
      DeliveryKeepsTwice(t, address, first, second, request, reply, stale);
    case Own(_, _) =>
  }

  lemma {:induction false} TwiceRunKeepsInv(address: int, first: UInt32, second: UInt32, states: seq<Twice>,
                                            steps: seq<TwiceStep>)
    requires IsTwiceRun(address, first, second, states, steps)
    ensures TwiceInv(states[|steps|], address, first, second)
    decreases |steps|
  {
    if steps != [] {
      var n := |steps| - 1;
      TwiceRunKeepsInv(address, first, second, states[..n + 1], steps[..n]);
      TwiceStepKeepsInv(states[n], address, first, second, steps[n], states[n + 1]);
    }
  }

  // ----- what the history fields mean -----

  predicate Executes(step: TwiceStep, half: Half) {
    step.Own? && step.step.Execute? && !IsRead(step.step.request) && HalfOf(step.step.request) == half
  }

  /** A request of the first write was the last one to store the word. */
  ghost predicate LateLast(steps: seq<TwiceStep>, half: Half) {
    exists k :: 0 <= k < |steps| && LateSince(steps, k, half)
  }

  ghost predicate LateSince(steps: seq<TwiceStep>, k: nat, half: Half)
    requires k < |steps|
  {
    steps[k] == Late(half) && forall j :: k < j < |steps| ==> !Executes(steps[j], half)
  }

  ghost predicate Executed(steps: seq<TwiceStep>, half: Half) {
    exists k :: 0 <= k < |steps| && Executes(steps[k], half)
  }

  lemma OneMoreStep(steps: seq<TwiceStep>, step: TwiceStep, half: Half)
    ensures LateLast(steps + [step], half) <==> step == Late(half) || (LateLast(steps, half) && !Executes(step, half))
    ensures Executed(steps + [step], half) <==> Executed(steps, half) || Executes(step, half)
  {
    var longer := steps + [step];
    assert longer[|steps|] == step;
    assert Executes(step, half) ==> Executed(longer, half);
    assert step == Late(half) ==> LateSince(longer, |steps|, half);
    forall k | 0 <= k < |steps|
      ensures LateSince(longer, k, half) <==> LateSince(steps, k, half) && !Executes(step, half)
      ensures Executes(steps[k], half) ==> Executed(longer, half)
    {
      assert longer[k] == steps[k];
      assert forall j :: k < j < |steps| ==> longer[j] == steps[j];
    }
  }

  /** A half is stale until the second write has stored it, and after a late request of the first one. */
  ghost predicate StaleTells(t: Twice, steps: seq<TwiceStep>) {
    forall half :: StaleHalf(t.stale, half) <==> LateLast(steps, half) || !Executed(steps, half)
  }

  /** Success comes from the device. */
  ghost predicate SuccessTells(t: Twice, steps: seq<TwiceStep>) {
    && (forall e :: e in t.system.replies && !IsRead(e.0) && ResultOf(e.1).Success? ==> Executed(steps, HalfOf(e.0)))
    && (t.system.write.LowQueued? ==> Executed(steps, High))
    && (t.system.write.Written? && t.system.write.result.Success? ==> Executed(steps, High) && Executed(steps, Low))
  }

  lemma StepTellsStale(t: Twice, address: int, first: UInt32, second: UInt32, step: TwiceStep, t': Twice,
                       steps: seq<TwiceStep>)
    requires TwiceTakes(t, address, first, second, step, t') && StaleTells(t, steps)
    ensures StaleTells(t', steps + [step])
  {
    OneMoreStep(steps, step, High);
    OneMoreStep(steps, step, Low);
  }

  lemma StepTellsSuccess(t: Twice, address: int, first: UInt32, second: UInt32, step: TwiceStep, t': Twice,
                         steps: seq<TwiceStep>)
    requires TwiceTakes(t, address, first, second, step, t') && SuccessTells(t, steps)
    ensures SuccessTells(t', steps + [step])
  {
    OneMoreStep(steps, step, High);
    OneMoreStep(steps, step, Low);
    if step.Own? && step.step.Deliver? {
      var e := (step.step.request, step.step.reply);
      assert e in t.system.replies && !IsRead(e.0) && ResultOf(e.1).Success? ==> Executed(steps, HalfOf(e.0));
    }
  }

  lemma {:induction false} RunTells(address: int, first: UInt32, second: UInt32, states: seq<Twice>,
                                    steps: seq<TwiceStep>)
    requires IsTwiceRun(address, first, second, states, steps)
    ensures StaleTells(states[|steps|], steps) && SuccessTells(states[|steps|], steps)
    decreases |steps|
  {
    if steps != [] {
      var n := |steps| - 1;
      RunTells(address, first, second, states[..n + 1], steps[..n]);
      StepTellsStale(states[n], address, first, second, steps[n], states[n + 1], steps[..n]);
      StepTellsSuccess(states[n], address, first, second, steps[n], states[n + 1], steps[..n]);
      assert steps == steps[..n] + [steps[n]];
    }
  }

  // ----- the register, and what a read makes of it -----

  /** A late request of the first write was the last one to store a word in which the two values differ. */
  ghost predicate Undone(first: UInt32, second: UInt32, steps: seq<TwiceStep>, half: Half) {
    LateLast(steps, half) && WordOf(first, half) != WordOf(second, half)
  }

  lemma MixedIsSecond(first: UInt32, second: UInt32, stale: Stale)
    ensures Mixed(first, second, stale) == second
            <==> (stale.high ==> first.high == second.high) && (stale.low ==> first.low == second.low)
  {
  }

  lemma RegisterTellsValue(mem: seq<bv8>, address: int, held: UInt32, value: UInt32)
    requires Holds(mem, address, held)
    ensures mem[address..address + 4] == Encode32(Number(value)) <==> held == value
  {
    WordsMakeRegister(mem, address, held);
    SplitBytes(held);
    SplitBytes(value);
    DecodeEncode16(held.high);
    DecodeEncode16(held.low);
    DecodeEncode16(value.high);
    DecodeEncode16(value.low);
    var h, v := Encode16(held.high) + Encode16(held.low), Encode16(value.high) + Encode16(value.low);
    assert h[..2] == Encode16(held.high) && h[2..] == Encode16(held.low);
    assert v[..2] == Encode16(value.high) && v[2..] == Encode16(value.low);
  }

  /** In every run, when the second write has completed, the register holds its value if and only if no late request of
      the first write has undone one of its halves. A read reports it if and only if neither half was so when the device
      answered. */
  lemma SecondWriteIsReadBack(address: int, first: UInt32, second: UInt32, states: seq<Twice>, steps: seq<TwiceStep>)
    requires IsTwiceRun(address, first, second, states, steps)
    ensures
      var s := states[|steps|].system;
      s.write.Written? && s.write.result.Success? ==>
        && s.write.result.value == second
        && 0 <= address && address + 4 <= |s.mem|
        && (s.mem[address..address + 4] == Encode32(Number(second))
            <==> !Undone(first, second, steps, High) && !Undone(first, second, steps, Low))
    ensures
      var results, stale := states[|steps|].system.results, states[|steps|].resultStale;
      && |stale| == |results|
      && forall i :: 0 <= i < |results| && results[i].Success? ==>
           (results[i].value == second
            <==> (stale[i].high ==> first.high == second.high) && (stale[i].low ==> first.low == second.low))
  {
    var t := states[|steps|];
    TwiceRunKeepsInv(address, first, second, states, steps);
    RunTells(address, first, second, states, steps);
    MixedIsSecond(first, second, t.stale);
    RegisterTellsValue(t.system.mem, address, Mixed(first, second, t.stale), second);
    forall i | 0 <= i < |t.resultStale|
      ensures Mixed(first, second, t.resultStale[i]) == second
              <==> (t.resultStale[i].high ==> first.high == second.high)
                   && (t.resultStale[i].low ==> first.low == second.low)
    {
      MixedIsSecond(first, second, t.resultStale[i]);
    }
  }

  /** The second write completes, and then a request of the first one arrives late. */
  lemma LateRequestUndoes(address: int, first: UInt32, second: UInt32, mem: seq<bv8>)
    returns (states: seq<Twice>, steps: seq<TwiceStep>)
    requires Holds(mem, address, first) && first.high != second.high
    ensures IsTwiceRun(address, first, second, states, steps)
    ensures states[0].system.mem == mem
    ensures states[|steps|].system.write == Written(Success(second))
    ensures 0 <= address && address + 4 <= |states[|steps|].system.mem|
            && states[|steps|].system.mem[address..address + 4] != Encode32(Number(second))
  {
    var high, low := Reply(second.high, 0), Reply(second.low, 0);
    var s := System(mem, HighQueued, false, false, After(first, []), {}, []);
    var t0 := Twice(s, Stale(true, true), {}, false, []);
    var t1 := OwnExecution(t0, address, second, WriteHigh);
    var t2 := OwnDelivery(t1, second, WriteHigh, high, false);
    var t3 := OwnExecution(t2, address, second, WriteLow);
    var t4 := OwnDelivery(t3, second, WriteLow, low, false);
    var t5 := LateExecution(t4, address, first, High);
    states := [t0, t1, t2, t3, t4, t5];
    steps := [Own(Execute(WriteHigh), false), Own(Deliver(WriteHigh, high), false), Own(Execute(WriteLow), false),
              Own(Deliver(WriteLow, low), false), Late(High)];
    assert TwiceTakes(t0, address, first, second, steps[0], t1);
    assert TwiceTakes(t1, address, first, second, steps[1], t2);
    assert TwiceTakes(t2, address, first, second, steps[2], t3);
    assert TwiceTakes(t3, address, first, second, steps[3], t4);
    assert LateSince(steps, 4, High);
    SecondWriteIsReadBack(address, first, second, states, steps);
  }
}
