/**
 32-bit registers over a protocol that transfers 16-bit words: what a read makes of replies in any order and
 number, and what a write queues when.
 */
module UdpIpMemoryAccess {

  datatype ErrorCode = Unknown | InvalidAddress | FpgaTimeout | NetworkTimeout | InvalidCommand

  /** How a request ends: with an exception, or with the data and the status that the device sent. */
  datatype Reply = Timeout | OtherException | Reply(data: bv16, status: int)

  datatype Result<+T> = Success(value: T) | Failure(code: ErrorCode)

  function StatusToErrorCode(status: int): ErrorCode {
    match status
    case -1 => InvalidAddress
    case -2 => FpgaTimeout
    case -3 => InvalidCommand
    case _ => Unknown
  }

  function ResultOf(reply: Reply): Result<bv16> {
    match reply
    case Timeout => Failure(NetworkTimeout)
    case OtherException => Failure(Unknown)
    case Reply(data, status) => if status != 0 then Failure(StatusToErrorCode(status)) else Success(data)
  }

  /** A 32-bit value as its two halves. */
  datatype UInt32 = UInt32(high: bv16, low: bv16)

  /** The value is a big-endian number. */
  function Number(value: UInt32): bv32 {
    ((value.high as bv32) << 16) | (value.low as bv32)
  }

  /** A 16-bit word as a 32-bit value. */
  function Widened(word: bv16): UInt32 {
    UInt32(0, word)
  }

  /** The bitwise union with a word that was shifted into the high half. */
  function OrHigh(value: UInt32, word: bv16): UInt32 {
    UInt32(value.high | word, value.low)
  }

  // ----- reading -----

  datatype Half = Low | High

  /** A reply to the request for one half of the register. */
  datatype Event = Event(half: Half, reply: Reply)

  /** What one event makes the reader do. */
  datatype Action = Nothing | RequestHigh | Report(result: Result<UInt32>)

  datatype Shared = Shared(data: UInt32, gotLow: bool, gotHigh: bool, failed: bool)

  function Fail(s: Shared, code: ErrorCode): (Shared, Action) {
    if s.failed then (s, Nothing)
    else (s.(failed := true), if s.gotLow && s.gotHigh then Nothing else Report(Failure(code)))
  }

  function ReceiveLow(s: Shared, word: bv16): (Shared, Action) {
    if s.failed || s.gotLow then (s, Nothing)
    else (s.(gotLow := true, data := Widened(word), gotHigh := false), if s.gotHigh then RequestHigh else Nothing)
  }

  function ReceiveHigh(s: Shared, word: bv16): (Shared, Action) {
    if s.failed || s.gotHigh then (s, Nothing)
    else
      var data := OrHigh(s.data, word);
      (s.(gotHigh := true, data := data), if s.gotLow then Report(Success(data)) else Nothing)
  }

  function React(s: Shared, e: Event): (Shared, Action) {
    match ResultOf(e.reply)
    case Failure(code) => Fail(s, code)
    case Success(word) => if e.half == Low then ReceiveLow(s, word) else ReceiveHigh(s, word)
  }

  /** The state after a list of events. The data is not initialized. */
  function After(data: UInt32, events: seq<Event>): Shared {
    if events == [] then Shared(data, false, false, false)
    else React(After(data, events[..|events| - 1]), events[|events| - 1]).0
  }

  function ActionAt(data: UInt32, events: seq<Event>, k: nat): Action
    requires k < |events|
  {
    React(After(data, events[..k]), events[k]).1
  }

  class UInt32ReadShared {
    var data: UInt32
    var gotLow: bool
    var gotHigh: bool
    var failed: bool

    function State(): Shared
      reads this
    {
      Shared(data, gotLow, gotHigh, failed)
    }

    constructor ()
      ensures State() == After(data, [])
    {
      gotLow, gotHigh, failed := false, false, false;
    }

    method ReceivedLow(word: bv16) returns (action: Action)
      modifies this
      ensures (State(), action) == ReceiveLow(old(State()), word)
    {
      if failed || gotLow {
        return Nothing;
      }
      gotLow := true;
      data := Widened(word);
      action := if gotHigh then RequestHigh else Nothing;
      gotHigh := false;
    }

    method ReceivedHigh(word: bv16) returns (action: Action)
      modifies this
      ensures (State(), action) == ReceiveHigh(old(State()), word)
    {
      if failed || gotHigh {
        return Nothing;
      }
      gotHigh := true;
      data := OrHigh(data, word);
      action := if gotLow then Report(Success(data)) else Nothing;
    }

    method Failed(code: ErrorCode) returns (action: Action)
      modifies this
      ensures (State(), action) == Fail(old(State()), code)
    {
      if failed {
        return Nothing;
      }
      failed := true;
      action := if gotLow && gotHigh then Nothing else Report(Failure(code));
    }

    /** The callback of a request for one half. */
    method Callback(e: Event) returns (action: Action)
      modifies this
      ensures (State(), action) == React(old(State()), e)
    {
      match ResultOf(e.reply)
      case Failure(code) =>
        action := Failed(code);
      case Success(word) =>
        if e.half == Low {
          action := ReceivedLow(word);
        } else {
          action := ReceivedHigh(word);
        }
    }
  }

  // ----- which events decide -----

  predicate IsFailure(e: Event) {
    ResultOf(e.reply).Failure?
  }

  predicate IsWord(e: Event, half: Half) {
    ResultOf(e.reply).Success? && e.half == half
  }

  /** The first event from `from` on that brings a word of the given half, or the number of events. */
  function FirstWord(events: seq<Event>, half: Half, from: nat): (k: nat)
    requires from <= |events|
    ensures from <= k <= |events|
    ensures k < |events| ==> IsWord(events[k], half)
    ensures forall j :: from <= j < k ==> !IsWord(events[j], half)
    decreases |events| - from
  {
    if from == |events| || IsWord(events[from], half) then from else FirstWord(events, half, from + 1)
  }

  /** No failure has arrived. */
  ghost predicate Undisturbed(events: seq<Event>) {
    forall j :: 0 <= j < |events| ==> !IsFailure(events[j])
  }

  function LowAt(events: seq<Event>): (k: nat)
    ensures k <= |events|
  {
    FirstWord(events, Low, 0)
  }

  /** The first high word after the first low word; before that, the first high word. */
  function HighAt(events: seq<Event>): (k: nat)
    ensures k <= |events|
  {
    FirstWord(events, High, if LowAt(events) < |events| then LowAt(events) + 1 else 0)
  }

  function WordAt(events: seq<Event>, k: nat): bv16
    requires k < |events| && ResultOf(events[k].reply).Success?
  {
    ResultOf(events[k].reply).value
  }

  /** The read is complete: the events bring a low word and later a high word. */
  predicate Complete(events: seq<Event>) {
    LowAt(events) < |events| && HighAt(events) < |events|
  }

  /** What the reader should do about an event after the given earlier ones. */
  ghost function Expected(earlier: seq<Event>, e: Event): Action {
    if !Undisturbed(earlier) || Complete(earlier) then Nothing
    else
      match ResultOf(e.reply)
      case Failure(code) => Report(Failure(code))
      case Success(word) =>
        if e.half == Low && LowAt(earlier) == |earlier| && HighAt(earlier) < |earlier| then RequestHigh
        else if e.half == High && LowAt(earlier) < |earlier| then
          Report(Success(UInt32(word, WordAt(earlier, LowAt(earlier)))))
        else Nothing
  }

  /** What the state says about the events so far. */
  ghost predicate Summary(s: Shared, events: seq<Event>) {
    && (s.failed <==> !Undisturbed(events))
    && (!s.failed ==>
          && (s.gotLow <==> LowAt(events) < |events|)
          && (s.gotHigh <==> HighAt(events) < |events|)
          && (s.gotLow && !s.gotHigh ==> s.data == Widened(WordAt(events, LowAt(events)))))
  }

  lemma {:induction false} FirstWordGrows(events: seq<Event>, e: Event, half: Half, from: nat)
    requires from <= |events|
    ensures FirstWord(events + [e], half, from) ==
              if FirstWord(events, half, from) < |events| then FirstWord(events, half, from)
              else if IsWord(e, half) then |events| else |events| + 1
    decreases |events| - from
  {
    if from < |events| {
      assert (events + [e])[from] == events[from];
      FirstWordGrows(events, e, half, from + 1);
    } else {
      assert (events + [e])[from] == e;
    }
  }

  lemma UndisturbedGrows(events: seq<Event>, e: Event)
    ensures Undisturbed(events + [e]) <==> Undisturbed(events) && !IsFailure(e)
  {
    assert (events + [e])[|events|] == e;
    assert forall j :: 0 <= j < |events| ==> (events + [e])[j] == events[j];
  }

  lemma OrCompletes(word: bv16, low: bv16)
    ensures OrHigh(Widened(low), word) == UInt32(word, low)
  {
  }

  /** How one more event moves the positions of the deciding words. */
  lemma PositionsGrow(events: seq<Event>, e: Event)
    ensures LowAt(events + [e]) ==
              if LowAt(events) < |events| then LowAt(events)
              else if IsWord(e, Low) then |events| else |events| + 1
    ensures HighAt(events + [e]) ==
              if LowAt(events) == |events| && IsWord(e, Low) then |events| + 1
              else if HighAt(events) < |events| then HighAt(events)
              else if IsWord(e, High) then |events| else |events| + 1
    ensures LowAt(events) < |events| ==> WordAt(events + [e], LowAt(events + [e])) == WordAt(events, LowAt(events))
    ensures LowAt(events) == |events| && IsWord(e, Low) ==>
              WordAt(events + [e], LowAt(events + [e])) == ResultOf(e.reply).value
  {
    FirstWordGrows(events, e, Low, 0);
    if LowAt(events) < |events| {
      FirstWordGrows(events, e, High, LowAt(events) + 1);
      assert (events + [e])[LowAt(events)] == events[LowAt(events)];
    } else {
      FirstWordGrows(events, e, High, 0);
      assert (events + [e])[|events|] == e;
    }
  }

  lemma StepKeepsSummary(s: Shared, events: seq<Event>, e: Event)
    requires Summary(s, events)
    ensures Summary(React(s, e).0, events + [e])
  {
    UndisturbedGrows(events, e);
    PositionsGrow(events, e);
  }

  lemma {:induction false} SummaryAfter(data: UInt32, events: seq<Event>)
    ensures Summary(After(data, events), events)
  {
    if events != [] {
      var earlier, e := events[..|events| - 1], events[|events| - 1];
      SummaryAfter(data, earlier);
      StepKeepsSummary(After(data, earlier), earlier, e);
      assert earlier + [e] == events;
    }
  }

  /** For any order, number and mixture of replies the reader does exactly what is expected of it: it reports the
      first failure unless the value is complete before, asks for the high word again if that came before the low
      word, and otherwise reports the first high word after the first low word, joined with it. The uninitialized
      data never shows. */
  lemma ReaderActsAsExpected(data: UInt32, events: seq<Event>, k: nat)
    requires k < |events|
    ensures ActionAt(data, events, k) == Expected(events[..k], events[k])
  {
    SummaryAfter(data, events[..k]);
    if ResultOf(events[k].reply).Success? && LowAt(events[..k]) < k {
      OrCompletes(ResultOf(events[k].reply).value, WordAt(events[..k], LowAt(events[..k])));
    }
  }

  lemma {:induction false} ProgressStays(events: seq<Event>, k: nat, n: nat)
    requires k <= n <= |events|
    ensures !Undisturbed(events[..k]) ==> !Undisturbed(events[..n])
    ensures Complete(events[..k]) ==> Complete(events[..n])
    ensures LowAt(events[..k]) < k ==> LowAt(events[..n]) < n
    decreases n - k
  {
    if k < n {
      ProgressStays(events, k, n - 1);
      var earlier, e := events[..n - 1], events[n - 1];
      assert events[..n] == earlier + [e];
      UndisturbedGrows(earlier, e);
      FirstWordGrows(earlier, e, Low, 0);
      if LowAt(earlier) < n - 1 {
        FirstWordGrows(earlier, e, High, LowAt(earlier) + 1);
      }
    }
  }

  /** At most one result is reported, and the high word is requested again at most once. */
  lemma ReportsOnce(data: UInt32, events: seq<Event>, k: nat, n: nat)
    requires k < n < |events|
    ensures ActionAt(data, events, k).Report? ==> ActionAt(data, events, n) == Nothing
    ensures ActionAt(data, events, k).RequestHigh? ==> !ActionAt(data, events, n).RequestHigh?
  {
    ReaderActsAsExpected(data, events, k);
    ReaderActsAsExpected(data, events, n);
    var earlier, e := events[..k], events[k];
    assert events[..k + 1] == earlier + [e];
    UndisturbedGrows(earlier, e);
    FirstWordGrows(earlier, e, Low, 0);
    if LowAt(earlier) < k {
      FirstWordGrows(earlier, e, High, LowAt(earlier) + 1);
    }
    ProgressStays(events, k + 1, n);
  }

  /** Event i brings the first low word, and event k may bring the first high word after it. */
  ghost predicate LowThenHigh(events: seq<Event>, i: nat, k: nat)
    requires k < |events|
  {
    && i < k && IsWord(events[i], Low) && (forall j :: 0 <= j < i ==> !IsWord(events[j], Low))
    && forall j :: i < j < k ==> !IsWord(events[j], High)
  }

  lemma LowThenHighPositions(events: seq<Event>, i: nat, k: nat)
    requires k < |events|
    ensures LowThenHigh(events, i, k) <==> LowAt(events[..k]) == i < k && HighAt(events[..k]) == k
  {
    var earlier := events[..k];
    assert forall j :: 0 <= j < k ==> earlier[j] == events[j];
    if LowThenHigh(events, i, k) {
      assert IsWord(earlier[i], Low);
    }
  }

  /** What is expected of the reader, in terms of success. */
  lemma ExpectedSuccess(earlier: seq<Event>, e: Event, value: UInt32)
    ensures Expected(earlier, e) == Report(Success(value)) <==>
              && Undisturbed(earlier) && LowAt(earlier) < |earlier| && HighAt(earlier) == |earlier|
              && IsWord(e, High) && value == UInt32(ResultOf(e.reply).value, WordAt(earlier, LowAt(earlier)))
  {
  }

  /** A value is reported exactly when the first high word after the first low word arrives undisturbed, and it is
      made of these two words. */
  lemma SuccessIsHighAfterLow(data: UInt32, events: seq<Event>, k: nat, value: UInt32)
    requires k < |events|
    ensures ActionAt(data, events, k) == Report(Success(value)) <==>
              && Undisturbed(events[..k + 1])
              && IsWord(events[k], High)
              && exists i :: LowThenHigh(events, i, k) && value == UInt32(WordAt(events, k), WordAt(events, i))
  {
    var earlier := events[..k];
    assert events[..k + 1] == earlier + [events[k]];
    ReaderActsAsExpected(data, events, k);
    UndisturbedGrows(earlier, events[k]);
    ExpectedSuccess(earlier, events[k], value);
    forall i: nat
      ensures LowThenHigh(events, i, k) <==> LowAt(earlier) == i < k && HighAt(earlier) == k
    {
      LowThenHighPositions(events, i, k);
    }
    assert LowThenHigh(events, LowAt(earlier), k) <==> LowAt(earlier) < k && HighAt(earlier) == k;
  }
}
