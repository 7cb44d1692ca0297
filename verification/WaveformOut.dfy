/**
 The waveform output record: it writes the elements of an array to registers of the device, and with the right
 option only those that are not known to be there already.
 */
module WaveformOut {
  import opened Common

  type UInt32 = x: int | 0 <= x < ADDRESS_SPACE

  datatype Config = Config(address: UInt32, elementDistance: nat, verify: bool, changedElementsOnly: bool)

  // ----- addresses -----

  function Stride(cfg: Config): nat {
    4 + cfg.elementDistance
  }

  /** The address of an element as a 32-bit number. */
  function ElementAddress(cfg: Config, i: nat): UInt32 {
    (cfg.address + Stride(cfg) * i) % ADDRESS_SPACE
  }

  /** The callback gets an address and computes the element from it; the difference wraps. */
  function ElementIndex(cfg: Config, address: UInt32): nat {
    ((address - cfg.address) % ADDRESS_SPACE) / Stride(cfg)
  }

  lemma OffsetOfElement(cfg: Config, i: nat)
    ensures (ElementAddress(cfg, i) - cfg.address) % ADDRESS_SPACE == (Stride(cfg) * i) % ADDRESS_SPACE
  {
    var x := Stride(cfg) * i;
    var q := (cfg.address + x) / ADDRESS_SPACE;
    assert ElementAddress(cfg, i) - cfg.address == x - q * ADDRESS_SPACE;
    WrapDropsMultiples(x, q);
  }

  lemma WrapDropsMultiples(x: int, q: int)
    ensures (x - q * ADDRESS_SPACE) % ADDRESS_SPACE == x % ADDRESS_SPACE
  {
  }

  lemma Quotient(stride: nat, x: nat, i: nat)
    requires stride > 0
    ensures x / stride == i <==> stride * i <= x < stride * (i + 1)
  {
    var q := x / stride;
    assert stride * q <= x < stride * q + stride;
    if q < i {
      assert stride * i >= stride * (q + 1);
    }
    if q > i {
      assert stride * q >= stride * (i + 1);
    }
  }

  /** Every element is found again by its address exactly if the array does not reach around the address space. */
  lemma IndexIsRecovered(cfg: Config, nelm: nat)
    ensures (forall i :: 0 <= i < nelm ==> ElementIndex(cfg, ElementAddress(cfg, i)) == i)
            <==> nelm == 0 || Stride(cfg) * (nelm - 1) < ADDRESS_SPACE
  {
    forall i: nat
      ensures ElementIndex(cfg, ElementAddress(cfg, i)) == i <==> Stride(cfg) * i < ADDRESS_SPACE
    {
      IndexOf(cfg, i);
    }
    if nelm > 0 {
      if Stride(cfg) * (nelm - 1) < ADDRESS_SPACE {
        forall i | 0 <= i < nelm
          ensures Stride(cfg) * i < ADDRESS_SPACE
        {
          assert Stride(cfg) * i <= Stride(cfg) * (nelm - 1);
        }
      } else {
        assert ElementIndex(cfg, ElementAddress(cfg, nelm - 1)) != nelm - 1;
      }
    }
  }

  lemma OffsetIndex(stride: nat, i: nat, x: nat)
    requires stride > 0 && x == stride * i
    ensures x % ADDRESS_SPACE / stride == i <==> x < ADDRESS_SPACE
  {
    Quotient(stride, x % ADDRESS_SPACE, i);
    assert stride * (i + 1) == x + stride;
    if x >= ADDRESS_SPACE {
      assert x % ADDRESS_SPACE < x;
    }
  }

  lemma IndexOf(cfg: Config, i: nat)
    ensures ElementIndex(cfg, ElementAddress(cfg, i)) == i <==> Stride(cfg) * i < ADDRESS_SPACE
  {
    OffsetOfElement(cfg, i);
    OffsetIndex(Stride(cfg), i, Stride(cfg) * i);
  }

  /** The whole array, with the gaps, fits into the address space. */
  ghost predicate Fits(cfg: Config, nelm: nat) {
    Stride(cfg) * nelm <= ADDRESS_SPACE
  }

  lemma FitsElement(cfg: Config, nelm: nat, i: nat)
    requires Fits(cfg, nelm) && i < nelm
    ensures Stride(cfg) * i + Stride(cfg) <= ADDRESS_SPACE
    ensures ElementIndex(cfg, ElementAddress(cfg, i)) == i
  {
    assert Stride(cfg) * i + Stride(cfg) == Stride(cfg) * (i + 1) <= Stride(cfg) * nelm;
    IndexOf(cfg, i);
  }

  lemma OffsetsApart(stride: nat, i: nat, j: nat, a: nat, b: nat)
    requires stride >= 4 && i < j && a < 4 && b < 4
    ensures stride * i + a < stride * j + b
  {
    assert stride * j == stride * (i + 1) + stride * (j - i - 1);
  }

  /** Then no two elements share a byte. */
  lemma ElementsDisjoint(cfg: Config, nelm: nat, i: nat, j: nat, a: nat, b: nat)
    requires Fits(cfg, nelm) && i < nelm && j < nelm && i != j && a < 4 && b < 4
    ensures (ElementAddress(cfg, i) + a) % ADDRESS_SPACE != (ElementAddress(cfg, j) + b) % ADDRESS_SPACE
  {
    ByteOfElement(cfg, i, a);
    ByteOfElement(cfg, j, b);
    OffsetsDiffer(cfg, nelm, i, j, a, b);
    ShiftedApart(cfg.address, Stride(cfg) * i + a, Stride(cfg) * j + b);
  }

  lemma OffsetsDiffer(cfg: Config, nelm: nat, i: nat, j: nat, a: nat, b: nat)
    requires Fits(cfg, nelm) && i < nelm && j < nelm && i != j && a < 4 && b < 4
    ensures Stride(cfg) * i + a < ADDRESS_SPACE && Stride(cfg) * j + b < ADDRESS_SPACE
    ensures Stride(cfg) * i + a != Stride(cfg) * j + b
  {
    FitsElement(cfg, nelm, i);
    FitsElement(cfg, nelm, j);
    if i < j {
      OffsetsApart(Stride(cfg), i, j, a, b);
    } else {
      OffsetsApart(Stride(cfg), j, i, b, a);
    }
  }

  lemma ByteOfElement(cfg: Config, i: nat, a: nat)
    ensures (ElementAddress(cfg, i) + a) % ADDRESS_SPACE == (cfg.address + (Stride(cfg) * i + a)) % ADDRESS_SPACE
  {
    var x := cfg.address + Stride(cfg) * i;
    assert x % ADDRESS_SPACE + a == x + a - (x / ADDRESS_SPACE) * ADDRESS_SPACE;
    WrapDropsMultiples(x + a, x / ADDRESS_SPACE);
  }

  lemma ShiftedApart(base: UInt32, x: nat, y: nat)
    requires x < ADDRESS_SPACE && y < ADDRESS_SPACE && x != y
    ensures (base + x) % ADDRESS_SPACE != (base + y) % ADDRESS_SPACE
  {
  }

  // ----- the record -----

  datatype Record = Record(
    values: seq<UInt32>,            // the array, as 32-bit numbers
    lastValueWritten: seq<UInt32>,
    lastValueWrittenValid: seq<bool>,
    pendingWriteRequests: nat,
    writeSuccessful: bool,
    pact: bool,
    processRequests: nat)           // how often processing was requested and has not happened

  predicate WellFormed(r: Record) {
    |r.lastValueWritten| == |r.values| && |r.lastValueWrittenValid| == |r.values|
  }

  /** Processing starts; the count of one keeps synchronous callbacks from finishing it. */
  function Begin(r: Record): Record {
    r.(writeSuccessful := true, pendingWriteRequests := 1)
  }

  predicate NeedsWrite(cfg: Config, r: Record, i: nat)
    requires WellFormed(r) && i < |r.values|
  {
    !cfg.changedElementsOnly || !r.lastValueWrittenValid[i] || r.lastValueWritten[i] != r.values[i]
  }

  /** One round of the loop, up to the request. */
  function PrepareElement(cfg: Config, r: Record, i: nat): Record
    requires WellFormed(r) && i < |r.values|
  {
    if NeedsWrite(cfg, r, i)
    then r.(lastValueWrittenValid := r.lastValueWrittenValid[i := false],
            lastValueWritten := r.lastValueWritten[i := r.values[i]],
            pendingWriteRequests := r.pendingWriteRequests + 1)
    else r
  }

  /** The loop is done; nothing may be left to wait for. */
  function End(r: Record): Record
    requires r.pendingWriteRequests > 0
  {
    r.(pendingWriteRequests := r.pendingWriteRequests - 1, pact := r.pendingWriteRequests > 1)
  }

  /** Whether the cycle is over without waiting. */
  predicate EndsAtOnce(r: Record) {
    r.pendingWriteRequests == 1
  }

  function CountDown(r: Record): Record
    requires r.pendingWriteRequests > 0
  {
    r.(pendingWriteRequests := r.pendingWriteRequests - 1,
       processRequests := r.processRequests + if r.pendingWriteRequests == 1 then 1 else 0)
  }

  function Confirm(cfg: Config, r: Record, address: UInt32, value: UInt32): Record
    requires WellFormed(r)
  {
    var i := ElementIndex(cfg, address);
    if i >= |r.lastValueWritten| then r
    else if !cfg.verify || r.lastValueWritten[i] == value
    then r.(lastValueWrittenValid := r.lastValueWrittenValid[i := true])
    else r.(writeSuccessful := false)
  }

  function OnSuccess(cfg: Config, r: Record, address: UInt32, value: UInt32): Record
    requires WellFormed(r) && r.pendingWriteRequests > 0
  {
    CountDown(Confirm(cfg, r, address, value))
  }

  function OnFailure(r: Record): Record
    requires r.pendingWriteRequests > 0
  {
    CountDown(r.(writeSuccessful := false))
  }

  /** Processing again after the last callback: the cycle is over. */
  function Complete(r: Record): Record {
    r.(pact := false)
  }

  /** The elements below n that a cycle has to write, in order. */
  function ElementsToWrite(cfg: Config, r: Record, n: nat): (elements: seq<nat>)
    requires WellFormed(r) && n <= |r.values|
    ensures forall i :: i in elements <==> 0 <= i < n && NeedsWrite(cfg, r, i)
    ensures forall a, b :: 0 <= a < b < |elements| ==> elements[a] < elements[b]
  {
    if n == 0 then []
    else
      var rest := ElementsToWrite(cfg, r, n - 1);
      assert forall a :: 0 <= a < |rest| ==> rest[a] in rest;
      if NeedsWrite(cfg, r, n - 1) then rest + [n - 1] else rest
  }

  /** One write request for each of the elements: where to, and what. */
  ghost predicate RequestsFor(cfg: Config, values: seq<UInt32>, elements: seq<nat>, requests: seq<(UInt32, UInt32)>) {
    && |requests| == |elements|
    && forall k :: 0 <= k < |elements| ==>
         elements[k] < |values| && requests[k] == (ElementAddress(cfg, elements[k]), values[elements[k]])
  }

  /** What the loop has done to the elements below n. */
  ghost predicate Prepared(cfg: Config, r: Record, r': Record, n: nat)
    requires WellFormed(r) && n <= |r.values|
  {
    && WellFormed(r')
    && r' == r.(lastValueWritten := r'.lastValueWritten, lastValueWrittenValid := r'.lastValueWrittenValid,
                pendingWriteRequests := r.pendingWriteRequests + |ElementsToWrite(cfg, r, n)|)
    && forall i :: 0 <= i < |r.values| ==>
         && r'.lastValueWritten[i] == (if i < n then r.values[i] else r.lastValueWritten[i])
         && (r'.lastValueWrittenValid[i] <==> r.lastValueWrittenValid[i] && !(i < n && NeedsWrite(cfg, r, i)))
  }

  /** A cycle has been started: exactly the elements that need it are requested, in order, and wait to be confirmed.
      The cycle waits unless nothing was requested. */
  ghost predicate Started(cfg: Config, r: Record, r': Record, requests: seq<(UInt32, UInt32)>)
    requires WellFormed(r)
  {
    var elements := ElementsToWrite(cfg, r, |r.values|);
    && RequestsFor(cfg, r.values, elements, requests)
    && WellFormed(r') && r'.values == r.values && r'.processRequests == r.processRequests && r'.writeSuccessful
    && r'.lastValueWritten == r.values
    && (forall i :: 0 <= i < |r.values| ==> (r'.lastValueWrittenValid[i] <==> i !in elements))
    && r'.pendingWriteRequests == |requests|
    && (r'.pact <==> requests != [])
  }

  lemma PrepareNext(cfg: Config, r: Record, r': Record, n: nat)
    requires WellFormed(r) && n < |r.values| && Prepared(cfg, r, r', n)
    ensures RequestFor(cfg, r', n) == RequestFor(cfg, r, n)
    ensures Prepared(cfg, r, PrepareElement(cfg, r', n), n + 1)
  {
  }

  /** The request of one round of the loop. */
  function RequestFor(cfg: Config, r: Record, i: nat): seq<(UInt32, UInt32)>
    requires WellFormed(r) && i < |r.values|
  {
    if NeedsWrite(cfg, r, i) then [(ElementAddress(cfg, i), r.values[i])] else []
  }

  lemma RequestsGrow(cfg: Config, r: Record, n: nat, requests: seq<(UInt32, UInt32)>)
    requires WellFormed(r) && n < |r.values|
    requires RequestsFor(cfg, r.values, ElementsToWrite(cfg, r, n), requests)
    ensures RequestsFor(cfg, r.values, ElementsToWrite(cfg, r, n + 1), requests + RequestFor(cfg, r, n))
  {
  }

  /** The loop has come to element n with these requests. */
  ghost predicate PreparedUpTo(cfg: Config, r: Record, r': Record, n: nat, requests: seq<(UInt32, UInt32)>) {
    && WellFormed(r) && n <= |r.values|
    && Prepared(cfg, r, r', n) && RequestsFor(cfg, r.values, ElementsToWrite(cfg, r, n), requests)
  }

  lemma LoopGoesOn(cfg: Config, r: Record, r': Record, n: nat, requests: seq<(UInt32, UInt32)>)
    requires PreparedUpTo(cfg, r, r', n, requests) && n < |r.values|
    ensures PreparedUpTo(cfg, r, PrepareElement(cfg, r', n), n + 1, requests + RequestFor(cfg, r', n))
  {
    PrepareNext(cfg, r, r', n);
    RequestsGrow(cfg, r, n, requests);
  }

  lemma PreparedStarts(cfg: Config, r: Record, r': Record, requests: seq<(UInt32, UInt32)>)
    requires WellFormed(r) && Prepared(cfg, Begin(r), r', |r.values|)
    requires RequestsFor(cfg, r.values, ElementsToWrite(cfg, Begin(r), |r.values|), requests) && !r.pact
    ensures Started(cfg, r, End(r'), requests)
  {
    SameElements(cfg, r, Begin(r), |r.values|);
  }

  lemma {:induction false} SameElements(cfg: Config, r: Record, r': Record, n: nat)
    requires WellFormed(r) && WellFormed(r') && r'.values == r.values && n <= |r.values|
    requires r'.lastValueWritten == r.lastValueWritten && r'.lastValueWrittenValid == r.lastValueWrittenValid
    ensures ElementsToWrite(cfg, r', n) == ElementsToWrite(cfg, r, n)
  {
    if n > 0 {
      SameElements(cfg, r, r', n - 1);
    }
  }

  class MrfWaveformOutRecord {
    const cfg: Config
    var values: seq<UInt32>
    var lastValueWritten: seq<UInt32>
    var lastValueWrittenValid: seq<bool>
    var pendingWriteRequests: nat
    var writeSuccessful: bool
    var pact: bool
    var processRequests: nat

    function State(): Record
      reads this
    {
      Record(values, lastValueWritten, lastValueWrittenValid, pendingWriteRequests, writeSuccessful, pact,
             processRequests)
    }

    constructor (cfg: Config, values: seq<UInt32>)
      ensures this.cfg == cfg && this.values == values && WellFormed(State())
      ensures forall i :: 0 <= i < |values| ==> !lastValueWrittenValid[i]
      ensures !pact && pendingWriteRequests == 0 && processRequests == 0
    {
      this.cfg, this.values := cfg, values;
      lastValueWritten, lastValueWrittenValid := values, seq(|values|, i => false);
      pendingWriteRequests, writeSuccessful, pact, processRequests := 0, false, false, 0;
    }

    method PrepareOne(i: nat) returns (requests: seq<(UInt32, UInt32)>)
      requires WellFormed(State()) && i < |values|
      modifies this`lastValueWritten, this`lastValueWrittenValid, this`pendingWriteRequests
      ensures State() == PrepareElement(cfg, old(State()), i)
      ensures requests == RequestFor(cfg, old(State()), i)
    {
      requests := [];
      if !cfg.changedElementsOnly || !lastValueWrittenValid[i] || lastValueWritten[i] != values[i] {
        lastValueWrittenValid := lastValueWrittenValid[i := false];
        lastValueWritten := lastValueWritten[i := values[i]];
        pendingWriteRequests := pendingWriteRequests + 1;
        requests := [(ElementAddress(cfg, i), values[i])];
      }
    }

    /** One round of the loop that was at `start` when it began. */
    method PrepareNextOne(ghost start: Record, i: nat, requests: seq<(UInt32, UInt32)>)
      returns (requests': seq<(UInt32, UInt32)>)
      requires values == start.values && i < |values| && PreparedUpTo(cfg, start, State(), i, requests)
      modifies this`lastValueWritten, this`lastValueWrittenValid, this`pendingWriteRequests
      ensures PreparedUpTo(cfg, start, State(), i + 1, requests')
    {
      LoopGoesOn(cfg, start, State(), i, requests);
      var request := PrepareOne(i);
      requests' := requests + request;
    }

    method PrepareAll() returns (requests: seq<(UInt32, UInt32)>)
      requires WellFormed(State())
      modifies this`lastValueWritten, this`lastValueWrittenValid, this`pendingWriteRequests
      ensures Prepared(cfg, old(State()), State(), |values|)
      ensures RequestsFor(cfg, values, ElementsToWrite(cfg, old(State()), |values|), requests)
    {
      requests := [];
      ghost var start := State();
      var i: nat := 0;
      while i < |values|
        invariant i <= |values| && values == start.values
        invariant PreparedUpTo(cfg, start, State(), i, requests)
      {
        requests := PrepareNextOne(start, i, requests);
        i := i + 1;
      }
    }

    /** Processing of the record: the first half returns the write requests; no callback comes in between. The
        second half, after the last callback, returns none. */
    method ProcessRecord() returns (requests: seq<(UInt32, UInt32)>, done: bool)
      requires WellFormed(State())
      modifies this
      ensures old(pact) ==> State() == Complete(old(State())) && requests == [] && done
      ensures !old(pact) ==> Started(cfg, old(State()), State(), requests) && (done <==> requests == [])
    {
      if pact {
        pact := false;
        return [], true;
      }
      writeSuccessful := true;
      pendingWriteRequests := 1;
      assert State() == Begin(old(State()));
      requests := PrepareAll();
      ghost var prepared := State();
      PreparedStarts(cfg, old(State()), prepared, requests);
      pendingWriteRequests := pendingWriteRequests - 1;
      done := pendingWriteRequests == 0;
      if !done {
        pact := true;
      }
      assert State() == End(prepared);
    }

    method CountDownRequests()
      requires pendingWriteRequests > 0
      modifies this`pendingWriteRequests, this`processRequests
      ensures State() == CountDown(old(State()))
    {
      pendingWriteRequests := pendingWriteRequests - 1;
      if pendingWriteRequests == 0 {
        processRequests := processRequests + 1;
      }
    }

    method Success(address: UInt32, value: UInt32)
      requires WellFormed(State()) && pendingWriteRequests > 0
      modifies this
      ensures State() == OnSuccess(cfg, old(State()), address, value)
    {
      var arrayIndex := ElementIndex(cfg, address);
      if arrayIndex < |lastValueWritten| {
        if !cfg.verify || lastValueWritten[arrayIndex] == value {
          lastValueWrittenValid := lastValueWrittenValid[arrayIndex := true];
        } else {
          writeSuccessful := false;
        }
      }
      CountDownRequests();
    }

    method Failure()
      requires pendingWriteRequests > 0
      modifies this
      ensures State() == OnFailure(old(State()))
    {
      writeSuccessful := false;
      CountDownRequests();
    }
  }
}
