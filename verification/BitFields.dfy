/**
 Bit fields inside a register: how a record derives its mask and converts values,
 how a masked write becomes an update, and why concurrent writes to disjoint
 fields of one register do not lose each other.
 */
module RecordFields {
  import opened Words

  /** The constructor of a record: whatever `mask` held before, it ends up with exactly the bits from
      lowestBit to highestBit. */
  method BuildMask(initial: Word, highestBit: int, lowestBit: int) returns (mask: Word)
    ensures forall k :: 0 <= k < 32 ==> (mask[k] <==> lowestBit <= k <= highestBit)
  {
    mask := initial;
    var i := 31;
    while i >= 0
      invariant -1 <= i <= 31
      invariant forall k :: 0 <= k < 31 - i ==> (mask[k] <==> lowestBit <= i + 1 + k <= highestBit)
    {
      mask := ShiftLeft(mask, 1);
      if i <= highestBit && i >= lowestBit {
        mask := Or(mask, ONE);
      } else {
        mask := And(mask, Not(ONE));
      }
      i := i - 1;
    }
  }

  function ConvertFromDevice(mask: Word, lowestBit: nat, value: Word): Word {
    ShiftRight(And(value, mask), lowestBit)
  }

  function ConvertToDevice(mask: Word, lowestBit: nat, value: Word): Word {
    And(ShiftLeft(value, lowestBit), mask)
  }

  /** A register that holds in the field what was written there reads back as the value, modulo the field's
      width, and only then. */
  lemma FieldReadsBack(mask: Word, lowestBit: nat, highestBit: nat, value: Word, register: Word)
    requires lowestBit <= highestBit < 32
    requires forall k :: 0 <= k < 32 ==> (mask[k] <==> lowestBit <= k <= highestBit)
    ensures And(register, mask) == ConvertToDevice(mask, lowestBit, value) <==>
            ConvertFromDevice(mask, lowestBit, register) == Low(value, highestBit - lowestBit + 1)
  {
    var width := highestBit - lowestBit + 1;
    if And(register, mask) == ConvertToDevice(mask, lowestBit, value) {
      forall k | 0 <= k < 32
        ensures ConvertFromDevice(mask, lowestBit, register)[k] == Low(value, width)[k]
      {
        if k + lowestBit < 32 {
          assert And(register, mask)[k + lowestBit] == ConvertToDevice(mask, lowestBit, value)[k + lowestBit];
        }
      }
    }
    if ConvertFromDevice(mask, lowestBit, register) == Low(value, width) {
      forall k | 0 <= k < 32
        ensures And(register, mask)[k] == ConvertToDevice(mask, lowestBit, value)[k]
      {
        if lowestBit <= k {
          assert ConvertFromDevice(mask, lowestBit, register)[k - lowestBit] == Low(value, width)[k - lowestBit];
        }
      }
    }
  }
}

module MaskedBytes {
  import opened Memory

  /** The update that stands for a masked write. */
  function Merge32(value: bv32, mask: bv32, before: bv32): bv32 {
    (before & !mask) | (value & mask)
  }

  function Merge16(value: bv16, mask: bv16, before: bv16): bv16 {
    (before & !mask) | (value & mask)
  }

  function Merge8(value: bv8, mask: bv8, before: bv8): bv8 {
    (before & !mask) | (value & mask)
  }

  function SingleBit(j: nat): (bit: bv8)
    requires j < 8
    ensures bit & (bit - 1) == 0
  {
    [0x1, 0x2, 0x4, 0x8, 0x10, 0x20, 0x40, 0x80][j]
  }

  predicate BitOf(x: bv8, j: nat)
    requires j < 8
  {
    x & SingleBit(j) != 0
  }

  /** Bit j of a big-endian register; bit 0 is the least significant one. */
  function RegisterBit(bytes: seq<bv8>, j: nat): bool
    requires j < 8 * |bytes|
  {
    BitOf(bytes[|bytes| - 1 - j / 8], j % 8)
  }

  lemma MergeBit(value: bv8, mask: bv8, before: bv8, bit: bv8)
    requires bit & (bit - 1) == 0
    ensures (Merge8(value, mask, before) & bit != 0)
            == (if mask & bit != 0 then value & bit != 0 else before & bit != 0)
  {
  }

  /** `after` is `before` with the masked bits taken from `value`. */
  ghost predicate Merged(value: seq<bv8>, mask: seq<bv8>, before: seq<bv8>, after: seq<bv8>) {
    && |value| == |mask| == |before| == |after|
    && forall k :: 0 <= k < |after| ==> after[k] == Merge8(value[k], mask[k], before[k])
  }

  lemma MergedBits(value: seq<bv8>, mask: seq<bv8>, before: seq<bv8>, after: seq<bv8>, j: nat)
    requires Merged(value, mask, before, after) && j < 8 * |after|
    ensures RegisterBit(after, j) == (if RegisterBit(mask, j) then RegisterBit(value, j) else RegisterBit(before, j))
  {
    var k := |after| - 1 - j / 8;
    MergeBit(value[k], mask[k], before[k], SingleBit(j % 8));
  }

  lemma MergeByte0(value: bv32, mask: bv32, before: bv32)
    ensures (Merge32(value, mask, before) >> 24) as bv8
            == Merge8((value >> 24) as bv8, (mask >> 24) as bv8, (before >> 24) as bv8)
  {
  }

  lemma MergeByte1(value: bv32, mask: bv32, before: bv32)
    ensures ((Merge32(value, mask, before) >> 16) & 0xff) as bv8
            == Merge8(((value >> 16) & 0xff) as bv8, ((mask >> 16) & 0xff) as bv8, ((before >> 16) & 0xff) as bv8)
  {
  }

  lemma MergeByte2(value: bv32, mask: bv32, before: bv32)
    ensures ((Merge32(value, mask, before) >> 8) & 0xff) as bv8
            == Merge8(((value >> 8) & 0xff) as bv8, ((mask >> 8) & 0xff) as bv8, ((before >> 8) & 0xff) as bv8)
  {
  }

  lemma MergeByte3(value: bv32, mask: bv32, before: bv32)
    ensures (Merge32(value, mask, before) & 0xff) as bv8
            == Merge8((value & 0xff) as bv8, (mask & 0xff) as bv8, (before & 0xff) as bv8)
  {
  }

  lemma Encode32Merge(value: bv32, mask: bv32, before: bv32)
    ensures Encode32(Merge32(value, mask, before)) ==
            [Merge8(Encode32(value)[0], Encode32(mask)[0], Encode32(before)[0]),
             Merge8(Encode32(value)[1], Encode32(mask)[1], Encode32(before)[1]),
             Merge8(Encode32(value)[2], Encode32(mask)[2], Encode32(before)[2]),
             Merge8(Encode32(value)[3], Encode32(mask)[3], Encode32(before)[3])]
  {
    MergeByte0(value, mask, before);
    MergeByte1(value, mask, before);
    MergeByte2(value, mask, before);
    MergeByte3(value, mask, before);
  }

  lemma Encode16Merge(value: bv16, mask: bv16, before: bv16)
    ensures Encode16(Merge16(value, mask, before)) ==
            [Merge8(Encode16(value)[0], Encode16(mask)[0], Encode16(before)[0]),
             Merge8(Encode16(value)[1], Encode16(mask)[1], Encode16(before)[1])]
  {
  }
}

module BitFields {
  import opened Common
  import opened Memory
  import opened Operations
  import opened ConsistentAccess
  import opened Linearizability
  import opened MaskedBytes
  import opened RecordFields
  import opened Words

  /** A masked write: the value and the mask as they lie in the register's bytes. A write without a mask has all
      bits in its mask. */
  datatype Field = Field(value: seq<bv8>, mask: seq<bv8>)

  const ALL_BITS: bv8 := 0xff

  ghost predicate WritesField(request: Request, f: Field) {
    match request
    case Write32(value) =>
      f == Field(Encode32(value), [ALL_BITS, ALL_BITS, ALL_BITS, ALL_BITS])
    case Write16(value) =>
      f == Field(Encode16(value), [ALL_BITS, ALL_BITS])
    case Update32(update) =>
      && |f.value| == |f.mask| == 4
      && forall v :: update(v) == Some(Merge32(Decode32(f.value), Decode32(f.mask), v))
    case Update16(update) =>
      && |f.value| == |f.mask| == 2
      && forall v :: update(v) == Some(Merge16(Decode16(f.value), Decode16(f.mask), v))
  }

  lemma AllBitsMerged(value: bv8, before: bv8)
    ensures Merge8(value, ALL_BITS, before) == value
  {
  }

  lemma MergedWithAllBits(f: Field, before: seq<bv8>)
    requires |f.value| == |f.mask| == |before| && forall k :: 0 <= k < |f.mask| ==> f.mask[k] == ALL_BITS
    ensures Merged(f.value, f.mask, before, f.value)
  {
    forall k | 0 <= k < |before|
      ensures f.value[k] == Merge8(f.value[k], f.mask[k], before[k])
    {
      AllBitsMerged(f.value[k], before[k]);
    }
  }

  lemma Merged32(f: Field, before: seq<bv8>, v: bv32, m: bv32, b: bv32)
    requires f.value == Encode32(v) && f.mask == Encode32(m) && before == Encode32(b)
    ensures Merged(f.value, f.mask, before, Encode32(Merge32(v, m, b)))
  {
    Encode32Merge(v, m, b);
  }

  lemma Merged16(f: Field, before: seq<bv8>, v: bv16, m: bv16, b: bv16)
    requires f.value == Encode16(v) && f.mask == Encode16(m) && before == Encode16(b)
    ensures Merged(f.value, f.mask, before, Encode16(Merge16(v, m, b)))
  {
    Encode16Merge(v, m, b);
  }

  /** Run atomically, a write replaces exactly the bits of its mask. */
  lemma FieldEffect(request: Request, f: Field, before: seq<bv8>)
    requires WritesField(request, f) && |before| == WidthOf(request.Kind())
    ensures NewBytes(request, before).Some?
    ensures Merged(f.value, f.mask, before, NewBytes(request, before).value)
  {
    match request
    case Update32(_) =>
      var v, m, b := Decode32(f.value), Decode32(f.mask), Decode32(before);
      assert f.value == Encode32(v) && f.mask == Encode32(m) && before == Encode32(b) by {
        EncodeDecode32(f.value);
        EncodeDecode32(f.mask);
        EncodeDecode32(before);
      }
      Merged32(f, before, v, m, b);
    case Update16(_) =>
      var v, m, b := Decode16(f.value), Decode16(f.mask), Decode16(before);
      assert f.value == Encode16(v) && f.mask == Encode16(m) && before == Encode16(b) by {
        EncodeDecode16(f.value);
        EncodeDecode16(f.mask);
        EncodeDecode16(before);
      }
      Merged16(f, before, v, m, b);
    case _ =>
      MergedWithAllBits(f, before);
  }

  type Fields = map<nat, Field>

  /** The operations in `fields`, and no others, touch the register of width w at a. Each is a write of its field. */
  ghost predicate OnlyFields(subs: Submissions, a: Address, w: nat, fields: Fields)
    requires WellKinded(subs)
  {
    && (forall id :: id in fields ==>
          && id < |subs| && subs[id].info.address == a && subs[id].info.Width() == w
          && WritesField(subs[id].request, fields[id]))
    && (forall id :: 0 <= id < |subs| && id !in fields ==> subs[id].info.Bytes() !! Span(a, w))
  }

  /** No two fields share a bit. */
  ghost predicate DisjointFields(subs: Submissions, a: Address, w: nat, fields: Fields)
    requires WellKinded(subs)
  {
    && OnlyFields(subs, a, w, fields)
    && (forall id, id', j :: id in fields && id' in fields && id != id' ==>
          !(Covers(fields[id], j) && Covers(fields[id'], j)))
  }

  ghost predicate Covers(f: Field, j: nat) {
    j < 8 * |f.mask| && RegisterBit(f.mask, j)
  }

  /** The bytes of the register after the operations in `log` have run. */
  ghost function RegisterAfter(m0: Mem, subs: Submissions, log: seq<nat>, a: Address, w: nat): (bytes: seq<bv8>)
    requires WellKinded(subs)
    requires forall i :: 0 <= i < |log| ==> log[i] < |subs|
    ensures |bytes| == w
  {
    Load(Replay(m0, subs, log), a, w)
  }

  /** The last operation changes the register if it is one of the fields, and then only inside its field. */
  lemma LastEffect(m0: Mem, subs: Submissions, log: seq<nat>, a: Address, w: nat, fields: Fields)
    requires WellKinded(subs) && OnlyFields(subs, a, w, fields)
    requires forall i :: 0 <= i < |log| ==> log[i] < |subs|
    requires log != []
    ensures
      var last := log[|log| - 1];
      var before := RegisterAfter(m0, subs, log[..|log| - 1], a, w);
      var after := RegisterAfter(m0, subs, log, a, w);
      if last in fields then Merged(fields[last].value, fields[last].mask, before, after) else after == before
  {
    var last := log[|log| - 1];
    var x := subs[last];
    var m := Replay(m0, subs, log[..|log| - 1]);
    var before := Load(m, x.info.address, x.info.Width());
    var bytes := NewBytes(x.request, before);
    if last in fields {
      FieldEffect(x.request, fields[last], before);
      LoadAfterStore(m, a, bytes.value);
    } else if bytes.Some? {
      StoreFrame(m, x.info.address, bytes.value, a, w);
    }
  }

  /** The last operation in the history that writes bit j. */
  ghost function LastWriter(log: seq<nat>, fields: Fields, j: nat): Option<nat> {
    if log == [] then None
    else
      var last := log[|log| - 1];
      if last in fields && Covers(fields[last], j) then Some(last) else LastWriter(log[..|log| - 1], fields, j)
  }

  /** Bit j after a history, whether or not the fields overlap: the bit of the last one that covers it. */
  lemma {:induction false} LastWriterWins(m0: Mem, subs: Submissions, log: seq<nat>, a: Address, w: nat,
                                          fields: Fields, j: nat)
    requires WellKinded(subs) && OnlyFields(subs, a, w, fields) && j < 8 * w
    requires forall i :: 0 <= i < |log| ==> log[i] < |subs|
    ensures
      var last := LastWriter(log, fields, j);
      if last.None? then RegisterBit(RegisterAfter(m0, subs, log, a, w), j) == RegisterBit(Load(m0, a, w), j)
      else
        && last.value in fields && last.value in log && |fields[last.value].value| == w
        && RegisterBit(RegisterAfter(m0, subs, log, a, w), j) == RegisterBit(fields[last.value].value, j)
  {
    if log != [] {
      var rest, last := log[..|log| - 1], log[|log| - 1];
      LastWriterWins(m0, subs, rest, a, w, fields, j);
      LastEffect(m0, subs, log, a, w, fields);
      if last in fields {
        MergedBits(fields[last].value, fields[last].mask, RegisterAfter(m0, subs, rest, a, w),
                   RegisterAfter(m0, subs, log, a, w), j);
      }
    }
  }

  lemma {:induction false} WriterIsFound(log: seq<nat>, fields: Fields, j: nat, id: nat)
    requires id in log && id in fields && Covers(fields[id], j)
    ensures LastWriter(log, fields, j).Some?
    ensures LastWriter(log, fields, j).value in fields && Covers(fields[LastWriter(log, fields, j).value], j)
  {
    var rest, last := log[..|log| - 1], log[|log| - 1];
    assert log == rest + [last];
    if last !in fields || !Covers(fields[last], j) {
      WriterIsFound(rest, fields, j, id);
    }
  }

  /** Bit j after a history: the bit of the field that covers it if that write is in the history. */
  lemma FieldsAfterReplay(m0: Mem, subs: Submissions, log: seq<nat>, a: Address, w: nat, fields: Fields, j: nat)
    requires WellKinded(subs) && DisjointFields(subs, a, w, fields) && j < 8 * w
    requires forall i :: 0 <= i < |log| ==> log[i] < |subs|
    ensures forall id :: id in fields && id in log && Covers(fields[id], j) ==>
              |fields[id].value| == w &&
              RegisterBit(RegisterAfter(m0, subs, log, a, w), j) == RegisterBit(fields[id].value, j)
    ensures (forall id :: id in fields ==> !Covers(fields[id], j)) ==>
              RegisterBit(RegisterAfter(m0, subs, log, a, w), j) == RegisterBit(Load(m0, a, w), j)
  {
    LastWriterWins(m0, subs, log, a, w, fields, j);
    forall id | id in fields && id in log && Covers(fields[id], j)
      ensures LastWriter(log, fields, j) == Some(id)
    {
      WriterIsFound(log, fields, j, id);
    }
    if forall id :: id in fields ==> !Covers(fields[id], j) {
      NoWriter(log, fields, j);
    }
  }

  lemma {:induction false} NoWriter(log: seq<nat>, fields: Fields, j: nat)
    requires forall id :: id in fields ==> !Covers(fields[id], j)
    ensures LastWriter(log, fields, j) == None
  {
    if log != [] {
      NoWriter(log[..|log| - 1], fields, j);
    }
  }

  /** Disjoint bit fields never lose updates: however the masked writes interleave, once they have all
      succeeded each field holds its value and every other bit of the register is what it was. */
  lemma DisjointFieldsKeepUpdates(states: seq<System>, steps: seq<Step>, i: nat, a: Address, w: nat,
                                  fields: Fields, j: nat)
    requires Run(states, steps) && i < |states| && j < 8 * w
    requires DisjointFields(states[i].subs, a, w, fields)
    requires forall id :: id in fields ==> states[i].phase[id].Succeeded?
    ensures
      var before, after := Load(states[0].mem, a, w), Load(states[i].mem, a, w);
      && (forall id :: id in fields && Covers(fields[id], j) ==>
            |fields[id].value| == w && RegisterBit(after, j) == RegisterBit(fields[id].value, j))
      && ((forall id :: id in fields ==> !Covers(fields[id], j)) ==> RegisterBit(after, j) == RegisterBit(before, j))
  {
    Linearizable(states, steps, i);
    FieldsAfterReplay(states[0].mem, states[i].subs, states[i].log, a, w, fields, j);
  }

  /** A register as the 32-bit value that a record gets to see. */
  function RegisterWord(bytes: seq<bv8>): Word {
    seq(32, j requires 0 <= j < 32 => j < 8 * |bytes| && RegisterBit(bytes, j))
  }

  /** The write request of a record with bits lowestBit to highestBit and the given value. A record that zeroes the
      other bits, or has all bits of the register, writes without a mask. */
  ghost predicate IsRecordWrite(f: Field, w: nat, mask: Word, lowestBit: nat, value: Word) {
    && |f.value| == |f.mask| == w
    && (RegisterWord(f.mask) == mask || forall k :: 0 <= k < w ==> f.mask[k] == ALL_BITS)
    && RegisterWord(f.value) == ConvertToDevice(mask, lowestBit, value)
  }

  lemma RecordCoversField(f: Field, w: nat, mask: Word, lowestBit: nat, value: Word, k: nat)
    requires IsRecordWrite(f, w, mask, lowestBit, value) && k < 8 * w <= 32 && mask[k]
    ensures Covers(f, k) && RegisterBit(f.value, k) == ConvertToDevice(mask, lowestBit, value)[k]
  {
    assert RegisterWord(f.mask) == mask ==> RegisterWord(f.mask)[k];
    assert RegisterWord(f.value)[k] == RegisterBit(f.value, k);
    AllBitsAreSet(k % 8);
  }

  lemma AllBitsAreSet(j: nat)
    requires j < 8
    ensures BitOf(ALL_BITS, j)
  {
  }

  /** Nothing else has a say in the bits of the record: whoever was last to write one left it as the record did. */
  ghost predicate NotOverwritten(log: seq<nat>, fields: Fields, mask: Word, sent: Word) {
    forall k :: 0 <= k < 32 && mask[k] ==>
      var last := LastWriter(log, fields, k);
      && last.Some? && last.value in fields && k < 8 * |fields[last.value].value|
      && RegisterBit(fields[last.value].value, k) == sent[k]
  }

  /** Seen from a record, whatever else is written to the register, also with overlapping fields and by records that
      zero the other bits: once its write has succeeded it reads back its own value, modulo the width of its field, if
      and only if the last writes of its bits agree with it. */
  lemma RecordReadsBackUnlessOverwritten(states: seq<System>, steps: seq<Step>, i: nat, a: Address, w: nat,
                                         fields: Fields, id: nat, mask: Word, lowestBit: nat, highestBit: nat,
                                         value: Word)
    requires Run(states, steps) && i < |states|
    requires OnlyFields(states[i].subs, a, w, fields)
    requires id in fields && states[i].phase[id].Succeeded?
    requires lowestBit <= highestBit < 8 * w <= 32
    requires forall k :: 0 <= k < 32 ==> (mask[k] <==> lowestBit <= k <= highestBit)
    requires IsRecordWrite(fields[id], w, mask, lowestBit, value)
    ensures ConvertFromDevice(mask, lowestBit, RegisterWord(Load(states[i].mem, a, w)))
            == Low(value, highestBit - lowestBit + 1)
            <==> NotOverwritten(states[i].log, fields, mask, ConvertToDevice(mask, lowestBit, value))
  {
    var register := RegisterWord(Load(states[i].mem, a, w));
    var sent := ConvertToDevice(mask, lowestBit, value);
    var log := states[i].log;
    Linearizable(states, steps, i);
    forall k | 0 <= k < 32 && mask[k]
      ensures
        var last := LastWriter(log, fields, k);
        && last.Some? && last.value in fields && k < 8 * |fields[last.value].value|
        && register[k] == RegisterBit(fields[last.value].value, k)
    {
      RecordCoversField(fields[id], w, mask, lowestBit, value, k);
      WriterIsFound(log, fields, k, id);
      LastWriterWins(states[0].mem, states[i].subs, log, a, w, fields, k);
    }
    assert And(register, mask) == sent <==> NotOverwritten(log, fields, mask, sent) by {
      assert forall k :: 0 <= k < 32 ==> And(register, mask)[k] == (register[k] && mask[k]);
      assert forall k :: 0 <= k < 32 && !mask[k] ==> !sent[k];
    }
    FieldReadsBack(mask, lowestBit, highestBit, value, register);
  }

  /** So if the fields are disjoint, each record reads back its own value once all writes have succeeded. */
  lemma ConcurrentRecordsReadBack(states: seq<System>, steps: seq<Step>, i: nat, a: Address, w: nat,
                                  fields: Fields, id: nat, mask: Word, lowestBit: nat, highestBit: nat, value: Word)
    requires Run(states, steps) && i < |states|
    requires DisjointFields(states[i].subs, a, w, fields)
    requires id in fields && states[i].phase[id].Succeeded?
    requires lowestBit <= highestBit < 8 * w <= 32
    requires forall k :: 0 <= k < 32 ==> (mask[k] <==> lowestBit <= k <= highestBit)
    requires IsRecordWrite(fields[id], w, mask, lowestBit, value)
    ensures ConvertFromDevice(mask, lowestBit, RegisterWord(Load(states[i].mem, a, w)))
            == Low(value, highestBit - lowestBit + 1)
  {
    var sent := ConvertToDevice(mask, lowestBit, value);
    Linearizable(states, steps, i);
    forall k | 0 <= k < 32 && mask[k]
      ensures LastWriter(states[i].log, fields, k) == Some(id) && k < 8 * |fields[id].value|
      ensures RegisterBit(fields[id].value, k) == sent[k]
    {
      RecordCoversField(fields[id], w, mask, lowestBit, value, k);
      WriterIsFound(states[i].log, fields, k, id);
    }
    RecordReadsBackUnlessOverwritten(states, steps, i, a, w, fields, id, mask, lowestBit, highestBit, value);
  }
}
