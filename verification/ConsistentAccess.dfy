/**
 The scheduler behind the consistent asynchronous memory access. Its containers
 are the source's: a multimap from byte addresses to pending operations, the set
 of bytes in use, and one map of callbacks per kind of operation. The ghost sets
 `active` and `waiting` say which operations those containers stand for.
 */
module ConsistentAccess {
  import opened Common
  import opened Memory
  import opened Operations

  /** A callback of the caller, as an opaque identity. */
  type CallbackId = nat

  /** What the caller asked for. An update function that returns None has thrown. */
  datatype Request =
    | Write16(value16: bv16)
    | Write32(value32: bv32)
    | Update16(update16: bv16 -> Option<bv16>)
    | Update32(update32: bv32 -> Option<bv32>)
  {
    function Kind(): OperationType {
      match this
      case Write16(_) => WriteUInt16
      case Write32(_) => WriteUInt32
      case Update16(_) => UpdateUInt16
      case Update32(_) => UpdateUInt32
    }
  }

  /** A request to the wrapped (delegate) memory access. */
  datatype DelegateCall =
    | DelegateWrite16(address: Address, v16: bv16)
    | DelegateWrite32(address: Address, v32: bv32)
    | DelegateRead16(address: Address)
    | DelegateRead32(address: Address)

  /** The delegate call that starts an operation. */
  function FirstCall(address: Address, request: Request): DelegateCall {
    match request
    case Write16(v) => DelegateWrite16(address, v)
    case Write32(v) => DelegateWrite32(address, v)
    case Update16(_) => DelegateRead16(address)
    case Update32(_) => DelegateRead32(address)
  }

  datatype WriteEntry<T> = WriteEntry(info: OperationInfo, delegate: CallbackId, value: T)

  datatype UpdateEntry<!T> = UpdateEntry(info: OperationInfo, delegate: CallbackId, readFinished: bool,
                                         update: T -> Option<T>)

  /** What a callback did: it asked the delegate for the second half of an update, or it ended its operation,
      told the caller so, and handed back the operations that may run now. */
  datatype Outcome =
    | Continue(call: DelegateCall)
    | Ended(ok: bool, caller: CallbackId, runnable: seq<OperationInfo>)

  /** The operations that the four callback maps speak of, by id. */
  datatype InfoMaps = InfoMaps(w16: map<int, OperationInfo>, w32: map<int, OperationInfo>,
                               u16: map<int, OperationInfo>, u32: map<int, OperationInfo>)
  {
    ghost function Of(kind: OperationType): map<int, OperationInfo> {
      match kind
      case WriteUInt16 => w16
      case WriteUInt32 => w32
      case UpdateUInt16 => u16
      case UpdateUInt32 => u32
    }

    ghost function With(kind: OperationType, m: map<int, OperationInfo>): (r: InfoMaps)
      ensures forall k :: r.Of(k) == if k == kind then m else Of(k)
    {
      match kind
      case WriteUInt16 => this.(w16 := m)
      case WriteUInt32 => this.(w32 := m)
      case UpdateUInt16 => this.(u16 := m)
      case UpdateUInt32 => this.(u32 := m)
    }
  }

  /** The callback maps have one entry for each operation, under its kind and id, and nothing else. */
  ghost predicate EntriesAre(infos: InfoMaps, ops: Operations) {
    && (forall p :: p in ops ==> p.id in infos.Of(p.kind) && infos.Of(p.kind)[p.id] == p)
    && (forall kind, id :: id in infos.Of(kind) ==>
          infos.Of(kind)[id] in ops && infos.Of(kind)[id].kind == kind && infos.Of(kind)[id].id == id)
  }

  /** The callback maps hold exactly the active and waiting operations, whose ids have all been given out. */
  ghost predicate Registered(infos: InfoMaps, ops: Operations, nextId: nat) {
    EntriesAre(infos, ops) && forall p :: p in ops ==> p.id < nextId
  }

  lemma Register(infos: InfoMaps, ops: Operations, nextId: nat, p: OperationInfo)
    requires Registered(infos, ops, nextId) && p.id == nextId
    ensures Registered(infos.With(p.kind, infos.Of(p.kind)[p.id := p]), ops + {p}, nextId + 1)
    ensures forall q :: q in ops ==> q.id != p.id
  {
  }

  lemma Deregister(infos: InfoMaps, ops: Operations, nextId: nat, p: OperationInfo)
    requires Registered(infos, ops, nextId) && UniqueIds(ops) && p in ops
    ensures Registered(infos.With(p.kind, infos.Of(p.kind) - {p.id}), ops - {p}, nextId)
    ensures forall kind :: kind != p.kind ==> p.id !in infos.Of(kind)
  {
  }

  ghost function WriteInfos<T>(m: map<nat, WriteEntry<T>>): map<int, OperationInfo> {
    map id | id in m :: m[id].info
  }

  ghost function UpdateInfos<T>(m: map<nat, UpdateEntry<T>>): map<int, OperationInfo> {
    map id | id in m :: m[id].info
  }

  lemma OtherMapsLack(infos: InfoMaps, p: OperationInfo)
    requires forall kind :: kind != p.kind ==> p.id !in infos.Of(kind)
    ensures p.kind != OperationType.WriteUInt16 ==> p.id !in infos.w16
    ensures p.kind != OperationType.WriteUInt32 ==> p.id !in infos.w32
    ensures p.kind != OperationType.UpdateUInt16 ==> p.id !in infos.u16
    ensures p.kind != OperationType.UpdateUInt32 ==> p.id !in infos.u32
  {
    assert infos.Of(OperationType.WriteUInt16) == infos.w16 && infos.Of(OperationType.WriteUInt32) == infos.w32;
    assert infos.Of(OperationType.UpdateUInt16) == infos.u16 && infos.Of(OperationType.UpdateUInt32) == infos.u32;
  }

  lemma MinusAbsent<V>(m: map<nat, V>, key: nat)
    ensures key !in m ==> m - {key} == m
  {
  }

  class Scheduler {
    var nextId: nat
    var pendingOperations: multiset<(Address, OperationInfo)>
    var operationRunning: set<Address>
    var writeUInt16CallbacksAndValues: map<nat, WriteEntry<bv16>>
    var writeUInt32CallbacksAndValues: map<nat, WriteEntry<bv32>>
    var updateUInt16Callbacks: map<nat, UpdateEntry<bv16>>
    var updateUInt32Callbacks: map<nat, UpdateEntry<bv32>>
    ghost var active: Operations
    ghost var waiting: Operations

    /** `operationRunning` is exactly the union of the bytes of the active operations. */
    ghost predicate RunningIs(ops: Operations)
      reads this`operationRunning
    {
      && (forall p, a :: p in ops && a in p.Bytes() ==> a in operationRunning)
      && (forall a :: a in operationRunning ==> exists p :: p in ops && a in p.Bytes())
    }

    /** `pendingOperations` holds each waiting operation once under each of its bytes, and nothing else. */
    ghost predicate PendingIs(ops: Operations)
      reads this`pendingOperations
    {
      forall a, p :: pendingOperations[(a, p)] == if p in ops && a in p.Bytes() then 1 else 0
    }

    ghost function Infos(): InfoMaps
      reads this`writeUInt16CallbacksAndValues, this`writeUInt32CallbacksAndValues
      reads this`updateUInt16Callbacks, this`updateUInt32Callbacks
    {
      InfoMaps(WriteInfos(writeUInt16CallbacksAndValues), WriteInfos(writeUInt32CallbacksAndValues),
               UpdateInfos(updateUInt16Callbacks), UpdateInfos(updateUInt32Callbacks))
    }

    ghost predicate Scheduled()
      reads this`active, this`waiting, this`operationRunning, this`pendingOperations
    {
      Consistent(active, waiting) && RunningIs(active) && PendingIs(waiting)
    }

    ghost predicate Valid()
      reads this
    {
      Scheduled() && Registered(Infos(), active + waiting, nextId)
    }

    constructor ()
      ensures Valid()
      ensures active == {} && waiting == {} && nextId == 0
    {
      nextId := 0;
      pendingOperations := multiset{};
      operationRunning := {};
      writeUInt16CallbacksAndValues := map[];
      writeUInt32CallbacksAndValues := map[];
      updateUInt16Callbacks := map[];
      updateUInt32Callbacks := map[];
      active := {};
      waiting := {};
    }

    method InsertOperationInfo(info: OperationInfo)
      requires PendingIs(waiting) && info !in waiting
      modifies this`pendingOperations, this`waiting
      ensures waiting == old(waiting) + {info}
      ensures PendingIs(waiting)
    {
      var width := info.Width();
      for byteIndex := 0 to width
        invariant waiting == old(waiting)
        invariant forall a, p ::
          pendingOperations[(a, p)]
          == if (p in waiting && a in p.Bytes()) || (p == info && a in Span(info.address, byteIndex)) then 1 else 0
      {
        var b := ByteAddress(info.address, byteIndex);
        SpanGrows(info.address, byteIndex);
        pendingOperations := pendingOperations + multiset{(b, info)};
      }
      waiting := waiting + {info};
    }

    /** Erases the entry of `info` under the byte address b, wherever the range of b holds it. */
    method EraseAt(b: Address, info: OperationInfo)
      requires pendingOperations[(b, info)] == 1
      requires forall p :: (b, p) in pendingOperations && p.id == info.id ==> p == info
      modifies this`pendingOperations
      ensures pendingOperations == old(pendingOperations) - multiset{(b, info)}
    {
      var range := set e | e in pendingOperations && e.0 == b;
      while range != {}
        invariant range <= set e | e in pendingOperations && e.0 == b
        invariant (b, info) in range
        invariant pendingOperations == old(pendingOperations)
        decreases range
      {
        var e :| e in range;
        if e.1.id == info.id {
          pendingOperations := pendingOperations - multiset{e};
          return;
        }
        range := range - {e};
      }
    }

    method RemoveOperationInfo(info: OperationInfo)
      requires PendingIs(waiting) && info in waiting
      requires UniqueIds(waiting)
      modifies this`pendingOperations, this`waiting
      ensures waiting == old(waiting) - {info}
      ensures PendingIs(waiting)
    {
      var width := info.Width();
      for byteIndex := 0 to width
        invariant waiting == old(waiting)
        invariant forall a, p ::
          pendingOperations[(a, p)]
          == if p in waiting && a in p.Bytes() && !(p == info && a in Span(info.address, byteIndex)) then 1 else 0
      {
        SpanGrows(info.address, byteIndex);
        EraseAt(ByteAddress(info.address, byteIndex), info);
      }
      waiting := waiting - {info};
    }

    method CanRunOperation(info: OperationInfo) returns (canRun: bool)
      requires RunningIs(active)
      ensures canRun == CanRun(info, active)
    {
      var width := info.Width();
      for byteIndex := 0 to width
        invariant Span(info.address, byteIndex) !! operationRunning
      {
        SpanGrows(info.address, byteIndex);
        var b := ByteAddress(info.address, byteIndex);
        if b in operationRunning {
          ghost var p :| p in active && b in p.Bytes();
          assert b in info.Bytes();
          assert Overlap(info, p);
          return false;
        }
      }
      return true;
    }

    method MarkRunOperation(info: OperationInfo)
      requires RunningIs(active)
      modifies this`operationRunning, this`active
      ensures active == old(active) + {info}
      ensures RunningIs(active)
    {
      var width := info.Width();
      for byteIndex := 0 to width
        invariant active == old(active)
        invariant operationRunning == old(operationRunning) + Span(info.address, byteIndex)
      {
        SpanGrows(info.address, byteIndex);
        operationRunning := operationRunning + {ByteAddress(info.address, byteIndex)};
      }
      active := active + {info};
    }

    method UnmarkRunOperation(info: OperationInfo)
      requires RunningIs(active) && Exclusive(active) && info in active
      modifies this`operationRunning, this`active
      ensures active == old(active) - {info}
      ensures RunningIs(active)
    {
      var width := info.Width();
      for byteIndex := 0 to width
        invariant active == old(active)
        invariant operationRunning == old(operationRunning) - Span(info.address, byteIndex)
      {
        SpanGrows(info.address, byteIndex);
        operationRunning := operationRunning - {ByteAddress(info.address, byteIndex)};
      }
      active := active - {info};
      forall p, a | p in active && a in p.Bytes()
        ensures a in operationRunning
      {
        assert !Overlap(info, p);
      }
    }

    /** Starts at most one pending operation filed under the byte address b. Afterwards none of those that
        are still filed there could run. */
    method StartOneAt(info: OperationInfo, b: Address) returns (started: seq<OperationInfo>)
      requires b in info.Bytes()
      requires RunningIs(active) && PendingIs(waiting)
      requires UniqueIds(waiting) && Exclusive(active) && active !! waiting
      modifies this`pendingOperations, this`operationRunning, this`waiting, this`active
      ensures RunningIs(active) && PendingIs(waiting) && Exclusive(active)
      ensures started == [] || (|started| == 1 && started[0] in old(waiting) && Overlap(info, started[0]))
      ensures active == old(active) + Set(started)
      ensures waiting == old(waiting) - Set(started)
      ensures forall p :: p in waiting && b in p.Bytes() ==> !CanRun(p, active)
    {
      started := [];
      var range := set e | e in pendingOperations && e.0 == b;
      while range != {}
        invariant forall e :: e in range ==> e in pendingOperations && e.0 == b
        invariant started == []
        invariant pendingOperations == old(pendingOperations) && operationRunning == old(operationRunning)
        invariant waiting == old(waiting) && active == old(active)
        invariant RunningIs(active) && PendingIs(waiting)
        invariant forall p :: p in waiting && b in p.Bytes() && (b, p) !in range ==> !CanRun(p, active)
        decreases range
      {
        var e :| e in range;
        var candidate := e.1;
        var canRun := CanRunOperation(candidate);
        if canRun {
          MarkRunOperation(candidate);
          RemoveOperationInfo(candidate);
          StartedAt(old(active), old(waiting), info, b, candidate);
          return [candidate];
        }
        range := range - {e};
      }
    }

    /** The loop over the bytes of `info`, with what it establishes byte by byte. */
    method StartAtEachByte(info: OperationInfo) returns (runnable: seq<OperationInfo>)
      requires RunningIs(active) && PendingIs(waiting)
      requires UniqueIds(waiting) && Exclusive(active) && active !! waiting
      modifies this`pendingOperations, this`operationRunning, this`waiting, this`active
      ensures RunningIs(active) && PendingIs(waiting) && Exclusive(active)
      ensures Progress(old(active), old(waiting), info, info.Width(), runnable, active, waiting)
    {
      runnable := [];
      var width := info.Width();
      for byteIndex := 0 to width
        invariant RunningIs(active) && PendingIs(waiting) && Exclusive(active)
        invariant Progress(old(active), old(waiting), info, byteIndex, runnable, active, waiting)
      {
        var b := ByteAddress(info.address, byteIndex);
        ghost var active0, waiting0 := active, waiting;
        ProgressKeepsApart(old(active), old(waiting), info, byteIndex, runnable, active, waiting);
        var started := StartOneAt(info, b);
        MoreProgress(old(active), old(waiting), info, byteIndex, runnable, active0, waiting0,
                     started, active, waiting);
        runnable := started + runnable;
      }
    }

    method PrepareNextOperations(info: OperationInfo) returns (runnable: seq<OperationInfo>)
      requires RunningIs(active) && PendingIs(waiting)
      requires info !in active && Consistent(active + {info}, waiting)
      modifies this`pendingOperations, this`operationRunning, this`waiting, this`active
      ensures Scheduled() && active + waiting == old(active + waiting)
      ensures NoDuplicates(runnable)
      ensures Finished(old(active) + {info}, old(waiting), info, Set(runnable), active, waiting)
    {
      UniqueWithin(active, waiting, info);
      runnable := StartAtEachByte(info);
      ProgressIsFinish(old(active), old(waiting), info, runnable, active, waiting);
      ghost var finished := old(active) + {info};
      FinishedKeepsConsistent(finished, old(waiting), info, Set(runnable), active, waiting);
      FinishedShrinksWork(finished, old(waiting), info, Set(runnable), active, waiting);
    }

    /** What the caller asked for when it submitted `info`. */
    ghost function RequestOf(info: OperationInfo): Request
      reads this
      requires Registered(Infos(), active + waiting, nextId) && info in active + waiting
      ensures RequestOf(info).Kind() == info.kind
    {
      match info.kind
      case WriteUInt16 => Write16(writeUInt16CallbacksAndValues[info.id].value)
      case WriteUInt32 => Write32(writeUInt32CallbacksAndValues[info.id].value)
      case UpdateUInt16 => Update16(updateUInt16Callbacks[info.id].update)
      case UpdateUInt32 => Update32(updateUInt32Callbacks[info.id].update)
    }

    /** Whom the caller wants to be called back. */
    ghost function CallerOf(info: OperationInfo): CallbackId
      reads this
      requires Registered(Infos(), active + waiting, nextId) && info in active + waiting
    {
      match info.kind
      case WriteUInt16 => writeUInt16CallbacksAndValues[info.id].delegate
      case WriteUInt32 => writeUInt32CallbacksAndValues[info.id].delegate
      case UpdateUInt16 => updateUInt16Callbacks[info.id].delegate
      case UpdateUInt32 => updateUInt32Callbacks[info.id].delegate
    }

    /** The delegate call of an operation and its callback, from the map that holds them. */
    method CallFor(info: OperationInfo) returns (call: DelegateCall, caller: CallbackId)
      requires Valid() && info in active
      ensures call == FirstCall(info.address, RequestOf(info)) && caller == CallerOf(info)
    {
      match info.kind
      case WriteUInt16 =>
        var entry := writeUInt16CallbacksAndValues[info.id];
        return DelegateWrite16(info.address, entry.value), entry.delegate;
      case WriteUInt32 =>
        var entry := writeUInt32CallbacksAndValues[info.id];
        return DelegateWrite32(info.address, entry.value), entry.delegate;
      case UpdateUInt16 =>
        return DelegateRead16(info.address), updateUInt16Callbacks[info.id].delegate;
      case UpdateUInt32 =>
        return DelegateRead32(info.address), updateUInt32Callbacks[info.id].delegate;
    }

    /** The last part of every submission: run at once or file as pending. */
    method Admit(info: OperationInfo) returns (canRun: bool)
      requires Scheduled()
      requires forall p :: p in active + waiting ==> p.id != info.id
      modifies this`pendingOperations, this`operationRunning, this`waiting, this`active
      ensures Admitted(old(active), old(waiting), info, canRun, active, waiting)
      ensures Scheduled() && active + waiting == old(active + waiting) + {info}
    {
      canRun := CanRunOperation(info);
      if canRun {
        MarkRunOperation(info);
      } else {
        InsertOperationInfo(info);
      }
      AdmittedKeepsConsistent(old(active), old(waiting), info, canRun, active, waiting);
    }

    method RegisterWrite16(info: OperationInfo, value: bv16, callback: CallbackId)
      requires Registered(Infos(), active + waiting, nextId)
      requires info == OperationInfo(nextId, OperationType.WriteUInt16, info.address)
      modifies this`nextId, this`writeUInt16CallbacksAndValues
      ensures Registered(Infos(), active + waiting + {info}, nextId) && nextId == old(nextId) + 1
      ensures writeUInt16CallbacksAndValues
              == old(writeUInt16CallbacksAndValues)[info.id := WriteEntry(info, callback, value)]
      ensures forall p :: p in active + waiting ==> p.id != info.id
    {
      Register(Infos(), active + waiting, nextId, info);
      nextId := nextId + 1;
      writeUInt16CallbacksAndValues := writeUInt16CallbacksAndValues[info.id := WriteEntry(info, callback, value)];
      assert WriteInfos(writeUInt16CallbacksAndValues)
          == WriteInfos(old(writeUInt16CallbacksAndValues))[info.id := info];
    }

    method WriteUInt16(address: Address, value: bv16, callback: CallbackId)
      returns (info: OperationInfo, canRun: bool)
      requires Valid()
      modifies this`nextId, this`writeUInt16CallbacksAndValues
      modifies this`pendingOperations, this`operationRunning, this`waiting, this`active
      ensures Valid()
      ensures info == OperationInfo(old(nextId), OperationType.WriteUInt16, address) && nextId == old(nextId) + 1
      ensures writeUInt16CallbacksAndValues
              == old(writeUInt16CallbacksAndValues)[info.id := WriteEntry(info, callback, value)]
      ensures Admitted(old(active), old(waiting), info, canRun, active, waiting)
    {
      info := OperationInfo(nextId, OperationType.WriteUInt16, address);
      RegisterWrite16(info, value, callback);
      canRun := Admit(info);
    }

    method RegisterWrite32(info: OperationInfo, value: bv32, callback: CallbackId)
      requires Registered(Infos(), active + waiting, nextId)
      requires info == OperationInfo(nextId, OperationType.WriteUInt32, info.address)
      modifies this`nextId, this`writeUInt32CallbacksAndValues
      ensures Registered(Infos(), active + waiting + {info}, nextId) && nextId == old(nextId) + 1
      ensures writeUInt32CallbacksAndValues
              == old(writeUInt32CallbacksAndValues)[info.id := WriteEntry(info, callback, value)]
      ensures forall p :: p in active + waiting ==> p.id != info.id
    {
      Register(Infos(), active + waiting, nextId, info);
      nextId := nextId + 1;
      writeUInt32CallbacksAndValues := writeUInt32CallbacksAndValues[info.id := WriteEntry(info, callback, value)];
      assert WriteInfos(writeUInt32CallbacksAndValues)
          == WriteInfos(old(writeUInt32CallbacksAndValues))[info.id := info];
    }

    method WriteUInt32(address: Address, value: bv32, callback: CallbackId)
      returns (info: OperationInfo, canRun: bool)
      requires Valid()
      modifies this`nextId, this`writeUInt32CallbacksAndValues
      modifies this`pendingOperations, this`operationRunning, this`waiting, this`active
      ensures Valid()
      ensures info == OperationInfo(old(nextId), OperationType.WriteUInt32, address) && nextId == old(nextId) + 1
      ensures writeUInt32CallbacksAndValues
              == old(writeUInt32CallbacksAndValues)[info.id := WriteEntry(info, callback, value)]
      ensures Admitted(old(active), old(waiting), info, canRun, active, waiting)
    {
      info := OperationInfo(nextId, OperationType.WriteUInt32, address);
      RegisterWrite32(info, value, callback);
      canRun := Admit(info);
    }

    method RegisterUpdate16(info: OperationInfo, update: bv16 -> Option<bv16>, callback: CallbackId)
      requires Registered(Infos(), active + waiting, nextId)
      requires info == OperationInfo(nextId, OperationType.UpdateUInt16, info.address)
      modifies this`nextId, this`updateUInt16Callbacks
      ensures Registered(Infos(), active + waiting + {info}, nextId) && nextId == old(nextId) + 1
      ensures updateUInt16Callbacks
              == old(updateUInt16Callbacks)[info.id := UpdateEntry(info, callback, false, update)]
      ensures forall p :: p in active + waiting ==> p.id != info.id
    {
      Register(Infos(), active + waiting, nextId, info);
      nextId := nextId + 1;
      updateUInt16Callbacks := updateUInt16Callbacks[info.id := UpdateEntry(info, callback, false, update)];
      assert UpdateInfos(updateUInt16Callbacks)
          == UpdateInfos(old(updateUInt16Callbacks))[info.id := info];
    }

    method UpdateUInt16(address: Address, update: bv16 -> Option<bv16>, callback: CallbackId)
      returns (info: OperationInfo, canRun: bool)
      requires Valid()
      modifies this`nextId, this`updateUInt16Callbacks
      modifies this`pendingOperations, this`operationRunning, this`waiting, this`active
      ensures Valid()
      ensures info == OperationInfo(old(nextId), OperationType.UpdateUInt16, address) && nextId == old(nextId) + 1
      ensures updateUInt16Callbacks
              == old(updateUInt16Callbacks)[info.id := UpdateEntry(info, callback, false, update)]
      ensures Admitted(old(active), old(waiting), info, canRun, active, waiting)
    {
      info := OperationInfo(nextId, OperationType.UpdateUInt16, address);
      RegisterUpdate16(info, update, callback);
      canRun := Admit(info);
    }

    method RegisterUpdate32(info: OperationInfo, update: bv32 -> Option<bv32>, callback: CallbackId)
      requires Registered(Infos(), active + waiting, nextId)
      requires info == OperationInfo(nextId, OperationType.UpdateUInt32, info.address)
      modifies this`nextId, this`updateUInt32Callbacks
      ensures Registered(Infos(), active + waiting + {info}, nextId) && nextId == old(nextId) + 1
      ensures updateUInt32Callbacks
              == old(updateUInt32Callbacks)[info.id := UpdateEntry(info, callback, false, update)]
      ensures forall p :: p in active + waiting ==> p.id != info.id
    {
      Register(Infos(), active + waiting, nextId, info);
      nextId := nextId + 1;
      updateUInt32Callbacks := updateUInt32Callbacks[info.id := UpdateEntry(info, callback, false, update)];
      assert UpdateInfos(updateUInt32Callbacks)
          == UpdateInfos(old(updateUInt32Callbacks))[info.id := info];
    }

    method UpdateUInt32(address: Address, update: bv32 -> Option<bv32>, callback: CallbackId)
      returns (info: OperationInfo, canRun: bool)
      requires Valid()
      modifies this`nextId, this`updateUInt32Callbacks
      modifies this`pendingOperations, this`operationRunning, this`waiting, this`active
      ensures Valid()
      ensures info == OperationInfo(old(nextId), OperationType.UpdateUInt32, address) && nextId == old(nextId) + 1
      ensures updateUInt32Callbacks
              == old(updateUInt32Callbacks)[info.id := UpdateEntry(info, callback, false, update)]
      ensures Admitted(old(active), old(waiting), info, canRun, active, waiting)
    {
      info := OperationInfo(nextId, OperationType.UpdateUInt32, address);
      RegisterUpdate32(info, update, callback);
      canRun := Admit(info);
    }

    /** Drops the callback of `info` from the one map that holds it. */
    method EraseCallback(info: OperationInfo, ghost ops: Operations)
      requires Registered(Infos(), ops, nextId) && UniqueIds(ops) && info in ops
      modifies this`writeUInt16CallbacksAndValues, this`writeUInt32CallbacksAndValues
      modifies this`updateUInt16Callbacks, this`updateUInt32Callbacks
      ensures Registered(Infos(), ops - {info}, nextId)
      ensures writeUInt16CallbacksAndValues == old(writeUInt16CallbacksAndValues) - {info.id}
      ensures writeUInt32CallbacksAndValues == old(writeUInt32CallbacksAndValues) - {info.id}
      ensures updateUInt16Callbacks == old(updateUInt16Callbacks) - {info.id}
      ensures updateUInt32Callbacks == old(updateUInt32Callbacks) - {info.id}
    {
      ghost var infos := Infos();
      Deregister(infos, ops, nextId, info);
      OtherMapsLack(infos, info);
      MinusAbsent(writeUInt16CallbacksAndValues, info.id);
      MinusAbsent(writeUInt32CallbacksAndValues, info.id);
      MinusAbsent(updateUInt16Callbacks, info.id);
      MinusAbsent(updateUInt32Callbacks, info.id);
      match info.kind
      case WriteUInt16 =>
        writeUInt16CallbacksAndValues := writeUInt16CallbacksAndValues - {info.id};
        assert WriteInfos(writeUInt16CallbacksAndValues) == infos.w16 - {info.id};
      case WriteUInt32 =>
        writeUInt32CallbacksAndValues := writeUInt32CallbacksAndValues - {info.id};
        assert WriteInfos(writeUInt32CallbacksAndValues) == infos.w32 - {info.id};
      case UpdateUInt16 =>
        updateUInt16Callbacks := updateUInt16Callbacks - {info.id};
        assert UpdateInfos(updateUInt16Callbacks) == infos.u16 - {info.id};
      case UpdateUInt32 =>
        updateUInt32Callbacks := updateUInt32Callbacks - {info.id};
        assert UpdateInfos(updateUInt32Callbacks) == infos.u32 - {info.id};
    }

    /** The first half of finishing: the bytes are free again, and the callback is gone. */
    method Release(info: OperationInfo)
      requires Valid() && info in active
      modifies this`operationRunning, this`active
      modifies this`writeUInt16CallbacksAndValues, this`writeUInt32CallbacksAndValues
      modifies this`updateUInt16Callbacks, this`updateUInt32Callbacks
      ensures active == old(active) - {info} && RunningIs(active) && Consistent(active + {info}, waiting)
      ensures Registered(Infos(), active + waiting, nextId)
      ensures writeUInt16CallbacksAndValues == old(writeUInt16CallbacksAndValues) - {info.id}
      ensures writeUInt32CallbacksAndValues == old(writeUInt32CallbacksAndValues) - {info.id}
      ensures updateUInt16Callbacks == old(updateUInt16Callbacks) - {info.id}
      ensures updateUInt32Callbacks == old(updateUInt32Callbacks) - {info.id}
    {
      assert active - {info} + {info} == active;
      UnmarkRunOperation(info);
      EraseCallback(info, old(active + waiting));
      assert active + waiting == old(active + waiting) - {info};
    }

    method OperationFinished(info: OperationInfo) returns (runnable: seq<OperationInfo>)
      requires Valid() && info in active
      modifies this
      ensures Valid() && nextId == old(nextId)
      ensures NoDuplicates(runnable)
      ensures Finished(old(active), old(waiting), info, Set(runnable), active, waiting)
      ensures writeUInt16CallbacksAndValues == old(writeUInt16CallbacksAndValues) - {info.id}
      ensures writeUInt32CallbacksAndValues == old(writeUInt32CallbacksAndValues) - {info.id}
      ensures updateUInt16Callbacks == old(updateUInt16Callbacks) - {info.id}
      ensures updateUInt32Callbacks == old(updateUInt32Callbacks) - {info.id}
    {
      Release(info);
      ghost var rest := active + waiting;
      runnable := PrepareNextOperations(info);
      assert Registered(Infos(), rest, nextId) && active + waiting == rest;
    }

    /** Issues the delegate call that starts a marked operation. If the delegate throws instead of taking the call, the
        operation has failed. */
    method RunOperation(info: OperationInfo, throws: bool) returns (outcome: Outcome)
      requires Valid() && info in active
      modifies this
      ensures Valid() && nextId == old(nextId)
      ensures !throws ==> outcome == Continue(old(FirstCall(info.address, RequestOf(info))))
      ensures !throws ==> Infos() == old(Infos()) && active == old(active) && waiting == old(waiting)
      ensures throws ==>
                && outcome.Ended? && !outcome.ok && outcome.caller == old(CallerOf(info))
                && NoDuplicates(outcome.runnable)
                && Finished(old(active), old(waiting), info, Set(outcome.runnable), active, waiting)
    {
      var call, caller := CallFor(info);
      if throws {
        var runnable := OperationFinished(info);
        return Ended(false, caller, runnable);
      }
      return Continue(call);
    }

    /** The success method of the two-stage callback of a 16-bit update. The update function may throw, and so may the
        delegate when it is asked for the write. */
    method UpdateSuccess16(info: OperationInfo, value: bv16, writeThrows: bool) returns (outcome: Outcome)
      requires Valid() && info in active && info.kind == OperationType.UpdateUInt16
      modifies this
      ensures Valid() && nextId == old(nextId)
      ensures
        var entry := old(updateUInt16Callbacks)[info.id];
        if !entry.readFinished && entry.update(value).Some? && !writeThrows then
          && outcome == Continue(DelegateWrite16(info.address, entry.update(value).value))
          && active == old(active) && waiting == old(waiting)
          && info.id in updateUInt16Callbacks && updateUInt16Callbacks[info.id] == entry.(readFinished := true)
        else
          && outcome.Ended? && outcome.ok == entry.readFinished && outcome.caller == entry.delegate
          && NoDuplicates(outcome.runnable)
          && Finished(old(active), old(waiting), info, Set(outcome.runnable), active, waiting)
    {
      var entry := updateUInt16Callbacks[info.id];
      if entry.readFinished {
        var runnable := OperationFinished(info);
        return Ended(true, entry.delegate, runnable);
      }
      updateUInt16Callbacks := updateUInt16Callbacks[info.id := entry.(readFinished := true)];
      assert UpdateInfos(updateUInt16Callbacks) == UpdateInfos(old(updateUInt16Callbacks));
      var newValue := entry.update(value);
      if newValue.Some? && !writeThrows {
        return Continue(DelegateWrite16(info.address, newValue.value));
      }
      var runnable := OperationFinished(info);
      return Ended(false, entry.delegate, runnable);
    }

    /** The success method of the two-stage callback of a 32-bit update. The update function may throw, and so may the
        delegate when it is asked for the write. */
    method UpdateSuccess32(info: OperationInfo, value: bv32, writeThrows: bool) returns (outcome: Outcome)
      requires Valid() && info in active && info.kind == OperationType.UpdateUInt32
      modifies this
      ensures Valid() && nextId == old(nextId)
      ensures
        var entry := old(updateUInt32Callbacks)[info.id];
        if !entry.readFinished && entry.update(value).Some? && !writeThrows then
          && outcome == Continue(DelegateWrite32(info.address, entry.update(value).value))
          && active == old(active) && waiting == old(waiting)
          && info.id in updateUInt32Callbacks && updateUInt32Callbacks[info.id] == entry.(readFinished := true)
        else
          && outcome.Ended? && outcome.ok == entry.readFinished && outcome.caller == entry.delegate
          && NoDuplicates(outcome.runnable)
          && Finished(old(active), old(waiting), info, Set(outcome.runnable), active, waiting)
    {
      var entry := updateUInt32Callbacks[info.id];
      if entry.readFinished {
        var runnable := OperationFinished(info);
        return Ended(true, entry.delegate, runnable);
      }
      updateUInt32Callbacks := updateUInt32Callbacks[info.id := entry.(readFinished := true)];
      assert UpdateInfos(updateUInt32Callbacks) == UpdateInfos(old(updateUInt32Callbacks));
      var newValue := entry.update(value);
      if newValue.Some? && !writeThrows {
        return Continue(DelegateWrite32(info.address, newValue.value));
      }
      var runnable := OperationFinished(info);
      return Ended(false, entry.delegate, runnable);
    }
  }

  ghost function Set<T>(s: seq<T>): set<T> {
    set x | x in s
  }

  /** What restarting operations has achieved once the first k bytes of `info` have been looked at. */
  ghost predicate Progress(active0: Operations, waiting0: Operations, info: OperationInfo, k: nat,
                           runnable: seq<OperationInfo>, active: Operations, waiting: Operations)
  {
    && active == active0 + Set(runnable)
    && waiting == waiting0 - Set(runnable)
    && NoDuplicates(runnable)
    && (forall p :: p in runnable ==> p in waiting0 && Overlap(info, p))
    && (forall p, a :: p in waiting && a in p.Bytes() && a in Span(info.address, k) ==> !CanRun(p, active))
  }

  lemma ProgressKeepsApart(active0: Operations, waiting0: Operations, info: OperationInfo, k: nat,
                           runnable: seq<OperationInfo>, active: Operations, waiting: Operations)
    requires Progress(active0, waiting0, info, k, runnable, active, waiting)
    requires UniqueIds(waiting0) && active0 !! waiting0 && k < ADDRESS_SPACE
    ensures UniqueIds(waiting) && active !! waiting
    ensures k < info.Width() ==> ByteAddress(info.address, k) in info.Bytes()
  {
  }

  lemma MoreProgress(active0: Operations, waiting0: Operations, info: OperationInfo, k: nat,
                     runnable: seq<OperationInfo>, active: Operations, waiting: Operations,
                     started: seq<OperationInfo>, active': Operations, waiting': Operations)
    requires Progress(active0, waiting0, info, k, runnable, active, waiting) && k < ADDRESS_SPACE
    requires started == [] || (|started| == 1 && started[0] in waiting && Overlap(info, started[0]))
    requires active' == active + Set(started) && waiting' == waiting - Set(started)
    requires forall p :: p in waiting' && ByteAddress(info.address, k) in p.Bytes() ==> !CanRun(p, active')
    ensures Progress(active0, waiting0, info, k + 1, started + runnable, active', waiting')
  {
    SpanGrows(info.address, k);
    assert Set(started + runnable) == Set(started) + Set(runnable);
    forall p, a | p in waiting' && a in p.Bytes() && a in Span(info.address, k)
      ensures !CanRun(p, active')
    {
      var q :| q in active && Overlap(p, q);
      assert q in active';
    }
  }

  lemma ProgressIsFinish(active0: Operations, waiting0: Operations, info: OperationInfo,
                         runnable: seq<OperationInfo>, active: Operations, waiting: Operations)
    requires Progress(active0, waiting0, info, info.Width(), runnable, active, waiting)
    requires info !in active0 && Exclusive(active)
    ensures Finished(active0 + {info}, waiting0, info, Set(runnable), active, waiting)
  {
    forall q | q in waiting && Overlap(info, q) ensures !CanRun(q, active) {
      var a :| a in info.Bytes() && a in q.Bytes();
    }
    assert active0 + {info} - {info} == active0;
  }

  lemma UniqueWithin(active: Operations, waiting: Operations, p: OperationInfo)
    requires Consistent(active + {p}, waiting)
    ensures UniqueIds(waiting) && Exclusive(active) && active !! waiting
  {
  }

  /** Starting p keeps the running operations apart and makes everything else that covers b wait for p. */
  lemma StartedAt(active: Operations, waiting: Operations, info: OperationInfo, b: Address, p: OperationInfo)
    requires Exclusive(active) && CanRun(p, active)
    requires b in p.Bytes() && b in info.Bytes()
    ensures Exclusive(active + {p})
    ensures Overlap(info, p)
    ensures forall q :: q in waiting - {p} && b in q.Bytes() ==> !CanRun(q, active + {p})
  {
    forall q ensures Overlap(p, q) == Overlap(q, p) {}
    forall q: OperationInfo | b in q.Bytes() ensures Overlap(q, p) {}
  }

  lemma SpanGrows(a: Address, k: nat)
    requires k < ADDRESS_SPACE
    ensures ByteAddress(a, k) !in Span(a, k)
    ensures Span(a, k + 1) == Span(a, k) + {ByteAddress(a, k)}
  {
    forall j | 0 <= j < k ensures ByteAddress(a, j) != ByteAddress(a, k) {
      OffsetOfByte(a, j);
      OffsetOfByte(a, k);
    }
  }
}
