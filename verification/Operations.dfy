/**
 The operations that the consistent memory access schedules, and what it means
 to admit one and to finish one. Both are relations on two sets of operations:
 `active` (their bytes are marked as running) and `waiting` (filed as pending).
 */
module Operations {
  import opened Memory

  datatype OperationType = WriteUInt16 | WriteUInt32 | UpdateUInt16 | UpdateUInt32

  function WidthOf(kind: OperationType): nat {
    match kind
    case WriteUInt16 => 2
    case UpdateUInt16 => 2
    case WriteUInt32 => 4
    case UpdateUInt32 => 4
  }

  datatype OperationInfo = OperationInfo(id: nat, kind: OperationType, address: Address) {
    function Width(): nat {
      WidthOf(kind)
    }

    function Bytes(): set<Address> {
      Span(address, Width())
    }
  }

  type Operations = set<OperationInfo>

  ghost predicate Overlap(p: OperationInfo, q: OperationInfo) {
    exists a :: a in p.Bytes() && a in q.Bytes()
  }

  /** p may run beside `active` when it shares no byte with any of them. */
  ghost predicate CanRun(p: OperationInfo, active: Operations) {
    forall q :: q in active ==> !Overlap(p, q)
  }

  ghost predicate UniqueIds(ops: Operations) {
    forall p, q :: p in ops && q in ops && p.id == q.id ==> p == q
  }

  ghost predicate Exclusive(active: Operations) {
    forall p, q :: p in active && q in active && p != q ==> !Overlap(p, q)
  }

  /** Nothing waits without a reason: each waiting operation shares a byte with a running one. */
  ghost predicate AllBlocked(waiting: Operations, active: Operations) {
    forall p :: p in waiting ==> !CanRun(p, active)
  }

  /** What every reachable state of the scheduler satisfies. */
  ghost predicate Consistent(active: Operations, waiting: Operations) {
    && active !! waiting
    && UniqueIds(active + waiting)
    && Exclusive(active)
    && AllBlocked(waiting, active)
  }

  /** A new operation runs at once if none of its bytes is in use; otherwise it waits. */
  ghost predicate Admitted(active: Operations, waiting: Operations, p: OperationInfo, canRun: bool,
                           active': Operations, waiting': Operations)
  {
    && canRun == CanRun(p, active)
    && active' == (if canRun then active + {p} else active)
    && waiting' == (if canRun then waiting else waiting + {p})
  }

  /** When p finishes, `started` moves from waiting to active, and no operation that p held up stays behind
      unless some operation that is now active holds it up. */
  ghost predicate Finished(active: Operations, waiting: Operations, p: OperationInfo, started: Operations,
                           active': Operations, waiting': Operations)
  {
    && p in active
    && started <= waiting
    && active' == active - {p} + started
    && waiting' == waiting - started
    && Exclusive(active')
    && (forall q :: q in started ==> Overlap(p, q))
    && (forall q :: q in waiting' && Overlap(p, q) ==> !CanRun(q, active'))
  }

  lemma AdmittedKeepsConsistent(active: Operations, waiting: Operations, p: OperationInfo, canRun: bool,
                                active': Operations, waiting': Operations)
    requires Consistent(active, waiting)
    requires forall q :: q in active + waiting ==> q.id != p.id
    requires Admitted(active, waiting, p, canRun, active', waiting')
    ensures Consistent(active', waiting')
  {
    forall q ensures Overlap(p, q) == Overlap(q, p) {}
    forall q | q in waiting'
      ensures !CanRun(q, active')
    {
      var r :| r in active && Overlap(if q == p then p else q, r);
      assert r in active';
    }
  }

  lemma FinishedKeepsConsistent(active: Operations, waiting: Operations, p: OperationInfo, started: Operations,
                                active': Operations, waiting': Operations)
    requires Consistent(active, waiting)
    requires Finished(active, waiting, p, started, active', waiting')
    ensures Consistent(active', waiting')
  {
    forall q | q in waiting'
      ensures !CanRun(q, active')
    {
      if !Overlap(p, q) {
        var r :| r in active && Overlap(q, r);
        assert Overlap(p, q) == Overlap(q, p);
        assert r in active';
      }
    }
  }

  /** Each finish shrinks the work that is left by exactly the finished operation. */
  lemma FinishedShrinksWork(active: Operations, waiting: Operations, p: OperationInfo, started: Operations,
                            active': Operations, waiting': Operations)
    requires Consistent(active, waiting)
    requires Finished(active, waiting, p, started, active', waiting')
    ensures active' + waiting' == active + waiting - {p}
    ensures |active'| + |waiting'| == |active| + |waiting| - 1
  {
    assert active' + waiting' == active + waiting - {p};
    assert |active' + waiting'| == |active'| + |waiting'|;
    assert |active + waiting| == |active| + |waiting|;
  }

  /** No stuck operation: with nothing running there is nothing waiting. */
  lemma NothingWaitsWhenIdle(active: Operations, waiting: Operations)
    requires Consistent(active, waiting)
    requires active == {}
    ensures waiting == {}
  {
    assert forall p :: p in waiting ==> !CanRun(p, active);
  }
}
