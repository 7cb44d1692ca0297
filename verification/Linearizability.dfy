/**
 The scheduler together with an asynchronous device. Every mutex-protected block
 and every effect on the device is one atomic step, and steps of different
 operations interleave freely. The environment gives each delegate request one
 callback, lets a delegate write take effect at most once and before that
 callback, and has no other writer of the bytes in question.
 */
module Linearizability {
  import opened Common
  import opened Memory
  import opened Operations
  import opened ConsistentAccess

  datatype Submission = Submission(info: OperationInfo, request: Request)

  datatype Phase =
    | Pending
    | Ready
    | Reading
    | ReadReturned(value: seq<bv8>)
    | Writing(bytes: seq<bv8>)
    | Written
    | Succeeded
    | Failed(effect: bool)
  {
    predicate Running() {
      Ready? || Reading? || ReadReturned? || Writing? || Written?
    }

    predicate TookEffect() {
      Written? || Succeeded? || (Failed? && effect)
    }

    predicate Started() {
      !Pending? && !Ready?
    }
  }

  /** The bytes that an operation stores into a register that holds `before`. None if the update function throws. */
  function NewBytes(request: Request, before: seq<bv8>): (r: Option<seq<bv8>>)
    requires |before| == WidthOf(request.Kind())
    ensures r.Some? ==> |r.value| == |before|
  {
    match request
    case Write16(v) => Some(Encode16(v))
    case Write32(v) => Some(Encode32(v))
    case Update16(f) => var v := f(Decode16(before)); if v.Some? then Some(Encode16(v.value)) else None
    case Update32(f) => var v := f(Decode32(before)); if v.Some? then Some(Encode32(v.value)) else None
  }

  /** Runs one operation on the memory in a single atomic step. */
  ghost function Apply(m: Mem, s: Submission): Mem
    requires s.info.kind == s.request.Kind()
  {
    match NewBytes(s.request, Load(m, s.info.address, s.info.Width()))
    case Some(bytes) => Store(m, s.info.address, bytes)
    case None => m
  }

  type Submissions = seq<Submission>

  ghost predicate WellKinded(subs: Submissions) {
    forall i :: 0 <= i < |subs| ==> subs[i].info.kind == subs[i].request.Kind() && subs[i].info.id == i
  }

  /** Runs the operations in `log` one at a time, in that order. */
  ghost function Replay(m: Mem, subs: Submissions, log: seq<nat>): Mem
    requires WellKinded(subs)
    requires forall i :: 0 <= i < |log| ==> log[i] < |subs|
  {
    if log == [] then m
    else
      var last := log[|log| - 1];
      Apply(Replay(m, subs, log[..|log| - 1]), subs[last])
  }

  datatype System = System(
    subs: Submissions,       // everything submitted so far; the index is the operation's id
    phase: seq<Phase>,       // how far each of them has come
    mem: Mem,                // the device
    log: seq<nat>,           // operations in the order in which their writes took effect
    starts: seq<nat>)        // operations in the order in which they were started
  {
    ghost predicate WellFormed() {
      |subs| == |phase| && WellKinded(subs)
    }

    ghost function Active(): Operations
      requires WellFormed()
    {
      set i | 0 <= i < |subs| && phase[i].Running() :: subs[i].info
    }

    ghost function Waiting(): Operations
      requires WellFormed()
    {
      set i | 0 <= i < |subs| && phase[i].Pending? :: subs[i].info
    }

    ghost function Register(id: nat): seq<bv8>
      requires WellFormed() && id < |subs|
    {
      Load(mem, subs[id].info.address, subs[id].info.Width())
    }
  }

  datatype Step =
    | Submit(address: Address, request: Request)
    | Issue(id: nat)
    | DeviceRead(id: nat)
    | ReadReply(id: nat)
    | DeviceWrite(id: nat)
    | Finish(id: nat, ok: bool, started: set<nat>)

  ghost predicate Init(s: System) {
    s.subs == [] && s.phase == [] && s.log == [] && s.starts == []
  }

  /** What is under way once the scheduler has issued a delegate call. */
  function Issued(call: DelegateCall): Phase {
    match call
    case DelegateWrite16(_, v) => Writing(Encode16(v))
    case DelegateWrite32(_, v) => Writing(Encode32(v))
    case DelegateRead16(_) => Reading
    case DelegateRead32(_) => Reading
  }

  ghost predicate Next(s: System, step: Step, s': System)
    requires s.WellFormed()
  {
    match step
    case Submit(address, request) =>
      var info := OperationInfo(|s.subs|, request.Kind(), address);
      var canRun := CanRun(info, s.Active());
      s' == s.(subs := s.subs + [Submission(info, request)], phase := s.phase + [if canRun then Ready else Pending])
    case Issue(id) =>
      && id < |s.subs| && s.phase[id].Ready?
      && s' == s.(phase := s.phase[id := Issued(FirstCall(s.subs[id].info.address, s.subs[id].request))],
                  starts := s.starts + [id])
    case DeviceRead(id) =>
      && id < |s.subs| && s.phase[id].Reading?
      && s' == s.(phase := s.phase[id := ReadReturned(s.Register(id))])
    case ReadReply(id) =>
      && id < |s.subs| && s.phase[id].ReadReturned?
      && |s.phase[id].value| == s.subs[id].info.Width()
      && var bytes := NewBytes(s.subs[id].request, s.phase[id].value);
      && bytes.Some?
      && s' == s.(phase := s.phase[id := Writing(bytes.value)])
    case DeviceWrite(id) =>
      && id < |s.subs| && s.phase[id].Writing?
      && |s.phase[id].bytes| <= 4
      && s' == s.(phase := s.phase[id := Written],
                  mem := Store(s.mem, s.subs[id].info.address, s.phase[id].bytes),
                  log := s.log + [id])
    case Finish(id, ok, started) =>
      // An operation may fail at any point after it was started; it succeeds only after its write.
      && id < |s.subs| && s.phase[id].Running() && s.phase[id].Started()
      && (ok ==> s.phase[id].Written?)
      && (forall i :: i in started ==> i < |s.subs| && s.phase[i].Pending?)
      && |s'.phase| == |s.phase|
      && (forall i :: 0 <= i < |s.phase| ==>
            s'.phase[i] == if i == id then (if ok then Succeeded else Failed(s.phase[id].Written?))
                           else if i in started then Ready else s.phase[i])
      && s' == s.(phase := s'.phase)
      && Finished(s.Active(), s.Waiting(), s.subs[id].info, (set i | i in started :: s.subs[i].info),
                  s'.Active(), s'.Waiting())
  }

  ghost predicate HistoriesAgree(s: System)
    requires s.WellFormed()
  {
    && NoDuplicates(s.log) && NoDuplicates(s.starts)
    && (forall i :: 0 <= i < |s.log| ==> s.log[i] < |s.subs|)
    && (forall id :: id in s.log <==> 0 <= id < |s.subs| && s.phase[id].TookEffect())
    && (forall id :: id in s.starts <==> 0 <= id < |s.subs| && s.phase[id].Started())
  }

  /** A value that was read is still the register's value, and a value about to be written is the one that
      the operation would store if it ran atomically now. */
  ghost predicate ValuesAgree(s: System)
    requires s.WellFormed()
  {
    forall id :: 0 <= id < |s.subs| ==>
      && (s.phase[id].ReadReturned? ==> s.phase[id].value == s.Register(id))
      && (s.phase[id].Writing? ==> NewBytes(s.subs[id].request, s.Register(id)) == Some(s.phase[id].bytes))
  }

  ghost predicate Inv(m0: Mem, s: System) {
    && s.WellFormed()
    && Consistent(s.Active(), s.Waiting())
    && HistoriesAgree(s)
    && ValuesAgree(s)
    && s.mem == Replay(m0, s.subs, s.log)
  }

  lemma ReplayIgnoresLaterSubmissions(m: Mem, subs: Submissions, x: Submission, log: seq<nat>)
    requires WellKinded(subs) && WellKinded(subs + [x])
    requires forall i :: 0 <= i < |log| ==> log[i] < |subs|
    ensures Replay(m, subs + [x], log) == Replay(m, subs, log)
  {
    if log != [] {
      ReplayIgnoresLaterSubmissions(m, subs, x, log[..|log| - 1]);
    }
  }

  lemma SubmittedSets(s: System, s': System, x: Submission, canRun: bool)
    requires s.WellFormed() && s'.WellFormed() && s'.subs == s.subs + [x]
    requires s'.phase == s.phase + [if canRun then Ready else Pending]
    ensures s'.Active() == if canRun then s.Active() + {x.info} else s.Active()
    ensures s'.Waiting() == if canRun then s.Waiting() else s.Waiting() + {x.info}
  {
    var n := |s.subs|;
    assert s'.subs[n] == x;
    forall p | p in s.Active() ensures p in s'.Active() {
      var i :| 0 <= i < n && s.phase[i].Running() && s.subs[i].info == p;
      assert s'.subs[i].info == p && s'.phase[i].Running();
    }
    forall p | p in s.Waiting() ensures p in s'.Waiting() {
      var i :| 0 <= i < n && s.phase[i].Pending? && s.subs[i].info == p;
      assert s'.subs[i].info == p && s'.phase[i].Pending?;
    }
  }

  lemma SubmitKeepsHistories(s: System, step: Step, s': System)
    requires s.WellFormed() && step.Submit? && Next(s, step, s')
    requires HistoriesAgree(s) && ValuesAgree(s)
    ensures s'.WellFormed() && HistoriesAgree(s') && ValuesAgree(s')
  {
    forall id | 0 <= id < |s.subs| ensures s'.Register(id) == s.Register(id) {}
  }

  lemma SubmitKeepsConsistent(s: System, step: Step, s': System)
    requires s.WellFormed() && s'.WellFormed() && Consistent(s.Active(), s.Waiting())
    requires step.Submit? && Next(s, step, s')
    ensures Consistent(s'.Active(), s'.Waiting())
  {
    var info := OperationInfo(|s.subs|, step.request.Kind(), step.address);
    var canRun := CanRun(info, s.Active());
    SubmittedSets(s, s', s'.subs[|s.subs|], canRun);
    AdmittedKeepsConsistent(s.Active(), s.Waiting(), info, canRun, s'.Active(), s'.Waiting());
  }

  lemma SubmitKeepsInv(m0: Mem, s: System, step: Step, s': System)
    requires Inv(m0, s) && step.Submit? && Next(s, step, s')
    ensures Inv(m0, s')
  {
    SubmitKeepsHistories(s, step, s');
    SubmitKeepsConsistent(s, step, s');
    ReplayIgnoresLaterSubmissions(m0, s.subs, s'.subs[|s.subs|], s.log);
  }

  /** Steps inside one operation change neither who runs nor who waits. */
  lemma SameSets(s: System, s': System, id: nat)
    requires s.WellFormed() && id < |s.subs| && s.phase[id].Running()
    requires s'.subs == s.subs && |s'.phase| == |s.phase| && s'.phase == s.phase[id := s'.phase[id]]
    requires s'.phase[id].Running()
    ensures s'.Active() == s.Active() && s'.Waiting() == s.Waiting()
  {
  }

  lemma IssueKeepsHistories(s: System, step: Step, s': System)
    requires s.WellFormed() && step.Issue? && Next(s, step, s')
    requires HistoriesAgree(s) && ValuesAgree(s)
    ensures HistoriesAgree(s') && ValuesAgree(s')
  {
    forall id | 0 <= id < |s.subs| ensures s'.Register(id) == s.Register(id) {}
  }

  lemma IssueKeepsInv(m0: Mem, s: System, step: Step, s': System)
    requires Inv(m0, s) && step.Issue? && Next(s, step, s')
    ensures Inv(m0, s')
  {
    IssueKeepsHistories(s, step, s');
    SameSets(s, s', step.id);
  }

  lemma ReadKeepsHistories(s: System, step: Step, s': System)
    requires s.WellFormed() && (step.DeviceRead? || step.ReadReply?) && Next(s, step, s')
    requires HistoriesAgree(s) && ValuesAgree(s)
    ensures HistoriesAgree(s') && ValuesAgree(s')
  {
    forall id | 0 <= id < |s.subs| ensures s'.Register(id) == s.Register(id) {}
  }

  lemma ReadKeepsInv(m0: Mem, s: System, step: Step, s': System)
    requires Inv(m0, s) && (step.DeviceRead? || step.ReadReply?) && Next(s, step, s')
    ensures Inv(m0, s')
  {
    ReadKeepsHistories(s, step, s');
    SameSets(s, s', step.id);
  }

  /** A store by one of two running operations leaves the other's register alone. */
  lemma WriteFrame(m: Mem, active: Operations, p: OperationInfo, bytes: seq<bv8>, q: OperationInfo)
    requires Exclusive(active) && p in active && q in active && p != q
    requires |bytes| == p.Width()
    ensures Load(Store(m, p.address, bytes), q.address, q.Width()) == Load(m, q.address, q.Width())
  {
    assert !Overlap(p, q);
    assert p.Bytes() !! q.Bytes();
    StoreFrame(m, p.address, bytes, q.address, q.Width());
  }

  lemma DeviceWriteKeepsValues(s: System, step: Step, s': System)
    requires s.WellFormed() && Exclusive(s.Active()) && ValuesAgree(s)
    requires step.DeviceWrite? && Next(s, step, s')
    ensures ValuesAgree(s')
  {
    var id := step.id;
    forall other | 0 <= other < |s.subs| && other != id && s.phase[other].Running()
      ensures s'.Register(other) == s.Register(other)
    {
      assert s.subs[id].info in s.Active() && s.subs[other].info in s.Active();
      WriteFrame(s.mem, s.Active(), s.subs[id].info, s.phase[id].bytes, s.subs[other].info);
    }
  }

  lemma DeviceWriteKeepsHistories(s: System, step: Step, s': System)
    requires s.WellFormed() && HistoriesAgree(s) && step.DeviceWrite? && Next(s, step, s')
    ensures s'.WellFormed() && HistoriesAgree(s')
  {
  }

  lemma DeviceWriteReplays(m0: Mem, s: System, step: Step, s': System)
    requires s.WellFormed() && HistoriesAgree(s) && ValuesAgree(s) && s.mem == Replay(m0, s.subs, s.log)
    requires step.DeviceWrite? && Next(s, step, s')
    ensures Replay(m0, s.subs, s'.log) == s'.mem
  {
    assert s'.log[..|s'.log| - 1] == s.log;
    assert Apply(s.mem, s.subs[step.id]) == s'.mem;
  }

  lemma DeviceWriteKeepsInv(m0: Mem, s: System, step: Step, s': System)
    requires Inv(m0, s) && step.DeviceWrite? && Next(s, step, s')
    ensures Inv(m0, s')
  {
    DeviceWriteKeepsHistories(s, step, s');
    SameSets(s, s', step.id);
    DeviceWriteKeepsValues(s, step, s');
    DeviceWriteReplays(m0, s, step, s');
  }

  lemma FinishKeepsHistories(s: System, step: Step, s': System)
    requires s.WellFormed() && step.Finish? && Next(s, step, s')
    requires HistoriesAgree(s) && ValuesAgree(s)
    ensures HistoriesAgree(s') && ValuesAgree(s')
  {
    forall id | 0 <= id < |s.subs| ensures s'.Register(id) == s.Register(id) {}
  }

  lemma FinishKeepsInv(m0: Mem, s: System, step: Step, s': System)
    requires Inv(m0, s) && step.Finish? && Next(s, step, s')
    ensures Inv(m0, s')
  {
    FinishKeepsHistories(s, step, s');
    FinishKeepsConsistent(s, step, s');
  }

  lemma FinishKeepsConsistent(s: System, step: Step, s': System)
    requires s.WellFormed() && Consistent(s.Active(), s.Waiting())
    requires step.Finish? && Next(s, step, s')
    ensures Consistent(s'.Active(), s'.Waiting())
    ensures |s'.Active()| + |s'.Waiting()| == |s.Active()| + |s.Waiting()| - 1
  {
    var started := set i | i in step.started :: s.subs[i].info;
    FinishedKeepsConsistent(s.Active(), s.Waiting(), s.subs[step.id].info, started, s'.Active(), s'.Waiting());
    FinishedShrinksWork(s.Active(), s.Waiting(), s.subs[step.id].info, started, s'.Active(), s'.Waiting());
  }

  lemma NextKeepsInv(m0: Mem, s: System, step: Step, s': System)
    requires Inv(m0, s) && Next(s, step, s')
    ensures Inv(m0, s')
  {
    match step
    case Submit(_, _) => SubmitKeepsInv(m0, s, step, s');
    case Issue(_) => IssueKeepsInv(m0, s, step, s');
    case DeviceRead(_) => ReadKeepsInv(m0, s, step, s');
    case ReadReply(_) => ReadKeepsInv(m0, s, step, s');
    case DeviceWrite(_) => DeviceWriteKeepsInv(m0, s, step, s');
    case Finish(_, _, _) => FinishKeepsInv(m0, s, step, s');
  }

  /** A run: the states that the system passes through, and the steps between them. */
  ghost predicate Run(states: seq<System>, steps: seq<Step>) {
    && |states| == |steps| + 1
    && Init(states[0])
    && (forall i :: 0 <= i < |states| ==> states[i].WellFormed())
    && (forall i {:trigger steps[i]} :: 0 <= i < |steps| ==> Next(states[i], steps[i], states[i + 1]))
  }

  lemma InitInv(s: System)
    requires Init(s) && s.WellFormed()
    ensures Inv(s.mem, s)
  {
    assert s.Active() == {} && s.Waiting() == {};
  }

  lemma {:induction false} RunKeepsInv(states: seq<System>, steps: seq<Step>, i: nat)
    requires Run(states, steps) && i < |states|
    ensures Inv(states[0].mem, states[i])
  {
    if i == 0 {
      InitInv(states[0]);
    } else {
      RunKeepsInv(states, steps, i - 1);
      NextKeepsInv(states[0].mem, states[i - 1], steps[i - 1], states[i]);
    }
  }

  /** Linearizability. In every state of every run the device holds what the operations whose writes took
      effect would have left there had they run atomically, one at a time, in the order of those writes. */
  lemma Linearizable(states: seq<System>, steps: seq<Step>, i: nat)
    requires Run(states, steps) && i < |states|
    ensures Inv(states[0].mem, states[i])
    ensures states[i].mem == Replay(states[0].mem, states[i].subs, states[i].log)
    ensures NoDuplicates(states[i].log)
    ensures forall id :: 0 <= id < |states[i].subs| && states[i].phase[id].Succeeded? ==> id in states[i].log
  {
    RunKeepsInv(states, steps, i);
  }

  /** The order of effects only grows, and so does the list of submissions. */
  lemma {:induction false} HistoryGrows(states: seq<System>, steps: seq<Step>, i: nat, j: nat)
    requires Run(states, steps) && i <= j < |states|
    ensures states[i].log <= states[j].log && states[i].subs <= states[j].subs
  {
    if i < j {
      HistoryGrows(states, steps, i, j - 1);
      assert Next(states[j - 1], steps[j - 1], states[j]);
    }
  }

  /** Real-time order: an operation that succeeded before another one was submitted takes effect before it. */
  lemma RealTimeOrder(states: seq<System>, steps: seq<Step>, i: nat, j: nat, a: nat, b: nat)
    requires Run(states, steps) && i <= j < |states|
    requires a < |states[i].subs| && states[i].phase[a].Succeeded?
    requires |states[i].subs| <= b && b in states[j].log
    ensures exists x, y :: 0 <= x < y < |states[j].log| && states[j].log[x] == a && states[j].log[y] == b
  {
    Linearizable(states, steps, i);
    HistoryGrows(states, steps, i, j);
    var x :| 0 <= x < |states[i].log| && states[i].log[x] == a;
    var y :| 0 <= y < |states[j].log| && states[j].log[y] == b;
    assert y >= |states[i].log|;
    assert states[j].log[x] == a;
  }

  /** How far an operation has come. */
  function Rank(p: Phase): (rank: nat)
    ensures rank == 4 <==> p.Writing?
  {
    match p
    case Pending => 0
    case Ready => 1
    case Reading => 2
    case ReadReturned(_) => 3
    case Writing(_) => 4
    case Written => 5
    case Succeeded => 6
    case Failed(_) => 6
  }

  lemma NextAdvances(s: System, step: Step, s': System)
    requires s.WellFormed() && s'.WellFormed() && Next(s, step, s')
    ensures s.subs <= s'.subs
    ensures forall id :: 0 <= id < |s.subs| ==> Rank(s.phase[id]) <= Rank(s'.phase[id])
  {
  }

  ghost predicate Advanced(s: System, s': System, id: nat)
    requires s.WellFormed() && s'.WellFormed()
  {
    id < |s.subs| ==> id < |s'.subs| && Rank(s.phase[id]) <= Rank(s'.phase[id])
  }

  /** No operation goes back. */
  lemma {:induction false} RankGrows(states: seq<System>, i: nat, j: nat, id: nat)
    requires i <= j < |states| && forall k :: 0 <= k < |states| ==> states[k].WellFormed()
    requires forall k :: 0 < k < |states| ==> Advanced(states[k - 1], states[k], id)
    ensures Advanced(states[i], states[j], id)
  {
    if i < j {
      RankGrows(states, i, j - 1, id);
      assert Advanced(states[j - 1], states[j], id);
    }
  }

  lemma RunAdvances(states: seq<System>, steps: seq<Step>, id: nat)
    requires Run(states, steps)
    ensures forall i, j :: 0 <= i <= j < |states| ==> Advanced(states[i], states[j], id)
  {
    forall k | 0 < k < |states|
      ensures Advanced(states[k - 1], states[k], id)
    {
      NextAdvances(states[k - 1], steps[k - 1], states[k]);
    }
    forall i, j | 0 <= i <= j < |states|
      ensures Advanced(states[i], states[j], id)
    {
      RankGrows(states, i, j, id);
    }
  }

  /** While an operation's write is under way, no other step touches its register. */
  lemma StepKeepsRegister(s: System, step: Step, s': System, id: nat)
    requires s.WellFormed() && s'.WellFormed() && Exclusive(s.Active()) && ValuesAgree(s) && Next(s, step, s')
    requires id < |s.subs| && s.phase[id].Writing? && id < |s'.subs| && s'.phase[id].Writing?
    ensures s'.phase[id] == s.phase[id] && s'.subs[id] == s.subs[id] && s'.Register(id) == s.Register(id)
  {
    if step.DeviceWrite? {
      assert s.subs[id].info in s.Active() && s.subs[step.id].info in s.Active();
      WriteFrame(s.mem, s.Active(), s.subs[step.id].info, s.phase[step.id].bytes, s.subs[id].info);
    }
  }

  lemma RunStepKeepsRegister(states: seq<System>, steps: seq<Step>, i: nat, id: nat)
    requires Run(states, steps) && i < |steps| && id < |states[i].subs| && states[i].phase[id].Writing?
    requires id < |states[i + 1].subs| && states[i + 1].phase[id].Writing?
    ensures SameWrite(states[i], states[i + 1], id)
  {
    Linearizable(states, steps, i);
    StepKeepsRegister(states[i], steps[i], states[i + 1], id);
  }

  ghost predicate SameWrite(s: System, s': System, id: nat)
    requires s.WellFormed() && s'.WellFormed()
  {
    && id < |s.subs| && id < |s'.subs|
    && s'.phase[id] == s.phase[id] && s'.subs[id] == s.subs[id] && s'.Register(id) == s.Register(id)
  }

  lemma {:induction false} SameWriteThroughout(states: seq<System>, i: nat, j: nat, id: nat)
    requires i <= j < |states| && forall k :: i <= k <= j ==> states[k].WellFormed() && id < |states[k].subs|
    requires forall k :: i < k <= j ==> SameWrite(states[k - 1], states[k], id)
    ensures SameWrite(states[i], states[j], id)
  {
    if i < j {
      SameWriteThroughout(states, i, j - 1, id);
      assert SameWrite(states[j - 1], states[j], id);
    }
  }

  lemma WritingBetween(s: System, t: System, u: System, id: nat)
    requires s.WellFormed() && t.WellFormed() && u.WellFormed() && Advanced(s, t, id) && Advanced(t, u, id)
    requires id < |s.subs| && s.phase[id].Writing? && id < |u.subs| && u.phase[id].Writing?
    ensures id < |t.subs| && t.phase[id].Writing?
  {
  }

  lemma RegisterWaits(states: seq<System>, steps: seq<Step>, i: nat, j: nat, id: nat)
    requires Run(states, steps) && i <= j < |states| && id < |states[i].subs| && id < |states[j].subs|
    requires states[i].phase[id].Writing? && states[j].phase[id].Writing?
    ensures SameWrite(states[i], states[j], id)
  {
    RunAdvances(states, steps, id);
    forall k | i <= k <= j
      ensures id < |states[k].subs| && states[k].phase[id].Writing?
    {
      WritingBetween(states[i], states[k], states[j], id);
    }
    forall k | i < k <= j
      ensures SameWrite(states[k - 1], states[k], id)
    {
      RunStepKeepsRegister(states, steps, k - 1, id);
    }
    SameWriteThroughout(states, i, j, id);
  }

  /** In every run, whatever happens in between: the value that an update function is applied to when the read has
      returned is the one that the register holds just before the operation's own write, and the write leaves there
      what the function has made of it. */
  lemma EachAppliedToPreviousValue(states: seq<System>, steps: seq<Step>, i: nat, j: nat, id: nat)
    requires Run(states, steps) && i < j < |steps|
    requires steps[i] == ReadReply(id) && steps[j] == DeviceWrite(id)
    ensures id < |states[i].subs| && id < |states[j].subs| && id < |states[j + 1].subs|
    ensures states[i].phase[id].ReadReturned? && states[j].phase[id].Writing?
    ensures states[i].phase[id].value == states[j].Register(id)
    ensures NewBytes(states[j].subs[id].request, states[j].Register(id)) == Some(states[j].phase[id].bytes)
    ensures states[j + 1].Register(id) == states[j].phase[id].bytes
  {
    assert Next(states[i], steps[i], states[i + 1]) && Next(states[j], steps[j], states[j + 1]);
    Linearizable(states, steps, i);
    Linearizable(states, steps, j);
    RunAdvances(states, steps, id);
    assert Advanced(states[i], states[j], id);
    assert states[i + 1].Register(id) == states[i].Register(id);
    RegisterWaits(states, steps, i + 1, j, id);
    LoadAfterStore(states[j].mem, states[j].subs[id].info.address, states[j].phase[id].bytes);
  }

  /** Every write of an update comes after such a reply. */
  lemma {:induction false} UpdateReadsFirst(states: seq<System>, steps: seq<Step>, j: nat, id: nat)
    requires Run(states, steps) && j < |states| && id < |states[j].subs| && states[j].phase[id].Writing?
    requires states[j].subs[id].request.Update16? || states[j].subs[id].request.Update32?
    ensures exists i :: 0 <= i < j && steps[i] == ReadReply(id)
  {
    if j > 0 {
      var s := states[j - 1];
      assert Next(s, steps[j - 1], states[j]);
      if id < |s.subs| && s.phase[id].Writing? {
        UpdateReadsFirst(states, steps, j - 1, id);
      } else {
        assert steps[j - 1] == ReadReply(id);
      }
    }
  }

  /** No stuck operation: whoever waits shares a byte with someone who runs. So when nothing runs, every
      operation that was ever submitted was started exactly once and has ended. */
  lemma NoStuckOperation(states: seq<System>, steps: seq<Step>, i: nat)
    requires Run(states, steps) && i < |states|
    ensures forall id :: 0 <= id < |states[i].subs| && states[i].phase[id].Pending? ==>
              exists other :: 0 <= other < |states[i].subs| && states[i].phase[other].Running()
                && Overlap(states[i].subs[id].info, states[i].subs[other].info)
    ensures NoDuplicates(states[i].starts)
    ensures states[i].Active() == {} ==>
              forall id :: 0 <= id < |states[i].subs| ==>
                id in states[i].starts && (states[i].phase[id].Succeeded? || states[i].phase[id].Failed?)
  {
    Linearizable(states, steps, i);
    var s := states[i];
    forall id | 0 <= id < |s.subs| && s.phase[id].Pending?
      ensures exists other :: 0 <= other < |s.subs| && s.phase[other].Running()
                && Overlap(s.subs[id].info, s.subs[other].info)
    {
      assert s.subs[id].info in s.Waiting();
      var q :| q in s.Active() && Overlap(s.subs[id].info, q);
    }
    assert forall id :: 0 <= id < |s.subs| && s.phase[id].Running() ==> s.subs[id].info in s.Active();
    assert forall id :: 0 <= id < |s.subs| && s.phase[id].Pending? ==> s.subs[id].info in s.Waiting();
    if s.Active() == {} {
      NothingWaitsWhenIdle(s.Active(), s.Waiting());
    }
  }

  lemma StepWork(s: System, step: Step, s': System)
    requires s.WellFormed() && s'.WellFormed() && Consistent(s.Active(), s.Waiting())
    requires !step.Submit? && Next(s, step, s')
    ensures
      var before := |s.Active()| + |s.Waiting()|;
      |s'.Active()| + |s'.Waiting()| == if step.Finish? then before - 1 else before
  {
    if step.Finish? {
      FinishKeepsConsistent(s, step, s');
    } else {
      SameSets(s, s', step.id);
    }
  }

  /** Once submissions stop, each finish leaves strictly less to do and no other step leaves more. */
  lemma WorkShrinks(states: seq<System>, steps: seq<Step>, i: nat)
    requires Run(states, steps) && i < |steps| && !steps[i].Submit?
    ensures
      var before := |states[i].Active()| + |states[i].Waiting()|;
      |states[i + 1].Active()| + |states[i + 1].Waiting()| == if steps[i].Finish? then before - 1 else before
  {
    Linearizable(states, steps, i);
    StepWork(states[i], steps[i], states[i + 1]);
  }
}
