/**
 The hand-off of jobs in the thread pool as a step system: any number of
 submitting threads, one call each, and one worker per live slot. The job of
 submission `p` is `jobs[p]`. A step is one access to shared state; the work
 and job fields of a slot are written and read outside its lock, as in the
 code. The manager does not run, and a wait ends only by a signal.
 */
module PoolProtocol {
  import opened Prelude
  import opened PoolSpec

  /** Where a call of tp_process_job is; `i` is its loop index or slot, `n` the slot a growth adds. */
  datatype SubPc =
    | Scan(i: nat)                       // i < cur_th_num
    | LockSlot(i: nat)
    | TestBusy(i: nat)
    | SetBusy(i: nat)
    | UnlockClaimed(i: nat)
    | UnlockBusy(i: nat)
    | StoreWork(i: nat, grown: bool)
    | StoreJob(i: nat, grown: bool)
    | SignalSlot(i: nat)
    | LockPool(i: nat)
    | AddCheck(i: nat)                   // max_th_num <= cur_th_num
    | AddBusy(n: nat)
    | AddCount(n: nat)                   // cur_th_num++
    | AddCreate(n: nat)                  // pthread_create
    | AddIndex(n: nat)                   // i = cur_th_num - 1
    | UnlockPool(i: nat)
    | UnlockFailed(i: nat)               // add_thread returned FALSE
    | SignalFailed(i: nat)
    | Returned(placed: Option<nat>)

  datatype WorkPc =
    | Absent                             // no thread yet
    | LockIdle
    | BeginWait                          // about to release the lock and wait
    | Waiting
    | Woken                              // signalled, must take the lock again
    | UnlockWoken
    | ReadWork
    | ReadJob(work: nat)
    | Execute(work: nat, desc: nat)
    | LockDone
    | SetIdle
    | UnlockIdle

  datatype Who = Submitter(p: nat) | Worker

  /** A slot; `claim` remembers, for the statements only, which submission last set it busy. */
  datatype Cell = Cell(busy: bool, work: nat, desc: nat, lock: Option<Who>, claim: Option<nat>)

  /** One execution of a job by a worker. */
  datatype Exec = Exec(slot: nat, claim: Option<nat>, job: Job)

  datatype State = State(
    cur: nat, slots: seq<Cell>, poolLock: Option<nat>,
    subs: seq<SubPc>, workers: seq<WorkPc>, jobs: seq<Job>, log: seq<Exec>)

  datatype Action = SubStep(p: nat) | WorkStep(i: nat)

  function Init(min: nat, max: nat, jobs: seq<Job>): State
    requires min <= max
  {
    State(min, seq(max, _ => Cell(false, 0, 0, None, None)), None,
          seq(|jobs|, _ => Scan(0)),
          seq(max, i => if i < min then LockIdle else Absent), jobs, [])
  }

  predicate Shaped(s: State) {
    s.cur <= |s.slots| == |s.workers| && |s.subs| == |s.jobs|
  }

  /** The slot a submitter's next step touches, where that step touches one. */
  predicate InTable(s: State, pc: SubPc) {
    match pc
    case LockSlot(i) => i < |s.slots|
    case TestBusy(i) => i < |s.slots|
    case SetBusy(i) => i < |s.slots|
    case UnlockClaimed(i) => i < |s.slots|
    case UnlockBusy(i) => i < |s.slots|
    case StoreWork(i, _) => i < |s.slots|
    case StoreJob(i, _) => i < |s.slots|
    case SignalSlot(i) => i < |s.slots|
    case AddBusy(n) => n < |s.slots|
    case AddCount(n) => s.cur < |s.slots|
    case AddCreate(n) => n < |s.slots|
    case AddIndex(n) => s.cur > 0
    case _ => true
  }

  predicate Enabled(s: State, a: Action) {
    && Shaped(s)
    && match a
       case SubStep(p) =>
         && p < |s.subs| && !s.subs[p].Returned? && InTable(s, s.subs[p])
         && (s.subs[p].LockSlot? ==> s.slots[s.subs[p].i].lock.None?)
         && (s.subs[p].LockPool? ==> s.poolLock.None?)
       case WorkStep(i) =>
         && i < |s.workers|
         && !s.workers[i].Absent? && !s.workers[i].Waiting?
         && (s.workers[i].LockIdle? || s.workers[i].Woken? || s.workers[i].LockDone? ==> s.slots[i].lock.None?)
  }

  function Goto(s: State, p: nat, pc: SubPc): State
    requires p < |s.subs|
  {
    s.(subs := s.subs[p := pc])
  }

  function SetCell(s: State, i: nat, c: Cell): State
    requires i < |s.slots|
  {
    s.(slots := s.slots[i := c])
  }

  /** pthread_cond_signal: wakes the slot's worker if it waits; with no such slot or no waiter it is lost. */
  function SignalWorker(s: State, i: nat): State {
    if i < |s.workers| && s.workers[i].Waiting? then s.(workers := s.workers[i := Woken]) else s
  }

  /** The next step of submitter `p` while it scans and claims. */
  function StepScan(s: State, p: nat): State
    requires Enabled(s, SubStep(p))
  {
    match s.subs[p]
    case Scan(i) => Goto(s, p, if i < s.cur then LockSlot(i) else LockPool(i))
    case LockSlot(i) => SetCell(Goto(s, p, TestBusy(i)), i, s.slots[i].(lock := Some(Submitter(p))))
    case TestBusy(i) => Goto(s, p, if s.slots[i].busy then UnlockBusy(i) else SetBusy(i))
    case UnlockBusy(i) => SetCell(Goto(s, p, Scan(i + 1)), i, s.slots[i].(lock := None))
    case SetBusy(i) => SetCell(Goto(s, p, UnlockClaimed(i)), i, s.slots[i].(busy := true, claim := Some(p)))
    case UnlockClaimed(i) => SetCell(Goto(s, p, StoreWork(i, false)), i, s.slots[i].(lock := None))
    case _ => s
  }

  /** The steps that hand the job over, and those of a failed submission. */
  function StepHand(s: State, p: nat): State
    requires Enabled(s, SubStep(p)) && p < |s.jobs|
  {
    match s.subs[p]
    case StoreWork(i, grown) => SetCell(Goto(s, p, StoreJob(i, grown)), i, s.slots[i].(work := s.jobs[p].work))
    case StoreJob(i, grown) =>
      SetCell(Goto(s, p, if grown then UnlockPool(i) else SignalSlot(i)), i, s.slots[i].(desc := s.jobs[p].desc))
    case SignalSlot(i) => SignalWorker(Goto(s, p, Returned(Some(i))), i)
    case UnlockFailed(i) => Goto(s, p, SignalFailed(i)).(poolLock := None)
    case SignalFailed(i) => SignalWorker(Goto(s, p, Returned(None)), i)
    case _ => s
  }

  /** The steps of growing the pool. */
  function StepGrow(s: State, p: nat): State
    requires Enabled(s, SubStep(p))
  {
    match s.subs[p]
    case LockPool(i) => Goto(s, p, AddCheck(i)).(poolLock := Some(p))
    case AddCheck(i) => Goto(s, p, if |s.slots| <= s.cur then UnlockFailed(i) else AddBusy(s.cur))
    case AddBusy(n) => SetCell(Goto(s, p, AddCount(n)), n, s.slots[n].(busy := true, claim := Some(p)))
    case AddCount(n) => Goto(s, p, AddCreate(n)).(cur := s.cur + 1)
    case AddCreate(n) => Goto(s, p, AddIndex(n)).(workers := s.workers[n := LockIdle])
    case AddIndex(n) => Goto(s, p, StoreWork(s.cur - 1, true))
    case UnlockPool(i) => Goto(s, p, SignalSlot(i)).(poolLock := None)
    case _ => s
  }

  predicate Growing(pc: SubPc) {
    pc.LockPool? || pc.AddCheck? || pc.AddBusy? || pc.AddCount? || pc.AddCreate? || pc.AddIndex? || pc.UnlockPool?
  }

  predicate Handing(pc: SubPc) {
    pc.StoreWork? || pc.StoreJob? || pc.SignalSlot? || pc.UnlockFailed? || pc.SignalFailed?
  }

  function SetWorker(s: State, i: nat, pc: WorkPc): State
    requires i < |s.workers|
  {
    s.(workers := s.workers[i := pc])
  }

  /** The next step of the worker of slot `i`. */
  function StepWork(s: State, i: nat): State
    requires Enabled(s, WorkStep(i))
  {
    var c := s.slots[i];
    match s.workers[i]
    case LockIdle => SetCell(SetWorker(s, i, BeginWait), i, c.(lock := Some(Worker)))
    case BeginWait => SetCell(SetWorker(s, i, Waiting), i, c.(lock := None))
    case Woken => SetCell(SetWorker(s, i, UnlockWoken), i, c.(lock := Some(Worker)))
    case UnlockWoken => SetCell(SetWorker(s, i, ReadWork), i, c.(lock := None))
    case ReadWork => SetWorker(s, i, ReadJob(c.work))
    case ReadJob(work) => SetWorker(s, i, Execute(work, c.desc))
    case Execute(work, desc) => SetWorker(s, i, LockDone).(log := s.log + [Exec(i, c.claim, Job(work, desc))])
    case LockDone => SetCell(SetWorker(s, i, SetIdle), i, c.(lock := Some(Worker)))
    case SetIdle => SetCell(SetWorker(s, i, UnlockIdle), i, c.(busy := false))
    case UnlockIdle => SetCell(SetWorker(s, i, LockIdle), i, c.(lock := None))
    case _ => s
  }

  function Next(s: State, a: Action): State
    requires Enabled(s, a)
  {
    match a
    case SubStep(p) =>
      if Growing(s.subs[p]) then StepGrow(s, p) else if Handing(s.subs[p]) then StepHand(s, p) else StepScan(s, p)
    case WorkStep(i) => StepWork(s, i)
  }

  predicate Runs(s: State, acts: seq<Action>)
    decreases |acts|
  {
    acts == [] || (Enabled(s, acts[0]) && Runs(Next(s, acts[0]), acts[1..]))
  }

  function Final(s: State, acts: seq<Action>): State
    requires Runs(s, acts)
    decreases |acts|
  {
    if acts == [] then s else Final(Next(s, acts[0]), acts[1..])
  }
}
