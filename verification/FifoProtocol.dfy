/**
 The globalfifo driver as a step system: any number of tasks, each with its
 own program counter, share the buffer, the length, one mutex and two wait
 queues. One step is one access to shared state; steps of different tasks
 interleave freely, signals and stray wake-ups arrive at any time.
 */
module FifoProtocol {
  import opened Prelude
  import opened FifoSpec

  datatype Pc =
    | Idle          // outside the driver
    | LockFirst     // first mutex_lock of a call
    | Enqueue       // add_wait_queue
    | Test          // loop condition on current_len, then the O_NONBLOCK test
    | SetSleep      // __set_current_state(TASK_INTERRUPTIBLE)
    | UnlockSleep   // mutex_unlock before schedule
    | Schedule      // schedule()
    | SigTest       // signal_pending(current)
    | LockAgain     // mutex_lock at the end of the loop body
    | Clamp         // limit count
    | Copy          // copy_to_user or copy_from_user
    | Shift(i: nat) // overlapping memcpy, about to move byte i
    | Update        // current_len -= count or current_len += count
    | WakeUp        // wake_up_interruptible
    | ZeroLen       // FIFO_CLEAR: current_len = 0
    | ZeroMem       // FIFO_CLEAR: memset
    | PollRead      // poll: the POLLIN test
    | PollWrite     // poll: the POLLOUT test
    | Reject        // ioctl with an unknown command
    | Unlock        // out: mutex_unlock
    | Dequeue       // out2: remove_wait_queue
    | SetRunning    // set_current_state(TASK_RUNNING)
    | Return        // return ret

  datatype Sched = Running | Interruptible

  /** A task: where it is, the call it makes, its scheduler state and its locals. */
  datatype Task = Task(pc: Pc, call: Call, st: Sched, pending: bool, count: nat, got: seq<byte>, ret: Ret)

  datatype State = State(
    mem: seq<byte>, len: nat, owner: Option<nat>,
    rwait: set<nat>, wwait: set<nat>, tasks: seq<Task>)

  /** A copy from or to user space either succeeds or faults, leaving `dirty` where it was writing. */
  datatype Choice = Clean | Faulty(dirty: seq<byte>)

  datatype Action =
    | Invoke(t: nat, call: Call)
    | Step(t: nat, choice: Choice)
    | Signal(t: nat)       // a signal becomes pending and wakes an interruptible sleeper
    | TakeSignals(t: nat)  // user space handles its signals
    | Stray(t: nat)        // a wake-up from elsewhere

  predicate RW(call: Call) { call.Read? || call.Write? }

  /** The loop condition, negated: the call need not wait. */
  predicate Ready(call: Call, len: nat) {
    match call
    case Read(_, _) => len != 0
    case Write(_, _) => len != GLOBALFIFO_SIZE
    case _ => true
  }

  /** The clamped count. */
  function Want(call: Call, len: nat): nat
    requires len <= GLOBALFIFO_SIZE
  {
    match call
    case Read(count, _) => Min(count, len)
    case Write(data, _) => Min(|data|, GLOBALFIFO_SIZE - len)
    case _ => 0
  }

  predicate Shaped(s: State) {
    |s.mem| == GLOBALFIFO_SIZE && s.len <= GLOBALFIFO_SIZE
  }

  /** What the next step of a task needs besides being there. */
  predicate CanStep(s: State, t: nat, choice: Choice)
    requires t < |s.tasks|
  {
    var k := s.tasks[t];
    match k.pc
    case Idle => false
    case LockFirst => s.owner.None? && choice.Clean?
    case LockAgain => s.owner.None? && choice.Clean?
    case Schedule => (k.st.Running? || k.pending) && choice.Clean?
    case Clamp => s.len <= GLOBALFIFO_SIZE && choice.Clean?
    case Copy =>
      && (choice.Faulty? ==> k.count > 0 && |choice.dirty| == k.count)
      && (k.call.Read? ==> k.count <= s.len <= |s.mem|)
      && (k.call.Write? ==> s.len + k.count <= |s.mem| && k.count <= |k.call.data|)
    case Shift(i) => k.count <= s.len <= |s.mem| && choice.Clean?
    case Update => (k.call.Read? ==> k.count <= s.len) && choice.Clean?
    case PollWrite => k.ret.Mask? && choice.Clean?
    case _ => choice.Clean?
  }

  predicate Enabled(s: State, a: Action) {
    && a.t < |s.tasks|
    && (a.Invoke? ==> s.tasks[a.t].pc.Idle?)
    && (a.Step? ==> CanStep(s, a.t, a.choice))
    && (a.TakeSignals? ==> s.tasks[a.t].pc.Idle?)
  }

  function Goto(s: State, t: nat, pc: Pc): State
    requires t < |s.tasks|
  {
    s.(tasks := s.tasks[t := s.tasks[t].(pc := pc)])
  }

  function Finish(s: State, t: nat, pc: Pc, ret: Ret): State
    requires t < |s.tasks|
  {
    s.(tasks := s.tasks[t := s.tasks[t].(pc := pc, ret := ret)])
  }

  function SetState(s: State, t: nat, st: Sched): State
    requires t < |s.tasks|
  {
    s.(tasks := s.tasks[t := s.tasks[t].(st := st)])
  }

  /** wake_up_interruptible: every sleeper of the queue becomes runnable and stays queued. */
  function WakeAll(tasks: seq<Task>, queue: set<nat>): (r: seq<Task>)
    ensures |r| == |tasks|
    ensures forall i :: 0 <= i < |tasks| ==>
      r[i] == if i in queue then tasks[i].(st := Running) else tasks[i]
  {
    seq(|tasks|, i requires 0 <= i < |tasks| => if i in queue then tasks[i].(st := Running) else tasks[i])
  }

  // The steps of the sleep protocol.

  function StepLock(s: State, t: nat, pc: Pc): State
    requires t < |s.tasks|
  {
    Goto(s, t, pc).(owner := Some(t))
  }

  function StepTest(s: State, t: nat): State
    requires t < |s.tasks|
  {
    var call := s.tasks[t].call;
    if Ready(call, s.len) then Goto(s, t, Clamp)
    else if RW(call) && call.nonblock then Finish(s, t, Unlock, Again)
    else Goto(s, t, SetSleep)
  }

  function StepSigTest(s: State, t: nat): State
    requires t < |s.tasks|
  {
    if s.tasks[t].pending then Finish(s, t, Dequeue, Restart) else Goto(s, t, LockAgain)
  }

  function StepEnqueue(s: State, t: nat): State
    requires t < |s.tasks|
  {
    var s' := Goto(s, t, Test);
    if s.tasks[t].call.Read? then s'.(rwait := s.rwait + {t}) else s'.(wwait := s.wwait + {t})
  }

  // The steps that move data.

  function StepClamp(s: State, t: nat): State
    requires t < |s.tasks| && s.len <= GLOBALFIFO_SIZE
  {
    s.(tasks := s.tasks[t := s.tasks[t].(pc := Copy, count := Want(s.tasks[t].call, s.len))])
  }

  function StepCopy(s: State, t: nat, choice: Choice): State
    requires t < |s.tasks| && s.tasks[t].pc.Copy? && CanStep(s, t, choice)
  {
    var k := s.tasks[t];
    match k.call
    case Read(_, _) =>
      if choice.Faulty? then Finish(s, t, Unlock, Fault)
      else s.(tasks := s.tasks[t := k.(pc := Shift(0), got := s.mem[..k.count])])
    case Write(data, _) =>
      if choice.Faulty? then Finish(s, t, Unlock, Fault).(mem := Splice(s.mem, s.len, choice.dirty))
      else Goto(s, t, Update).(mem := Splice(s.mem, s.len, data[..k.count]))
    case _ => s
  }

  function StepShift(s: State, t: nat): State
    requires t < |s.tasks| && s.tasks[t].pc.Shift? && CanStep(s, t, Clean)
  {
    var k := s.tasks[t];
    if k.pc.i < s.len - k.count
    then Goto(s, t, Shift(k.pc.i + 1)).(mem := s.mem[k.pc.i := s.mem[k.count + k.pc.i]])
    else Goto(s, t, Update)
  }

  function StepUpdate(s: State, t: nat): State
    requires t < |s.tasks| && s.tasks[t].pc.Update? && CanStep(s, t, Clean)
  {
    var k := s.tasks[t];
    if k.call.Read? then Finish(s, t, WakeUp, Got(k.got)).(len := s.len - k.count)
    else Finish(s, t, WakeUp, Put(k.count)).(len := s.len + k.count)
  }

  function StepWakeUp(s: State, t: nat): State
    requires t < |s.tasks|
  {
    var s' := Goto(s, t, Unlock);
    s'.(tasks := WakeAll(s'.tasks, if s.tasks[t].call.Read? then s.wwait else s.rwait))
  }

  function StepUnlock(s: State, t: nat): State
    requires t < |s.tasks|
  {
    Goto(s, t, if RW(s.tasks[t].call) then Dequeue else Return).(owner := None)
  }

  /** Both calls unlink the caller's own entry, whichever queue head they name. */
  function StepDequeue(s: State, t: nat): State
    requires t < |s.tasks|
  {
    Goto(s, t, SetRunning).(rwait := s.rwait - {t}, wwait := s.wwait - {t})
  }

  function StepSetRunning(s: State, t: nat): State
    requires t < |s.tasks|
  {
    s.(tasks := s.tasks[t := s.tasks[t].(pc := Return, st := Running)])
  }

  /** The state after the next step of task `t`. */
  function Advance(s: State, t: nat, choice: Choice): State
    requires t < |s.tasks| && CanStep(s, t, choice)
  {
    var k := s.tasks[t];
    match k.pc
    case Idle => s
    case LockFirst => StepLock(s, t, if RW(k.call) then Enqueue else if k.call.Poll? then PollRead else ZeroLen)
    case Enqueue => StepEnqueue(s, t)
    case Test => StepTest(s, t)
    case SetSleep => s.(tasks := s.tasks[t := k.(pc := UnlockSleep, st := Interruptible)])
    case UnlockSleep => Goto(s, t, Schedule).(owner := None)
    case Schedule => s.(tasks := s.tasks[t := k.(pc := SigTest, st := Running)])
    case SigTest => StepSigTest(s, t)
    case LockAgain => StepLock(s, t, Test)
    case Clamp => StepClamp(s, t)
    case Copy => StepCopy(s, t, choice)
    case Shift(i) => StepShift(s, t)
    case Update => StepUpdate(s, t)
    case WakeUp => StepWakeUp(s, t)
    case ZeroLen => Finish(s, t, ZeroMem, Cleared).(len := 0)
    case ZeroMem => Goto(s, t, Unlock).(mem := seq(|s.mem|, _ => 0))
    case PollRead => Finish(s, t, PollWrite, Mask(s.len != 0, false))
    case PollWrite => Finish(s, t, Unlock, Mask(k.ret.readable, s.len != GLOBALFIFO_SIZE))
    case Reject => Finish(s, t, Return, Inval)
    case Unlock => StepUnlock(s, t)
    case Dequeue => StepDequeue(s, t)
    case SetRunning => StepSetRunning(s, t)
    case Return => Goto(s, t, Idle)
  }

  /** ioctl tests its command before it touches anything shared. */
  function Entry(call: Call): Pc {
    if call.Ioctl? && call.cmd != FIFO_CLEAR then Reject else LockFirst
  }

  function Next(s: State, a: Action): State
    requires Enabled(s, a)
  {
    match a
    case Invoke(t, call) => s.(tasks := s.tasks[t := s.tasks[t].(pc := Entry(call), call := call)])
    case Step(t, choice) => Advance(s, t, choice)
    case Signal(t) => s.(tasks := s.tasks[t := s.tasks[t].(pending := true, st := Running)])
    case TakeSignals(t) => s.(tasks := s.tasks[t := s.tasks[t].(pending := false)])
    case Stray(t) => SetState(s, t, Running)
  }

  /** The actions can be taken one after the other from `s`. */
  predicate Runs(s: State, acts: seq<Action>)
    decreases |acts|
  {
    acts == [] || (Enabled(s, acts[0]) && Runs(Next(s, acts[0]), acts[1..]))
  }

  function Final(s: State, acts: seq<Action>): State
    requires Runs(s, acts)
    decreases |acts|
  {
    if acts == [] then s else Final(Next(s, acts[0]), acts[1..])
  }

  /** `n` tasks outside the driver and the zeroed device of probe. */
  function Init(n: nat): State {
    State(seq(GLOBALFIFO_SIZE, _ => 0), 0, None, {}, {},
          seq(n, _ => Task(Idle, Poll, Running, false, 0, [], Inval)))
  }

  /** A task is asleep when it sits in schedule() with nothing to wake it yet. */
  predicate Asleep(k: Task) {
    k.pc.Schedule? && k.st.Interruptible? && !k.pending
  }
}
