/** The invariant of the globalfifo step system and its preservation by every action. */
module FifoInvariant {
  import opened Prelude
  import opened FifoSpec
  import opened FifoProtocol

  /** The program points between a mutex_lock and the matching mutex_unlock. */
  predicate Holds(pc: Pc) {
    !(pc.Idle? || pc.LockFirst? || pc.LockAgain? || pc.Schedule? || pc.SigTest? ||
      pc.Reject? || pc.Dequeue? || pc.SetRunning? || pc.Return?)
  }

  /** The program points between add_wait_queue and remove_wait_queue. */
  predicate Queued(k: Task) {
    RW(k.call) &&
    (k.pc.LockAgain? || k.pc.Schedule? || k.pc.SigTest? || k.pc.Dequeue? || (Holds(k.pc) && !k.pc.Enqueue?))
  }

  /** The program points of the wait loop body. */
  predicate Waiting(pc: Pc) {
    pc.SetSleep? || pc.UnlockSleep? || pc.Schedule? || pc.SigTest? || pc.LockAgain?
  }

  /** The program points a call can reach at all. */
  predicate Fits(k: Task) {
    match k.pc
    case Idle => true
    case Return => true
    case LockFirst => k.call.Ioctl? ==> k.call.cmd == FIFO_CLEAR
    case Unlock => k.call.Ioctl? ==> k.call.cmd == FIFO_CLEAR
    case Reject => k.call.Ioctl? && k.call.cmd != FIFO_CLEAR
    case ZeroLen => k.call.Ioctl? && k.call.cmd == FIFO_CLEAR
    case ZeroMem => k.call.Ioctl? && k.call.cmd == FIFO_CLEAR
    case PollRead => k.call.Poll?
    case PollWrite => k.call.Poll?
    case Shift(_) => k.call.Read?
    case _ => RW(k.call) && (Waiting(k.pc) ==> !k.call.nonblock)
  }

  /** What the mutex holder has established about the buffer. */
  predicate HolderOk(mem: seq<byte>, len: nat, k: Task)
    requires |mem| == GLOBALFIFO_SIZE && len <= GLOBALFIFO_SIZE
  {
    match k.pc
    case SetSleep => !Ready(k.call, len)
    case UnlockSleep => !Ready(k.call, len)
    case Clamp => Ready(k.call, len)
    case Copy => Ready(k.call, len) && k.count == Want(k.call, len)
    case Shift(i) => Ready(k.call, len) && k.count == Want(k.call, len) == |k.got| && i + k.count <= len
    case Update =>
      && Ready(k.call, len) && k.count == Want(k.call, len)
      && (k.call.Read? ==> |k.got| == k.count)
      && (k.call.Write? ==> mem[len..len + k.count] == k.call.data[..k.count])
    case ZeroMem => len == 0
    case PollWrite => k.ret == Mask(len != 0, false)
    case _ => true
  }

  /** The mutex holder is about to wake the readers (or, for false, the writers). */
  predicate WakePending(s: State, readers: bool) {
    && s.owner.Some? && s.owner.value < |s.tasks|
    && var k := s.tasks[s.owner.value]; k.pc.WakeUp? && k.call.Write? == readers
  }

  predicate TaskOk(s: State, u: nat)
    requires Shaped(s) && u < |s.tasks|
  {
    var k := s.tasks[u];
    && Fits(k)
    && (Holds(k.pc) <==> s.owner == Some(u))
    && (u in s.rwait <==> Queued(k) && k.call.Read?)
    && (u in s.wwait <==> Queued(k) && k.call.Write?)
    && (k.st.Interruptible? ==> k.pc.UnlockSleep? || k.pc.Schedule?)
    && (Holds(k.pc) ==> HolderOk(s.mem, s.len, k))
    && (k.pc.Schedule? && k.st.Interruptible? && k.call.Read? ==> s.len == 0 || WakePending(s, true))
  }

  predicate Inv(s: State) {
    && Shaped(s)
    && (s.owner.Some? ==> s.owner.value < |s.tasks|)
    && (forall u :: 0 <= u < |s.tasks| ==> TaskOk(s, u))
  }

  lemma InitInv(n: nat)
    ensures Inv(Init(n))
  {
  }

  lemma NextShaped(s: State, a: Action)
    requires Inv(s) && Enabled(s, a)
    ensures Shaped(Next(s, a)) && |Next(s, a).tasks| == |s.tasks|
  {
    assert TaskOk(s, a.t);
  }

  /** The program points whose step changes the buffer, the length or other tasks. */
  predicate Moves(pc: Pc) {
    pc.Copy? || pc.Shift? || pc.Update? || pc.WakeUp? || pc.ZeroLen? || pc.ZeroMem?
  }

  /** A step keeps what holds of the stepping task. */
  lemma WaitingKeepsSelf(s: State, t: nat)
    requires Inv(s) && t < |s.tasks| && CanStep(s, t, Clean) && !Moves(s.tasks[t].pc)
    requires Waiting(s.tasks[t].pc)
    requires Shaped(Advance(s, t, Clean)) && |Advance(s, t, Clean).tasks| == |s.tasks|
    ensures TaskOk(Advance(s, t, Clean), t)
  {
    assert TaskOk(s, t);
  }

  lemma FreeKeepsSelf(s: State, t: nat)
    requires Inv(s) && t < |s.tasks| && CanStep(s, t, Clean) && !Moves(s.tasks[t].pc)
    requires !Waiting(s.tasks[t].pc) && !Holds(s.tasks[t].pc)
    requires Shaped(Advance(s, t, Clean)) && |Advance(s, t, Clean).tasks| == |s.tasks|
    ensures TaskOk(Advance(s, t, Clean), t)
  {
    assert TaskOk(s, t);
  }

  lemma HeldKeepsSelf(s: State, t: nat)
    requires Inv(s) && t < |s.tasks| && CanStep(s, t, Clean) && !Moves(s.tasks[t].pc)
    requires !Waiting(s.tasks[t].pc) && Holds(s.tasks[t].pc) && RW(s.tasks[t].call)
    requires Shaped(Advance(s, t, Clean)) && |Advance(s, t, Clean).tasks| == |s.tasks|
    ensures TaskOk(Advance(s, t, Clean), t)
  {
    assert TaskOk(s, t);
  }

  lemma ControlKeepsSelf(s: State, t: nat)
    requires Inv(s) && t < |s.tasks| && CanStep(s, t, Clean) && !Moves(s.tasks[t].pc)
    requires !Waiting(s.tasks[t].pc) && Holds(s.tasks[t].pc) && !RW(s.tasks[t].call)
    requires Shaped(Advance(s, t, Clean)) && |Advance(s, t, Clean).tasks| == |s.tasks|
    ensures TaskOk(Advance(s, t, Clean), t)
  {
    assert TaskOk(s, t);
  }

  lemma CopyKeepsSelf(s: State, t: nat, choice: Choice)
    requires Inv(s) && t < |s.tasks| && CanStep(s, t, choice) && s.tasks[t].pc.Copy?
    requires Shaped(Advance(s, t, choice)) && |Advance(s, t, choice).tasks| == |s.tasks|
    ensures TaskOk(Advance(s, t, choice), t)
  {
    assert TaskOk(s, t);
    var k := s.tasks[t];
    if k.call.Write? && choice.Clean? {
      var s' := Advance(s, t, choice);
      assert s'.mem[s.len..s.len + k.count] == k.call.data[..k.count];
    }
  }

  lemma MoveKeepsSelf(s: State, t: nat)
    requires Inv(s) && t < |s.tasks| && CanStep(s, t, Clean) && Moves(s.tasks[t].pc) && !s.tasks[t].pc.Copy?
    requires Shaped(Advance(s, t, Clean)) && |Advance(s, t, Clean).tasks| == |s.tasks|
    ensures TaskOk(Advance(s, t, Clean), t)
  {
    assert TaskOk(s, t);
  }

  /** What a step may do to another task: at most wake it, and never while the other holds the mutex. */
  predicate LeavesAlone(s: State, s': State, u: nat)
    requires u < |s.tasks| == |s'.tasks|
  {
    && (s'.tasks[u] == s.tasks[u] || s'.tasks[u] == s.tasks[u].(st := Running))
    && (u in s'.rwait <==> u in s.rwait)
    && (u in s'.wwait <==> u in s.wwait)
    && (s'.owner == Some(u) <==> s.owner == Some(u))
    && (s.owner == Some(u) ==> s'.mem == s.mem && s'.len == s.len)
  }

  lemma MoveLeavesAlone(s: State, t: nat, choice: Choice, u: nat)
    requires Inv(s) && t < |s.tasks| && CanStep(s, t, choice) && u < |s.tasks| && u != t && Moves(s.tasks[t].pc)
    requires |Advance(s, t, choice).tasks| == |s.tasks|
    ensures LeavesAlone(s, Advance(s, t, choice), u)
  {
    assert TaskOk(s, t);
  }

  lemma StayLeavesAlone(s: State, t: nat, choice: Choice, u: nat)
    requires Inv(s) && t < |s.tasks| && CanStep(s, t, choice) && u < |s.tasks| && u != t && !Moves(s.tasks[t].pc)
    requires |Advance(s, t, choice).tasks| == |s.tasks|
    ensures LeavesAlone(s, Advance(s, t, choice), u)
  {
    assert TaskOk(s, t);
  }

  lemma StepLeavesAlone(s: State, t: nat, choice: Choice, u: nat)
    requires Inv(s) && t < |s.tasks| && CanStep(s, t, choice) && u < |s.tasks| && u != t
    requires |Advance(s, t, choice).tasks| == |s.tasks|
    ensures LeavesAlone(s, Advance(s, t, choice), u)
  {
    if Moves(s.tasks[t].pc) {
      MoveLeavesAlone(s, t, choice, u);
    } else {
      StayLeavesAlone(s, t, choice, u);
    }
  }

  lemma MoveKeepsSleeper(s: State, t: nat, choice: Choice, u: nat)
    requires Inv(s) && t < |s.tasks| && CanStep(s, t, choice) && u < |s.tasks| && u != t && Moves(s.tasks[t].pc)
    requires |Advance(s, t, choice).tasks| == |s.tasks|
    requires var k := Advance(s, t, choice).tasks[u]; k.pc.Schedule? && k.st.Interruptible? && k.call.Read?
    ensures Advance(s, t, choice).len == 0 || WakePending(Advance(s, t, choice), true)
  {
    assert TaskOk(s, t) && TaskOk(s, u);
  }

  lemma StayKeepsSleeper(s: State, t: nat, choice: Choice, u: nat)
    requires Inv(s) && t < |s.tasks| && CanStep(s, t, choice) && u < |s.tasks| && u != t && !Moves(s.tasks[t].pc)
    requires |Advance(s, t, choice).tasks| == |s.tasks|
    requires var k := Advance(s, t, choice).tasks[u]; k.pc.Schedule? && k.st.Interruptible? && k.call.Read?
    ensures Advance(s, t, choice).len == 0 || WakePending(Advance(s, t, choice), true)
  {
    assert TaskOk(s, t) && TaskOk(s, u);
  }

  /** A reader still asleep after the step of another task sleeps on an empty queue or is about to be woken. */
  lemma StepKeepsSleeper(s: State, t: nat, choice: Choice, u: nat)
    requires Inv(s) && t < |s.tasks| && CanStep(s, t, choice) && u < |s.tasks| && u != t
    requires |Advance(s, t, choice).tasks| == |s.tasks|
    requires var k := Advance(s, t, choice).tasks[u]; k.pc.Schedule? && k.st.Interruptible? && k.call.Read?
    ensures Advance(s, t, choice).len == 0 || WakePending(Advance(s, t, choice), true)
  {
    if Moves(s.tasks[t].pc) {
      MoveKeepsSleeper(s, t, choice, u);
    } else {
      StayKeepsSleeper(s, t, choice, u);
    }
  }

  lemma StepKeepsOther(s: State, t: nat, choice: Choice, u: nat)
    requires Inv(s) && t < |s.tasks| && CanStep(s, t, choice) && u < |s.tasks| && u != t
    requires Shaped(Advance(s, t, choice)) && |Advance(s, t, choice).tasks| == |s.tasks|
    ensures TaskOk(Advance(s, t, choice), u)
  {
    var s' := Advance(s, t, choice);
    StepLeavesAlone(s, t, choice, u);
    if s'.tasks[u].pc.Schedule? && s'.tasks[u].st.Interruptible? && s'.tasks[u].call.Read? {
      StepKeepsSleeper(s, t, choice, u);
    }
    LeftAloneOk(s, s', u);
  }

  lemma LeftAloneOk(s: State, s': State, u: nat)
    requires Inv(s) && Shaped(s') && u < |s.tasks| == |s'.tasks| && LeavesAlone(s, s', u)
    requires var k := s'.tasks[u];
      k.pc.Schedule? && k.st.Interruptible? && k.call.Read? ==> s'.len == 0 || WakePending(s', true)
    ensures TaskOk(s', u)
  {
    assert TaskOk(s, u);
  }

  lemma StepInv(s: State, t: nat, choice: Choice)
    requires Inv(s) && Enabled(s, Step(t, choice))
    ensures Inv(Advance(s, t, choice))
  {
    NextShaped(s, Step(t, choice));
    var s' := Advance(s, t, choice);
    forall u | 0 <= u < |s'.tasks| ensures TaskOk(s', u) {
      if u == t {
        if s.tasks[t].pc.Copy? {
          CopyKeepsSelf(s, t, choice);
        } else if Moves(s.tasks[t].pc) {
          MoveKeepsSelf(s, t);
        } else if Waiting(s.tasks[t].pc) {
          WaitingKeepsSelf(s, t);
        } else if Holds(s.tasks[t].pc) && RW(s.tasks[t].call) {
          HeldKeepsSelf(s, t);
        } else if Holds(s.tasks[t].pc) {
          ControlKeepsSelf(s, t);
        } else {
          FreeKeepsSelf(s, t);
        }
      } else {
        StepKeepsOther(s, t, choice, u);
      }
    }
    assert TaskOk(s, t);
  }

  /** Every action of every task keeps the invariant. */
  lemma NextInv(s: State, a: Action)
    requires Inv(s) && Enabled(s, a)
    ensures Inv(Next(s, a))
  {
    if a.Step? {
      StepInv(s, a.t, a.choice);
    } else {
      NextShaped(s, a);
      var s' := Next(s, a);
      forall u | 0 <= u < |s'.tasks| ensures TaskOk(s', u) {
        assert TaskOk(s, u) && TaskOk(s, a.t);
      }
    }
  }

  /** The invariant holds in every state a run reaches. */
  lemma {:induction false} RunInv(s: State, acts: seq<Action>)
    requires Inv(s) && Runs(s, acts)
    ensures Inv(Final(s, acts)) && |Final(s, acts).tasks| == |s.tasks|
    decreases |acts|
  {
    if acts != [] {
      NextInv(s, acts[0]);
      NextShaped(s, acts[0]);
      RunInv(Next(s, acts[0]), acts[1..]);
    }
  }
}
