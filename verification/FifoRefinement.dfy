/**
 The globalfifo step system is linearizable: every interleaving is, label by
 label, a run of a machine on which each call takes effect in one atomic
 operation between its invocation and its return.
 */
module FifoRefinement {
  import opened Prelude
  import opened FifoSpec
  import opened FifoProtocol
  import opened FifoInvariant

  datatype ATask = Out | Pending(call: Call) | Done(call: Call, ret: Ret)
  datatype AState = AState(q: Queue, tasks: seq<ATask>)

  datatype Label =
    | Tau
    | Invoked(t: nat, call: Call)
    | Committed(t: nat, call: Call, ret: Ret)
    | Returned(t: nat, call: Call, ret: Ret)

  /** The atomic machine: invocation, one atomic operation on the queue, return of its result. */
  function ANext(a: AState, l: Label): Option<AState> {
    match l
    case Tau => Some(a)
    case Invoked(t, call) =>
      if t < |a.tasks| && a.tasks[t] == Out then Some(a.(tasks := a.tasks[t := Pending(call)])) else None
    case Committed(t, call, ret) =>
      if t < |a.tasks| && a.tasks[t] == Pending(call) then
        match Apply(a.q, call, ret)
        case None => None
        case Some(q) => Some(AState(q, a.tasks[t := Done(call, ret)]))
      else None
    case Returned(t, call, ret) =>
      if t < |a.tasks| && a.tasks[t] == Done(call, ret) then Some(a.(tasks := a.tasks[t := Out])) else None
  }

  function ARun(a: AState, labels: seq<Label>): Option<AState>
    decreases |labels|
  {
    if labels == [] then Some(a)
    else
      match ANext(a, labels[0])
      case None => None
      case Some(a') => ARun(a', labels[1..])
  }

  /** The program points of a call whose outcome is decided. */
  predicate Decided(pc: Pc) {
    pc.WakeUp? || pc.ZeroMem? || pc.Unlock? || pc.Dequeue? || pc.SetRunning? || pc.Return?
  }

  function AbsTask(k: Task): ATask {
    if k.pc.Idle? then Out else if Decided(k.pc) then Done(k.call, k.ret) else Pending(k.call)
  }

  /**
   The queue the device stands for while `k` holds the mutex. Between
   copy_to_user and the update of the length the bytes already handed to the
   reader are still part of it, and the first `i` bytes of the rest have been
   moved down.
   */
  function HeldQueue(mem: seq<byte>, len: nat, k: Task): Queue
    requires |mem| == GLOBALFIFO_SIZE && len <= GLOBALFIFO_SIZE && HolderOk(mem, len, k)
  {
    if k.pc.Shift? then k.got + mem[..k.pc.i] + mem[k.count + k.pc.i..len]
    else if k.pc.Update? && k.call.Read? then k.got + mem[..len - k.count]
    else mem[..len]
  }

  function AbsQueue(s: State): Queue
    requires Inv(s)
  {
    if s.owner.None? then s.mem[..s.len]
    else
      assert TaskOk(s, s.owner.value);
      HeldQueue(s.mem, s.len, s.tasks[s.owner.value])
  }

  function Abs(s: State): AState
    requires Inv(s)
  {
    AState(AbsQueue(s), seq(|s.tasks|, i requires 0 <= i < |s.tasks| => AbsTask(s.tasks[i])))
  }

  /** What an action shows to the outside. */
  function LabelOf(s: State, a: Action): Label
    requires Enabled(s, a)
  {
    match a
    case Invoke(t, call) => Invoked(t, call)
    case Step(t, choice) =>
      var k, k' := s.tasks[t], Advance(s, t, choice).tasks[t];
      if k.pc.Return? then Returned(t, k.call, k.ret)
      else if !Decided(k.pc) && Decided(k'.pc) then Committed(t, k'.call, k'.ret)
      else Tau
    case _ => Tau
  }

  function Labels(s: State, acts: seq<Action>): seq<Label>
    requires Runs(s, acts)
    decreases |acts|
  {
    if acts == [] then [] else [LabelOf(s, acts[0])] + Labels(Next(s, acts[0]), acts[1..])
  }

  /** The atomic operations of a label sequence, in order. */
  function Commits(labels: seq<Label>): seq<Commit> {
    if labels == [] then []
    else
      (if labels[0].Committed? then [Commit(labels[0].t, labels[0].call, labels[0].ret)] else [])
      + Commits(labels[1..])
  }

  // The queue is unchanged by every step that decides nothing.

  lemma CopyKeepsQueue(s: State, t: nat, choice: Choice)
    requires Inv(s) && t < |s.tasks| && CanStep(s, t, choice) && s.tasks[t].pc.Copy? && Inv(Advance(s, t, choice))
    ensures AbsQueue(Advance(s, t, choice)) == AbsQueue(s)
  {
    assert TaskOk(s, t);
    var s', k := Advance(s, t, choice), s.tasks[t];
    assert s.owner == Some(t) && AbsQueue(s) == s.mem[..s.len];
    if k.call.Read? && choice.Clean? {
      assert s.mem[..k.count] + s.mem[..0] + s.mem[k.count..s.len] == s.mem[..s.len];
    } else {
      assert s'.mem[..s.len] == s.mem[..s.len];
    }
  }

  /** Moving one byte down by `n` does not change what remains to be read. */
  lemma ShiftOne(mem: seq<byte>, i: nat, n: nat, len: nat)
    requires n + i < len <= |mem|
    ensures var mem' := mem[i := mem[n + i]];
      mem'[..i + 1] + mem'[n + i + 1..len] == mem[..i] + mem[n + i..len]
  {
    var mem' := mem[i := mem[n + i]];
    assert mem'[..i + 1] == mem[..i] + [mem[n + i]];
    assert mem[n + i..len] == [mem[n + i]] + mem[n + i + 1..len];
    assert mem'[n + i + 1..len] == mem[n + i + 1..len];
  }

  lemma ShiftKeepsQueue(mem: seq<byte>, len: nat, k: Task, mem': seq<byte>, k': Task)
    requires |mem| == GLOBALFIFO_SIZE && len <= GLOBALFIFO_SIZE && k.pc.Shift? && k.call.Read?
    requires HolderOk(mem, len, k)
    requires if k.pc.i < len - k.count
      then mem' == mem[k.pc.i := mem[k.count + k.pc.i]] && k' == k.(pc := Shift(k.pc.i + 1))
      else mem' == mem && k' == k.(pc := Update)
    ensures HolderOk(mem', len, k') && HeldQueue(mem', len, k') == HeldQueue(mem, len, k)
  {
    if k.pc.i < len - k.count {
      ShiftOne(mem, k.pc.i, k.count, len);
      assert HeldQueue(mem, len, k) == k.got + (mem[..k.pc.i] + mem[k.count + k.pc.i..len]);
      assert HeldQueue(mem', len, k') == k.got + (mem'[..k.pc.i + 1] + mem'[k.count + k.pc.i + 1..len]);
    }
  }

  /** Control steps touch neither the buffer nor the length. */
  lemma ControlKeepsQueue(s: State, t: nat)
    requires Inv(s) && t < |s.tasks| && CanStep(s, t, Clean) && Inv(Advance(s, t, Clean))
    requires !Moves(s.tasks[t].pc) || s.tasks[t].pc.WakeUp? || s.tasks[t].pc.ZeroMem?
    ensures AbsQueue(Advance(s, t, Clean)) == AbsQueue(s)
  {
    assert TaskOk(s, t);
  }

  // The deciding steps are the atomic operations.

  lemma UpdateCommits(s: State, t: nat)
    requires Inv(s) && t < |s.tasks| && CanStep(s, t, Clean) && s.tasks[t].pc.Update? && Inv(Advance(s, t, Clean))
    ensures var s' := Advance(s, t, Clean);
      Apply(AbsQueue(s), s.tasks[t].call, s'.tasks[t].ret) == Some(AbsQueue(s'))
  {
    assert TaskOk(s, t);
    var k, s' := s.tasks[t], StepUpdate(s, t);
    assert s' == Advance(s, t, Clean);
    var q := AbsQueue(s);
    assert AbsQueue(s') == s.mem[..s'.len];
    if k.call.Read? {
      assert q == k.got + s.mem[..s.len - k.count];
      assert q[..k.count] == k.got && q[k.count..] == s.mem[..s.len - k.count];
    } else {
      assert s.mem[..s.len + k.count] == q + s.mem[s.len..s.len + k.count];
    }
  }

  lemma FaultCommits(s: State, t: nat, choice: Choice)
    requires Inv(s) && t < |s.tasks| && CanStep(s, t, choice) && s.tasks[t].pc.Copy? && choice.Faulty?
    requires Inv(Advance(s, t, choice))
    ensures Apply(AbsQueue(s), s.tasks[t].call, Fault) == Some(AbsQueue(Advance(s, t, choice)))
  {
    assert TaskOk(s, t);
    CopyKeepsQueue(s, t, choice);
  }

  lemma OtherCommits(s: State, t: nat)
    requires Inv(s) && t < |s.tasks| && CanStep(s, t, Clean) && Inv(Advance(s, t, Clean))
    requires !s.tasks[t].pc.Update? && !s.tasks[t].pc.Copy? && LabelOf(s, Step(t, Clean)).Committed?
    ensures Apply(AbsQueue(s), s.tasks[t].call, Advance(s, t, Clean).tasks[t].ret)
         == Some(AbsQueue(Advance(s, t, Clean)))
  {
    assert TaskOk(s, t);
  }

  /** How the queue may move on a step with label `l`. */
  predicate Moved(l: Label, q: Queue, q': Queue) {
    if l.Committed? then Apply(q, l.call, l.ret) == Some(q') else q' == q
  }

  lemma CopyMovesQueue(s: State, t: nat, choice: Choice)
    requires Inv(s) && t < |s.tasks| && CanStep(s, t, choice) && Inv(Advance(s, t, choice))
    requires s.tasks[t].pc.Copy?
    ensures Moved(LabelOf(s, Step(t, choice)), AbsQueue(s), AbsQueue(Advance(s, t, choice)))
  {
    assert TaskOk(s, t);
    if choice.Faulty? {
      FaultCommits(s, t, choice);
    } else {
      CopyKeepsQueue(s, t, choice);
    }
  }

  lemma ShiftMovesQueue(s: State, t: nat)
    requires Inv(s) && t < |s.tasks| && CanStep(s, t, Clean) && Inv(Advance(s, t, Clean)) && s.tasks[t].pc.Shift?
    ensures Moved(LabelOf(s, Step(t, Clean)), AbsQueue(s), AbsQueue(Advance(s, t, Clean)))
  {
    assert TaskOk(s, t);
    var s' := Advance(s, t, Clean);
    ShiftKeepsQueue(s.mem, s.len, s.tasks[t], s'.mem, s'.tasks[t]);
  }

  lemma UpdateMovesQueue(s: State, t: nat)
    requires Inv(s) && t < |s.tasks| && CanStep(s, t, Clean) && Inv(Advance(s, t, Clean)) && s.tasks[t].pc.Update?
    ensures Moved(LabelOf(s, Step(t, Clean)), AbsQueue(s), AbsQueue(Advance(s, t, Clean)))
  {
    UpdateCommits(s, t);
  }

  lemma ControlMovesQueue(s: State, t: nat)
    requires Inv(s) && t < |s.tasks| && CanStep(s, t, Clean) && Inv(Advance(s, t, Clean))
    requires !(s.tasks[t].pc.Copy? || s.tasks[t].pc.Shift? || s.tasks[t].pc.Update?)
    ensures Moved(LabelOf(s, Step(t, Clean)), AbsQueue(s), AbsQueue(Advance(s, t, Clean)))
  {
    if LabelOf(s, Step(t, Clean)).Committed? {
      OtherCommits(s, t);
    } else {
      ControlKeepsQueue(s, t);
    }
  }

  /** The queue moves with the label of the step. */
  lemma StepMovesQueue(s: State, t: nat, choice: Choice)
    requires Inv(s) && t < |s.tasks| && CanStep(s, t, choice) && Inv(Advance(s, t, choice))
    ensures Moved(LabelOf(s, Step(t, choice)), AbsQueue(s), AbsQueue(Advance(s, t, choice)))
  {
    var pc := s.tasks[t].pc;
    if pc.Copy? {
      CopyMovesQueue(s, t, choice);
    } else if pc.Shift? {
      ShiftMovesQueue(s, t);
    } else if pc.Update? {
      UpdateMovesQueue(s, t);
    } else {
      ControlMovesQueue(s, t);
    }
  }

  /** The change of the stepping task's atomic view is the one its label names. */
  predicate Follows(l: Label, t: nat, before: ATask, after: ATask) {
    match l
    case Committed(t', call, ret) => t' == t && before == Pending(call) && after == Done(call, ret)
    case Returned(t', call, ret) => t' == t && before == Done(call, ret) && after == Out
    case Tau => after == before
    case Invoked(_, _) => false
  }

  lemma MoveMovesTask(s: State, t: nat, choice: Choice)
    requires Inv(s) && t < |s.tasks| && CanStep(s, t, choice) && Moves(s.tasks[t].pc)
    ensures |Advance(s, t, choice).tasks| == |s.tasks|
    ensures Follows(LabelOf(s, Step(t, choice)), t, AbsTask(s.tasks[t]), AbsTask(Advance(s, t, choice).tasks[t]))
  {
    assert TaskOk(s, t);
  }

  lemma StayMovesTask(s: State, t: nat, choice: Choice)
    requires Inv(s) && t < |s.tasks| && CanStep(s, t, choice) && !Moves(s.tasks[t].pc)
    ensures |Advance(s, t, choice).tasks| == |s.tasks|
    ensures Follows(LabelOf(s, Step(t, choice)), t, AbsTask(s.tasks[t]), AbsTask(Advance(s, t, choice).tasks[t]))
  {
    assert TaskOk(s, t);
  }

  lemma StepMovesTask(s: State, t: nat, choice: Choice)
    requires Inv(s) && t < |s.tasks| && CanStep(s, t, choice)
    ensures |Advance(s, t, choice).tasks| == |s.tasks|
    ensures Follows(LabelOf(s, Step(t, choice)), t, AbsTask(s.tasks[t]), AbsTask(Advance(s, t, choice).tasks[t]))
  {
    if Moves(s.tasks[t].pc) {
      MoveMovesTask(s, t, choice);
    } else {
      StayMovesTask(s, t, choice);
    }
  }

  lemma StepRefines(s: State, t: nat, choice: Choice)
    requires Inv(s) && t < |s.tasks| && CanStep(s, t, choice) && Inv(Advance(s, t, choice))
    ensures ANext(Abs(s), LabelOf(s, Step(t, choice))) == Some(Abs(Advance(s, t, choice)))
  {
    StepMovesQueue(s, t, choice);
    StepMovesTask(s, t, choice);
    var s' := Advance(s, t, choice);
    var x, x' := Abs(s), Abs(s');
    forall u | 0 <= u < |s.tasks| && u != t ensures x'.tasks[u] == x.tasks[u] {
      StepLeavesAlone(s, t, choice, u);
    }
    assert x'.tasks == x.tasks[t := AbsTask(s'.tasks[t])];
    assert x.tasks == x.tasks[t := AbsTask(s.tasks[t])];
  }

  lemma OtherRefines(s: State, a: Action)
    requires Inv(s) && Enabled(s, a) && !a.Step? && Inv(Next(s, a))
    ensures ANext(Abs(s), LabelOf(s, a)) == Some(Abs(Next(s, a)))
  {
    assert TaskOk(s, a.t);
    var s' := Next(s, a);
    assert AbsQueue(s') == AbsQueue(s);
    assert Abs(s').tasks == Abs(s).tasks[a.t := AbsTask(s'.tasks[a.t])];
    assert Abs(s).tasks == Abs(s).tasks[a.t := AbsTask(s.tasks[a.t])];
  }

  /** Each action of the driver is the action of the atomic machine that its label names. */
  lemma NextRefines(s: State, a: Action)
    requires Inv(s) && Enabled(s, a) && Inv(Next(s, a))
    ensures ANext(Abs(s), LabelOf(s, a)) == Some(Abs(Next(s, a)))
  {
    if a.Step? {
      StepRefines(s, a.t, a.choice);
    } else {
      OtherRefines(s, a);
    }
  }

  /**
   The order of the atomic operations is that of the critical sections: an
   operation takes effect while its task holds the mutex. The exceptions touch
   nothing: an interrupted sleeper, and an unknown ioctl command.
   */
  lemma CommitsUnderMutex(s: State, a: Action)
    requires Inv(s) && Enabled(s, a) && LabelOf(s, a).Committed?
    ensures LabelOf(s, a).ret.Restart? || LabelOf(s, a).ret.Inval? || s.owner == Some(LabelOf(s, a).t)
  {
    assert TaskOk(s, a.t);
  }

  /** A call that fails leaves the queue as it was at the step that decides it, whatever a faulty copy wrote. */
  lemma FailedCallsChangeNothing(s: State, a: Action)
    requires Inv(s) && Enabled(s, a) && LabelOf(s, a).Committed?
    requires var ret := LabelOf(s, a).ret; ret.Again? || ret.Fault? || ret.Restart? || ret.Inval?
    ensures Inv(Next(s, a)) && AbsQueue(Next(s, a)) == AbsQueue(s)
  {
    NextInv(s, a);
    NextRefines(s, a);
    ErrorsChangeNothing(AbsQueue(s), LabelOf(s, a).call, LabelOf(s, a).ret);
  }

  /** Linearizability: the labels of any run are a run of the atomic machine. */
  lemma {:induction false} RunRefines(s: State, acts: seq<Action>)
    requires Inv(s) && Runs(s, acts) && Inv(Final(s, acts))
    ensures ARun(Abs(s), Labels(s, acts)) == Some(Abs(Final(s, acts)))
    decreases |acts|
  {
    if acts != [] {
      NextInv(s, acts[0]);
      NextRefines(s, acts[0]);
      RunRefines(Next(s, acts[0]), acts[1..]);
    }
  }

  /** In a run of the atomic machine the queue is what replaying its operations in order gives. */
  lemma {:induction false} ARunReplays(a: AState, labels: seq<Label>)
    requires ARun(a, labels).Some?
    ensures Replay(a.q, Commits(labels)) == Some(ARun(a, labels).value.q)
    decreases |labels|
  {
    if labels != [] {
      ARunReplays(ANext(a, labels[0]).value, labels[1..]);
      if labels[0].Committed? {
        var c := Commit(labels[0].t, labels[0].call, labels[0].ret);
        assert Commits(labels)[0] == c && Commits(labels)[1..] == Commits(labels[1..]);
      } else {
        assert Commits(labels) == Commits(labels[1..]);
      }
    }
  }

  /**
   Over every run of any number of tasks, with the mutex free, the buffer
   holds what the calls, taken as atomic operations in the order of their
   critical sections, leave on a bounded byte queue.
   */
  lemma {:induction false} Linearizable(n: nat, acts: seq<Action>)
    requires Runs(Init(n), acts)
    ensures Inv(Init(n)) && Inv(Final(Init(n), acts))
    ensures ARun(Abs(Init(n)), Labels(Init(n), acts)) == Some(Abs(Final(Init(n), acts)))
    ensures var s := Final(Init(n), acts);
      s.owner.None? ==> Replay([], Commits(Labels(Init(n), acts))) == Some(s.mem[..s.len])
  {
    InitInv(n);
    RunInv(Init(n), acts);
    RunRefines(Init(n), acts);
    ARunReplays(Abs(Init(n)), Labels(Init(n), acts));
  }

  /**
   Stream conservation: what all writers had accepted, in order, is what left
   the queue through reads and clears, in order, followed by the buffer.
   */
  lemma {:induction false} StreamConserved(n: nat, acts: seq<Action>)
    requires Runs(Init(n), acts) && Final(Init(n), acts).owner.None?
    ensures var h, s := Commits(Labels(Init(n), acts)), Final(Init(n), acts);
      Replay([], h).Some? && |s.mem| >= s.len && Accepted(h) == Removed([], h) + s.mem[..s.len]
  {
    Linearizable(n, acts);
    Conservation([], Commits(Labels(Init(n), acts)));
  }
}
