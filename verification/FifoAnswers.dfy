/**
 What calls of the globalfifo driver return, and why: failures have their
 cause, and a call that runs by itself returns what the queue calls for,
 whether it starts anew or has been woken from its sleep.
 */
module FifoAnswers {
  import opened Prelude
  import opened FifoSpec
  import opened FifoProtocol
  import opened FifoInvariant
  import opened FifoRefinement
  import opened FifoLocking
  import opened FifoSleep
  import opened FifoSolo

  // Every failure has its cause.

  /**
   -ERESTARTSYS is decided only for a sleeper with a signal pending, -EFAULT
   exactly by a faulty copy, and -EAGAIN only for a call that asked not to wait.
   */
  lemma FailureHasCause(s: State, a: Action)
    requires Inv(s) && Enabled(s, a) && LabelOf(s, a).Committed?
    ensures var k, ret := s.tasks[a.t], LabelOf(s, a).ret;
      && (ret.Restart? ==> k.pc.SigTest? && k.pending && RW(k.call) && !k.call.nonblock)
      && (ret.Fault? <==> k.pc.Copy? && a.choice.Faulty?)
      && (ret.Again? ==> k.call.nonblock && !Ready(k.call, s.len))
  {
    assert TaskOk(s, a.t);
  }

  /** A woken sleeper gives up exactly when a signal is pending; else it takes the mutex again. */
  lemma SignalDecides(s: State, t: nat)
    requires Inv(s) && t < |s.tasks| && s.tasks[t].pc.SigTest?
    ensures CanStep(s, t, Clean)
    ensures var k' := Advance(s, t, Clean).tasks[t];
      && (s.tasks[t].pending ==> k'.ret == Restart && LabelOf(s, Step(t, Clean)) == Committed(t, k'.call, Restart))
      && (!s.tasks[t].pending ==> k'.pc.LockAgain? && LabelOf(s, Step(t, Clean)) == Tau)
  {
  }

  // A call by itself.

  /** Fault-free steps of task `t` only. */
  predicate AloneClean(acts: seq<Action>, t: nat) {
    forall k :: 0 <= k < |acts| ==> acts[k] == Step(t, Clean)
  }

  /** The outcome of a call begun on queue `q` is decided and has been put into effect. */
  predicate Settled(s: State, t: nat, q: Queue)
    requires Inv(s) && t < |s.tasks|
  {
    var k := s.tasks[t];
    && !k.ret.Fault? && !k.ret.Restart? && Apply(q, k.call, k.ret) == Some(AbsQueue(s))
    && (k.call.Ioctl? && k.ret.Cleared? && !k.pc.ZeroMem? ==> forall i :: 0 <= i < |s.mem| ==> s.mem[i] == 0)
  }

  /** Task `t` is on its way through a call that finds the queue `q` and need not wait. */
  predicate OnWay(s: State, t: nat, q: Queue)
    requires Inv(s)
  {
    && t < |s.tasks|
    && var k := s.tasks[t];
    && !k.pc.Idle? && ReturnsAtOnce(q, k.call) && (Holds(k.pc) || s.owner.None?)
    && if Decided(k.pc) then Settled(s, t, q)
       else
         && AbsQueue(s) == q && !k.pc.SetSleep? && !k.pc.UnlockSleep?
         && (k.pc.Schedule? ==> k.st.Running? && !k.pending) && (k.pc.SigTest? ==> !k.pending)
  }

  function WayLeft(s: State, t: nat): int
    requires t < |s.tasks|
  {
    match s.tasks[t].pc
    case Schedule => GLOBALFIFO_SIZE + 20
    case SigTest => GLOBALFIFO_SIZE + 19
    case LockAgain => GLOBALFIFO_SIZE + 18
    case Reject => 3
    case _ => StepsLeft(s, t)
  }

  /** While the mutex holder has not started to move bytes, the buffer is the queue. */
  lemma HeldLength(s: State, t: nat)
    requires Inv(s) && t < |s.tasks| && Holds(s.tasks[t].pc) && !s.tasks[t].pc.Shift? && !s.tasks[t].pc.Update?
    ensures AbsQueue(s) == s.mem[..s.len] && |AbsQueue(s)| == s.len
  {
    assert TaskOk(s, t);
  }

  lemma TestGoesOn(s: State, t: nat, q: Queue)
    requires Inv(s) && OnWay(s, t, q) && s.tasks[t].pc.Test?
    ensures CanStep(s, t, Clean)
    ensures var s' := Advance(s, t, Clean);
      |s'.tasks| == |s.tasks| && Holds(s'.tasks[t].pc) && !s'.tasks[t].pc.SetSleep? && !s'.tasks[t].pc.UnlockSleep?
  {
    assert TaskOk(s, t);
    HeldLength(s, t);
  }

  /** A step of the holder that does not sleep stays out of the wait loop. */
  lemma HeldGoesOn(s: State, t: nat)
    requires Inv(s) && t < |s.tasks| && Holds(s.tasks[t].pc) && CanStep(s, t, Clean)
    requires !s.tasks[t].pc.SetSleep? && !s.tasks[t].pc.UnlockSleep? && !s.tasks[t].pc.Test?
    ensures var s' := Advance(s, t, Clean);
      && |s'.tasks| == |s.tasks| && !Waiting(s'.tasks[t].pc) && !s'.tasks[t].pc.Idle?
      && (Holds(s'.tasks[t].pc) || s'.owner.None?)
  {
    assert TaskOk(s, t);
  }

  lemma FreeGoesOn(s: State, t: nat, q: Queue)
    requires Inv(s) && OnWay(s, t, q) && !Holds(s.tasks[t].pc) && !s.tasks[t].pc.Return?
    ensures CanStep(s, t, Clean)
    ensures var s' := Advance(s, t, Clean);
      && |s'.tasks| == |s.tasks| && 0 <= WayLeft(s', t) < WayLeft(s, t)
      && (Holds(s'.tasks[t].pc) || s'.owner.None?)
      && var k' := s'.tasks[t];
      && !k'.pc.SetSleep? && !k'.pc.UnlockSleep? && !k'.pc.Schedule? && !k'.pc.Idle? && (k'.pc.SigTest? ==> !k'.pending)
  {
  }

  /** The next step of such a task, as far as its place and the mutex go. */
  lemma WayGoesOn(s: State, t: nat, q: Queue)
    requires Inv(s) && OnWay(s, t, q) && !s.tasks[t].pc.Return?
    ensures CanStep(s, t, Clean)
    ensures var s' := Advance(s, t, Clean);
      && |s'.tasks| == |s.tasks| && 0 <= WayLeft(s', t) < WayLeft(s, t)
      && (Holds(s'.tasks[t].pc) || s'.owner.None?)
      && var k' := s'.tasks[t];
      && !k'.pc.SetSleep? && !k'.pc.UnlockSleep? && !k'.pc.Schedule? && !k'.pc.Idle? && (k'.pc.SigTest? ==> !k'.pending)
  {
    if Holds(s.tasks[t].pc) {
      assert TaskOk(s, t);
      HolderCanStep(s, t);
      HolderStep(s, t, Clean);
      if s.tasks[t].pc.Test? {
        TestGoesOn(s, t, q);
      } else {
        HeldGoesOn(s, t);
      }
    } else {
      FreeGoesOn(s, t, q);
    }
  }

  /** A step that decides nothing keeps the queue, and what was decided. */
  lemma QuietStep(s: State, t: nat, q: Queue)
    requires Inv(s) && OnWay(s, t, q) && CanStep(s, t, Clean) && Inv(Advance(s, t, Clean))
    requires LabelOf(s, Step(t, Clean)) == Tau
    ensures var s' := Advance(s, t, Clean);
      && t < |s'.tasks| && AbsQueue(s') == AbsQueue(s) && AbsTask(s'.tasks[t]) == AbsTask(s.tasks[t])
  {
    NextRefines(s, Step(t, Clean));
    assert Abs(s).tasks[t] == AbsTask(s.tasks[t]);
  }

  /** The step that decides does the atomic operation. */
  lemma DecidingStep(s: State, t: nat, q: Queue)
    requires Inv(s) && OnWay(s, t, q) && CanStep(s, t, Clean) && Inv(Advance(s, t, Clean))
    requires LabelOf(s, Step(t, Clean)).Committed?
    ensures var s' := Advance(s, t, Clean);
      && t < |s'.tasks| && Decided(s'.tasks[t].pc) && s'.tasks[t].call == s.tasks[t].call
      && var ret := s'.tasks[t].ret;
      !ret.Fault? && !ret.Restart? && Apply(q, s.tasks[t].call, ret) == Some(AbsQueue(s'))
  {
    NextRefines(s, Step(t, Clean));
    FailureHasCause(s, Step(t, Clean));
    assert Abs(s).tasks[t] == AbsTask(s.tasks[t]);
  }

  /** FIFO_CLEAR leaves zeroed memory. */
  lemma ClearZeroes(s: State, t: nat)
    requires t < |s.tasks| && CanStep(s, t, Clean) && s.tasks[t].call.Ioctl? && !s.tasks[t].pc.ZeroLen?
    requires s.tasks[t].pc.ZeroMem? || s.tasks[t].pc.Unlock? || s.tasks[t].pc.Return?
    ensures var s' := Advance(s, t, Clean);
      s.tasks[t].pc.ZeroMem? || (forall i :: 0 <= i < |s.mem| ==> s.mem[i] == 0) ==>
        forall i :: 0 <= i < |s'.mem| ==> s'.mem[i] == 0
  {
  }

  lemma WayStep(s: State, t: nat, q: Queue)
    requires Inv(s) && OnWay(s, t, q) && !s.tasks[t].pc.Return?
    ensures CanStep(s, t, Clean) && Inv(Advance(s, t, Clean)) && OnWay(Advance(s, t, Clean), t, q)
    ensures Advance(s, t, Clean).tasks[t].call == s.tasks[t].call
  {
    WayGoesOn(s, t, q);
    StepInv(s, t, Clean);
    StepKeepsCall(s, t, Clean);
    var s' := Advance(s, t, Clean);
    if LabelOf(s, Step(t, Clean)).Committed? {
      DecidingStep(s, t, q);
    } else {
      QuietStep(s, t, q);
      if Decided(s.tasks[t].pc) && s.tasks[t].call.Ioctl? {
        assert TaskOk(s, t);
        ClearZeroes(s, t);
      }
    }
  }

  /** Fault-free steps of task `t` alone from `s` bring it to its return. */
  predicate Finishes(s: State, t: nat, acts: seq<Action>) {
    && AloneClean(acts, t) && Runs(s, acts)
    && t < |Final(s, acts).tasks| && Final(s, acts).tasks[t].pc.Return?
  }

  lemma {:induction false} WayRuns(s: State, t: nat, q: Queue, acts: seq<Action>)
    requires Inv(s) && OnWay(s, t, q) && Finishes(s, t, acts)
    ensures Inv(Final(s, acts)) && OnWay(Final(s, acts), t, q) && Final(s, acts).tasks[t].call == s.tasks[t].call
    decreases |acts|
  {
    if acts != [] {
      assert acts[0] == Step(t, Clean);
      if s.tasks[t].pc.Return? {
        ReturnedStays(s, t, acts);
        assert false;
      }
      WayStep(s, t, q);
      WayRuns(Next(s, acts[0]), t, q, acts[1..]);
    }
  }

  lemma {:induction false} WayFinishes(s: State, t: nat, q: Queue) returns (acts: seq<Action>)
    requires Inv(s) && OnWay(s, t, q)
    ensures Finishes(s, t, acts)
    decreases WayLeft(s, t)
  {
    if s.tasks[t].pc.Return? {
      acts := [];
    } else {
      WayGoesOn(s, t, q);
      WayStep(s, t, q);
      var more := WayFinishes(Advance(s, t, Clean), t, q);
      acts := [Step(t, Clean)] + more;
      assert acts[1..] == more;
    }
  }

  /** Task `t` is about to return the answer to its call on `q`; the mutex is free, the buffer what the call leaves. */
  predicate Answered(s: State, t: nat, call: Call, q: Queue)
    requires ReturnsAtOnce(q, call)
  {
    && t < |s.tasks| && s.tasks[t].pc.Return? && s.tasks[t].call == call && s.tasks[t].ret == Answer(q, call)
    && s.owner.None? && s.len <= |s.mem| && Apply(q, call, Answer(q, call)) == Some(s.mem[..s.len])
    && (call == Ioctl(FIFO_CLEAR) ==> forall i :: 0 <= i < |s.mem| ==> s.mem[i] == 0)
  }

  lemma WayAnswers(s: State, t: nat, q: Queue, acts: seq<Action>)
    requires Inv(s) && OnWay(s, t, q) && Finishes(s, t, acts)
    ensures Answered(Final(s, acts), t, s.tasks[t].call, q)
  {
    WayRuns(s, t, q, acts);
    var s' := Final(s, acts);
    AnswerUnique(q, s.tasks[t].call, s'.tasks[t].ret);
  }

  /** A whole call of task `t`, free of faults and with no step of any other. */
  predicate CallsAlone(s: State, t: nat, call: Call, acts: seq<Action>) {
    && acts != [] && acts[0] == Invoke(t, call) && Runs(s, acts)
    && Finishes(Next(s, acts[0]), t, acts[1..])
  }

  /**
   Every call that need not wait can be made, from every reachable state with
   the mutex free, by a task on its own; and however it goes it returns the
   answer and leaves the queue it should.
   */
  lemma CallsAnswer(n: nat, acts: seq<Action>, t: nat, call: Call)
    requires Runs(Init(n), acts) && t < n
    requires var s := Final(Init(n), acts);
      && s.owner.None? && t < |s.tasks| && s.tasks[t].pc.Idle?
      && s.len <= GLOBALFIFO_SIZE == |s.mem| && ReturnsAtOnce(s.mem[..s.len], call)
    ensures var s := Final(Init(n), acts);
      && (exists more :: CallsAlone(s, t, call, more))
      && forall more :: CallsAlone(s, t, call, more) ==> Answered(Final(s, more), t, call, s.mem[..s.len])
  {
    var s := Final(Init(n), acts);
    InitInv(n);
    RunInv(Init(n), acts);
    var q, s' := AbsQueue(s), Next(s, Invoke(t, call));
    NextInv(s, Invoke(t, call));
    NextRefines(s, Invoke(t, call));
    assert OnWay(s', t, q);
    var rest := WayFinishes(s', t, q);
    assert ([Invoke(t, call)] + rest)[1..] == rest;
    assert CallsAlone(s, t, call, [Invoke(t, call)] + rest);
    forall more | CallsAlone(s, t, call, more) ensures Answered(Final(s, more), t, call, q) {
      WayAnswers(s', t, q, more[1..]);
    }
  }

  /**
   A waiter that has been woken without a signal, and finds its queue ready,
   can go on by itself from every reachable state with the mutex free, and
   however it does returns its bytes or its count.
   */
  lemma WokenAnswers(n: nat, acts: seq<Action>, t: nat)
    requires Runs(Init(n), acts) && t < n
    requires var s := Final(Init(n), acts);
      && s.owner.None? && t < |s.tasks| && s.tasks[t].pc.Schedule? && s.tasks[t].st.Running? && !s.tasks[t].pending
      && s.len <= GLOBALFIFO_SIZE == |s.mem| && Ready(s.tasks[t].call, s.len)
    ensures var s := Final(Init(n), acts);
      var call, q := s.tasks[t].call, s.mem[..s.len];
      && ReturnsAtOnce(q, call) && (Answer(q, call).Got? || Answer(q, call).Put?)
      && (exists more :: Finishes(s, t, more))
      && forall more :: Finishes(s, t, more) ==> Answered(Final(s, more), t, call, q)
  {
    var s := Final(Init(n), acts);
    InitInv(n);
    RunInv(Init(n), acts);
    assert TaskOk(s, t);
    var q := AbsQueue(s);
    assert OnWay(s, t, q);
    var more := WayFinishes(s, t, q);
    forall more | Finishes(s, t, more) ensures Answered(Final(s, more), t, s.tasks[t].call, q) {
      WayAnswers(s, t, q, more);
    }
  }

  // A waiter with a signal.

  /** Task `t` has a signal in its sleep, or has given up for it; the queue is `q`. */
  predicate GivingUp(s: State, t: nat, q: Queue)
    requires Inv(s)
  {
    && t < |s.tasks| && s.owner.None? && AbsQueue(s) == q
    && var k := s.tasks[t];
    match k.pc
    case Schedule => k.pending
    case SigTest => k.pending
    case Dequeue => k.ret.Restart?
    case SetRunning => k.ret.Restart?
    case Return => k.ret.Restart?
    case _ => false
  }

  lemma GivingUpStep(s: State, t: nat, q: Queue)
    requires Inv(s) && GivingUp(s, t, q) && !s.tasks[t].pc.Return?
    ensures CanStep(s, t, Clean) && Inv(Advance(s, t, Clean)) && GivingUp(Advance(s, t, Clean), t, q)
    ensures 0 <= WayLeft(Advance(s, t, Clean), t) < WayLeft(s, t)
  {
    StepInv(s, t, Clean);
  }

  lemma {:induction false} GivingUpRuns(s: State, t: nat, q: Queue, acts: seq<Action>)
    requires Inv(s) && GivingUp(s, t, q) && Finishes(s, t, acts)
    ensures Inv(Final(s, acts)) && GivingUp(Final(s, acts), t, q)
    decreases |acts|
  {
    if acts != [] {
      assert acts[0] == Step(t, Clean);
      if s.tasks[t].pc.Return? {
        ReturnedStays(s, t, acts);
        assert false;
      }
      GivingUpStep(s, t, q);
      GivingUpRuns(Next(s, acts[0]), t, q, acts[1..]);
    }
  }

  lemma {:induction false} GivingUpFinishes(s: State, t: nat, q: Queue) returns (acts: seq<Action>)
    requires Inv(s) && GivingUp(s, t, q)
    ensures Finishes(s, t, acts)
    decreases WayLeft(s, t)
  {
    if s.tasks[t].pc.Return? {
      acts := [];
    } else {
      GivingUpStep(s, t, q);
      var more := GivingUpFinishes(Advance(s, t, Clean), t, q);
      acts := [Step(t, Clean)] + more;
      assert acts[1..] == more;
    }
  }

  /** However task `t` goes on from `s` by itself, it returns -ERESTARTSYS and leaves the queue of `s` alone. */
  ghost predicate ReturnsRestart(s: State, t: nat) {
    && (exists more :: Finishes(s, t, more))
    && forall more :: Finishes(s, t, more) ==>
         var s' := Final(s, more);
         && s'.tasks[t].ret == Restart && s'.owner.None?
         && s.len <= |s.mem| && s'.len <= |s'.mem| && s'.mem[..s'.len] == s.mem[..s.len]
  }

  lemma GivingUpReturns(s: State, t: nat)
    requires Inv(s) && GivingUp(s, t, AbsQueue(s))
    ensures ReturnsRestart(s, t)
  {
    var q := AbsQueue(s);
    var more := GivingUpFinishes(s, t, q);
    forall more | Finishes(s, t, more)
      ensures var s' := Final(s, more);
        s'.tasks[t].ret == Restart && s'.owner.None? && s'.len <= |s'.mem| && s'.mem[..s'.len] == s.mem[..s.len]
    {
      GivingUpRuns(s, t, q, more);
    }
  }

  /** A waiter with a signal pending returns -ERESTARTSYS by its own steps and leaves the queue alone. */
  lemma SignalledGivesUp(n: nat, acts: seq<Action>, t: nat)
    requires Runs(Init(n), acts) && t < n
    requires var s := Final(Init(n), acts);
      s.owner.None? && t < |s.tasks| && s.tasks[t].pc.Schedule? && s.tasks[t].pending
    ensures ReturnsRestart(Final(Init(n), acts), t)
  {
    InitInv(n);
    RunInv(Init(n), acts);
    GivingUpReturns(Final(Init(n), acts), t);
  }

  /** So a signal ends any sleep, whatever the queue holds. */
  lemma SignalEndsSleep(n: nat, acts: seq<Action>, t: nat)
    requires Runs(Init(n), acts) && t < n
    requires var s := Final(Init(n), acts); s.owner.None? && t < |s.tasks| && s.tasks[t].pc.Schedule?
    ensures var s := Final(Init(n), acts);
      && ReturnsRestart(Next(s, Signal(t)), t)
      && Next(s, Signal(t)).mem == s.mem && Next(s, Signal(t)).len == s.len
  {
    InitInv(n);
    RunInv(Init(n), acts);
    var s := Final(Init(n), acts);
    NextInv(s, Signal(t));
    GivingUpReturns(Next(s, Signal(t)), t);
  }
}
