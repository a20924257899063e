/**
 One task of the globalfifo driver by itself: the mutex holder comes to its
 unlock, and a poll foretells what a non-blocking call would answer.
 */
module FifoSolo {
  import opened Prelude
  import opened FifoSpec
  import opened FifoProtocol
  import opened FifoInvariant
  import opened FifoLocking

  /** Steps of task `t` only. */
  predicate Alone(acts: seq<Action>, t: nat) {
    forall k :: 0 <= k < |acts| ==> acts[k].Step? && acts[k].t == t
  }

  /** A bound on the steps a task can take without waiting; the byte moves of a read take the most. */
  function StepsLeft(s: State, t: nat): int
    requires t < |s.tasks|
  {
    var k := s.tasks[t];
    match k.pc
    case LockFirst => GLOBALFIFO_SIZE + 17
    case Enqueue => GLOBALFIFO_SIZE + 16
    case Test => GLOBALFIFO_SIZE + 15
    case Clamp => GLOBALFIFO_SIZE + 13
    case Copy => GLOBALFIFO_SIZE + 12
    case Shift(i) => 10 + s.len - k.count - i
    case Update => 9
    case WakeUp => 8
    case ZeroLen => 8
    case ZeroMem => 7
    case PollRead => 7
    case PollWrite => 6
    case SetSleep => 6
    case UnlockSleep => 5
    case Unlock => 5
    case Dequeue => 4
    case SetRunning => 3
    case Return => 2
    case _ => 1
  }

  lemma CopierStep(s: State, t: nat, choice: Choice)
    requires Inv(s) && s.owner == Some(t) && t < |s.tasks| && CanStep(s, t, choice) && s.tasks[t].pc.Copy?
    ensures var s' := Advance(s, t, choice);
      |s'.tasks| == |s.tasks| && s'.owner == Some(t) && 0 <= StepsLeft(s', t) < StepsLeft(s, t)
  {
    assert TaskOk(s, t);
  }

  lemma ShifterStep(s: State, t: nat)
    requires Inv(s) && s.owner == Some(t) && t < |s.tasks| && CanStep(s, t, Clean) && s.tasks[t].pc.Shift?
    ensures var s' := Advance(s, t, Clean);
      |s'.tasks| == |s.tasks| && s'.owner == Some(t) && 0 <= StepsLeft(s', t) < StepsLeft(s, t)
  {
    assert TaskOk(s, t);
  }

  lemma MoverStep(s: State, t: nat)
    requires s.owner == Some(t) && t < |s.tasks| && CanStep(s, t, Clean) && Moves(s.tasks[t].pc)
    requires !s.tasks[t].pc.Copy? && !s.tasks[t].pc.Shift?
    ensures var s' := Advance(s, t, Clean);
      |s'.tasks| == |s.tasks| && s'.owner == Some(t) && 0 <= StepsLeft(s', t) < StepsLeft(s, t)
  {
  }

  lemma StayerStep(s: State, t: nat, choice: Choice)
    requires Inv(s) && s.owner == Some(t) && t < |s.tasks| && CanStep(s, t, choice) && !Moves(s.tasks[t].pc)
    ensures var s' := Advance(s, t, choice);
      && |s'.tasks| == |s.tasks| && (s'.owner.None? || s'.owner == Some(t))
      && 0 <= StepsLeft(s', t) < StepsLeft(s, t)
  {
    assert TaskOk(s, t);
  }

  lemma HolderStep(s: State, t: nat, choice: Choice)
    requires Inv(s) && s.owner == Some(t) && t < |s.tasks| && CanStep(s, t, choice)
    ensures var s' := Advance(s, t, choice);
      && |s'.tasks| == |s.tasks| && (s'.owner.None? || s'.owner == Some(t))
      && 0 <= StepsLeft(s', t) < StepsLeft(s, t)
  {
    if s.tasks[t].pc.Copy? {
      CopierStep(s, t, choice);
    } else if s.tasks[t].pc.Shift? {
      ShifterStep(s, t);
    } else if Moves(s.tasks[t].pc) {
      MoverStep(s, t);
    } else {
      StayerStep(s, t, choice);
    }
  }

  /** The mutex holder, stepping alone, comes to its unlock. */
  lemma {:induction false} HolderReleases(s: State, t: nat) returns (acts: seq<Action>)
    requires Inv(s) && s.owner == Some(t) && t < |s.tasks|
    ensures Alone(acts, t) && Runs(s, acts) && Final(s, acts).owner.None?
    ensures |acts| <= StepsLeft(s, t)
    decreases StepsLeft(s, t)
  {
    HolderCanStep(s, t);
    HolderStep(s, t, Clean);
    var s' := Next(s, Step(t, Clean));
    NextInv(s, Step(t, Clean));
    if s'.owner.None? {
      acts := [Step(t, Clean)];
      assert acts[1..] == [];
    } else {
      var more := HolderReleases(s', t);
      acts := [Step(t, Clean)] + more;
      assert acts[1..] == more;
    }
  }

  /** So from every reachable state the mutex can be free after at most SIZE + 17 steps of one task. */
  lemma MutexComesFree(n: nat, acts: seq<Action>) returns (more: seq<Action>)
    requires Runs(Init(n), acts)
    ensures var s := Final(Init(n), acts);
      && Runs(s, more) && Final(s, more).owner.None? && |more| <= GLOBALFIFO_SIZE + 17
      && (s.owner.Some? ==> Alone(more, s.owner.value))
  {
    InitInv(n);
    RunInv(Init(n), acts);
    var s := Final(Init(n), acts);
    if s.owner.None? {
      more := [];
    } else {
      more := HolderReleases(s, s.owner.value);
      assert TaskOk(s, s.owner.value);
    }
  }

  // Calls that never wait, from invocation to return.

  /** The call returns without sleeping, whatever the queue holds. */
  predicate NeverWaits(call: Call) {
    call.Poll? || (RW(call) && call.nonblock)
  }

  /** The answer of such a call, as far as the length at its start decides it. */
  predicate Foretold(call: Call, len: nat, ret: Ret) {
    match call
    case Poll => ret == Mask(len != 0, len != GLOBALFIFO_SIZE)
    case _ => ret.Again? <==> !Ready(call, len)
  }

  /** Task `t` is on its way through such a call which it began on `len` bytes. */
  predicate OnItsWay(s: State, t: nat, len: nat) {
    && t < |s.tasks|
    && var k := s.tasks[t];
    && NeverWaits(k.call)
    && match k.pc
       case LockFirst => s.owner.None? && s.len == len
       case Enqueue => s.len == len
       case Test => s.len == len
       case PollRead => s.len == len
       case PollWrite => s.len == len && k.ret == Mask(len != 0, false)
       case Clamp => RW(k.call) && Ready(k.call, len)
       case Copy => RW(k.call) && Ready(k.call, len)
       case Shift(_) => RW(k.call) && Ready(k.call, len)
       case Update => RW(k.call) && Ready(k.call, len)
       case WakeUp => Foretold(k.call, len, k.ret)
       case Unlock => Foretold(k.call, len, k.ret)
       case Dequeue => Foretold(k.call, len, k.ret)
       case SetRunning => Foretold(k.call, len, k.ret)
       case Return => Foretold(k.call, len, k.ret)
       case _ => false
  }

  lemma WayStep(s: State, t: nat, len: nat, choice: Choice)
    requires Inv(s) && OnItsWay(s, t, len) && CanStep(s, t, choice) && !s.tasks[t].pc.Return?
    ensures OnItsWay(Advance(s, t, choice), t, len)
    ensures Advance(s, t, choice).tasks[t].call == s.tasks[t].call
  {
    var pc := s.tasks[t].pc;
    if Moves(pc) {
      WayMoves(s, t, len, choice);
    } else if pc.Unlock? || pc.Dequeue? || pc.SetRunning? {
      WayLeaves(s, t, len, choice);
    } else {
      WayEnters(s, t, len, choice);
    }
  }

  lemma WayMoves(s: State, t: nat, len: nat, choice: Choice)
    requires Inv(s) && OnItsWay(s, t, len) && CanStep(s, t, choice) && Moves(s.tasks[t].pc)
    ensures OnItsWay(Advance(s, t, choice), t, len)
    ensures Advance(s, t, choice).tasks[t].call == s.tasks[t].call
  {
    assert TaskOk(s, t);
  }

  lemma WayLeaves(s: State, t: nat, len: nat, choice: Choice)
    requires Inv(s) && OnItsWay(s, t, len) && CanStep(s, t, choice)
    requires var pc := s.tasks[t].pc; pc.Unlock? || pc.Dequeue? || pc.SetRunning?
    ensures OnItsWay(Advance(s, t, choice), t, len)
    ensures Advance(s, t, choice).tasks[t].call == s.tasks[t].call
  {
  }

  lemma WayEnters(s: State, t: nat, len: nat, choice: Choice)
    requires Inv(s) && OnItsWay(s, t, len) && CanStep(s, t, choice) && !Moves(s.tasks[t].pc)
    requires var pc := s.tasks[t].pc; !(pc.Unlock? || pc.Dequeue? || pc.SetRunning? || pc.Return?)
    ensures OnItsWay(Advance(s, t, choice), t, len)
    ensures Advance(s, t, choice).tasks[t].call == s.tasks[t].call
  {
    assert TaskOk(s, t);
  }

  lemma {:induction false} WayRuns(s: State, t: nat, len: nat, acts: seq<Action>)
    requires Inv(s) && OnItsWay(s, t, len) && Runs(s, acts) && Alone(acts, t)
    requires t < |Final(s, acts).tasks| && Final(s, acts).tasks[t].pc.Return?
    ensures Foretold(s.tasks[t].call, len, Final(s, acts).tasks[t].ret)
    decreases |acts|
  {
    if acts != [] {
      if s.tasks[t].pc.Return? {
        ReturnedStays(s, t, acts);
        assert false;
      }
      WayStep(s, t, len, acts[0].choice);
      NextInv(s, acts[0]);
      WayRuns(Next(s, acts[0]), t, len, acts[1..]);
    }
  }

  lemma IdleStays(s: State, t: nat, acts: seq<Action>)
    requires t < |s.tasks| && s.tasks[t].pc.Idle? && Runs(s, acts) && Alone(acts, t)
    ensures acts == []
  {
  }

  /** After its return a task takes no more steps of its own. */
  lemma ReturnedStays(s: State, t: nat, acts: seq<Action>)
    requires t < |s.tasks| && s.tasks[t].pc.Return? && Runs(s, acts) && Alone(acts, t) && acts != []
    ensures |Final(s, acts).tasks| == |s.tasks| && Final(s, acts).tasks[t].pc.Idle?
  {
    IdleStays(Next(s, acts[0]), t, acts[1..]);
  }

  /** A whole call of one task, with no step of any other. */
  predicate Answers(s: State, t: nat, call: Call, acts: seq<Action>, ret: Ret) {
    && acts != [] && acts[0] == Invoke(t, call) && Alone(acts[1..], t) && Runs(s, acts)
    && var s' := Final(s, acts); t < |s'.tasks| && s'.tasks[t].pc.Return? && s'.tasks[t].ret == ret
  }

  lemma AnswersForetold(s: State, t: nat, call: Call, acts: seq<Action>, ret: Ret)
    requires Inv(s) && s.owner.None? && NeverWaits(call) && Answers(s, t, call, acts, ret)
    ensures Foretold(call, s.len, ret)
  {
    NextInv(s, acts[0]);
    WayRuns(Next(s, acts[0]), t, s.len, acts[1..]);
  }

  lemma {:induction false} WayEnds(s: State, t: nat, len: nat) returns (acts: seq<Action>)
    requires Inv(s) && OnItsWay(s, t, len)
    ensures Alone(acts, t) && Runs(s, acts)
    ensures t < |Final(s, acts).tasks| && Final(s, acts).tasks[t].pc.Return?
    decreases StepsLeft(s, t)
  {
    if s.tasks[t].pc.Return? {
      acts := [];
    } else {
      WayCanStep(s, t, len);
      WayStep(s, t, len, Clean);
      NextInv(s, Step(t, Clean));
      var more := WayEnds(Advance(s, t, Clean), t, len);
      acts := [Step(t, Clean)] + more;
      assert acts[1..] == more;
    }
  }

  lemma WayCanStep(s: State, t: nat, len: nat)
    requires Inv(s) && OnItsWay(s, t, len) && !s.tasks[t].pc.Return?
    ensures CanStep(s, t, Clean) && |Advance(s, t, Clean).tasks| == |s.tasks|
    ensures 0 <= StepsLeft(Advance(s, t, Clean), t) < StepsLeft(s, t)
  {
    assert TaskOk(s, t);
    if s.owner == Some(t) {
      HolderCanStep(s, t);
      HolderStep(s, t, Clean);
    }
  }

  /** Such a call can always run alone to its return. */
  lemma CallAnswers(s: State, t: nat, call: Call) returns (acts: seq<Action>, ret: Ret)
    requires Inv(s) && s.owner.None? && NeverWaits(call) && t < |s.tasks| && s.tasks[t].pc.Idle?
    ensures Answers(s, t, call, acts, ret)
  {
    var s' := Next(s, Invoke(t, call));
    NextInv(s, Invoke(t, call));
    var more := WayEnds(s', t, s.len);
    acts := [Invoke(t, call)] + more;
    assert acts[1..] == more;
    ret := Final(s, acts).tasks[t].ret;
  }

  /**
   Poll and the non-blocking calls agree: from every reachable state with the
   mutex free, a poll and a non-blocking call of one task, each run alone, can
   both return; and however they do, some bit is set in the mask, and the call's
   own bit if and only if the call is not turned away with -EAGAIN.
   */
  lemma PollForetells(n: nat, acts: seq<Action>, t: nat, call: Call)
    requires Runs(Init(n), acts) && t < n && RW(call) && call.nonblock
    requires var s := Final(Init(n), acts); s.owner.None? && t < |s.tasks| && s.tasks[t].pc.Idle?
    ensures var s := Final(Init(n), acts);
      && (exists polls, mask :: Answers(s, t, Poll, polls, mask))
      && (exists calls, ret :: Answers(s, t, call, calls, ret))
      && forall polls, mask, calls, ret :: Answers(s, t, Poll, polls, mask) && Answers(s, t, call, calls, ret) ==>
           && mask.Mask? && (mask.readable || mask.writable)
           && (ret.Again? <==> !(if call.Read? then mask.readable else mask.writable))
  {
    var s := Final(Init(n), acts);
    InitInv(n);
    RunInv(Init(n), acts);
    var polls, mask := CallAnswers(s, t, Poll);
    var calls, ret := CallAnswers(s, t, call);
    forall polls, mask, calls, ret | Answers(s, t, Poll, polls, mask) && Answers(s, t, call, calls, ret)
      ensures mask.Mask? && (mask.readable || mask.writable)
      ensures ret.Again? <==> !(if call.Read? then mask.readable else mask.writable)
    {
      AnswersForetold(s, t, Poll, polls, mask);
      AnswersForetold(s, t, call, calls, ret);
    }
  }
}
