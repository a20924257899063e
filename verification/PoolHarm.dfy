/**
 What a harmful signal leads to: from every state in which one can be given,
 some continuation makes a worker run a job it was never given, or run one twice.
 */
module PoolHarm {
  import opened Prelude
  import opened PoolSpec
  import opened PoolProtocol
  import opened PoolOwnership
  import opened PoolSafety

  lemma {:induction false} RunsJoin(s: State, a: seq<Action>, b: seq<Action>)
    requires Runs(s, a) && Runs(Final(s, a), b)
    ensures Runs(s, a + b) && Final(s, a + b) == Final(Final(s, a), b)
    ensures EverHarms(s, a + b) <==> EverHarms(s, a) || EverHarms(Final(s, a), b)
    decreases |a|
  {
    if a == [] {
      assert a + b == b;
    } else {
      assert (a + b)[0] == a[0] && (a + b)[1..] == a[1..] + b;
      RunsJoin(Next(s, a[0]), a[1..], b);
    }
  }

  lemma RunsThen(s: State, acts: seq<Action>, a: Action)
    requires Runs(s, acts) && Enabled(Final(s, acts), a)
    ensures Runs(s, acts + [a]) && Final(s, acts + [a]) == Next(Final(s, acts), a)
    ensures EverHarms(s, acts + [a]) <==> EverHarms(s, acts) || Harms(Final(s, acts), a)
  {
    var mid := Final(s, acts);
    assert [a][1..] == [];
    assert Runs(Next(mid, a), []);
    assert Runs(mid, [a]) && Final(mid, [a]) == Next(mid, a);
    RunsJoin(s, acts, [a]);
  }

  lemma {:induction false} SparesJoin(s: State, a: seq<Action>, b: seq<Action>, i: nat)
    requires Runs(s, a) && Runs(Final(s, a), b) && Spares(s, a, i) && Spares(Final(s, a), b, i)
    ensures Runs(s, a + b) && Spares(s, a + b, i)
    decreases |a|
  {
    RunsJoin(s, a, b);
    if a == [] {
      assert a + b == b;
    } else {
      assert (a + b)[0] == a[0] && (a + b)[1..] == a[1..] + b;
      SparesJoin(Next(s, a[0]), a[1..], b, i);
    }
  }

  /** Steps of workers only. */
  predicate OnlyWork(acts: seq<Action>) {
    forall k :: 0 <= k < |acts| ==> acts[k].WorkStep?
  }

  lemma {:induction false} WorkSpares(s: State, acts: seq<Action>, i: nat)
    requires Runs(s, acts) && OnlyWork(acts)
    ensures Spares(s, acts, i)
    decreases |acts|
  {
    if acts != [] {
      WorkSpares(Next(s, acts[0]), acts[1..], i);
    }
  }

  // The worker of one slot, by itself.

  /** A woken worker executes the pair in its slot. */
  lemma WorkerExecutes(s: State, i: nat) returns (acts: seq<Action>)
    requires Shaped(s) && i < |s.slots| && s.workers[i].Woken? && s.slots[i].lock.None?
    ensures OnlyWork(acts)
    ensures var c := s.slots[i];
      Harmless(s, acts) && Final(s, acts) ==
        s.(workers := s.workers[i := LockDone], log := s.log + [Exec(i, c.claim, Job(c.work, c.desc))])
  {
    var c := s.slots[i];
    acts := [];
    RunsThen(s, acts, WorkStep(i));
    acts := acts + [WorkStep(i)];
    assert Final(s, acts) ==
      s.(workers := s.workers[i := UnlockWoken], slots := s.slots[i := c.(lock := Some(Worker))]);
    RunsThen(s, acts, WorkStep(i));
    acts := acts + [WorkStep(i)];
    assert Final(s, acts) == s.(workers := s.workers[i := ReadWork]) by { assert s.slots[i := c] == s.slots; }
    RunsThen(s, acts, WorkStep(i));
    acts := acts + [WorkStep(i)];
    assert Final(s, acts) == s.(workers := s.workers[i := ReadJob(c.work)]);
    RunsThen(s, acts, WorkStep(i));
    acts := acts + [WorkStep(i)];
    assert Final(s, acts) == s.(workers := s.workers[i := Execute(c.work, c.desc)]);
    RunsThen(s, acts, WorkStep(i));
    acts := acts + [WorkStep(i)];
  }

  /** Then it gives the slot back. */
  lemma WorkerFinishes(s: State, i: nat) returns (acts: seq<Action>)
    requires Shaped(s) && i < |s.slots| && s.workers[i].LockDone? && s.slots[i].lock.None?
    ensures Harmless(s, acts) && Final(s, acts) ==
      s.(workers := s.workers[i := LockIdle], slots := s.slots[i := s.slots[i].(busy := false)])
  {
    var c := s.slots[i];
    acts := [];
    RunsThen(s, acts, WorkStep(i));
    acts := acts + [WorkStep(i)];
    assert Final(s, acts) == s.(workers := s.workers[i := SetIdle], slots := s.slots[i := c.(lock := Some(Worker))]);
    RunsThen(s, acts, WorkStep(i));
    acts := acts + [WorkStep(i)];
    assert Final(s, acts) ==
      s.(workers := s.workers[i := UnlockIdle], slots := s.slots[i := c.(busy := false, lock := Some(Worker))]);
    RunsThen(s, acts, WorkStep(i));
    acts := acts + [WorkStep(i)];
  }

  /** And waits again. */
  lemma WorkerWaits(s: State, i: nat) returns (acts: seq<Action>)
    requires Shaped(s) && i < |s.slots| && s.workers[i].LockIdle? && s.slots[i].lock.None?
    ensures Harmless(s, acts) && Final(s, acts) == s.(workers := s.workers[i := Waiting])
  {
    acts := [];
    RunsThen(s, acts, WorkStep(i));
    acts := acts + [WorkStep(i)];
    assert Final(s, acts) ==
      s.(workers := s.workers[i := BeginWait], slots := s.slots[i := s.slots[i].(lock := Some(Worker))]);
    RunsThen(s, acts, WorkStep(i));
    acts := acts + [WorkStep(i)];
    assert Final(s, acts).slots == s.slots;
  }

  /** The three together: a woken worker runs what is in its slot and waits for more. */
  lemma WorkerTurn(s: State, i: nat) returns (acts: seq<Action>)
    requires Shaped(s) && i < |s.slots| && s.workers[i].Woken? && s.slots[i].lock.None?
    ensures var c := s.slots[i];
      Harmless(s, acts) && Final(s, acts) ==
        s.(workers := s.workers[i := Waiting], slots := s.slots[i := c.(busy := false)],
           log := s.log + [Exec(i, c.claim, Job(c.work, c.desc))])
  {
    acts := WorkerExecutes(s, i);
    var more := WorkerFinishes(Final(s, acts), i);
    RunsJoin(s, acts, more);
    acts := acts + more;
    more := WorkerWaits(Final(s, acts), i);
    RunsJoin(s, acts, more);
    acts := acts + more;
  }

  // The submitter that holds the lock of a slot, and the one that has claimed it.

  /** Nothing but submitters, slots and locks may differ. */
  predicate OnlySub(s: State, s': State)
    requires Shaped(s)
  {
    && Shaped(s') && |s'.slots| == |s.slots| && |s'.subs| == |s.subs|
    && s'.cur == s.cur && s'.workers == s.workers && s'.jobs == s.jobs && s'.log == s.log
  }

  /** The submitter has claimed slot `i`, and its signal is still to come. */
  predicate Pending(s: State, q: nat, i: nat) {
    && q < |s.subs|
    && match s.subs[q]
       case UnlockClaimed(j) => j == i
       case AddIndex(n) => s.cur == i + 1
       case StoreWork(j, _) => j == i
       case StoreJob(j, _) => j == i
       case UnlockPool(j) => j == i
       case SignalSlot(j) => j == i
       case _ => false
  }

  function Left(pc: SubPc): nat {
    match pc
    case UnlockClaimed(_) => 5
    case AddIndex(_) => 5
    case StoreWork(_, _) => 4
    case StoreJob(_, _) => 3
    case UnlockPool(_) => 2
    case _ => 1
  }

  lemma PendingStep(s: State, q: nat, i: nat) returns (s': State)
    requires Shaped(s) && i < |s.slots| && Pending(s, q, i) && !s.subs[q].SignalSlot? && s.slots[i].lock.None?
    ensures Enabled(s, SubStep(q)) && !Harms(s, SubStep(q)) && s' == Next(s, SubStep(q))
    ensures OnlySub(s, s') && Pending(s', q, i) && Left(s'.subs[q]) < Left(s.subs[q])
    ensures s'.slots[i].lock.None? && s'.slots[i].claim == s.slots[i].claim
  {
    s' := Next(s, SubStep(q));
  }

  /** A submitter that has claimed a slot comes to its signal by itself. */
  lemma {:induction false} ReachSignal(s: State, q: nat, i: nat) returns (acts: seq<Action>)
    requires Shaped(s) && i < |s.slots| && Pending(s, q, i) && s.slots[i].lock.None?
    ensures Harmless(s, acts)
    ensures var s' := Final(s, acts);
      && OnlySub(s, s') && s'.subs[q] == SignalSlot(i)
      && s'.slots[i].lock.None? && s'.slots[i].claim == s.slots[i].claim
    decreases Left(s.subs[q])
  {
    if s.subs[q].SignalSlot? {
      acts := [];
    } else {
      var s' := PendingStep(s, q, i);
      var more := ReachSignal(s', q, i);
      acts := [SubStep(q)] + more;
      assert acts[0] == SubStep(q) && acts[1..] == more;
    }
  }

  /** The lock of slot `i` is free or held by a submitter that will go on. */
  predicate SubmitterLock(s: State, i: nat)
    requires Shaped(s) && i < |s.slots|
  {
    s.slots[i].lock.Some? ==>
      && var who := s.slots[i].lock.value;
      && who.Submitter? && who.p < |s.subs| && LocksSlot(s.subs[who.p]) == Some(i)
      && (s.subs[who.p].SetBusy? ==> !s.slots[i].busy)
  }

  function LeftInLock(pc: SubPc): nat {
    match pc
    case TestBusy(_) => 3
    case SetBusy(_) => 2
    case _ => 1
  }

  /** What the release of a slot's lock leaves: a busy slot as it was, an idle one idle or claimed. */
  predicate Released(s: State, s': State, i: nat)
    requires Shaped(s) && i < |s.slots|
  {
    && OnlySub(s, s')
    && (s.slots[i].busy || !s'.slots[i].busy ==> s'.slots[i] == s.slots[i].(lock := s'.slots[i].lock))
    && (!s.slots[i].busy && s'.slots[i].busy ==>
          s'.slots[i].claim.Some? && Pending(s', s'.slots[i].claim.value, i))
    && (forall q :: 0 <= q < |s.subs| && Pending(s, q, i) ==> Pending(s', q, i))
    && (forall q :: 0 <= q < |s.subs| && LocksSlot(s.subs[q]) != Some(i) ==> s'.subs[q] == s.subs[q])
  }

  lemma ReleaseStep(s: State, i: nat) returns (s': State)
    requires Shaped(s) && i < |s.slots| && SubmitterLock(s, i) && s.slots[i].lock.Some?
    ensures var p := s.slots[i].lock.value.p;
      && Enabled(s, SubStep(p)) && !Harms(s, SubStep(p)) && !s.subs[p].SignalFailed? && s' == Next(s, SubStep(p))
      && Released(s, s', i) && SubmitterLock(s', i)
      && (s'.slots[i].lock.Some? ==>
            s'.slots[i].lock == s.slots[i].lock && LeftInLock(s'.subs[p]) < LeftInLock(s.subs[p]))
  {
    s' := Next(s, SubStep(s.slots[i].lock.value.p));
  }

  function LockRank(s: State, i: nat): nat
    requires Shaped(s) && i < |s.slots| && SubmitterLock(s, i)
  {
    if s.slots[i].lock.None? then 0 else LeftInLock(s.subs[s.slots[i].lock.value.p])
  }

  lemma ReleasedJoin(s: State, t: State, u: State, i: nat)
    requires Shaped(s) && i < |s.slots| && Released(s, t, i) && Released(t, u, i)
    requires forall q :: 0 <= q < |s.subs| && LocksSlot(s.subs[q]) != Some(i) ==> LocksSlot(t.subs[q]) != Some(i)
    ensures Released(s, u, i)
  {
  }

  /** The submitter that holds a slot's lock gives it back by itself. */
  lemma {:induction false} Release(s: State, i: nat) returns (acts: seq<Action>)
    requires Shaped(s) && i < |s.slots| && SubmitterLock(s, i)
    ensures Harmless(s, acts) && Released(s, Final(s, acts), i) && Final(s, acts).slots[i].lock.None?
    ensures Spares(s, acts, i)
    decreases LockRank(s, i)
  {
    if s.slots[i].lock.None? {
      acts := [];
    } else {
      var s' := ReleaseStep(s, i);
      var more := Release(s', i);
      acts := [SubStep(s.slots[i].lock.value.p)] + more;
      assert acts[0] == SubStep(s.slots[i].lock.value.p) && acts[1..] == more;
      ReleasedJoin(s, s', Final(s', more), i);
    }
  }

  // The harm.

  /** A worker woken in an idle slot runs a job no one gave it, or one that has run before. */
  lemma WrongInIdle(s: State, i: nat) returns (acts: seq<Action>)
    requires Shaped(s) && i < |s.slots| && s.workers[i].Woken? && s.slots[i].lock.None?
    requires s.slots[i].claim.Some? ==> Recorded(s, s.slots[i].claim.value)
    ensures Harmless(s, acts) && !RightLog(Final(s, acts))
  {
    acts := WorkerExecutes(s, i);
    var log, n := Final(s, acts).log, |s.log|;
    assert log[n].claim == s.slots[i].claim;
    if s.slots[i].claim.Some? {
      var k :| 0 <= k < n && s.log[k].claim == s.slots[i].claim;
      assert log[k].claim == log[n].claim;
    }
  }

  /** A signal that reaches the waiting worker makes it run what is in the slot. */
  lemma SignalRuns(s: State, q: nat, i: nat) returns (acts: seq<Action>)
    requires Shaped(s) && i < |s.slots| && s.workers[i].Waiting? && s.slots[i].lock.None?
    requires q < |s.subs| && s.subs[q] == SignalSlot(i)
    ensures Harmless(s, acts)
    ensures var c := s.slots[i]; Final(s, acts).log == s.log + [Exec(i, c.claim, Job(c.work, c.desc))]
  {
    assert Runs(s, []);
    RunsThen(s, [], SubStep(q));
    assert [] + [SubStep(q)] == [SubStep(q)];
    var more := WorkerExecutes(Next(s, SubStep(q)), i);
    RunsJoin(s, [SubStep(q)], more);
    acts := [SubStep(q)] + more;
  }

  lemma PendingRuns(s: State, q: nat, i: nat) returns (acts: seq<Action>)
    requires Shaped(s) && i < |s.slots| && s.workers[i].Waiting? && s.slots[i].lock.None?
    requires Pending(s, q, i) && s.slots[i].claim == Some(q)
    ensures Harmless(s, acts)
    ensures var log := Final(s, acts).log; |log| == |s.log| + 1 && s.log <= log && log[|s.log|].claim == Some(q)
  {
    acts := ReachSignal(s, q, i);
    var more := SignalRuns(Final(s, acts), q, i);
    RunsJoin(s, acts, more);
    acts := acts + more;
  }

  /** A worker woken before its job is handed over runs what is there, and once more when the signal comes. */
  lemma WrongInPending(s: State, q: nat, i: nat) returns (acts: seq<Action>)
    requires Shaped(s) && i < |s.slots| && s.workers[i].Woken? && s.slots[i].lock.None?
    requires Pending(s, q, i) && s.slots[i].claim == Some(q)
    ensures Harmless(s, acts) && !RightLog(Final(s, acts))
  {
    acts := WorkerTurn(s, i);
    var t := Final(s, acts);
    assert t.log[|s.log|].claim == Some(q);
    var more := PendingRuns(t, q, i);
    RunsJoin(s, acts, more);
    acts := acts + more;
    var log, n := Final(s, acts).log, |s.log|;
    assert log[n].claim == Some(q) && log[n + 1].claim == Some(q);
  }

  lemma WokenGoesWrong(s: State, i: nat) returns (acts: seq<Action>)
    requires Shaped(s) && i < |s.slots| && s.workers[i].Woken? && SubmitterLock(s, i)
    requires !s.slots[i].busy && s.slots[i].claim.Some? ==> Recorded(s, s.slots[i].claim.value)
    requires s.slots[i].busy ==> s.slots[i].claim.Some? && Pending(s, s.slots[i].claim.value, i)
    ensures Harmless(s, acts) && !RightLog(Final(s, acts))
  {
    acts := Release(s, i);
    var t := Final(s, acts);
    var more;
    if t.slots[i].busy {
      more := WrongInPending(t, t.slots[i].claim.value, i);
    } else {
      if t.slots[i].claim.Some? {
        var k :| 0 <= k < |s.log| && s.log[k].claim == t.slots[i].claim;
        assert t.log[k].claim == t.slots[i].claim;
      }
      more := WrongInIdle(t, i);
    }
    RunsJoin(s, acts, more);
    acts := acts + more;
  }

  /** What the invariants say of a slot whose worker waits and whose job is not signalled. */
  lemma UnsignalledSlot(s: State, i: nat)
    requires Inv(s) && AllKept(s) && i < |s.slots| && s.workers[i].Waiting? && !Signalled(s, i)
    ensures SubmitterLock(s, i)
    ensures !s.slots[i].busy && s.slots[i].claim.Some? ==> Recorded(s, s.slots[i].claim.value)
    ensures s.slots[i].busy ==> s.slots[i].claim.Some? && Pending(s, s.slots[i].claim.value, i)
  {
    assert CellOk(s, i);
    if s.slots[i].claim.Some? {
      assert SubOk(s, s.slots[i].claim.value) && Kept(s, s.slots[i].claim.value);
    }
    if s.slots[i].lock.Some? && s.slots[i].lock.value.Submitter? {
      assert SubOk(s, s.slots[i].lock.value.p);
    }
  }

  lemma HarmGoesWrong(s: State, a: Action) returns (more: seq<Action>)
    requires Inv(s) && AllKept(s) && Harms(s, a)
    ensures Harmless(Next(s, a), more) && !RightLog(Final(Next(s, a), more))
  {
    var i, s' := s.subs[a.p].i, Next(s, a);
    UnsignalledSlot(s, i);
    assert s' == s.(subs := s.subs[a.p := Returned(None)], workers := s.workers[i := Woken]);
    more := WokenGoesWrong(s', i);
  }

  /** Some continuation, itself without harmful signals, ends with a job run twice or never given. */
  ghost predicate CanGoWrong(s: State) {
    exists more :: Harmless(s, more) && !RightLog(Final(s, more))
  }

  lemma InvStaysRight(s: State)
    requires Inv(s)
    ensures !CanGoWrong(s)
  {
    forall more | Harmless(s, more) ensures RightLog(Final(s, more)) {
      RunInv(s, more);
      InvRightLog(Final(s, more));
    }
  }

  lemma StepGoesWrongIff(s: State, a: Action)
    requires Inv(s) && AllKept(s) && Enabled(s, a)
    ensures Harms(s, a) <==> CanGoWrong(Next(s, a))
  {
    if Harms(s, a) {
      var more := HarmGoesWrong(s, a);
      assert CanGoWrong(Next(s, a));
    } else {
      NextInv(s, a);
      InvStaysRight(Next(s, a));
    }
  }

  /**
   From every state reached without a harmful signal: a step is one - a failed
   submission's signal to a worker waiting in a slot that is idle or not yet
   signalled - if and only if after it some run, itself without one, makes a
   worker execute a submission twice or a wrong pair.
   */
  lemma HarmIffWrong(min: nat, max: nat, jobs: seq<Job>, acts: seq<Action>, a: Action)
    requires min <= max && Harmless(Init(min, max, jobs), acts)
    requires Enabled(Final(Init(min, max, jobs), acts), a)
    ensures Harms(Final(Init(min, max, jobs), acts), a) <==> CanGoWrong(Next(Final(Init(min, max, jobs), acts), a))
  {
    InitInv(min, max, jobs);
    RunInv(Init(min, max, jobs), acts);
    RunKept(Init(min, max, jobs), acts);
    StepGoesWrongIff(Final(Init(min, max, jobs), acts), a);
  }

  /** After no step of the run can things go wrong. */
  ghost predicate StaysRight(s: State, acts: seq<Action>)
    requires Runs(s, acts)
    decreases |acts|
  {
    !CanGoWrong(s) && (acts != [] ==> StaysRight(Next(s, acts[0]), acts[1..]))
  }

  lemma {:induction false} HarmlessIffRightFrom(s: State, acts: seq<Action>)
    requires Inv(s) && AllKept(s) && Runs(s, acts)
    ensures !EverHarms(s, acts) <==> StaysRight(s, acts)
    decreases |acts|
  {
    InvStaysRight(s);
    if acts != [] {
      StepGoesWrongIff(s, acts[0]);
      if Harms(s, acts[0]) {
        assert !StaysRight(Next(s, acts[0]), acts[1..]);
      } else {
        NextInv(s, acts[0]);
        NextKept(s, acts[0]);
        HarmlessIffRightFrom(Next(s, acts[0]), acts[1..]);
      }
    }
  }

  /** So a run contains no such signal if and only if each submission runs at most once, as stored, whatever follows. */
  lemma HarmlessIffRight(min: nat, max: nat, jobs: seq<Job>, acts: seq<Action>)
    requires min <= max && Runs(Init(min, max, jobs), acts)
    ensures !EverHarms(Init(min, max, jobs), acts) <==> StaysRight(Init(min, max, jobs), acts)
  {
    InitInv(min, max, jobs);
    HarmlessIffRightFrom(Init(min, max, jobs), acts);
  }

  /**
   A signal that finds the worker waiting is not lost: the holder of the
   slot's lock, the submitter and the worker can go on by themselves until
   exactly the submitted job has run.
   */
  lemma SignalledJobRuns(s: State, p: nat) returns (acts: seq<Action>)
    requires Inv(s) && Enabled(s, SubStep(p)) && s.subs[p].SignalSlot? && s.workers[s.subs[p].i].Waiting?
    ensures Harmless(s, acts)
    ensures Final(s, acts).log == s.log + [Exec(s.subs[p].i, Some(p), s.jobs[p])]
  {
    var i := s.subs[p].i;
    assert SubOk(s, p) && CellOk(s, i);
    if s.slots[i].lock.Some? && s.slots[i].lock.value.Submitter? {
      assert SubOk(s, s.slots[i].lock.value.p);
    }
    acts := Release(s, i);
    var more := SignalRuns(Final(s, acts), p, i);
    RunsJoin(s, acts, more);
    acts := acts + more;
  }

  // Lost signals.

  /** From here the job of submission `p` can run without a failed submission signalling slot `i`. */
  ghost predicate CanRun(s: State, p: nat, i: nat) {
    exists more :: Harmless(s, more) && Spares(s, more, i) && Recorded(Final(s, more), p)
  }

  lemma WokenRuns(s: State, i: nat) returns (acts: seq<Action>)
    requires Inv(s) && i < |s.slots| && s.workers[i].Woken?
    ensures Harmless(s, acts) && Spares(s, acts, i)
    ensures s.slots[i].claim.Some? && Recorded(Final(s, acts), s.slots[i].claim.value)
  {
    assert WorkerOk(s, i) && CellOk(s, i);
    if s.slots[i].lock.Some? && s.slots[i].lock.value.Submitter? {
      assert SubOk(s, s.slots[i].lock.value.p);
    }
    acts := Release(s, i);
    var t := Final(s, acts);
    var more := WorkerExecutes(t, i);
    WorkSpares(t, more, i);
    RunsJoin(s, acts, more);
    SparesJoin(s, acts, more, i);
    acts := acts + more;
    assert Final(s, acts).log[|t.log|].claim == s.slots[i].claim;
  }

  /**
   Exactly when a signal is not lost: a job handed over can run, without a
   harmful signal or a failed submission's signal to its slot, if and only if
   its own signal found the worker waiting.
   */
  lemma SignalLostIff(s: State, p: nat)
    requires Inv(s) && Enabled(s, SubStep(p)) && s.subs[p].SignalSlot?
    ensures s.workers[s.subs[p].i].Waiting? <==> CanRun(Next(s, SubStep(p)), p, s.subs[p].i)
  {
    var i, t := s.subs[p].i, Next(s, SubStep(p));
    NextInv(s, SubStep(p));
    SignalForgotten(s, p);
    if s.workers[i].Waiting? {
      var more := WokenRuns(t, i);
      assert CanRun(t, p, i);
    } else {
      forall more | Harmless(t, more) && Spares(t, more, i) ensures !Recorded(Final(t, more), p) {
        ForgottenForever(t, more, i);
      }
    }
  }

  /** The stray signal does no harm where it finds the worker of a forgotten job waiting: the job can run after all. */
  lemma StrayRescues(s: State, a: Action, i: nat)
    requires Inv(s) && Strays(s, a, i) && Forgotten(s, i) && s.workers[i].Waiting?
    ensures !Harms(s, a) && s.slots[i].claim.Some? && CanRun(Next(s, a), s.slots[i].claim.value, i)
  {
    var t := Next(s, a);
    NextInv(s, a);
    var more := WokenRuns(t, i);
    assert CanRun(t, s.slots[i].claim.value, i);
  }
}
