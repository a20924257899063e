/**
 Two runs of the thread pool: one in which a dropped submission makes a worker
 execute another submission's job twice, and one in which a job never runs.
 */
module PoolWitness {
  import opened Prelude
  import opened PoolSpec
  import opened PoolProtocol
  import opened PoolOwnership
  import opened PoolSafety
  import opened PoolHarm

  lemma GrowThen(s: State, acts: seq<Action>, a: Action)
    requires Runs(s, acts) && AllGrow(s, acts) && Enabled(Final(s, acts), a)
    requires !(a.SubStep? && Final(s, acts).subs[a.p].AddCheck? && |Final(s, acts).slots| <= Final(s, acts).cur)
    ensures Runs(s, acts + [a]) && AllGrow(s, acts + [a]) && Final(s, acts + [a]) == Next(Final(s, acts), a)
  {
    RunsThen(s, acts, a);
    var mid := Final(s, acts);
    assert [a][1..] == [];
    assert AllGrow(Next(mid, a), []);
    GrowsJoin(s, acts, [a]);
  }

  lemma {:induction false} GrowsJoin(s: State, a: seq<Action>, b: seq<Action>)
    requires Runs(s, a) && AllGrow(s, a) && Runs(Final(s, a), b) && AllGrow(Final(s, a), b)
    ensures Runs(s, a + b) && AllGrow(s, a + b) && Final(s, a + b) == Final(Final(s, a), b)
    decreases |a|
  {
    if a == [] {
      assert a + b == b;
    } else {
      assert (a + b)[0] == a[0] && (a + b)[1..] == a[1..] + b;
      GrowsJoin(Next(s, a[0]), a[1..], b);
    }
  }

  // A job that runs twice.

  /** Two submitters, one slot at most and no thread yet; both find no slot and queue up to grow the pool. */
  lemma BothWantToGrow(jobs: seq<Job>) returns (acts: seq<Action>)
    requires |jobs| == 2
    ensures var s := Init(0, 1, jobs);
      Runs(s, acts) && Final(s, acts) == s.(subs := [LockPool(0), LockPool(0)])
  {
    var s := Init(0, 1, jobs);
    acts := [];
    RunsThen(s, acts, SubStep(0));
    acts := acts + [SubStep(0)];
    assert Final(s, acts) == s.(subs := [LockPool(0), Scan(0)]);
    RunsThen(s, acts, SubStep(1));
    acts := acts + [SubStep(1)];
    assert Final(s, acts).subs == [LockPool(0), LockPool(0)];
  }

  predicate At(s: State, cur: nat, poolLock: Option<nat>, worker: WorkPc, cell: Cell) {
    s.cur == cur && s.poolLock == poolLock && s.workers == [worker] && s.slots == [cell]
  }

  /** Submitter 0 on its way from an empty pool with room for one slot to its signal. */
  predicate Grower(s: State) {
    && |s.subs| == |s.jobs| > 0
    && var job := s.jobs[0];
    match s.subs[0]
    case Scan(i) => i == 0 && At(s, 0, None, Absent, Cell(false, 0, 0, None, None))
    case LockPool(i) => i == 0 && At(s, 0, None, Absent, Cell(false, 0, 0, None, None))
    case AddCheck(i) => i == 0 && At(s, 0, Some(0), Absent, Cell(false, 0, 0, None, None))
    case AddBusy(n) => n == 0 && At(s, 0, Some(0), Absent, Cell(false, 0, 0, None, None))
    case AddCount(n) => n == 0 && At(s, 0, Some(0), Absent, Cell(true, 0, 0, None, Some(0)))
    case AddCreate(n) => n == 0 && At(s, 1, Some(0), Absent, Cell(true, 0, 0, None, Some(0)))
    case AddIndex(_) => At(s, 1, Some(0), LockIdle, Cell(true, 0, 0, None, Some(0)))
    case StoreWork(i, grown) => i == 0 && grown && At(s, 1, Some(0), LockIdle, Cell(true, 0, 0, None, Some(0)))
    case StoreJob(i, grown) => i == 0 && grown && At(s, 1, Some(0), LockIdle, Cell(true, job.work, 0, None, Some(0)))
    case UnlockPool(i) => i == 0 && At(s, 1, Some(0), LockIdle, Cell(true, job.work, job.desc, None, Some(0)))
    case SignalSlot(i) => i == 0 && At(s, 1, None, LockIdle, Cell(true, job.work, job.desc, None, Some(0)))
    case _ => false
  }

  function StepsLeft(pc: SubPc): nat {
    match pc
    case Scan(_) => 10
    case LockPool(_) => 9
    case AddCheck(_) => 8
    case AddBusy(_) => 7
    case AddCount(_) => 6
    case AddCreate(_) => 5
    case AddIndex(_) => 4
    case StoreWork(_, _) => 3
    case StoreJob(_, _) => 2
    case UnlockPool(_) => 1
    case _ => 0
  }

  lemma GrowerStep(s: State) returns (s': State)
    requires Grower(s) && !s.subs[0].SignalSlot?
    ensures Enabled(s, SubStep(0)) && s' == Next(s, SubStep(0)) && !(s.subs[0].AddCheck? && |s.slots| <= s.cur)
    ensures Grower(s') && StepsLeft(s'.subs[0]) < StepsLeft(s.subs[0])
    ensures s'.jobs == s.jobs && s'.log == s.log && |s'.subs| == |s.subs| && s'.subs[1..] == s.subs[1..]
  {
    s' := Next(s, SubStep(0));
  }

  /** It grows the pool, claims the new slot and stores its pair, its signal still to come. */
  lemma {:induction false} GrowsAlone(s: State) returns (acts: seq<Action>)
    requires Grower(s)
    ensures Runs(s, acts) && AllGrow(s, acts)
    ensures var s' := Final(s, acts);
      && Grower(s') && |s'.subs| == |s.subs| && s'.subs[0] == SignalSlot(0) && s'.subs[1..] == s.subs[1..]
      && s'.jobs == s.jobs && s'.log == s.log
    decreases StepsLeft(s.subs[0])
  {
    if s.subs[0].SignalSlot? {
      acts := [];
    } else {
      var s' := GrowerStep(s);
      var more := GrowsAlone(s');
      acts := [SubStep(0)] + more;
      assert acts[0] == SubStep(0) && acts[1..] == more;
    }
  }

  /** The second cannot grow the pool any more, and signals the slot at its own scan index. */
  lemma SecondFails(s: State) returns (acts: seq<Action>)
    requires s.cur == 1 == |s.slots| && s.poolLock.None? && s.subs == [SignalSlot(0), LockPool(0)] && |s.jobs| == 2
    requires s.workers == [Waiting]
    ensures Runs(s, acts) && Final(s, acts) == s.(subs := [SignalSlot(0), Returned(None)], workers := [Woken])
  {
    acts := [];
    RunsThen(s, acts, SubStep(1));
    acts := acts + [SubStep(1)];
    assert Final(s, acts) == s.(poolLock := Some(1), subs := [SignalSlot(0), AddCheck(0)]);
    RunsThen(s, acts, SubStep(1));
    acts := acts + [SubStep(1)];
    assert Final(s, acts) == s.(poolLock := Some(1), subs := [SignalSlot(0), UnlockFailed(0)]);
    RunsThen(s, acts, SubStep(1));
    acts := acts + [SubStep(1)];
    assert Final(s, acts) == s.(subs := [SignalSlot(0), SignalFailed(0)]);
    RunsThen(s, acts, SubStep(1));
    acts := acts + [SubStep(1)];
    assert Final(s, acts).subs == [SignalSlot(0), Returned(None)];
  }

  /** Up to the stray signal. */
  lemma StrayWakeUp(jobs: seq<Job>) returns (acts: seq<Action>)
    requires |jobs| == 2
    ensures Runs(Init(0, 1, jobs), acts) && Final(Init(0, 1, jobs), acts) ==
      State(1, [Cell(true, jobs[0].work, jobs[0].desc, None, Some(0))], None,
            [SignalSlot(0), Returned(None)], [Woken], jobs, [])
  {
    var s := Init(0, 1, jobs);
    acts := BothWantToGrow(jobs);
    var more := GrowsAlone(Final(s, acts));
    RunsJoin(s, acts, more);
    acts := acts + more;
    var t := Final(s, acts);
    assert t.subs[1] == t.subs[1..][0] && t.subs == [SignalSlot(0), LockPool(0)];
    more := WorkerWaits(Final(s, acts), 0);
    RunsJoin(s, acts, more);
    acts := acts + more;
    more := SecondFails(Final(s, acts));
    RunsJoin(s, acts, more);
    acts := acts + more;
  }

  /** From the stray signal on: the job runs, and runs again. */
  lemma RunsTwice(s: State) returns (acts: seq<Action>)
    requires Shaped(s) && |s.slots| == 1 && s.workers == [Woken] && s.slots[0].lock.None? && s.log == []
    requires |s.subs| == 2 && s.subs[0] == SignalSlot(0)
    ensures Runs(s, acts)
    ensures var e := Exec(0, s.slots[0].claim, Job(s.slots[0].work, s.slots[0].desc)); Final(s, acts).log == [e, e]
  {
    acts := WorkerTurn(s, 0);
    var more := SignalRuns(Final(s, acts), 0, 0);
    RunsJoin(s, acts, more);
    acts := acts + more;
  }

  /**
   The hypothesis about failed submissions is needed: with at most one slot
   and two different jobs submitted at once, the one that is dropped makes the
   other run twice.
   */
  lemma DroppedSubmissionDoublesJob() returns (jobs: seq<Job>, acts: seq<Action>)
    ensures |jobs| == 2 && jobs[0] != jobs[1]
    ensures Runs(Init(0, 1, jobs), acts) && EverHarms(Init(0, 1, jobs), acts)
    ensures var run := JobsRun(Final(Init(0, 1, jobs), acts).log); run == [jobs[0], jobs[0]]
    ensures !(multiset(JobsRun(Final(Init(0, 1, jobs), acts).log)) <= multiset(jobs))
  {
    jobs := [Job(1, 1), Job(2, 2)];
    var s := Init(0, 1, jobs);
    acts := StrayWakeUp(jobs);
    var more := RunsTwice(Final(s, acts));
    RunsJoin(s, acts, more);
    acts := acts + more;
    var run := JobsRun(Final(s, acts).log);
    assert run == [jobs[0], jobs[0]];
    assert multiset(run)[jobs[0]] == 2 && multiset(jobs)[jobs[0]] == 1;
    if !EverHarms(s, acts) {
      RunsAtMostOnce(0, 1, jobs, acts);
      assert false;
    }
  }

  // A lost signal.

  lemma {:induction false} ReturnedGrows(s: State, acts: seq<Action>)
    requires Runs(s, acts) && forall p :: 0 <= p < |s.subs| ==> s.subs[p].Returned?
    ensures AllGrow(s, acts)
    decreases |acts|
  {
    if acts != [] {
      ReturnedGrows(Next(s, acts[0]), acts[1..]);
    }
  }

  lemma AcceptedThenIgnored(job: Job) returns (acts: seq<Action>)
    ensures var s := Init(0, 1, [job]);
      Runs(s, acts) && AllGrow(s, acts) && Final(s, acts) ==
        State(1, [Cell(true, job.work, job.desc, None, Some(0))], None, [Returned(Some(0))], [LockIdle], [job], [])
  {
    var s := Init(0, 1, [job]);
    acts := GrowsAlone(s);
    GrowThen(s, acts, SubStep(0));
    acts := acts + [SubStep(0)];
  }

  lemma NoClaimNoEntry(s: State)
    requires Inv(s) && |s.subs| == 1 && forall k :: 0 <= k < |s.log| ==> s.log[k].claim != Some(0)
    ensures s.log == []
  {
    assert 0 < |s.log| ==> EntryOk(s, s.log[0]);
  }

  /**
   A job can be accepted and never run: its only submitter grows the pool and
   signals before the new worker waits. All calls have returned, and no
   continuation ever executes anything.
   */
  lemma AcceptedJobNeverRuns(job: Job) returns (acts: seq<Action>)
    ensures var s := Init(0, 1, [job]);
      && Runs(s, acts) && AllGrow(s, acts) && Final(s, acts).subs == [Returned(Some(0))]
      && Forgotten(Final(s, acts), 0)
      && forall more :: Runs(Final(s, acts), more) ==> Final(Final(s, acts), more).log == []
  {
    var s := Init(0, 1, [job]);
    acts := AcceptedThenIgnored(job);
    var t := Final(s, acts);
    InitInv(0, 1, [job]);
    AllGrowIsHarmless(s, acts);
    RunInv(s, acts);
    forall more | Runs(t, more) ensures Final(t, more).log == [] {
      ReturnedGrows(t, more);
      AllGrowIsHarmless(t, more);
      AllGrowSpares(t, more, 0);
      ForgottenForever(t, more, 0);
      RunInv(t, more);
      NoClaimNoEntry(Final(t, more));
    }
  }
}
