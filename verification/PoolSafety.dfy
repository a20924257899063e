/** What slot ownership gives over whole runs of the thread pool, and what a lost signal leaves. */
module PoolSafety {
  import opened Prelude
  import opened PoolSpec
  import opened PoolProtocol
  import opened PoolOwnership

  predicate EverHarms(s: State, acts: seq<Action>)
    requires Runs(s, acts)
    decreases |acts|
  {
    acts != [] && (Harms(s, acts[0]) || EverHarms(Next(s, acts[0]), acts[1..]))
  }

  /** A run in which no failed submission gives a harmful signal. */
  predicate Harmless(s: State, acts: seq<Action>) {
    Runs(s, acts) && !EverHarms(s, acts)
  }

  lemma {:induction false} RunInv(s: State, acts: seq<Action>)
    requires Inv(s) && Harmless(s, acts)
    ensures Inv(Final(s, acts)) && Final(s, acts).jobs == s.jobs
    decreases |acts|
  {
    if acts != [] {
      NextShaped(s, acts[0]);
      NextInv(s, acts[0]);
      RunInv(Next(s, acts[0]), acts[1..]);
    }
  }

  /** No call of add_thread fails during the run. */
  predicate AllGrow(s: State, acts: seq<Action>)
    requires Runs(s, acts)
    decreases |acts|
  {
    acts == [] || (
      && !(acts[0].SubStep? && s.subs[acts[0].p].AddCheck? && |s.slots| <= s.cur)
      && AllGrow(Next(s, acts[0]), acts[1..]))
  }

  predicate NoneFailed(s: State) {
    forall p :: 0 <= p < |s.subs| ==> !s.subs[p].UnlockFailed? && !s.subs[p].SignalFailed?
  }

  lemma NextNoneFailed(s: State, a: Action)
    requires Inv(s) && Enabled(s, a) && NoneFailed(s)
    requires !(a.SubStep? && s.subs[a.p].AddCheck? && |s.slots| <= s.cur)
    ensures NoneFailed(Next(s, a)) && !Harms(s, a)
  {
  }

  lemma {:induction false} AllGrowIsHarmless(s: State, acts: seq<Action>)
    requires Inv(s) && NoneFailed(s) && Runs(s, acts) && AllGrow(s, acts)
    ensures !EverHarms(s, acts)
    decreases |acts|
  {
    if acts != [] {
      NextNoneFailed(s, acts[0]);
      NextInv(s, acts[0]);
      AllGrowIsHarmless(Next(s, acts[0]), acts[1..]);
    }
  }

  /** Every entry of the log is the stored pair of a submission, and no two are of the same one. */
  predicate RightLog(s: State) {
    && (forall k :: 0 <= k < |s.log| ==>
          s.log[k].claim.Some? && s.log[k].claim.value < |s.jobs| && s.log[k].job == s.jobs[s.log[k].claim.value])
    && (forall k, l :: 0 <= k < l < |s.log| ==> s.log[k].claim != s.log[l].claim)
  }

  lemma InvRightLog(s: State)
    requires Inv(s)
    ensures RightLog(s)
  {
    forall k | 0 <= k < |s.log|
      ensures s.log[k].claim.Some? && s.log[k].claim.value < |s.jobs| && s.log[k].job == s.jobs[s.log[k].claim.value]
    {
      assert EntryOk(s, s.log[k]);
    }
  }

  function JobsRun(log: seq<Exec>): seq<Job> {
    seq(|log|, k requires 0 <= k < |log| => log[k].job)
  }

  lemma Without<T>(s: seq<T>, k: nat)
    requires k < |s|
    ensures multiset(s) == multiset(s[..k] + s[k + 1..]) + multiset{s[k]}
  {
    assert s == s[..k] + [s[k]] + s[k + 1..];
  }

  /** Picking entries at distinct positions of a sequence picks a part of it, counted with multiplicity. */
  lemma {:induction false} DistinctPicks(jobs: seq<Job>, at: seq<nat>, picked: seq<Job>)
    requires |at| == |picked|
    requires forall k :: 0 <= k < |at| ==> at[k] < |jobs| && picked[k] == jobs[at[k]]
    requires forall k, l :: 0 <= k < l < |at| ==> at[k] != at[l]
    ensures multiset(picked) <= multiset(jobs)
    decreases |jobs|
  {
    if at != [] {
      assert at[0] < |jobs|;
      var last := |jobs| - 1;
      Without(jobs, last);
      assert jobs[..last] + jobs[last + 1..] == jobs[..last];
      if k :| 0 <= k < |at| && at[k] == last {
        Without(picked, k);
        DistinctPicks(jobs[..last], at[..k] + at[k + 1..], picked[..k] + picked[k + 1..]);
      } else {
        DistinctPicks(jobs[..last], at, picked);
      }
    }
  }

  /**
   In every run without a harmful signal each submission is executed at most
   once, always by the worker of the slot it claimed and always with exactly
   the pair it stored: the executed pairs are among the submitted ones,
   counted with multiplicity.
   */
  lemma RunsAtMostOnce(min: nat, max: nat, jobs: seq<Job>, acts: seq<Action>)
    requires min <= max && Harmless(Init(min, max, jobs), acts)
    ensures var s := Final(Init(min, max, jobs), acts);
      s.jobs == jobs && RightLog(s) && multiset(JobsRun(s.log)) <= multiset(jobs)
  {
    InitInv(min, max, jobs);
    RunInv(Init(min, max, jobs), acts);
    var s := Final(Init(min, max, jobs), acts);
    InvRightLog(s);
    var at := seq(|s.log|, k requires 0 <= k < |s.log| => s.log[k].claim.value);
    DistinctPicks(jobs, at, JobsRun(s.log));
  }

  /** In particular in every run in which no call of add_thread fails. */
  lemma RunsAtMostOnceWithoutFailure(min: nat, max: nat, jobs: seq<Job>, acts: seq<Action>)
    requires min <= max && Runs(Init(min, max, jobs), acts) && AllGrow(Init(min, max, jobs), acts)
    ensures multiset(JobsRun(Final(Init(min, max, jobs), acts).log)) <= multiset(jobs)
    ensures Harmless(Init(min, max, jobs), acts)
  {
    InitInv(min, max, jobs);
    AllGrowIsHarmless(Init(min, max, jobs), acts);
    RunsAtMostOnce(min, max, jobs, acts);
  }

  // Nothing placed is lost.

  predicate Recorded(s: State, p: nat) {
    exists k :: 0 <= k < |s.log| && s.log[k].claim == Some(p)
  }

  /** A job whose submission returned a slot has run, or sits in that busy slot under its own claim. */
  predicate Kept(s: State, p: nat)
    requires Shaped(s) && p < |s.subs|
  {
    s.subs[p].Returned? && s.subs[p].placed.Some? ==>
      var i := s.subs[p].placed.value;
      Recorded(s, p) || (i < |s.slots| && s.slots[i].busy && s.slots[i].claim == Some(p) && !Executed(s.workers[i]))
  }

  predicate AllKept(s: State)
    requires Shaped(s)
  {
    forall p :: 0 <= p < |s.subs| ==> Kept(s, p)
  }

  lemma FrameKeepsKept(s: State, s': State, q: nat, p: nat)
    requires Inv(s) && Shaped(s') && q < |s.subs| && p < |s.subs| && q != p && Kept(s, p)
    requires s'.log == s.log && |s'.slots| == |s.slots| && |s'.subs| == |s.subs| && s'.subs[p] == s.subs[p]
    requires forall i :: 0 <= i < |s.slots| ==> WorkerFrame(s, s', q, i)
    ensures Kept(s', p)
  {
    if s.subs[p].Returned? && s.subs[p].placed.Some? && !Recorded(s, p) {
      assert WorkerFrame(s, s', q, s.subs[p].placed.value);
    }
  }

  lemma SelfKeeps(s: State, p: nat)
    requires Inv(s) && Enabled(s, SubStep(p)) && Shaped(Next(s, SubStep(p))) && |Next(s, SubStep(p)).subs| == |s.subs|
    ensures Kept(Next(s, SubStep(p)), p)
  {
    assert SubOk(s, p);
  }

  lemma SubKeeps(s: State, q: nat, p: nat)
    requires Inv(s) && Enabled(s, SubStep(q)) && !Harms(s, SubStep(q)) && p < |s.subs| && Kept(s, p)
    requires Shaped(Next(s, SubStep(q))) && |Next(s, SubStep(q)).subs| == |s.subs|
    ensures Kept(Next(s, SubStep(q)), p)
  {
    var s' := Next(s, SubStep(q));
    if q == p {
      SelfKeeps(s, p);
    } else {
      forall i | 0 <= i < |s.slots| ensures WorkerFrame(s, s', q, i) {
        SubFramesWorker(s, q, i);
      }
      assert s'.log == s.log && s'.subs[p] == s.subs[p];
      FrameKeepsKept(s, s', q, p);
    }
  }

  lemma WorkKeeps(s: State, j: nat, p: nat)
    requires Inv(s) && Enabled(s, WorkStep(j)) && p < |s.subs| && Kept(s, p)
    requires Shaped(StepWork(s, j)) && |StepWork(s, j).subs| == |s.subs|
    ensures Kept(StepWork(s, j), p)
  {
    var s' := StepWork(s, j);
    WorkFrames(s, j);
    assert s.log <= s'.log;
    if Recorded(s, p) {
      var k :| 0 <= k < |s.log| && s.log[k].claim == Some(p);
      assert s'.log[k] == s.log[k];
    } else if s.workers[j].Execute? && s.slots[j].claim == Some(p) {
      assert s'.log[|s.log|].claim == Some(p);
    }
  }

  lemma NextKept(s: State, a: Action)
    requires Inv(s) && AllKept(s) && Enabled(s, a) && !Harms(s, a)
    ensures Shaped(Next(s, a)) && AllKept(Next(s, a))
  {
    NextShaped(s, a);
    forall p | 0 <= p < |s.subs| ensures Kept(Next(s, a), p) {
      match a
      case SubStep(q) => SubKeeps(s, q, p);
      case WorkStep(j) => WorkKeeps(s, j, p);
    }
  }

  lemma {:induction false} RunKept(s: State, acts: seq<Action>)
    requires Inv(s) && AllKept(s) && Harmless(s, acts)
    ensures Shaped(Final(s, acts)) && AllKept(Final(s, acts))
    decreases |acts|
  {
    if acts != [] {
      NextInv(s, acts[0]);
      NextKept(s, acts[0]);
      RunKept(Next(s, acts[0]), acts[1..]);
    }
  }

  /** In every run without a harmful signal a job that was placed has run or still sits in its slot, claimed. */
  lemma NothingLost(min: nat, max: nat, jobs: seq<Job>, acts: seq<Action>, p: nat)
    requires min <= max && Harmless(Init(min, max, jobs), acts)
    requires var s := Final(Init(min, max, jobs), acts);
      p < |s.subs| && s.subs[p].Returned? && s.subs[p].placed.Some?
    ensures var s := Final(Init(min, max, jobs), acts);
      var i := s.subs[p].placed.value;
      Recorded(s, p) || (Shaped(s) && i < |s.slots| && HandedOver(s, i) && s.slots[i].claim == Some(p))
  {
    var s := Final(Init(min, max, jobs), acts);
    InitInv(min, max, jobs);
    RunInv(Init(min, max, jobs), acts);
    RunKept(Init(min, max, jobs), acts);
    assert Kept(s, p);
    var i := s.subs[p].placed.value;
    if i < |s.slots| {
      assert CellOk(s, i);
    }
  }

  /** A submission returns a slot only by giving that slot's signal, and none only after its stray one. */
  lemma PlacedBySignal(s: State, a: Action, p: nat)
    requires Enabled(s, a) && p < |s.subs| == |Next(s, a).subs|
    requires !s.subs[p].Returned? && Next(s, a).subs[p].Returned?
    ensures a == SubStep(p)
    ensures match Next(s, a).subs[p].placed
      case Some(i) => s.subs[p] == SignalSlot(i) && Next(s, a).workers == SignalWorker(s, i).workers
      case None => s.subs[p].SignalFailed? && Next(s, a).workers == SignalWorker(s, s.subs[p].i).workers
  {
  }

  /** Every live slot has its worker, or a submitter that is about to start it. */
  predicate Staffed(s: State)
    requires Shaped(s)
  {
    forall i :: 0 <= i < s.cur && s.workers[i].Absent? ==> exists p :: 0 <= p < |s.subs| && s.subs[p] == AddCreate(i)
  }

  lemma NextStaffed(s: State, a: Action)
    requires Shaped(s) && Enabled(s, a) && Staffed(s) && Shaped(Next(s, a)) && |Next(s, a).subs| == |s.subs|
    requires a.SubStep? && s.subs[a.p].AddCount? ==> s.subs[a.p].n == s.cur
    ensures Staffed(Next(s, a))
  {
    var s' := Next(s, a);
    forall i | 0 <= i < s'.cur && s'.workers[i].Absent?
      ensures exists p :: 0 <= p < |s'.subs| && s'.subs[p] == AddCreate(i)
    {
      if i < s.cur {
        assert s.workers[i].Absent?;
        var p :| 0 <= p < |s.subs| && s.subs[p] == AddCreate(i);
        assert s'.subs[p] == AddCreate(i);
      } else {
        assert s'.subs[a.p] == AddCreate(i);
      }
    }
  }

  lemma {:induction false} RunStaffed(s: State, acts: seq<Action>)
    requires Inv(s) && Staffed(s) && Harmless(s, acts)
    ensures Shaped(Final(s, acts)) && Staffed(Final(s, acts))
    decreases |acts|
  {
    if acts != [] {
      NextShaped(s, acts[0]);
      assert acts[0].SubStep? ==> SubOk(s, acts[0].p);
      NextStaffed(s, acts[0]);
      NextInv(s, acts[0]);
      RunStaffed(Next(s, acts[0]), acts[1..]);
    }
  }

  /** In every run without a harmful signal each live slot has a worker or is about to get it. */
  lemma EverySlotStaffed(min: nat, max: nat, jobs: seq<Job>, acts: seq<Action>)
    requires min <= max && Harmless(Init(min, max, jobs), acts)
    ensures var s := Final(Init(min, max, jobs), acts); Shaped(s) && Staffed(s)
  {
    InitInv(min, max, jobs);
    RunStaffed(Init(min, max, jobs), acts);
  }

  // Lost signals: a signal given while the worker is not yet waiting is gone.

  /** The job in slot `i` was handed over, but its worker does not know. */
  predicate Forgotten(s: State, i: nat) {
    Shaped(s) && i < |s.slots| && HandedOver(s, i) && !Awake(s.workers[i])
  }

  /** A failed submission signals slot `i`. */
  predicate Strays(s: State, a: Action, i: nat) {
    Enabled(s, a) && a.SubStep? && s.subs[a.p] == SignalFailed(i)
  }

  /** No failed submission signals slot `i` during the run. */
  predicate Spares(s: State, acts: seq<Action>, i: nat)
    requires Runs(s, acts)
    decreases |acts|
  {
    acts == [] || (!Strays(s, acts[0], i) && Spares(Next(s, acts[0]), acts[1..], i))
  }

  /** A signal is forgotten exactly when it finds the worker not waiting. */
  lemma SignalForgotten(s: State, p: nat)
    requires Inv(s) && Enabled(s, SubStep(p)) && s.subs[p].SignalSlot?
    ensures var i, t := s.subs[p].i, Next(s, SubStep(p));
      && (Forgotten(t, i) <==> !s.workers[i].Waiting?)
      && i < |t.slots| && t.slots[i].claim == Some(p)
  {
    assert SubOk(s, p);
    NextShaped(s, SubStep(p));
  }

  lemma ForgottenSub(s: State, p: nat, i: nat)
    requires Inv(s) && Enabled(s, SubStep(p)) && !Strays(s, SubStep(p), i) && Forgotten(s, i)
    ensures Forgotten(Next(s, SubStep(p)), i) && Next(s, SubStep(p)).slots[i].claim == s.slots[i].claim
  {
    assert SubOk(s, p) && CellOk(s, i);
    NextShaped(s, SubStep(p));
  }

  lemma ForgottenWork(s: State, j: nat, i: nat)
    requires Inv(s) && Enabled(s, WorkStep(j)) && Forgotten(s, i)
    ensures Forgotten(StepWork(s, j), i) && StepWork(s, j).slots[i].claim == s.slots[i].claim
  {
    assert CellOk(s, j) && WorkerOk(s, j);
    WorkFrames(s, j);
  }

  lemma ForgottenStep(s: State, a: Action, i: nat)
    requires Inv(s) && Enabled(s, a) && !Strays(s, a, i) && Forgotten(s, i)
    ensures Forgotten(Next(s, a), i) && Next(s, a).slots[i].claim == s.slots[i].claim
  {
    match a
    case SubStep(p) => ForgottenSub(s, p, i);
    case WorkStep(j) => ForgottenWork(s, j, i);
  }

  lemma ForgottenUnrecorded(s: State, i: nat)
    requires Inv(s) && Forgotten(s, i)
    ensures !Recorded(s, s.slots[i].claim.value)
  {
    forall k | 0 <= k < |s.log| ensures s.log[k].claim != s.slots[i].claim {
      assert EntryOk(s, s.log[k]);
    }
  }

  /** While no failed submission signals its slot, a forgotten job stays there and is not executed. */
  lemma {:induction false} ForgottenForever(s: State, acts: seq<Action>, i: nat)
    requires Inv(s) && Harmless(s, acts) && Spares(s, acts, i) && Forgotten(s, i)
    ensures var s' := Final(s, acts);
      Forgotten(s', i) && s'.slots[i].claim == s.slots[i].claim && !Recorded(s', s.slots[i].claim.value)
    decreases |acts|
  {
    if acts == [] {
      ForgottenUnrecorded(s, i);
    } else {
      ForgottenStep(s, acts[0], i);
      NextInv(s, acts[0]);
      ForgottenForever(Next(s, acts[0]), acts[1..], i);
    }
  }

  lemma {:induction false} AllGrowSpares(s: State, acts: seq<Action>, i: nat)
    requires Inv(s) && NoneFailed(s) && Runs(s, acts) && AllGrow(s, acts)
    ensures Spares(s, acts, i)
    decreases |acts|
  {
    if acts != [] {
      NextNoneFailed(s, acts[0]);
      NextInv(s, acts[0]);
      AllGrowSpares(Next(s, acts[0]), acts[1..], i);
    }
  }
}
