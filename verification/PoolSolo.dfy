/** One submission running by itself through the interleaved thread pool does what the one-step pool says. */
module PoolSolo {
  import opened Prelude
  import opened PoolSpec
  import opened PoolProtocol
  import opened PoolOwnership

  /** The pool the state stands for while nobody is inside; thread ids are not part of the step system. */
  function View(s: State): Pool {
    Pool(0, |s.slots|, s.cur,
         seq(|s.slots|, i requires 0 <= i < |s.slots| =>
           Slot(0, s.slots[i].busy, Job(s.slots[i].work, s.slots[i].desc))))
  }

  /** No lock is taken. */
  predicate Unlocked(s: State) {
    s.poolLock.None? && forall i :: 0 <= i < |s.slots| ==> s.slots[i].lock.None?
  }

  lemma ViewValid(s: State)
    requires Inv(s) && s.poolLock.None?
    ensures Valid(View(s))
  {
    forall i | s.cur <= i < |s.slots| ensures !View(s).slots[i].busy {
      assert CellOk(s, i);
      if s.slots[i].busy {
        assert SubOk(s, s.slots[i].claim.value);
      }
    }
  }

  /** A submission about to start, alone. */
  predicate Starts(s: State, p: nat) {
    && Shaped(s) && Unlocked(s) && Valid(View(s)) && p < |s.subs| && s.subs[p] == Scan(0)
  }

  /** The slot it will take if it takes a live one. */
  function Target(s: State): (r: nat)
    requires Valid(View(s))
    ensures r <= s.cur && (r < s.cur ==> !s.slots[r].busy)
    ensures forall i :: 0 <= i < r ==> s.slots[i].busy
  {
    var r := LowestIdle(View(s).slots, s.cur);
    assert forall i :: 0 <= i < |s.slots| ==> View(s).slots[i].busy == s.slots[i].busy;
    r
  }

  /** The program points on its way. */
  predicate OnPath(s: State, pc: SubPc)
    requires Valid(View(s))
  {
    var r := Target(s);
    match pc
    case Scan(i) => i <= r
    case LockSlot(i) => i <= r && i < s.cur
    case TestBusy(i) => i <= r && i < s.cur
    case UnlockBusy(i) => i < r
    case SetBusy(i) => i == r < s.cur
    case UnlockClaimed(i) => i == r < s.cur
    case StoreWork(i, grown) => i == r < |s.slots| && (grown <==> r == s.cur)
    case StoreJob(i, grown) => i == r < |s.slots| && (grown <==> r == s.cur)
    case SignalSlot(i) => i == r < |s.slots|
    case LockPool(i) => i == r == s.cur
    case AddCheck(i) => i == r == s.cur
    case AddBusy(n) => n == r == s.cur < |s.slots|
    case AddCount(n) => n == r == s.cur < |s.slots|
    case AddCreate(n) => n == r == s.cur < |s.slots|
    case AddIndex(n) => n == r == s.cur < |s.slots|
    case UnlockPool(i) => i == r == s.cur < |s.slots|
    case UnlockFailed(i) => i == r == s.cur == |s.slots|
    case SignalFailed(i) => i == r == s.cur == |s.slots|
    case Returned(placed) => placed == if r < |s.slots| then Some(r) else None
  }

  /** The cell of the target slot at a program point. */
  function CellAt(s: State, p: nat, pc: SubPc, c: Cell): Cell
    requires p < |s.jobs|
  {
    var job := s.jobs[p];
    match pc
    case SetBusy(_) => c.(lock := Some(Submitter(p)))
    case UnlockClaimed(_) => c.(busy := true, claim := Some(p), lock := Some(Submitter(p)))
    case AddCount(_) => c.(busy := true, claim := Some(p))
    case AddCreate(_) => c.(busy := true, claim := Some(p))
    case AddIndex(_) => c.(busy := true, claim := Some(p))
    case StoreWork(_, _) => c.(busy := true, claim := Some(p))
    case StoreJob(_, _) => c.(busy := true, claim := Some(p), work := job.work)
    case SignalSlot(_) => c.(busy := true, claim := Some(p), work := job.work, desc := job.desc)
    case UnlockPool(_) => c.(busy := true, claim := Some(p), work := job.work, desc := job.desc)
    case Returned(_) => c.(busy := true, claim := Some(p), work := job.work, desc := job.desc)
    case _ => c
  }

  predicate Counted(pc: SubPc) {
    pc.AddCreate? || pc.AddIndex? || pc.StoreWork? || pc.StoreJob? || pc.UnlockPool? || pc.SignalSlot? || pc.Returned?
  }

  /** The slots while submission `p`, alone since `s`, is at `pc`. */
  function SlotsAt(s: State, p: nat, pc: SubPc): seq<Cell>
    requires Starts(s, p) && OnPath(s, pc)
  {
    match pc
    case TestBusy(i) => s.slots[i := s.slots[i].(lock := Some(Submitter(p)))]
    case UnlockBusy(i) => s.slots[i := s.slots[i].(lock := Some(Submitter(p)))]
    case _ =>
      var r := Target(s);
      if r < |s.slots| then s.slots[r := CellAt(s, p, pc, s.slots[r])] else s.slots
  }

  function WorkersAt(s: State, p: nat, pc: SubPc): seq<WorkPc>
    requires Starts(s, p) && OnPath(s, pc)
  {
    var r := Target(s);
    if r == s.cur < |s.slots| && Counted(pc) && !pc.AddCreate? then s.workers[r := LockIdle]
    else if r < s.cur && pc.Returned? && s.workers[r].Waiting? then s.workers[r := Woken]
    else s.workers
  }

  /** The whole state at that point. */
  function At(s: State, p: nat, pc: SubPc): State
    requires Starts(s, p) && OnPath(s, pc)
  {
    s.(subs := s.subs[p := pc], slots := SlotsAt(s, p, pc), workers := WorkersAt(s, p, pc),
       cur := if Target(s) == s.cur < |s.slots| && Counted(pc) then s.cur + 1 else s.cur,
       poolLock := if LocksPool(pc) then Some(p) else None)
  }

  function StepsLeft(s: State, pc: SubPc): int {
    match pc
    case Scan(i) => 4 * (s.cur - i) + 20
    case LockSlot(i) => 4 * (s.cur - i) + 19
    case TestBusy(i) => 4 * (s.cur - i) + 18
    case UnlockBusy(i) => 4 * (s.cur - i) + 17
    case SetBusy(_) => 16
    case UnlockClaimed(_) => 15
    case LockPool(_) => 15
    case AddCheck(_) => 14
    case AddBusy(_) => 13
    case AddCount(_) => 12
    case AddCreate(_) => 11
    case AddIndex(_) => 10
    case StoreWork(_, _) => 9
    case StoreJob(_, _) => 8
    case UnlockPool(_) => 7
    case SignalSlot(_) => 6
    case UnlockFailed(_) => 5
    case SignalFailed(_) => 4
    case Returned(_) => 0
  }

  lemma ScanStep(s: State, p: nat, pc: SubPc) returns (pc': SubPc)
    requires Starts(s, p) && OnPath(s, pc) && (pc.Scan? || pc.LockSlot?)
    ensures Enabled(At(s, p, pc), SubStep(p)) && OnPath(s, pc')
    ensures Next(At(s, p, pc), SubStep(p)) == At(s, p, pc')
    ensures 0 <= StepsLeft(s, pc') < StepsLeft(s, pc)
  {
    var t := At(s, p, pc);
    var t' := Next(t, SubStep(p));
    pc' := t'.subs[p];
    assert t'.subs == s.subs[p := pc'];
    assert t'.slots == SlotsAt(s, p, pc');
    assert t'.workers == WorkersAt(s, p, pc');
  }

  lemma PassStep(s: State, p: nat, pc: SubPc) returns (pc': SubPc)
    requires Starts(s, p) && OnPath(s, pc) && (pc.TestBusy? || pc.UnlockBusy?)
    ensures Enabled(At(s, p, pc), SubStep(p)) && OnPath(s, pc')
    ensures Next(At(s, p, pc), SubStep(p)) == At(s, p, pc')
    ensures 0 <= StepsLeft(s, pc') < StepsLeft(s, pc)
  {
    var t := At(s, p, pc);
    var t' := Next(t, SubStep(p));
    pc' := t'.subs[p];
    assert t'.subs == s.subs[p := pc'];
    assert t'.slots == SlotsAt(s, p, pc');
    assert t'.workers == WorkersAt(s, p, pc');
  }

  lemma ClaimStep(s: State, p: nat, pc: SubPc) returns (pc': SubPc)
    requires Starts(s, p) && OnPath(s, pc) && (pc.SetBusy? || pc.UnlockClaimed?)
    ensures Enabled(At(s, p, pc), SubStep(p)) && OnPath(s, pc')
    ensures Next(At(s, p, pc), SubStep(p)) == At(s, p, pc')
    ensures 0 <= StepsLeft(s, pc') < StepsLeft(s, pc)
  {
    var t := At(s, p, pc);
    var t' := Next(t, SubStep(p));
    pc' := t'.subs[p];
    assert t'.subs == s.subs[p := pc'];
    assert t'.slots == SlotsAt(s, p, pc');
    assert t'.workers == WorkersAt(s, p, pc');
  }

  lemma FailStep(s: State, p: nat, pc: SubPc) returns (pc': SubPc)
    requires Starts(s, p) && OnPath(s, pc) && (pc.UnlockFailed? || pc.SignalFailed?)
    ensures Enabled(At(s, p, pc), SubStep(p)) && OnPath(s, pc')
    ensures Next(At(s, p, pc), SubStep(p)) == At(s, p, pc')
    ensures 0 <= StepsLeft(s, pc') < StepsLeft(s, pc)
  {
    var t := At(s, p, pc);
    var t' := Next(t, SubStep(p));
    pc' := t'.subs[p];
    assert t'.subs == s.subs[p := pc'];
    assert t'.slots == SlotsAt(s, p, pc');
    assert t'.workers == WorkersAt(s, p, pc');
  }

  lemma StoreStep(s: State, p: nat, pc: SubPc) returns (pc': SubPc)
    requires Starts(s, p) && OnPath(s, pc) && (pc.StoreWork? || pc.StoreJob?)
    ensures Enabled(At(s, p, pc), SubStep(p)) && OnPath(s, pc')
    ensures Next(At(s, p, pc), SubStep(p)) == At(s, p, pc')
    ensures 0 <= StepsLeft(s, pc') < StepsLeft(s, pc)
  {
    var t := At(s, p, pc);
    var t' := Next(t, SubStep(p));
    pc' := t'.subs[p];
    assert t'.subs == s.subs[p := pc'];
    assert t'.slots == SlotsAt(s, p, pc');
    assert t'.workers == WorkersAt(s, p, pc');
  }

  lemma SignalStep(s: State, p: nat, pc: SubPc) returns (pc': SubPc)
    requires Starts(s, p) && OnPath(s, pc) && pc.SignalSlot?
    ensures Enabled(At(s, p, pc), SubStep(p)) && OnPath(s, pc')
    ensures Next(At(s, p, pc), SubStep(p)) == At(s, p, pc')
    ensures 0 <= StepsLeft(s, pc') < StepsLeft(s, pc)
  {
    var t := At(s, p, pc);
    var t' := Next(t, SubStep(p));
    pc' := t'.subs[p];
    assert t'.subs == s.subs[p := pc'];
    assert t'.slots == SlotsAt(s, p, pc');
    assert t'.workers == WorkersAt(s, p, pc');
  }

  lemma GrowStep(s: State, p: nat, pc: SubPc) returns (pc': SubPc)
    requires Starts(s, p) && OnPath(s, pc) && (pc.LockPool? || pc.AddCheck? || pc.AddBusy? || pc.AddCount?)
    ensures Enabled(At(s, p, pc), SubStep(p)) && OnPath(s, pc')
    ensures Next(At(s, p, pc), SubStep(p)) == At(s, p, pc')
    ensures 0 <= StepsLeft(s, pc') < StepsLeft(s, pc)
  {
    var t := At(s, p, pc);
    var t' := Next(t, SubStep(p));
    pc' := t'.subs[p];
    assert t'.subs == s.subs[p := pc'];
    assert t'.slots == SlotsAt(s, p, pc');
    assert t'.workers == WorkersAt(s, p, pc');
  }

  lemma GrownStep(s: State, p: nat, pc: SubPc) returns (pc': SubPc)
    requires Starts(s, p) && OnPath(s, pc) && (pc.AddCreate? || pc.AddIndex? || pc.UnlockPool?)
    ensures Enabled(At(s, p, pc), SubStep(p)) && OnPath(s, pc')
    ensures Next(At(s, p, pc), SubStep(p)) == At(s, p, pc')
    ensures 0 <= StepsLeft(s, pc') < StepsLeft(s, pc)
  {
    var t := At(s, p, pc);
    var t' := Next(t, SubStep(p));
    pc' := t'.subs[p];
    assert t'.subs == s.subs[p := pc'];
    assert t'.slots == SlotsAt(s, p, pc');
    assert t'.workers == WorkersAt(s, p, pc');
  }

  lemma SoloStep(s: State, p: nat, pc: SubPc) returns (pc': SubPc)
    requires Starts(s, p) && OnPath(s, pc) && !pc.Returned?
    ensures Enabled(At(s, p, pc), SubStep(p)) && OnPath(s, pc')
    ensures Next(At(s, p, pc), SubStep(p)) == At(s, p, pc')
    ensures 0 <= StepsLeft(s, pc') < StepsLeft(s, pc)
  {
    if pc.Scan? || pc.LockSlot? {
      pc' := ScanStep(s, p, pc);
    } else if pc.TestBusy? || pc.UnlockBusy? {
      pc' := PassStep(s, p, pc);
    } else if pc.SetBusy? || pc.UnlockClaimed? {
      pc' := ClaimStep(s, p, pc);
    } else if pc.UnlockFailed? || pc.SignalFailed? {
      pc' := FailStep(s, p, pc);
    } else if pc.StoreWork? || pc.StoreJob? {
      pc' := StoreStep(s, p, pc);
    } else if pc.SignalSlot? {
      pc' := SignalStep(s, p, pc);
    } else if pc.AddCreate? || pc.AddIndex? || pc.UnlockPool? {
      pc' := GrownStep(s, p, pc);
    } else {
      pc' := GrowStep(s, p, pc);
    }
  }

  /** Steps of submitter `p` alone bring its call to its return. */
  predicate Finishes(s: State, p: nat, acts: seq<Action>) {
    && Runs(s, acts) && (forall k :: 0 <= k < |acts| ==> acts[k] == SubStep(p))
    && p < |Final(s, acts).subs| && Final(s, acts).subs[p].Returned?
  }

  function Outcome(s: State): SubPc
    requires Valid(View(s))
  {
    if Target(s) < |s.slots| then Returned(Some(Target(s))) else Returned(None)
  }

  lemma {:induction false} SoloRuns(s: State, p: nat, pc: SubPc, acts: seq<Action>)
    requires Starts(s, p) && OnPath(s, pc) && Finishes(At(s, p, pc), p, acts)
    ensures Final(At(s, p, pc), acts) == At(s, p, Outcome(s))
    decreases |acts|
  {
    var t := At(s, p, pc);
    assert t.subs[p] == pc;
    if acts != [] {
      assert acts[0] == SubStep(p);
      var pc' := SoloStep(s, p, pc);
      SoloRuns(s, p, pc', acts[1..]);
    }
  }

  lemma {:induction false} SoloFinishes(s: State, p: nat, pc: SubPc) returns (acts: seq<Action>)
    requires Starts(s, p) && OnPath(s, pc)
    ensures Finishes(At(s, p, pc), p, acts)
    decreases StepsLeft(s, pc)
  {
    if pc.Returned? {
      acts := [];
    } else {
      var pc' := SoloStep(s, p, pc);
      var more := SoloFinishes(s, p, pc');
      acts := [SubStep(p)] + more;
      assert acts[1..] == more;
    }
  }

  /** What a submission that ran alone leaves: the table of the one-step pool, its slot or none, and its signal. */
  predicate Submitted(s: State, s': State, p: nat)
    requires Valid(View(s)) && p < |s.subs| == |s.jobs| && |s.workers| == |s.slots|
  {
    && View(s') == Submit(View(s), s.jobs[p], 0)
    && s'.jobs == s.jobs && s'.log == s.log && Unlocked(s') && |s'.workers| == |s.workers|
    && match Place(View(s))
       case Claimed(i) =>
         && s'.subs == s.subs[p := Returned(Some(i))] && s'.slots[i].claim == Some(p)
         && s'.workers == if s.workers[i].Waiting? then s.workers[i := Woken] else s.workers
       case Grown(i) =>
         && s'.subs == s.subs[p := Returned(Some(i))] && s'.slots[i].claim == Some(p)
         && s'.workers == s.workers[i := LockIdle]
       case Dropped => s'.subs == s.subs[p := Returned(None)] && s'.workers == s.workers
  }

  lemma OutcomeSubmitted(s: State, p: nat)
    requires Starts(s, p)
    ensures OnPath(s, Outcome(s)) && Submitted(s, At(s, p, Outcome(s)), p)
  {
    var s', v := At(s, p, Outcome(s)), View(s);
    var w := Submit(v, s.jobs[p], 0);
    assert forall i :: 0 <= i < |s.slots| ==> View(s').slots[i] == w.slots[i];
    assert View(s').slots == w.slots;
  }

  /**
   A submission that runs alone while no lock is taken can finish, and however
   it does, it has done what the one-step pool does: the lowest idle slot, a new
   one when all are busy, or none when there may be no more.
   */
  lemma SubmitsAlone(s: State, p: nat)
    requires Inv(s) && Unlocked(s) && p < |s.subs| && s.subs[p] == Scan(0)
    ensures Valid(View(s))
    ensures exists acts :: Finishes(s, p, acts)
    ensures forall acts :: Finishes(s, p, acts) ==> Submitted(s, Final(s, acts), p)
  {
    ViewValid(s);
    assert s == At(s, p, Scan(0)) by {
      assert s.subs[p := Scan(0)] == s.subs;
      assert SlotsAt(s, p, Scan(0)) == s.slots;
    }
    var acts := SoloFinishes(s, p, Scan(0));
    OutcomeSubmitted(s, p);
    forall acts | Finishes(s, p, acts) ensures Submitted(s, Final(s, acts), p) {
      SoloRuns(s, p, Scan(0), acts);
    }
  }
}
