/** Who owns a slot of the thread pool: each job runs at most once, from the pair its submitter stored. */
module PoolOwnership {
  import opened Prelude
  import opened PoolSpec
  import opened PoolProtocol

  /** The slot a submitter has claimed and not yet signalled. */
  function Claims(pc: SubPc): Option<nat> {
    match pc
    case UnlockClaimed(i) => Some(i)
    case StoreWork(i, _) => Some(i)
    case StoreJob(i, _) => Some(i)
    case SignalSlot(i) => Some(i)
    case AddCount(n) => Some(n)
    case AddCreate(n) => Some(n)
    case AddIndex(n) => Some(n)
    case UnlockPool(i) => Some(i)
    case _ => None
  }

  /** The slot a submitter has claimed, now or in the past. */
  function SlotOf(pc: SubPc): Option<nat> {
    if pc.Returned? then pc.placed else Claims(pc)
  }

  function LocksSlot(pc: SubPc): Option<nat> {
    match pc
    case TestBusy(i) => Some(i)
    case SetBusy(i) => Some(i)
    case UnlockClaimed(i) => Some(i)
    case UnlockBusy(i) => Some(i)
    case _ => None
  }

  predicate LocksPool(pc: SubPc) {
    match pc
    case AddCheck(_) => true
    case AddBusy(_) => true
    case AddCount(_) => true
    case AddCreate(_) => true
    case AddIndex(_) => true
    case StoreWork(_, grown) => grown
    case StoreJob(_, grown) => grown
    case UnlockPool(_) => true
    case UnlockFailed(_) => true
    case _ => false
  }

  /** The worker has been signalled and has not yet given its slot back. */
  predicate Awake(w: WorkPc) {
    w.Woken? || w.UnlockWoken? || w.ReadWork? || w.ReadJob? || w.Execute? || w.LockDone? || w.SetIdle?
  }

  predicate Executed(w: WorkPc) {
    w.LockDone? || w.SetIdle?
  }

  predicate LocksOwn(w: WorkPc) {
    w.BeginWait? || w.UnlockWoken? || w.SetIdle? || w.UnlockIdle?
  }

  /** Submission `p` claimed slot `i`, stored its pair there and gave its signal. */
  predicate HandedOver(s: State, i: nat)
    requires Shaped(s) && i < |s.slots|
  {
    var c := s.slots[i];
    && c.busy && c.claim.Some? && c.claim.value < |s.subs|
    && s.subs[c.claim.value] == Returned(Some(i))
    && Job(c.work, c.desc) == s.jobs[c.claim.value]
  }

  /** A worker that is awake holds a job handed over to it, and has read nothing else. */
  predicate WorkerOk(s: State, i: nat)
    requires Shaped(s) && i < |s.slots|
  {
    Awake(s.workers[i]) ==>
      && HandedOver(s, i)
      && var job := s.jobs[s.slots[i].claim.value];
         match s.workers[i]
         case ReadJob(work) => work == job.work
         case Execute(work, desc) => Job(work, desc) == job
         case _ => true
  }

  predicate Good(s: State) {
    Shaped(s) && forall i :: 0 <= i < |s.slots| ==> WorkerOk(s, i)
  }

  predicate CellOk(s: State, i: nat)
    requires Shaped(s) && i < |s.slots|
  {
    var c := s.slots[i];
    && (c.claim.Some? ==> c.claim.value < |s.subs| && SlotOf(s.subs[c.claim.value]) == Some(i))
    && (c.busy ==> c.claim.Some? && (s.subs[c.claim.value].Returned? ==> HandedOver(s, i)))
    && (c.lock == Some(Worker) <==> LocksOwn(s.workers[i]))
    && (c.lock.Some? && c.lock.value.Submitter? ==>
          c.lock.value.p < |s.subs| && LocksSlot(s.subs[c.lock.value.p]) == Some(i))
    && (i >= s.cur ==> s.workers[i].Absent? && c.lock.None?)
    && (i >= s.cur && c.busy ==> s.subs[c.claim.value] == AddCount(s.cur))
  }

  predicate SubOk(s: State, p: nat)
    requires Shaped(s) && p < |s.subs|
  {
    var pc := s.subs[p];
    && InTable(s, pc)
    && (LocksPool(pc) <==> s.poolLock == Some(p))
    && (LocksSlot(pc).Some? ==>
          LocksSlot(pc).value < s.cur && s.slots[LocksSlot(pc).value].lock == Some(Submitter(p)))
    && (Claims(pc).Some? ==>
          && var i := Claims(pc).value;
          && i < |s.slots| && s.slots[i].busy && s.slots[i].claim == Some(p) && !Awake(s.workers[i])
          && (i < s.cur || pc == AddCount(s.cur)))
    && match pc
       case Scan(i) => i <= s.cur
       case LockSlot(i) => i < s.cur
       case SetBusy(i) => !s.slots[i].busy
       case AddBusy(n) => n == s.cur < |s.slots|
       case AddCount(n) => n == s.cur < |s.slots|
       case AddCreate(n) => n + 1 == s.cur && s.workers[n].Absent?
       case AddIndex(n) => n + 1 == s.cur
       case StoreJob(i, _) => s.slots[i].work == s.jobs[p].work
       case SignalSlot(i) => Job(s.slots[i].work, s.slots[i].desc) == s.jobs[p]
       case UnlockPool(i) => Job(s.slots[i].work, s.slots[i].desc) == s.jobs[p]
       case _ => true
  }

  /** Every execution so far ran the pair of the submission that owned the slot. */
  predicate EntryOk(s: State, e: Exec)
    requires Shaped(s)
  {
    && e.slot < |s.slots| && e.claim.Some? && e.claim.value < |s.subs|
    && s.subs[e.claim.value] == Returned(Some(e.slot))
    && e.job == s.jobs[e.claim.value]
    && (s.slots[e.slot].busy && s.slots[e.slot].claim == e.claim ==> Executed(s.workers[e.slot]))
  }

  predicate LogOk(s: State)
    requires Shaped(s)
  {
    && (forall k :: 0 <= k < |s.log| ==> EntryOk(s, s.log[k]))
    && (forall k, l :: 0 <= k < l < |s.log| ==> s.log[k].claim != s.log[l].claim)
  }

  predicate Inv(s: State) {
    && Good(s)
    && (forall i :: 0 <= i < |s.slots| ==> CellOk(s, i))
    && (forall p :: 0 <= p < |s.subs| ==> SubOk(s, p))
    && LogOk(s)
  }

  /** The slot is taken, and the submission that took it has given its signal. */
  predicate Signalled(s: State, i: nat)
    requires Shaped(s) && i < |s.slots|
  {
    var c := s.slots[i];
    c.busy && c.claim.Some? && c.claim.value < |s.subs| && s.subs[c.claim.value] == Returned(Some(i))
  }

  /** A failed submission signals a worker that waits in an idle slot, or in one whose submitter is not there yet. */
  predicate Harms(s: State, a: Action) {
    && Enabled(s, a) && a.SubStep? && s.subs[a.p].SignalFailed?
    && var i := s.subs[a.p].i; i < |s.slots| && s.workers[i].Waiting? && !Signalled(s, i)
  }

  lemma InitInv(min: nat, max: nat, jobs: seq<Job>)
    requires min <= max
    ensures Inv(Init(min, max, jobs))
  {
  }

  lemma NextShaped(s: State, a: Action)
    requires Inv(s) && Enabled(s, a)
    ensures Shaped(Next(s, a)) && |Next(s, a).slots| == |s.slots| && |Next(s, a).subs| == |s.subs|
    ensures Next(s, a).jobs == s.jobs && s.cur <= Next(s, a).cur
  {
    if a.SubStep? {
      assert SubOk(s, a.p);
    }
  }

  /** What a step of another submitter leaves to submitter `q`: the slot it claimed and the locks it holds. */
  predicate SubFrame(s: State, s': State, q: nat)
    requires Shaped(s) && Shaped(s') && q < |s.subs|
  {
    && s'.cur == s.cur && |s'.slots| == |s.slots| && |s'.subs| == |s.subs| && s'.jobs == s.jobs
    && s'.subs[q] == s.subs[q]
    && (s'.poolLock == Some(q) <==> s.poolLock == Some(q))
    && (forall k :: 0 <= k < |s.slots| && s.workers[k].Absent? ==> s'.workers[k].Absent?)
    && (Claims(s.subs[q]).Some? && Claims(s.subs[q]).value < |s.slots| ==>
          var k := Claims(s.subs[q]).value;
          s'.slots[k] == s.slots[k].(lock := s'.slots[k].lock) && (Awake(s'.workers[k]) ==> Awake(s.workers[k])))
    && (LocksSlot(s.subs[q]).Some? && LocksSlot(s.subs[q]).value < |s.slots| ==>
          var k := LocksSlot(s.subs[q]).value;
          s'.slots[k].lock == s.slots[k].lock && s'.slots[k].busy == s.slots[k].busy)
  }

  lemma ScanFrames(s: State, p: nat, q: nat)
    requires Inv(s) && Enabled(s, SubStep(p)) && !Growing(s.subs[p]) && !Handing(s.subs[p])
    requires q < |s.subs| && q != p
    ensures Shaped(StepScan(s, p)) && SubFrame(s, StepScan(s, p), q)
  {
    assert SubOk(s, p) && SubOk(s, q);
  }

  lemma HandFrames(s: State, p: nat, q: nat)
    requires Inv(s) && Enabled(s, SubStep(p)) && Handing(s.subs[p]) && !Harms(s, SubStep(p))
    requires q < |s.subs| && q != p
    ensures Shaped(StepHand(s, p)) && SubFrame(s, StepHand(s, p), q)
  {
    assert SubOk(s, p) && SubOk(s, q);
  }

  lemma FrameKeepsSub(s: State, s': State, q: nat)
    requires Inv(s) && Shaped(s') && q < |s.subs| && SubFrame(s, s', q)
    ensures SubOk(s', q)
  {
    assert SubOk(s, q);
  }

  lemma ScanKeepsSelf(s: State, p: nat)
    requires Inv(s) && Enabled(s, SubStep(p)) && !Growing(s.subs[p]) && !Handing(s.subs[p]) && !Harms(s, SubStep(p))
    requires Shaped(StepScan(s, p)) && |StepScan(s, p).subs| == |s.subs|
    ensures SubOk(StepScan(s, p), p)
  {
    assert SubOk(s, p);
    var s' := StepScan(s, p);
    if SlotOf(s'.subs[p]).Some? && SlotOf(s'.subs[p]).value < |s.slots| {
      assert CellOk(s, SlotOf(s'.subs[p]).value);
      assert WorkerOk(s, SlotOf(s'.subs[p]).value);
    }
  }

  lemma ScanKeepsCell(s: State, p: nat, i: nat)
    requires Inv(s) && Enabled(s, SubStep(p)) && !Growing(s.subs[p]) && !Handing(s.subs[p]) && !Harms(s, SubStep(p))
    requires Shaped(StepScan(s, p)) && i < |s.slots| == |StepScan(s, p).slots|
    ensures CellOk(StepScan(s, p), i)
  {
    assert SubOk(s, p) && CellOk(s, i);
  }

  lemma HandKeepsSelf(s: State, p: nat)
    requires Inv(s) && Enabled(s, SubStep(p)) && Handing(s.subs[p]) && !Harms(s, SubStep(p))
    requires Shaped(StepHand(s, p)) && |StepHand(s, p).subs| == |s.subs|
    ensures SubOk(StepHand(s, p), p)
  {
    assert SubOk(s, p);
    var s' := StepHand(s, p);
    if SlotOf(s'.subs[p]).Some? && SlotOf(s'.subs[p]).value < |s.slots| {
      assert CellOk(s, SlotOf(s'.subs[p]).value);
      assert WorkerOk(s, SlotOf(s'.subs[p]).value);
    }
  }

  lemma HandKeepsCell(s: State, p: nat, i: nat)
    requires Inv(s) && Enabled(s, SubStep(p)) && Handing(s.subs[p]) && !Harms(s, SubStep(p))
    requires Shaped(StepHand(s, p)) && i < |s.slots| == |StepHand(s, p).slots|
    ensures CellOk(StepHand(s, p), i)
  {
    assert SubOk(s, p) && CellOk(s, i);
  }

  lemma GrowKeepsSelf(s: State, p: nat)
    requires Inv(s) && Enabled(s, SubStep(p)) && Growing(s.subs[p]) && !Harms(s, SubStep(p))
    requires Shaped(StepGrow(s, p)) && |StepGrow(s, p).subs| == |s.subs|
    ensures SubOk(StepGrow(s, p), p)
  {
    assert SubOk(s, p);
    var s' := StepGrow(s, p);
    if SlotOf(s'.subs[p]).Some? && SlotOf(s'.subs[p]).value < |s.slots| {
      assert CellOk(s, SlotOf(s'.subs[p]).value);
      assert WorkerOk(s, SlotOf(s'.subs[p]).value);
    }
  }

  lemma GrowKeepsSub(s: State, p: nat, q: nat)
    requires Inv(s) && Enabled(s, SubStep(p)) && Growing(s.subs[p]) && !Harms(s, SubStep(p))
    requires Shaped(StepGrow(s, p)) && |StepGrow(s, p).subs| == |s.subs| && q < |s.subs| && q != p
    ensures SubOk(StepGrow(s, p), q)
  {
    assert SubOk(s, p) && SubOk(s, q);
  }

  lemma GrowKeepsCell(s: State, p: nat, i: nat)
    requires Inv(s) && Enabled(s, SubStep(p)) && Growing(s.subs[p]) && !Harms(s, SubStep(p))
    requires Shaped(StepGrow(s, p)) && i < |s.slots| == |StepGrow(s, p).slots|
    ensures CellOk(StepGrow(s, p), i)
  {
    assert SubOk(s, p) && CellOk(s, i);
  }

  /** What a submitter's step leaves to worker `i`: a slot handed over, and its own place unless it was waiting. */
  predicate WorkerFrame(s: State, s': State, p: nat, i: nat)
    requires Shaped(s) && Shaped(s') && p < |s.subs| && i < |s.slots|
  {
    && |s'.slots| == |s.slots| && |s'.subs| == |s.subs| && s'.jobs == s.jobs && s'.log == s.log
    && !s.subs[p].Returned? && (forall q :: 0 <= q < |s.subs| && q != p ==> s'.subs[q] == s.subs[q])
    && (s.slots[i].busy ==> s'.slots[i].busy && s'.slots[i].claim == s.slots[i].claim)
    && (s.slots[i].busy && s.slots[i].claim != Some(p) ==> s'.slots[i] == s.slots[i].(lock := s'.slots[i].lock))
    && (!s.slots[i].busy && s'.slots[i].busy ==> s'.slots[i].claim == Some(p))
    && (Awake(s.workers[i]) ==> s'.workers[i] == s.workers[i])
    && (!Awake(s.workers[i]) && Awake(s'.workers[i]) ==> s'.workers[i].Woken? && HandedOver(s', i))
  }

  lemma ScanFramesWorker(s: State, p: nat, i: nat)
    requires Inv(s) && Enabled(s, SubStep(p)) && !Growing(s.subs[p]) && !Handing(s.subs[p]) && i < |s.slots|
    ensures Shaped(StepScan(s, p)) && WorkerFrame(s, StepScan(s, p), p, i)
  {
    assert SubOk(s, p) && CellOk(s, i);
  }

  lemma HandFramesWorker(s: State, p: nat, i: nat)
    requires Inv(s) && Enabled(s, SubStep(p)) && Handing(s.subs[p]) && !Harms(s, SubStep(p)) && i < |s.slots|
    ensures Shaped(StepHand(s, p)) && WorkerFrame(s, StepHand(s, p), p, i)
  {
    assert SubOk(s, p) && CellOk(s, i);
  }

  lemma GrowFramesWorker(s: State, p: nat, i: nat)
    requires Inv(s) && Enabled(s, SubStep(p)) && Growing(s.subs[p]) && i < |s.slots|
    ensures Shaped(StepGrow(s, p)) && WorkerFrame(s, StepGrow(s, p), p, i)
  {
    assert SubOk(s, p) && CellOk(s, i);
    if s.slots[i].claim.Some? {
      assert SubOk(s, s.slots[i].claim.value);
    }
  }

  lemma FrameKeepsWorker(s: State, s': State, p: nat, i: nat)
    requires Inv(s) && Shaped(s') && p < |s.subs| && i < |s.slots| && WorkerFrame(s, s', p, i)
    ensures WorkerOk(s', i)
  {
    assert CellOk(s, i) && WorkerOk(s, i);
  }

  lemma FrameKeepsLog(s: State, s': State, p: nat)
    requires Inv(s) && Shaped(s') && p < |s.subs|
    requires forall i :: 0 <= i < |s.slots| ==> WorkerFrame(s, s', p, i)
    requires s'.log == s.log && |s'.slots| == |s.slots| && |s'.subs| == |s.subs| && s'.jobs == s.jobs
    ensures LogOk(s')
  {
    forall k | 0 <= k < |s'.log| ensures EntryOk(s', s'.log[k]) {
      assert EntryOk(s, s.log[k]);
      assert WorkerFrame(s, s', p, s.log[k].slot);
    }
  }

  lemma SubFramesWorker(s: State, p: nat, i: nat)
    requires Inv(s) && Enabled(s, SubStep(p)) && !Harms(s, SubStep(p)) && i < |s.slots|
    ensures Shaped(Next(s, SubStep(p))) && WorkerFrame(s, Next(s, SubStep(p)), p, i)
    ensures Next(s, SubStep(p)).log == s.log
  {
    if Growing(s.subs[p]) {
      GrowFramesWorker(s, p, i);
    } else if Handing(s.subs[p]) {
      HandFramesWorker(s, p, i);
    } else {
      ScanFramesWorker(s, p, i);
    }
  }

  /** What a worker's step leaves alone: everything of the submitters, and a slot that is not its own to release. */
  predicate WorkFrame(s: State, s': State, i: nat)
    requires Shaped(s) && Shaped(s') && i < |s.slots|
  {
    && s'.cur == s.cur && s'.subs == s.subs && s'.jobs == s.jobs && s'.poolLock == s.poolLock
    && |s'.slots| == |s.slots|
    && (forall j :: 0 <= j < |s.slots| && j != i ==> s'.slots[j] == s.slots[j] && s'.workers[j] == s.workers[j])
    && s'.slots[i].work == s.slots[i].work && s'.slots[i].desc == s.slots[i].desc
    && s'.slots[i].claim == s.slots[i].claim
    && (s'.slots[i].busy == s.slots[i].busy || (Awake(s.workers[i]) && !s'.slots[i].busy))
    && (s.slots[i].lock.Some? && s.slots[i].lock.value.Submitter? ==> s'.slots[i].lock == s.slots[i].lock)
    && (Awake(s'.workers[i]) ==> Awake(s.workers[i]))
    && !s.workers[i].Absent?
  }

  lemma WorkFrames(s: State, i: nat)
    requires Inv(s) && Enabled(s, WorkStep(i))
    ensures Shaped(StepWork(s, i)) && WorkFrame(s, StepWork(s, i), i)
  {
    assert CellOk(s, i) && WorkerOk(s, i);
  }

  lemma WorkKeepsSub(s: State, s': State, i: nat, q: nat)
    requires Inv(s) && Shaped(s') && i < |s.slots| && WorkFrame(s, s', i) && q < |s.subs|
    ensures SubOk(s', q)
  {
    assert SubOk(s, q);
  }

  lemma WorkKeepsOwn(s: State, i: nat)
    requires Inv(s) && Enabled(s, WorkStep(i)) && Shaped(StepWork(s, i)) && |StepWork(s, i).slots| == |s.slots|
    ensures CellOk(StepWork(s, i), i) && WorkerOk(StepWork(s, i), i)
  {
    assert CellOk(s, i) && WorkerOk(s, i);
  }

  lemma WorkKeepsCell(s: State, s': State, i: nat, j: nat)
    requires Inv(s) && Shaped(s') && i < |s.slots| && WorkFrame(s, s', i) && j < |s.slots| && j != i
    ensures CellOk(s', j) && WorkerOk(s', j)
  {
    assert CellOk(s, j) && WorkerOk(s, j);
  }

  lemma WorkKeepsLog(s: State, i: nat)
    requires Inv(s) && Enabled(s, WorkStep(i)) && Shaped(Next(s, WorkStep(i)))
    ensures LogOk(Next(s, WorkStep(i)))
  {
    assert CellOk(s, i) && WorkerOk(s, i);
    var s' := Next(s, WorkStep(i));
    forall k | 0 <= k < |s'.log| ensures EntryOk(s', s'.log[k]) {
      if k < |s.log| {
        assert EntryOk(s, s.log[k]);
      }
    }
    forall k, l | 0 <= k < l < |s'.log| ensures s'.log[k].claim != s'.log[l].claim {
      assert EntryOk(s, s.log[k]);
    }
  }

  /** Ownership is kept by every step but a harmful signal. */
  lemma NextInv(s: State, a: Action)
    requires Inv(s) && Enabled(s, a) && !Harms(s, a)
    ensures Inv(Next(s, a))
  {
    NextShaped(s, a);
    var s' := Next(s, a);
    match a
    case SubStep(p) =>
      forall q | 0 <= q < |s'.subs| ensures SubOk(s', q) {
        if Growing(s.subs[p]) {
          if q == p { GrowKeepsSelf(s, p); } else { GrowKeepsSub(s, p, q); }
        } else if Handing(s.subs[p]) {
          if q == p { HandKeepsSelf(s, p); } else { HandFrames(s, p, q); FrameKeepsSub(s, s', q); }
        } else {
          if q == p { ScanKeepsSelf(s, p); } else { ScanFrames(s, p, q); FrameKeepsSub(s, s', q); }
        }
      }
      forall i | 0 <= i < |s'.slots| ensures CellOk(s', i) && WorkerOk(s', i) {
        if Growing(s.subs[p]) {
          GrowKeepsCell(s, p, i);
        } else if Handing(s.subs[p]) {
          HandKeepsCell(s, p, i);
        } else {
          ScanKeepsCell(s, p, i);
        }
        SubFramesWorker(s, p, i);
        FrameKeepsWorker(s, s', p, i);
      }
      forall i | 0 <= i < |s.slots| ensures WorkerFrame(s, s', p, i) {
        SubFramesWorker(s, p, i);
      }
      FrameKeepsLog(s, s', p);
    case WorkStep(i) =>
      forall q | 0 <= q < |s'.subs| ensures SubOk(s', q) {
        WorkFrames(s, i);
        WorkKeepsSub(s, s', i, q);
      }
      forall j | 0 <= j < |s'.slots| ensures CellOk(s', j) && WorkerOk(s', j) {
        WorkFrames(s, i);
        if j == i { WorkKeepsOwn(s, i); } else { WorkKeepsCell(s, s', i, j); }
      }
      WorkKeepsLog(s, i);
  }
}
