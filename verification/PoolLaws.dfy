/** What one call does to the slots of the thread pool, told on the slots themselves. */
module PoolLaws {
  import opened Prelude
  import opened PoolSpec

  predicate AllBusy(p: Pool)
    requires Valid(p)
  {
    forall i :: 0 <= i < p.cur ==> p.slots[i].busy
  }

  /** Slot `i` is live and idle, and every lower one is busy. */
  predicate FirstIdle(p: Pool, i: nat)
    requires Valid(p)
  {
    i < p.cur && !p.slots[i].busy && forall k :: 0 <= k < i ==> p.slots[k].busy
  }

  lemma FirstIdleIs(p: Pool, i: nat)
    requires Valid(p) && FirstIdle(p, i)
    ensures LowestIdle(p.slots, p.cur) == i
  {
  }

  /**
   Where a job goes. Into the first idle live slot, which keeps its thread,
   while there is one; only when all are busy into a new slot with a new thread;
   and nowhere when the table is full too. Nothing else changes.
   */
  lemma SubmitPlaces(p: Pool, job: Job, id: nat)
    requires Valid(p)
    ensures Submit(p, job, id).cur > p.cur ==> AllBusy(p)
    ensures forall i :: 0 <= i < p.cur && FirstIdle(p, i) ==>
      Submit(p, job, id) == p.(slots := p.slots[i := Slot(p.slots[i].id, true, job)])
    ensures AllBusy(p) && p.cur < p.max ==>
      Submit(p, job, id) == p.(cur := p.cur + 1, slots := p.slots[p.cur := Slot(id, true, job)])
    ensures AllBusy(p) && p.cur == p.max ==> Submit(p, job, id) == p
    ensures AllBusy(p) || exists i :: 0 <= i < p.cur && FirstIdle(p, i)
  {
    var r := LowestIdle(p.slots, p.cur);
    if r < p.cur {
      assert FirstIdle(p, r);
      forall i | 0 <= i < p.cur && FirstIdle(p, i) ensures i == r {
        FirstIdleIs(p, i);
      }
    }
  }

  /** The live slots that are busy. */
  function BusySlots(p: Pool): set<nat>
    requires Valid(p)
  {
    set i | 0 <= i < p.cur && p.slots[i].busy
  }

  lemma {:induction false} BusyCountIs(slots: seq<Slot>, n: nat)
    requires n <= |slots|
    ensures BusyCount(slots, n) == |set i | 0 <= i < n && slots[i].busy|
  {
    if n > 0 {
      BusyCountIs(slots, n - 1);
      var fewer, all := set i | 0 <= i < n - 1 && slots[i].busy, set i | 0 <= i < n && slots[i].busy;
      assert all == if slots[n - 1].busy then fewer + {n - 1} else fewer;
    }
  }

  /**
   What a sweep trims: nothing unless less than half of the threads are busy;
   then idle slots only, from the end, down to the minimum or to a busy slot.
   */
  lemma SweepTrims(p: Pool)
    requires Valid(p)
    ensures Sweep(p) == p.(cur := Sweep(p).cur) && p.min <= Sweep(p).cur <= p.cur
    ensures Sweep(p).cur < p.cur ==> 2 * |BusySlots(p)| < p.cur
    ensures forall i :: Sweep(p).cur <= i < p.cur ==> !p.slots[i].busy
    ensures 2 * |BusySlots(p)| < p.cur ==>
      Sweep(p).cur == p.min || (Sweep(p).cur > p.min && p.slots[Sweep(p).cur - 1].busy)
  {
    BusyCountIs(p.slots, p.cur);
    SweepKeeps(p);
  }

  /** A worker that finishes makes its slot idle, and changes nothing else of the pool. */
  lemma FinishFrees(p: Pool, i: nat)
    requires Valid(p) && i < p.cur
    ensures var p' := Finish(p, i);
      && !p'.slots[i].busy && p'.slots[i := p.slots[i]] == p.slots && p'.(slots := p.slots) == p
      && p'.slots[i].id == p.slots[i].id && p'.slots[i].job == p.slots[i].job
  {
  }

  /** An event that starts a thread: a submission while all slots are busy and there may be more. */
  predicate Grows(p: Pool, e: Event)
    requires Valid(p)
  {
    e.Submits? && AllBusy(p) && p.cur < p.max
  }

  /** Only growth sets a thread id, in the slot it adds and to the new thread's; all other events keep them. */
  lemma IdsSetByGrowth(p: Pool, e: Event, i: nat)
    requires Valid(p) && Possible(p, e) && i < p.max
    ensures After(p, e).slots[i].id == if Grows(p, e) && i == p.cur then e.id else p.slots[i].id
    ensures After(p, e).cur > p.cur <==> Grows(p, e)
  {
    match e
    case Submits(job, id) =>
      SubmitPlaces(p, job, id);
      if !AllBusy(p) {
        var k :| 0 <= k < p.cur && FirstIdle(p, k);
      }
    case Finishes(k) => FinishFrees(p, k);
    case Sweeps => SweepTrims(p);
  }
}
