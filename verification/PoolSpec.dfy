/**
 The thread pool as a value: a table of slots, one per worker thread, of which
 the first `cur` are live. A job is given to the lowest idle slot, to a new slot
 while there may be more, or dropped; a manager trims the idle tail.
 */
module PoolSpec {
  import opened Prelude

  /** The two pointers a submitter hands over: who processes, and what. */
  datatype Job = Job(work: nat, desc: nat)

  datatype Slot = Slot(id: nat, busy: bool, job: Job)

  datatype Pool = Pool(min: nat, max: nat, cur: nat, slots: seq<Slot>)

  datatype Placement = Claimed(slot: nat) | Grown(slot: nat) | Dropped

  predicate Valid(p: Pool) {
    && p.min <= p.cur <= p.max == |p.slots|
    && forall i :: p.cur <= i < p.max ==> !p.slots[i].busy
  }

  /** The first idle slot among the first `n`, or `n`. */
  function LowestIdle(slots: seq<Slot>, n: nat): (r: nat)
    requires n <= |slots|
    ensures r <= n && (r < n ==> !slots[r].busy)
    ensures forall i :: 0 <= i < r ==> slots[i].busy
  {
    if n == 0 then 0
    else
      var r := LowestIdle(slots, n - 1);
      if r < n - 1 then r else if slots[n - 1].busy then n else n - 1
  }

  function BusyCount(slots: seq<Slot>, n: nat): (r: nat)
    requires n <= |slots|
    ensures r <= n
  {
    if n == 0 then 0 else BusyCount(slots, n - 1) + if slots[n - 1].busy then 1 else 0
  }

  /** The jobs held by the busy ones among the first `n` slots. */
  function Held(slots: seq<Slot>, n: nat): multiset<Job>
    requires n <= |slots|
  {
    if n == 0 then multiset{}
    else Held(slots, n - 1) + if slots[n - 1].busy then multiset{slots[n - 1].job} else multiset{}
  }

  /** The highest busy slot among the first `n`, or -1. */
  function HighestBusy(slots: seq<Slot>, n: nat): (r: int)
    requires n <= |slots|
    ensures -1 <= r < n && (r >= 0 ==> slots[r].busy)
    ensures forall i :: r < i < n ==> !slots[i].busy
  {
    if n == 0 then -1 else if slots[n - 1].busy then n - 1 else HighestBusy(slots, n - 1)
  }

  function Place(p: Pool): Placement
    requires Valid(p)
  {
    var i := LowestIdle(p.slots, p.cur);
    if i < p.cur then Claimed(i) else if p.cur < p.max then Grown(p.cur) else Dropped
  }

  /** `id` is the thread id a new thread would get. */
  function Submit(p: Pool, job: Job, id: nat): Pool
    requires Valid(p)
  {
    match Place(p)
    case Claimed(i) => p.(slots := p.slots[i := p.slots[i].(busy := true, job := job)])
    case Grown(i) => p.(cur := p.cur + 1, slots := p.slots[i := Slot(id, true, job)])
    case Dropped => p
  }

  function Finish(p: Pool, i: nat): Pool
    requires Valid(p) && i < p.cur
  {
    p.(slots := p.slots[i := p.slots[i].(busy := false)])
  }

  /** The outcome of a whole manager sweep, in closed form. */
  function Sweep(p: Pool): Pool
    requires Valid(p)
  {
    if 2 * BusyCount(p.slots, p.cur) < p.cur
    then p.(cur := Max(p.min, 1 + HighestBusy(p.slots, p.cur)))
    else p
  }

  lemma {:induction false} HeldFrame(a: seq<Slot>, b: seq<Slot>, n: nat)
    requires n <= |a| && n <= |b|
    requires forall i :: 0 <= i < n ==> a[i].busy == b[i].busy && (a[i].busy ==> a[i].job == b[i].job)
    ensures Held(a, n) == Held(b, n) && BusyCount(a, n) == BusyCount(b, n)
  {
    if n > 0 {
      HeldFrame(a, b, n - 1);
    }
  }

  /** Filling an idle slot adds exactly its job. */
  lemma {:induction false} HeldFill(slots: seq<Slot>, n: nat, i: nat, slot: Slot)
    requires i < n <= |slots| && !slots[i].busy && slot.busy
    ensures Held(slots[i := slot], n) == Held(slots, n) + multiset{slot.job}
  {
    if i == n - 1 {
      HeldFrame(slots, slots[i := slot], n - 1);
    } else {
      HeldFill(slots, n - 1, i, slot);
    }
  }

  /** Slots above all busy ones hold nothing. */
  lemma {:induction false} HeldTail(slots: seq<Slot>, m: nat, n: nat)
    requires m <= n <= |slots|
    requires forall i :: m <= i < n ==> !slots[i].busy
    ensures Held(slots, m) == Held(slots, n) && BusyCount(slots, m) == BusyCount(slots, n)
  {
    if m < n {
      HeldTail(slots, m, n - 1);
    }
  }

  lemma {:induction false} AllBusy(slots: seq<Slot>, n: nat)
    requires n <= |slots|
    ensures BusyCount(slots, n) == n <==> forall i :: 0 <= i < n ==> slots[i].busy
  {
    if n > 0 {
      AllBusy(slots, n - 1);
    }
  }

  /** A submission is dropped exactly when the pool is at its maximum and every slot is busy. */
  lemma DroppedWhenSaturated(p: Pool)
    requires Valid(p)
    ensures Place(p).Dropped? <==> p.cur == p.max && BusyCount(p.slots, p.cur) == p.max
  {
    AllBusy(p.slots, p.cur);
  }

  lemma ClaimAdds(p: Pool, job: Job, id: nat)
    requires Valid(p) && Place(p).Claimed?
    ensures Valid(Submit(p, job, id)) && Submit(p, job, id).cur == p.cur
    ensures Held(Submit(p, job, id).slots, p.cur) == Held(p.slots, p.cur) + multiset{job}
  {
    var i := Place(p).slot;
    HeldFill(p.slots, p.cur, i, p.slots[i].(busy := true, job := job));
  }

  lemma GrowthAdds(p: Pool, job: Job, id: nat)
    requires Valid(p) && Place(p).Grown?
    ensures Valid(Submit(p, job, id)) && Submit(p, job, id).cur == p.cur + 1
    ensures Held(Submit(p, job, id).slots, p.cur + 1) == Held(p.slots, p.cur) + multiset{job}
  {
    HeldTail(p.slots, p.cur, p.cur + 1);
    HeldFill(p.slots, p.cur + 1, p.cur, Slot(id, true, job));
  }

  /** A submission adds its job to those held, disturbs no slot that was busy, and keeps the pool in bounds. */
  lemma SubmitAdds(p: Pool, job: Job, id: nat)
    requires Valid(p)
    ensures Valid(Submit(p, job, id))
    ensures var p' := Submit(p, job, id);
      && Held(p'.slots, p'.cur) == Held(p.slots, p.cur) + (if Place(p).Dropped? then multiset{} else multiset{job})
      && (forall i :: 0 <= i < p.max && p.slots[i].busy ==> p'.slots[i] == p.slots[i])
  {
    if Place(p).Claimed? {
      ClaimAdds(p, job, id);
    } else if Place(p).Grown? {
      GrowthAdds(p, job, id);
    }
  }

  /** A finishing worker takes exactly its own job out. */
  lemma FinishRemoves(p: Pool, i: nat)
    requires Valid(p) && i < p.cur && p.slots[i].busy
    ensures Valid(Finish(p, i))
    ensures Held(p.slots, p.cur) == Held(Finish(p, i).slots, p.cur) + multiset{p.slots[i].job}
  {
    var q := Finish(p, i);
    HeldFill(q.slots, q.cur, i, p.slots[i]);
    assert q.slots[i := p.slots[i]] == p.slots;
  }

  /** A sweep takes away no job and never leaves the pool under its minimum. */
  lemma SweepKeeps(p: Pool)
    requires Valid(p)
    ensures Valid(Sweep(p)) && Sweep(p).slots == p.slots && Sweep(p).cur <= p.cur
    ensures Held(Sweep(p).slots, Sweep(p).cur) == Held(p.slots, p.cur)
    ensures BusyCount(Sweep(p).slots, Sweep(p).cur) == BusyCount(p.slots, p.cur)
  {
    HeldTail(p.slots, Sweep(p).cur, p.cur);
  }

  /** One sweep leaves nothing for a second. */
  lemma SweepAgain(p: Pool)
    requires Valid(p)
    ensures Valid(Sweep(p)) && Sweep(Sweep(p)) == Sweep(p)
  {
    SweepKeeps(p);
    SweepKeeps(Sweep(p));
  }

  // Runs of atomic events.

  datatype Event = Submits(job: Job, id: nat) | Finishes(slot: nat) | Sweeps

  predicate Possible(p: Pool, e: Event)
    requires Valid(p)
  {
    e.Finishes? ==> e.slot < p.cur && p.slots[e.slot].busy
  }

  function After(p: Pool, e: Event): (p': Pool)
    requires Valid(p) && Possible(p, e)
    ensures Valid(p') && p'.min == p.min && p'.max == p.max
  {
    SubmitAddsForEvent(p, e);
    match e
    case Submits(job, id) => Submit(p, job, id)
    case Finishes(i) => Finish(p, i)
    case Sweeps => Sweep(p)
  }

  lemma SubmitAddsForEvent(p: Pool, e: Event)
    requires Valid(p) && Possible(p, e)
    ensures match e
      case Submits(job, id) => Valid(Submit(p, job, id))
      case Finishes(i) => Valid(Finish(p, i))
      case Sweeps => Valid(Sweep(p))
  {
    match e
    case Submits(job, id) => SubmitAdds(p, job, id);
    case Finishes(i) => FinishRemoves(p, i);
    case Sweeps => SweepKeeps(p);
  }

  predicate Run(p: Pool, events: seq<Event>)
    requires Valid(p)
    decreases |events|
  {
    events == [] || (Possible(p, events[0]) && Run(After(p, events[0]), events[1..]))
  }

  function End(p: Pool, events: seq<Event>): (p': Pool)
    requires Valid(p) && Run(p, events)
    ensures Valid(p') && p'.min == p.min && p'.max == p.max
    decreases |events|
  {
    if events == [] then p else End(After(p, events[0]), events[1..])
  }

  /** The job an event brings into the pool, and the one it takes out. */
  function Brings(p: Pool, e: Event): multiset<Job>
    requires Valid(p)
  {
    if e.Submits? && !Place(p).Dropped? then multiset{e.job} else multiset{}
  }

  function Takes(p: Pool, e: Event): multiset<Job>
    requires Valid(p) && Possible(p, e)
  {
    if e.Finishes? then multiset{p.slots[e.slot].job} else multiset{}
  }

  function Accepted(p: Pool, events: seq<Event>): multiset<Job>
    requires Valid(p) && Run(p, events)
    decreases |events|
  {
    if events == [] then multiset{}
    else Brings(p, events[0]) + Accepted(After(p, events[0]), events[1..])
  }

  function Finished(p: Pool, events: seq<Event>): multiset<Job>
    requires Valid(p) && Run(p, events)
    decreases |events|
  {
    if events == [] then multiset{}
    else Takes(p, events[0]) + Finished(After(p, events[0]), events[1..])
  }

  lemma EventConserves(p: Pool, e: Event)
    requires Valid(p) && Possible(p, e)
    ensures Held(p.slots, p.cur) + Brings(p, e) == Takes(p, e) + Held(After(p, e).slots, After(p, e).cur)
  {
    match e
    case Submits(job, id) => SubmitAdds(p, job, id);
    case Finishes(i) => FinishRemoves(p, i);
    case Sweeps => SweepKeeps(p);
  }

  /** Adding up what comes in and what goes out over two stages. */
  lemma Chain(h: multiset<Job>, b: multiset<Job>, t: multiset<Job>, h': multiset<Job>,
              b': multiset<Job>, t': multiset<Job>, h'': multiset<Job>)
    requires h + b == t + h' && h' + b' == t' + h''
    ensures h + (b + b') == (t + t') + h''
  {
    assert h + (b + b') == (h + b) + b' == t + (h' + b');
  }

  /**
   Job conservation: over every run the jobs held at first and those accepted
   are the finished ones and those still held, counted with multiplicity.
   */
  lemma {:induction false} JobsConserved(p: Pool, events: seq<Event>)
    requires Valid(p) && Run(p, events)
    ensures Held(p.slots, p.cur) + Accepted(p, events)
         == Finished(p, events) + Held(End(p, events).slots, End(p, events).cur)
    decreases |events|
  {
    if events != [] {
      var p', rest := After(p, events[0]), events[1..];
      EventConserves(p, events[0]);
      JobsConserved(p', rest);
      Chain(Held(p.slots, p.cur), Brings(p, events[0]), Takes(p, events[0]), Held(p'.slots, p'.cur),
            Accepted(p', rest), Finished(p', rest), Held(End(p', rest).slots, End(p', rest).cur));
    }
  }

  predicate NeverFinishes(events: seq<Event>, i: nat) {
    forall k :: 0 <= k < |events| && events[k].Finishes? ==> events[k].slot != i
  }

  lemma BusyStays(p: Pool, e: Event, i: nat)
    requires Valid(p) && Possible(p, e) && i < p.cur && p.slots[i].busy && e != Finishes(i)
    ensures i < After(p, e).cur && After(p, e).slots[i] == p.slots[i]
  {
    match e
    case Submits(job, id) => SubmitAdds(p, job, id);
    case Finishes(j) =>
    case Sweeps =>
  }

  /** No held job is overwritten or trimmed away: a busy slot stays as it is until its own worker finishes. */
  lemma {:induction false} HeldUntilFinished(p: Pool, events: seq<Event>, i: nat)
    requires Valid(p) && Run(p, events) && i < p.cur && p.slots[i].busy && NeverFinishes(events, i)
    ensures i < End(p, events).cur && End(p, events).slots[i] == p.slots[i]
    decreases |events|
  {
    if events != [] {
      assert events[0].Finishes? ==> events[0].slot != i;
      BusyStays(p, events[0], i);
      HeldUntilFinished(After(p, events[0]), events[1..], i);
    }
  }
}
