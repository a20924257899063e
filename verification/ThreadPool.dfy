/** The thread pool as its code keeps it: a counter and a table of slots updated in place. */
module ThreadPool {
  import opened Prelude
  import opened PoolSpec

  class ThreadPool {
    const minThNum: nat
    const maxThNum: nat
    const threadInfo: array<Slot>
    var curThNum: nat

    ghost function View(): Pool
      reads this, threadInfo
    {
      Pool(minThNum, maxThNum, curThNum, threadInfo[..])
    }

    /** The table holds `max` slots, all idle, and `min` count as live: a proper pool exactly when they fit. */
    constructor (min: nat, max: nat)
      ensures fresh(threadInfo) && minThNum == curThNum == min && maxThNum == threadInfo.Length == max
      ensures forall i :: 0 <= i < max ==> !threadInfo[i].busy
      ensures Valid(View()) <==> min <= max
    {
      minThNum, maxThNum, curThNum := min, max, min;
      threadInfo := new Slot[max](_ => Slot(0, false, Job(0, 0)));
    }

    /** The slot of a thread, found by its id. */
    method GetThreadById(id: nat) returns (r: int)
      requires Valid(View())
      ensures -1 <= r < curThNum
      ensures r >= 0 ==> threadInfo[r].id == id
      ensures forall i :: 0 <= i < (if r >= 0 then r else curThNum) ==> threadInfo[i].id != id
    {
      var i := 0;
      while i < curThNum
        invariant 0 <= i <= curThNum
        invariant forall k :: 0 <= k < i ==> threadInfo[k].id != id
      {
        if id == threadInfo[i].id {
          return i;
        }
        i := i + 1;
      }
      return -1;
    }

    method AddThread(id: nat) returns (ok: bool)
      requires Valid(View())
      modifies this`curThNum, threadInfo
      ensures ok <==> old(curThNum) < maxThNum
      ensures !ok ==> View() == old(View())
      ensures ok ==> curThNum == old(curThNum) + 1
      ensures ok ==>
        threadInfo[..] == old(threadInfo[..])[old(curThNum) := Slot(id, true, old(threadInfo[curThNum].job))]
    {
      if maxThNum <= curThNum {
        return false;
      }
      threadInfo[curThNum] := threadInfo[curThNum].(busy := true);
      curThNum := curThNum + 1;
      threadInfo[curThNum - 1] := threadInfo[curThNum - 1].(id := id);
      return true;
    }

    /** tp_process_job taken as one step; `id` is the thread id a new thread gets. */
    method ProcessJob(job: Job, id: nat) returns (r: Placement)
      requires Valid(View())
      modifies this`curThNum, threadInfo
      ensures r == old(Place(View()))
      ensures View() == old(Submit(View(), job, id)) && Valid(View())
    {
      ghost var p := View();
      SubmitAdds(p, job, id);
      var i := 0;
      while i < curThNum
        invariant 0 <= i <= curThNum
        invariant forall k :: 0 <= k < i ==> threadInfo[k].busy
        invariant View() == p
      {
        if !threadInfo[i].busy {
          assert LowestIdle(p.slots, p.cur) == i;
          threadInfo[i] := threadInfo[i].(busy := true);
          threadInfo[i] := threadInfo[i].(job := job);
          return Claimed(i);
        }
        i := i + 1;
      }
      var ok := AddThread(id);
      if ok {
        i := curThNum - 1;
        threadInfo[i] := threadInfo[i].(job := job);
        return Grown(i);
      }
      return Dropped;
    }

    /** A worker done with its job gives its slot back. */
    method FinishJob(i: nat) returns (job: Job)
      requires Valid(View()) && i < curThNum && threadInfo[i].busy
      modifies threadInfo
      ensures job == old(threadInfo[i].job)
      ensures View() == old(Finish(View(), i)) && Valid(View())
    {
      job := threadInfo[i].job;
      threadInfo[i] := threadInfo[i].(busy := false);
    }

    /** Drops the last thread if it is idle and above the minimum. */
    method DeleteThread() returns (ok: bool)
      requires Valid(View())
      modifies this`curThNum
      ensures Valid(View())
      ensures ok <==> minThNum < old(curThNum) && !threadInfo[old(curThNum) - 1].busy
      ensures curThNum == if ok then old(curThNum) - 1 else old(curThNum)
    {
      if curThNum <= minThNum {
        return false;
      }
      if threadInfo[curThNum - 1].busy {
        return false;
      }
      curThNum := curThNum - 1;
      return true;
    }

    /** 0 for an idle pool, 1 otherwise; the quotient of an empty pool is not a number, hence not small. */
    method GetTpStatus() returns (status: int)
      requires Valid(View())
      ensures status == 0 || status == 1
      ensures status == 0 <==> 2 * BusyCount(View().slots, curThNum) < curThNum
    {
      var busyNum := 0.0;
      var i := 0;
      while i < curThNum
        invariant 0 <= i <= curThNum
        invariant busyNum == BusyCount(threadInfo[..], i) as real
      {
        if threadInfo[i].busy {
          busyNum := busyNum + 1.0;
        }
        i := i + 1;
      }
      if curThNum == 0 {
        return 1;
      }
      ghost var b := BusyCount(threadInfo[..], curThNum);
      HalfThreshold(b, curThNum);
      if busyNum / (curThNum as real) < 0.5 {
        return 0;
      } else {
        return 1;
      }
    }

    /** One round of the manager: while the pool was found idle, the idle tail is trimmed down to the minimum. */
    method ManageSweep()
      requires Valid(View())
      modifies this`curThNum
      ensures View() == old(Sweep(View())) && Valid(View())
    {
      ghost var p := View();
      SweepKeeps(p);
      var status := GetTpStatus();
      if status == 0 {
        var more := true;
        while more
          invariant p.min <= curThNum <= p.cur && Valid(View())
          invariant HighestBusy(p.slots, p.cur) < curThNum
          invariant !more ==> curThNum == Max(p.min, 1 + HighestBusy(p.slots, p.cur))
          decreases curThNum - minThNum, more
        {
          more := DeleteThread();
        }
      }
    }
  }

  lemma ScaleOrder(x: real, y: real, c: real)
    requires c > 0.0
    ensures x < y <==> x * c < y * c
  {
    assert (y - x) * c == y * c - x * c;
    if x < y {
      assert (y - x) * c > 0.0;
    } else if y < x {
      assert (x - y) * c > 0.0;
    }
  }

  /** The 0.5 threshold in whole numbers. */
  lemma HalfThreshold(b: nat, c: nat)
    requires c > 0
    ensures (b as real) / (c as real) < 0.5 <==> 2 * b < c
  {
    var x := (b as real) / (c as real);
    ScaleOrder(x, 0.5, c as real);
    assert x * (c as real) == b as real;
    assert 0.5 * (c as real) == (c as real) / 2.0;
  }
}
