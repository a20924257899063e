/**
 Single calls of the globalfifo driver run from start to end, and the run in
 which FIFO_CLEAR leaves a reader and a writer asleep together.
 */
module FifoWitness {
  import opened Prelude
  import opened FifoSpec
  import opened FifoProtocol
  import opened FifoInvariant
  import opened FifoSleep

  lemma {:induction false} RunsJoin(s: State, a: seq<Action>, b: seq<Action>)
    requires Runs(s, a) && Runs(Final(s, a), b)
    ensures Runs(s, a + b) && Final(s, a + b) == Final(Final(s, a), b)
    ensures EverClearsUnderSleeper(s, a + b) <==> EverClearsUnderSleeper(s, a) || EverClearsUnderSleeper(Final(s, a), b)
    decreases |a|
  {
    if a == [] {
      assert a + b == b;
    } else {
      assert (a + b)[0] == a[0] && (a + b)[1..] == a[1..] + b;
      RunsJoin(Next(s, a[0]), a[1..], b);
    }
  }

  /** One more action at the end of a run. */
  lemma RunsThen(s: State, acts: seq<Action>, a: Action)
    requires Runs(s, acts) && Enabled(Final(s, acts), a)
    ensures Runs(s, acts + [a]) && Final(s, acts + [a]) == Next(Final(s, acts), a)
    ensures EverClearsUnderSleeper(s, acts + [a]) <==>
      EverClearsUnderSleeper(s, acts) || ClearsUnderSleeper(Final(s, acts), a)
  {
    var mid := Final(s, acts);
    assert [a][1..] == [];
    assert Runs(Next(mid, a), []);
    assert Runs(mid, [a]) && Final(mid, [a]) == Next(mid, a);
    RunsJoin(s, acts, [a]);
  }

  /** A task that finds its queue not ready goes to sleep in six actions. */
  lemma FallsAsleep(s: State, t: nat, call: Call) returns (acts: seq<Action>)
    requires Inv(s) && t < |s.tasks| && s.tasks[t].pc.Idle? && !s.tasks[t].pending && s.owner.None?
    requires RW(call) && !call.nonblock && !Ready(call, s.len)
    ensures Runs(s, acts) && !EverClearsUnderSleeper(s, acts) && Final(s, acts) ==
      s.(rwait := if call.Read? then s.rwait + {t} else s.rwait,
         wwait := if call.Write? then s.wwait + {t} else s.wwait,
         tasks := s.tasks[t := s.tasks[t].(pc := Schedule, call := call, st := Interruptible)])
  {
    var k := s.tasks[t].(call := call);
    var q := s.(rwait := if call.Read? then s.rwait + {t} else s.rwait,
                wwait := if call.Write? then s.wwait + {t} else s.wwait);
    acts := [];
    RunsThen(s, acts, Invoke(t, call));
    acts := acts + [Invoke(t, call)];
    assert Final(s, acts) == s.(tasks := s.tasks[t := k.(pc := LockFirst)]);
    RunsThen(s, acts, Step(t, Clean));
    acts := acts + [Step(t, Clean)];
    assert Final(s, acts) == s.(owner := Some(t), tasks := s.tasks[t := k.(pc := Enqueue)]);
    RunsThen(s, acts, Step(t, Clean));
    acts := acts + [Step(t, Clean)];
    assert Final(s, acts) == q.(owner := Some(t), tasks := s.tasks[t := k.(pc := Test)]);
    RunsThen(s, acts, Step(t, Clean));
    acts := acts + [Step(t, Clean)];
    assert Final(s, acts) == q.(owner := Some(t), tasks := s.tasks[t := k.(pc := SetSleep)]);
    RunsThen(s, acts, Step(t, Clean));
    acts := acts + [Step(t, Clean)];
    assert Final(s, acts) == q.(owner := Some(t), tasks := s.tasks[t := k.(pc := UnlockSleep, st := Interruptible)]);
    RunsThen(s, acts, Step(t, Clean));
    acts := acts + [Step(t, Clean)];
  }

  /** The first half of a write by a task that runs alone: up to the copied data. */
  lemma WriteCopies(s: State, t: nat, data: seq<byte>) returns (acts: seq<Action>)
    requires Inv(s) && t < |s.tasks| && s.tasks[t].pc.Idle? && s.owner.None?
    requires s.len < GLOBALFIFO_SIZE
    ensures var k := s.tasks[t].(call := Write(data, false), count := Want(Write(data, false), s.len));
      Runs(s, acts) && Final(s, acts) ==
        s.(owner := Some(t), wwait := s.wwait + {t}, mem := Splice(s.mem, s.len, data[..k.count]),
           tasks := s.tasks[t := k.(pc := Update)])
  {
    var call := Write(data, false);
    var k := s.tasks[t].(call := call);
    var h := s.(owner := Some(t), wwait := s.wwait + {t});
    acts := [];
    RunsThen(s, acts, Invoke(t, call));
    acts := acts + [Invoke(t, call)];
    RunsThen(s, acts, Step(t, Clean));
    acts := acts + [Step(t, Clean)];
    assert Final(s, acts) == s.(owner := Some(t), tasks := s.tasks[t := k.(pc := Enqueue)]);
    RunsThen(s, acts, Step(t, Clean));
    acts := acts + [Step(t, Clean)];
    assert Final(s, acts) == h.(tasks := s.tasks[t := k.(pc := Test)]);
    RunsThen(s, acts, Step(t, Clean));
    acts := acts + [Step(t, Clean)];
    assert Final(s, acts) == h.(tasks := s.tasks[t := k.(pc := Clamp)]);
    RunsThen(s, acts, Step(t, Clean));
    acts := acts + [Step(t, Clean)];
    assert Final(s, acts) == h.(tasks := s.tasks[t := k.(pc := Copy, count := Want(call, s.len))]);
    RunsThen(s, acts, Step(t, Clean));
    acts := acts + [Step(t, Clean)];
  }

  /** Then it publishes the length, wakes the readers and unlocks. */
  lemma WritePublishes(s: State, t: nat) returns (acts: seq<Action>)
    requires t < |s.tasks| && s.tasks[t].pc.Update? && s.tasks[t].call.Write? && s.rwait == {}
    ensures var k := s.tasks[t];
      Runs(s, acts) && Final(s, acts) ==
        s.(owner := None, len := s.len + k.count, tasks := s.tasks[t := k.(pc := Dequeue, ret := Put(k.count))])
  {
    var k := s.tasks[t].(ret := Put(s.tasks[t].count));
    var h := s.(len := s.len + k.count);
    acts := [];
    RunsThen(s, acts, Step(t, Clean));
    acts := acts + [Step(t, Clean)];
    assert Final(s, acts) == h.(tasks := s.tasks[t := k.(pc := WakeUp)]);
    RunsThen(s, acts, Step(t, Clean));
    acts := acts + [Step(t, Clean)];
    assert Final(s, acts) == h.(tasks := s.tasks[t := k.(pc := Unlock)]);
    RunsThen(s, acts, Step(t, Clean));
    acts := acts + [Step(t, Clean)];
  }

  /** At last it leaves its wait queue and returns. */
  lemma CallReturns(s: State, t: nat) returns (acts: seq<Action>)
    requires t < |s.tasks| && s.tasks[t].pc.Dequeue?
    ensures Runs(s, acts) && Final(s, acts) ==
        s.(rwait := s.rwait - {t}, wwait := s.wwait - {t},
           tasks := s.tasks[t := s.tasks[t].(pc := Idle, st := Running)])
  {
    var k := s.tasks[t];
    acts := [];
    RunsThen(s, acts, Step(t, Clean));
    acts := acts + [Step(t, Clean)];
    var f := s.(rwait := s.rwait - {t}, wwait := s.wwait - {t});
    assert Final(s, acts) == f.(tasks := s.tasks[t := k.(pc := SetRunning)]);
    RunsThen(s, acts, Step(t, Clean));
    acts := acts + [Step(t, Clean)];
    assert Final(s, acts) == f.(tasks := s.tasks[t := k.(pc := Return, st := Running)]);
    RunsThen(s, acts, Step(t, Clean));
    acts := acts + [Step(t, Clean)];
  }

  /** FIFO_CLEAR by a task that runs alone, up to the unlock. */
  lemma ClearEmpties(s: State, t: nat) returns (acts: seq<Action>)
    requires t < |s.tasks| && s.tasks[t].pc.Idle? && s.owner.None?
    ensures var k := s.tasks[t].(pc := Unlock, call := Ioctl(FIFO_CLEAR), ret := Cleared);
      Runs(s, acts) && Final(s, acts) ==
        s.(mem := seq(|s.mem|, _ => 0), len := 0, owner := Some(t), tasks := s.tasks[t := k])
  {
    var call := Ioctl(FIFO_CLEAR);
    var k := s.tasks[t].(call := call);
    acts := [];
    RunsThen(s, acts, Invoke(t, call));
    acts := acts + [Invoke(t, call)];
    RunsThen(s, acts, Step(t, Clean));
    acts := acts + [Step(t, Clean)];
    assert Final(s, acts) == s.(owner := Some(t), tasks := s.tasks[t := k.(pc := ZeroLen)]);
    RunsThen(s, acts, Step(t, Clean));
    acts := acts + [Step(t, Clean)];
    assert Final(s, acts) == s.(owner := Some(t), len := 0, tasks := s.tasks[t := k.(pc := ZeroMem, ret := Cleared)]);
    RunsThen(s, acts, Step(t, Clean));
    acts := acts + [Step(t, Clean)];
  }

  lemma ClearReturns(s: State, t: nat) returns (acts: seq<Action>)
    requires t < |s.tasks| && s.tasks[t].pc.Unlock? && s.tasks[t].call.Ioctl?
    ensures Runs(s, acts) && Final(s, acts) == s.(owner := None, tasks := s.tasks[t := s.tasks[t].(pc := Idle)])
  {
    acts := [];
    RunsThen(s, acts, Step(t, Clean));
    acts := acts + [Step(t, Clean)];
    RunsThen(s, acts, Step(t, Clean));
    acts := acts + [Step(t, Clean)];
  }

  /** Task 0 fills the queue. */
  lemma FillsQueue() returns (acts: seq<Action>)
    ensures Runs(Init(2), acts)
    ensures var s := Final(Init(2), acts);
      && s.owner.None? && s.len == GLOBALFIFO_SIZE && |s.tasks| == 2
      && s.tasks[0].pc.Idle? && !s.tasks[0].pending && s.tasks[1].pc.Idle? && !s.tasks[1].pending
  {
    InitInv(2);
    var s0 := Init(2);
    var full: seq<byte> := seq(GLOBALFIFO_SIZE, _ => 1);
    var copy := WriteCopies(s0, 0, full);
    var s1 := Final(s0, copy);
    var publish := WritePublishes(s1, 0);
    var s2 := Final(s1, publish);
    var leave := CallReturns(s2, 0);
    RunsJoin(s1, publish, leave);
    RunsJoin(s0, copy, publish + leave);
    acts := copy + (publish + leave);
  }

  /** From a full queue: task 1 sleeps writing, task 0 clears. */
  lemma SleepsThenClears(s: State) returns (acts: seq<Action>)
    requires Inv(s) && s.owner.None? && s.len == GLOBALFIFO_SIZE && |s.tasks| == 2
    requires s.tasks[0].pc.Idle? && !s.tasks[0].pending && s.tasks[1].pc.Idle? && !s.tasks[1].pending
    ensures Runs(s, acts)
    ensures var s' := Final(s, acts);
      && s'.owner.None? && s'.len == 0 && |s'.tasks| == 2
      && s'.tasks[0].pc.Idle? && !s'.tasks[0].pending && SleepingWriter(s'.tasks[1]) && !s'.tasks[1].pending
  {
    var sleep := FallsAsleep(s, 1, Write([1], false));
    var s1 := Final(s, sleep);
    var clear := ClearEmpties(s1, 0);
    var s2 := Final(s1, clear);
    var leave := ClearReturns(s2, 0);
    RunsJoin(s1, clear, leave);
    RunsJoin(s, sleep, clear + leave);
    acts := sleep + (clear + leave);
  }

  lemma SleepsClearsSleeps(s: State) returns (acts: seq<Action>)
    requires Inv(s) && s.owner.None? && s.len == GLOBALFIFO_SIZE && |s.tasks| == 2
    requires s.tasks[0].pc.Idle? && !s.tasks[0].pending && s.tasks[1].pc.Idle? && !s.tasks[1].pending
    ensures Runs(s, acts)
    ensures var s' := Final(s, acts); s'.owner.None? && s'.len == 0 && ReaderAsleep(s') && WriterAsleep(s') && Quiet(s')
  {
    var strand := SleepsThenClears(s);
    RunInv(s, strand);
    var s' := Final(s, strand);
    var read := FallsAsleep(s', 0, Read(1, false));
    RunsJoin(s, strand, read);
    acts := strand + read;
    assert SleepingReader(Final(s', read).tasks[0]) && SleepingWriter(Final(s', read).tasks[1]);
  }

  /**
   The hypothesis about clears is needed. Task 0 fills the queue, task 1 goes
   to sleep writing, task 0 clears the queue and then goes to sleep reading:
   nobody can ever move again without help from outside.
   */
  lemma ClearCausesMutualSleep() returns (acts: seq<Action>)
    ensures Runs(Init(2), acts)
    ensures var s := Final(Init(2), acts);
      s.owner.None? && s.len == 0 && ReaderAsleep(s) && WriterAsleep(s) && Quiet(s)
  {
    InitInv(2);
    var fill := FillsQueue();
    RunInv(Init(2), fill);
    var s := Final(Init(2), fill);
    var rest := SleepsClearsSleeps(s);
    RunsJoin(Init(2), fill, rest);
    acts := fill + rest;
  }
}
