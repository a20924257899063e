/** When exactly a reader and a writer of the globalfifo driver can end up asleep together. */
module FifoMutualSleep {
  import opened Prelude
  import opened FifoSpec
  import opened FifoProtocol
  import opened FifoInvariant
  import opened FifoSleep
  import opened FifoWitness

  /** Nobody is inside, and a reader and a writer sleep. */
  predicate BothAsleep(s: State) {
    s.owner.None? && ReaderAsleep(s) && WriterAsleep(s)
  }

  /** Some run, without a further clear under a sleeping writer, ends with a reader and a writer asleep. */
  ghost predicate CanSleepBoth(s: State) {
    exists more :: Runs(s, more) && !EverClearsUnderSleeper(s, more) && BothAsleep(Final(s, more))
  }

  /** The clearing task finishes its call and takes its signals. */
  lemma ClearFinishes(s: State, t: nat) returns (acts: seq<Action>)
    requires t < |s.tasks| && s.tasks[t].pc.ZeroMem? && s.tasks[t].call.Ioctl?
    ensures Runs(s, acts) && !EverClearsUnderSleeper(s, acts) && Final(s, acts) ==
      s.(mem := seq(|s.mem|, _ => 0), owner := None, tasks := s.tasks[t := s.tasks[t].(pc := Idle, pending := false)])
  {
    var k, z := s.tasks[t], s.(mem := seq(|s.mem|, _ => 0));
    acts := [];
    RunsThen(s, acts, Step(t, Clean));
    acts := acts + [Step(t, Clean)];
    assert Final(s, acts) == z.(tasks := s.tasks[t := k.(pc := Unlock)]);
    RunsThen(s, acts, Step(t, Clean));
    acts := acts + [Step(t, Clean)];
    assert Final(s, acts) == z.(owner := None, tasks := s.tasks[t := k.(pc := Return)]);
    RunsThen(s, acts, Step(t, Clean));
    acts := acts + [Step(t, Clean)];
    assert Final(s, acts) == z.(owner := None, tasks := s.tasks[t := k.(pc := Idle)]);
    RunsThen(s, acts, TakeSignals(t));
    acts := acts + [TakeSignals(t)];
  }

  /** Having emptied the queue under a sleeping writer, the clearing task can go to sleep reading. */
  lemma ClearerSleeps(s: State, t: nat, u: nat) returns (acts: seq<Action>)
    requires Inv(s) && t < |s.tasks| && s.tasks[t].pc.ZeroMem? && s.len == 0
    requires u < |s.tasks| && SleepingWriter(s.tasks[u])
    ensures Runs(s, acts) && !EverClearsUnderSleeper(s, acts) && BothAsleep(Final(s, acts))
  {
    assert TaskOk(s, t);
    acts := ClearFinishes(s, t);
    RunInv(s, acts);
    var s' := Final(s, acts);
    var more := FallsAsleep(s', t, Read(1, false));
    RunsJoin(s, acts, more);
    acts := acts + more;
    assert SleepingReader(Final(s, acts).tasks[t]) && SleepingWriter(Final(s, acts).tasks[u]);
  }

  lemma ClearLeadsToBoth(s: State, a: Action)
    requires Inv(s) && Enabled(s, a) && ClearsUnderSleeper(s, a)
    ensures CanSleepBoth(Next(s, a))
  {
    var s' := Next(s, a);
    NextInv(s, a);
    var u :| 0 <= u < |s.tasks| && SleepingWriter(s.tasks[u]);
    var more := ClearerSleeps(s', a.t, u);
    assert CanSleepBoth(s');
  }

  /** A reader and a writer asleep with the mutex free: the writer is stranded. */
  lemma BothMeansStranded(s: State)
    requires Inv(s) && BothAsleep(s)
    ensures Stranded(s)
  {
    var u :| 0 <= u < |s.tasks| && SleepingReader(s.tasks[u]);
    assert TaskOk(s, u);
  }

  lemma UnstrandedNeverBoth(s: State)
    requires Inv(s) && !Stranded(s)
    ensures !CanSleepBoth(s)
  {
    forall more | Runs(s, more) && !EverClearsUnderSleeper(s, more) ensures !BothAsleep(Final(s, more)) {
      StrandedRuns(s, more);
      RunInv(s, more);
      if BothAsleep(Final(s, more)) {
        BothMeansStranded(Final(s, more));
        assert false;
      }
    }
  }

  /** One step makes it possible that both sleep exactly when it is a clear under a sleeping writer. */
  lemma StepSleepsBothIff(s: State, a: Action)
    requires Inv(s) && !Stranded(s) && Enabled(s, a)
    ensures ClearsUnderSleeper(s, a) <==> CanSleepBoth(Next(s, a))
  {
    if ClearsUnderSleeper(s, a) {
      ClearLeadsToBoth(s, a);
    } else {
      OnlyClearStrands(s, a);
      NextInv(s, a);
      UnstrandedNeverBoth(Next(s, a));
    }
  }

  /** From no state of the run can a reader and a writer end up asleep together. */
  ghost predicate NeverBoth(s: State, acts: seq<Action>)
    requires Runs(s, acts)
    decreases |acts|
  {
    !CanSleepBoth(s) && (acts != [] ==> NeverBoth(Next(s, acts[0]), acts[1..]))
  }

  lemma {:induction false} NeverBothFrom(s: State, acts: seq<Action>)
    requires Inv(s) && !Stranded(s) && Runs(s, acts)
    ensures EverClearsUnderSleeper(s, acts) <==> !NeverBoth(s, acts)
    decreases |acts|
  {
    UnstrandedNeverBoth(s);
    if acts != [] {
      StepSleepsBothIff(s, acts[0]);
      if ClearsUnderSleeper(s, acts[0]) {
        assert !NeverBoth(Next(s, acts[0]), acts[1..]);
      } else {
        OnlyClearStrands(s, acts[0]);
        NextInv(s, acts[0]);
        NeverBothFrom(Next(s, acts[0]), acts[1..]);
      }
    }
  }

  /**
   Exactly when a reader and a writer can come to sleep together: from some
   state of a run they can, without a further clear under a sleeping writer, if
   and only if the run contains such a clear.
   */
  lemma MutualSleepIff(n: nat, acts: seq<Action>)
    requires Runs(Init(n), acts)
    ensures EverClearsUnderSleeper(Init(n), acts) <==> !NeverBoth(Init(n), acts)
  {
    InitInv(n);
    NeverBothFrom(Init(n), acts);
  }
}
