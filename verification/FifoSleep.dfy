/** Sleeping and waking in the globalfifo driver: which wake-ups can be lost, and when. */
module FifoSleep {
  import opened FifoSpec
  import opened FifoProtocol
  import opened FifoInvariant
  import opened FifoLocking

  predicate SleepingReader(k: Task) { k.pc.Schedule? && k.st.Interruptible? && k.call.Read? }

  predicate SleepingWriter(k: Task) { k.pc.Schedule? && k.st.Interruptible? && k.call.Write? }

  predicate WriterAsleep(s: State) { exists u :: 0 <= u < |s.tasks| && SleepingWriter(s.tasks[u]) }

  predicate ReaderAsleep(s: State) { exists u :: 0 <= u < |s.tasks| && SleepingReader(s.tasks[u]) }

  /** A writer sleeps although there is room, and nobody is about to wake it. */
  predicate Stranded(s: State) {
    WriterAsleep(s) && s.len != GLOBALFIFO_SIZE && !WakePending(s, false)
  }

  /** FIFO_CLEAR is about to empty the queue while a writer sleeps. */
  predicate ClearsUnderSleeper(s: State, a: Action) {
    a.t < |s.tasks| && a.Step? && s.tasks[a.t].pc.ZeroLen? && WriterAsleep(s)
  }

  /**
   A wake-up after a read leaves no writer asleep, one after a write no reader;
   it changes nothing of the other tasks but the scheduler states of that kind.
   */
  lemma WakeUpWakes(s: State, t: nat)
    requires Inv(s) && t < |s.tasks| && s.tasks[t].pc.WakeUp?
    ensures var s' := Advance(s, t, Clean);
      && |s'.tasks| == |s.tasks| && s'.mem == s.mem && s'.len == s.len
      && (s.tasks[t].call.Read? ==> !WriterAsleep(s')) && (s.tasks[t].call.Write? ==> !ReaderAsleep(s'))
      && (forall u :: 0 <= u < |s.tasks| && u != t ==> s'.tasks[u].(st := s.tasks[u].st) == s.tasks[u])
      && forall u :: 0 <= u < |s.tasks| && u != t && s.tasks[u].call.Read? == s.tasks[t].call.Read? ==>
           s'.tasks[u] == s.tasks[u]
  {
    var s' := Advance(s, t, Clean);
    forall u | 0 <= u < |s.tasks|
      ensures s.tasks[t].call.Read? ==> !SleepingWriter(s'.tasks[u])
      ensures s.tasks[t].call.Write? ==> !SleepingReader(s'.tasks[u])
      ensures u != t && s.tasks[u].call.Read? == s.tasks[t].call.Read? ==> s'.tasks[u] == s.tasks[u]
    {
      assert TaskOk(s, u) && TaskOk(s, t);
    }
  }

  /**
   No reader wake-up is lost: in every run, clears, signals, faults and empty
   writes included, a reader left asleep with the mutex free faces an empty queue.
   */
  lemma NoLostReaderWakeup(n: nat, acts: seq<Action>)
    requires Runs(Init(n), acts)
    ensures var s := Final(Init(n), acts);
      s.owner.None? && ReaderAsleep(s) ==> s.len == 0
  {
    InitInv(n);
    RunInv(Init(n), acts);
    var s := Final(Init(n), acts);
    if s.owner.None? && ReaderAsleep(s) {
      var u :| 0 <= u < |s.tasks| && SleepingReader(s.tasks[u]);
      assert TaskOk(s, u);
    }
  }

  /** A writer asleep after a step was asleep before it, or has just gone to sleep on a full queue. */
  lemma NewSleeper(s: State, a: Action, u: nat)
    requires Inv(s) && Enabled(s, a) && u < |s.tasks|
    requires |Next(s, a).tasks| == |s.tasks| && SleepingWriter(Next(s, a).tasks[u])
    ensures SleepingWriter(s.tasks[u]) || (Next(s, a).len == s.len == GLOBALFIFO_SIZE)
  {
    assert TaskOk(s, u) && TaskOk(s, a.t);
  }

  /** Any action but a clear that makes room, or finishes waking, leaves no writer asleep unwarned. */
  lemma RoomIsAnnounced(s: State, a: Action, u: nat)
    requires Inv(s) && Enabled(s, a) && u < |s.tasks| && |Next(s, a).tasks| == |s.tasks|
    requires s.len == GLOBALFIFO_SIZE || WakePending(s, false)
    requires !(a.Step? && s.tasks[a.t].pc.ZeroLen?)
    requires SleepingWriter(s.tasks[u]) && SleepingWriter(Next(s, a).tasks[u])
    ensures Next(s, a).len == GLOBALFIFO_SIZE || WakePending(Next(s, a), false)
  {
    assert TaskOk(s, u) && TaskOk(s, a.t);
  }

  lemma ClearStrands(s: State, a: Action)
    requires Inv(s) && Enabled(s, a) && ClearsUnderSleeper(s, a)
    ensures Stranded(Next(s, a))
  {
    assert TaskOk(s, a.t);
    var u :| 0 <= u < |s.tasks| && SleepingWriter(s.tasks[u]);
    assert SleepingWriter(Next(s, a).tasks[u]);
  }

  /** A writer becomes stranded in exactly one way: FIFO_CLEAR empties the queue under it. */
  lemma OnlyClearStrands(s: State, a: Action)
    requires Inv(s) && Enabled(s, a) && !Stranded(s)
    ensures Stranded(Next(s, a)) <==> ClearsUnderSleeper(s, a)
  {
    if ClearsUnderSleeper(s, a) {
      ClearStrands(s, a);
    } else if Stranded(Next(s, a)) {
      var s' := Next(s, a);
      NextShaped(s, a);
      var u :| 0 <= u < |s'.tasks| && SleepingWriter(s'.tasks[u]);
      NewSleeper(s, a, u);
      RoomIsAnnounced(s, a, u);
    }
  }

  predicate EverStranded(s: State, acts: seq<Action>)
    requires Runs(s, acts)
    decreases |acts|
  {
    Stranded(s) || (acts != [] && EverStranded(Next(s, acts[0]), acts[1..]))
  }

  predicate EverClearsUnderSleeper(s: State, acts: seq<Action>)
    requires Runs(s, acts)
    decreases |acts|
  {
    acts != [] && (ClearsUnderSleeper(s, acts[0]) || EverClearsUnderSleeper(Next(s, acts[0]), acts[1..]))
  }

  lemma {:induction false} StrandedRuns(s: State, acts: seq<Action>)
    requires Inv(s) && Runs(s, acts) && !Stranded(s)
    ensures EverStranded(s, acts) <==> EverClearsUnderSleeper(s, acts)
    ensures !EverStranded(s, acts) ==> !Stranded(Final(s, acts))
    decreases |acts|
  {
    if acts != [] {
      OnlyClearStrands(s, acts[0]);
      NextInv(s, acts[0]);
      if !Stranded(Next(s, acts[0])) {
        StrandedRuns(Next(s, acts[0]), acts[1..]);
      }
    }
  }

  /**
   Exactly when writer wake-ups get lost: a run strands a writer if and only
   if in it some FIFO_CLEAR empties the queue while a writer sleeps.
   */
  lemma LostWriterWakeups(n: nat, acts: seq<Action>)
    requires Runs(Init(n), acts)
    ensures EverStranded(Init(n), acts) <==> EverClearsUnderSleeper(Init(n), acts)
  {
    InitInv(n);
    StrandedRuns(Init(n), acts);
  }

  /** Unless a clear pulled the queue away under a writer, a reader and a writer are never both asleep. */
  lemma NoMutualSleep(n: nat, acts: seq<Action>)
    requires Runs(Init(n), acts) && !EverClearsUnderSleeper(Init(n), acts)
    ensures var s := Final(Init(n), acts); s.owner.None? ==>
      && (WriterAsleep(s) ==> s.len == GLOBALFIFO_SIZE)
      && !(ReaderAsleep(s) && WriterAsleep(s))
  {
    InitInv(n);
    StrandedRuns(Init(n), acts);
    NoLostReaderWakeup(n, acts);
  }

  predicate NoClears(s: State) {
    forall u :: 0 <= u < |s.tasks| ==> s.tasks[u].call.Ioctl? ==> s.tasks[u].call.cmd != FIFO_CLEAR
  }

  predicate NeverClears(acts: seq<Action>) {
    forall i :: 0 <= i < |acts| ==> acts[i].Invoke? ==> acts[i].call.Ioctl? ==> acts[i].call.cmd != FIFO_CLEAR
  }

  lemma StepKeepsCall(s: State, t: nat, choice: Choice)
    requires t < |s.tasks| && CanStep(s, t, choice)
    ensures |Advance(s, t, choice).tasks| == |s.tasks| && Advance(s, t, choice).tasks[t].call == s.tasks[t].call
  {
  }

  /** Only a new invocation changes what a task calls. */
  lemma NextKeepsCalls(s: State, a: Action, u: nat)
    requires Inv(s) && Enabled(s, a) && u < |s.tasks| == |Next(s, a).tasks|
    ensures Next(s, a).tasks[u].call == if a.Invoke? && a.t == u then a.call else s.tasks[u].call
  {
    if a.Step? {
      if u == a.t {
        StepKeepsCall(s, a.t, a.choice);
      } else {
        StepLeavesAlone(s, a.t, a.choice, u);
      }
    }
  }

  lemma {:induction false} WithoutClears(s: State, acts: seq<Action>)
    requires Inv(s) && Runs(s, acts) && NoClears(s) && NeverClears(acts)
    ensures !EverClearsUnderSleeper(s, acts)
    decreases |acts|
  {
    if acts != [] {
      var a, s' := acts[0], Next(s, acts[0]);
      assert TaskOk(s, a.t);
      NextInv(s, a);
      forall u | 0 <= u < |s'.tasks| ensures s'.tasks[u].call.Ioctl? ==> s'.tasks[u].call.cmd != FIFO_CLEAR {
        NextShaped(s, a);
        NextKeepsCalls(s, a, u);
      }
      WithoutClears(s', acts[1..]);
    }
  }

  /** In particular in runs in which no task calls FIFO_CLEAR. */
  lemma NoMutualSleepWithoutClear(n: nat, acts: seq<Action>)
    requires Runs(Init(n), acts) && NeverClears(acts)
    ensures var s := Final(Init(n), acts);
      s.owner.None? ==> !(ReaderAsleep(s) && WriterAsleep(s))
  {
    InitInv(n);
    WithoutClears(Init(n), acts);
    NoMutualSleep(n, acts);
  }

  /** No task can take a step without a new call, a signal or a stray wake-up. */
  predicate Quiet(s: State) {
    forall t :: 0 <= t < |s.tasks| ==> !CanStep(s, t, Clean)
  }

  /**
   Deadlock freedom: when nothing can move, the mutex is free and every task
   is outside the driver or asleep for cause - all sleepers readers of an empty
   queue, or all of them writers to a full one.
   */
  lemma QuietForCause(n: nat, acts: seq<Action>)
    requires Runs(Init(n), acts) && !EverClearsUnderSleeper(Init(n), acts) && Quiet(Final(Init(n), acts))
    ensures var s := Final(Init(n), acts);
      && s.owner.None?
      && (forall t :: 0 <= t < |s.tasks| ==> s.tasks[t].pc.Idle? || Asleep(s.tasks[t]))
      && (ReaderAsleep(s) ==> s.len == 0 && !WriterAsleep(s))
      && (WriterAsleep(s) ==> s.len == GLOBALFIFO_SIZE && !ReaderAsleep(s))
  {
    InitInv(n);
    RunInv(Init(n), acts);
    var s := Final(Init(n), acts);
    if s.owner.Some? {
      HolderCanStep(s, s.owner.value);
      assert false;
    }
    forall t | 0 <= t < |s.tasks|
      ensures s.tasks[t].pc.Idle? || Asleep(s.tasks[t])
    {
      assert TaskOk(s, t);
      assert !CanStep(s, t, Clean);
    }
    NoMutualSleep(n, acts);
    NoLostReaderWakeup(n, acts);
  }
}
