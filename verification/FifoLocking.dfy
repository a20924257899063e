/** Lock discipline of the globalfifo driver. */
module FifoLocking {
  import opened Prelude
  import opened FifoSpec
  import opened FifoProtocol
  import opened FifoInvariant

  /** Task `t` is about to take the mutex. */
  predicate Takes(s: State, a: Action, t: nat) {
    a.t == t < |s.tasks| && a.Step? && (s.tasks[t].pc.LockFirst? || s.tasks[t].pc.LockAgain?)
  }

  /** Task `t` is about to release the mutex. */
  predicate Releases(s: State, a: Action, t: nat) {
    a.t == t < |s.tasks| && a.Step? && (s.tasks[t].pc.Unlock? || s.tasks[t].pc.UnlockSleep?)
  }

  function Taken(s: State, acts: seq<Action>, t: nat): nat
    requires Runs(s, acts)
    decreases |acts|
  {
    if acts == [] then 0
    else (if Takes(s, acts[0], t) then 1 else 0) + Taken(Next(s, acts[0]), acts[1..], t)
  }

  function Released(s: State, acts: seq<Action>, t: nat): nat
    requires Runs(s, acts)
    decreases |acts|
  {
    if acts == [] then 0
    else (if Releases(s, acts[0], t) then 1 else 0) + Released(Next(s, acts[0]), acts[1..], t)
  }

  function Held(s: State, t: nat): nat {
    if s.owner == Some(t) then 1 else 0
  }

  /** The mutex is taken only when free and released only by its holder. */
  lemma NextHeld(s: State, a: Action, t: nat)
    requires Inv(s) && Enabled(s, a)
    ensures Takes(s, a, t) ==> s.owner.None?
    ensures Releases(s, a, t) ==> s.owner == Some(t)
    ensures Held(Next(s, a), t) + (if Releases(s, a, t) then 1 else 0) == Held(s, t) + (if Takes(s, a, t) then 1 else 0)
  {
    assert TaskOk(s, a.t);
  }

  /** Over every run each task has released the mutex as often as it took it, unless it holds it now. */
  lemma {:induction false} LockBalance(s: State, acts: seq<Action>, t: nat)
    requires Inv(s) && Runs(s, acts)
    ensures Held(s, t) + Taken(s, acts, t) == Released(s, acts, t) + Held(Final(s, acts), t)
    decreases |acts|
  {
    if acts != [] {
      NextHeld(s, acts[0], t);
      NextInv(s, acts[0]);
      LockBalance(Next(s, acts[0]), acts[1..], t);
    }
  }

  /**
   Every return path, the one of an interrupted sleeper included, has released
   the mutex exactly as often as it was taken, and no two tasks are between a
   lock and its unlock.
   */
  lemma EveryReturnIsUnlocked(n: nat, acts: seq<Action>, t: nat, u: nat)
    requires Runs(Init(n), acts) && t < n && u < n
    ensures var s := Final(Init(n), acts);
      && |s.tasks| == n
      && (s.tasks[t].pc.Return? || s.tasks[t].pc.Idle? || s.tasks[t].pc.Dequeue? ==>
            Taken(Init(n), acts, t) == Released(Init(n), acts, t) && s.owner != Some(t))
      && (Holds(s.tasks[t].pc) && Holds(s.tasks[u].pc) ==> t == u)
  {
    InitInv(n);
    RunInv(Init(n), acts);
    LockBalance(Init(n), acts, t);
    var s := Final(Init(n), acts);
    assert TaskOk(s, t) && TaskOk(s, u);
  }

  /** Only the mutex holder writes the buffer or the length. */
  lemma OnlyHolderWrites(s: State, a: Action)
    requires Inv(s) && Enabled(s, a)
    requires Next(s, a).mem != s.mem || Next(s, a).len != s.len
    ensures a.Step? && s.owner == Some(a.t)
  {
    assert TaskOk(s, a.t);
  }

  /** Only the mutex holder reads them: any other action is the same whatever they are. */
  lemma OnlyHolderReads(s: State, a: Action, mem: seq<byte>, len: nat)
    requires Inv(s) && Enabled(s, a) && !(a.Step? && s.owner == Some(a.t))
    requires |mem| == GLOBALFIFO_SIZE && len <= GLOBALFIFO_SIZE
    ensures var other := s.(mem := mem, len := len);
      Enabled(other, a) && Next(other, a) == Next(s, a).(mem := mem, len := len)
  {
    assert TaskOk(s, a.t);
  }

  /** The mutex holder is never blocked. */
  lemma HolderCanStep(s: State, t: nat)
    requires Inv(s) && s.owner == Some(t)
    ensures t < |s.tasks| && CanStep(s, t, Clean)
  {
    assert TaskOk(s, t);
  }
}
