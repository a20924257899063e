/** The select server over whole runs: every descriptor gets its answers, and the table never fills up. */
module SelectRuns {
  import opened SelectSpec

  /** The environment keeps to its part, round by round, and no round finds the table full. */
  predicate Run(s: Server, inputs: seq<Input>)
    requires Valid(s)
    decreases |inputs|
  {
    inputs == [] || (
      && Possible(s, inputs[0]) && !TableFull(s, inputs[0])
      && (RoundValid(s, inputs[0]); Run(Round(s, inputs[0]).0, inputs[1..])))
  }

  function Last(s: Server, inputs: seq<Input>): (s': Server)
    requires Valid(s) && Run(s, inputs)
    ensures Valid(s')
    decreases |inputs|
  {
    if inputs == [] then s
    else
      RoundValid(s, inputs[0]);
      Last(Round(s, inputs[0]).0, inputs[1..])
  }

  /** Everything the server does, in order. */
  function Events(s: Server, inputs: seq<Input>): seq<Event>
    requires Valid(s) && Run(s, inputs)
    decreases |inputs|
  {
    if inputs == [] then []
    else
      RoundValid(s, inputs[0]);
      Round(s, inputs[0]).1 + Events(Round(s, inputs[0]).0, inputs[1..])
  }

  /** Everything the environment does to one descriptor, in order. */
  function AllDelivered(s: Server, inputs: seq<Input>, fd: int): seq<Delivery>
    requires Valid(s) && Run(s, inputs)
    decreases |inputs|
  {
    if inputs == [] then []
    else
      RoundValid(s, inputs[0]);
      Delivered(s, inputs[0], fd) + AllDelivered(Round(s, inputs[0]).0, inputs[1..], fd)
  }

  /**
   Over every run each descriptor is answered delivery by delivery, as if it
   were the only one, although all clients share one buffer and one table.
   */
  lemma {:induction false} RunServesEach(s: Server, inputs: seq<Input>, fd: int)
    requires Valid(s) && Run(s, inputs)
    ensures Of(fd, Events(s, inputs)) == Replies(fd, AllDelivered(s, inputs, fd))
    decreases |inputs|
  {
    if inputs != [] {
      RoundValid(s, inputs[0]);
      var s' := Round(s, inputs[0]).0;
      RoundServesEach(s, inputs[0], fd);
      RunServesEach(s', inputs[1..], fd);
      OfAppend(fd, Round(s, inputs[0]).1, Events(s', inputs[1..]));
      RepliesAppend(fd, Delivered(s, inputs[0], fd), AllDelivered(s', inputs[1..], fd));
    }
  }

  // The table is large enough.

  /** Every watched descriptor fits a descriptor set. */
  predicate InRange(s: Server) {
    forall fd :: fd in s.allset ==> fd < FD_SETSIZE
  }

  function UpTo(n: nat): (r: set<int>)
    ensures |r| == n && forall x :: x in r <==> 0 <= x < n
  {
    if n == 0 then {} else UpTo(n - 1) + {n - 1}
  }

  /** The last entry adds its descriptor to those of the others. */
  lemma ClientsLast(table: seq<int>)
    requires table != [] && Distinct(table) && table[|table| - 1] >= 0
    ensures var n := |table| - 1;
      Clients(table) == Clients(table[..n]) + {table[n]} && table[n] !in Clients(table[..n])
  {
    var n := |table| - 1;
    var init, fd := table[..n], table[n];
    forall x | x in Clients(table) ensures x == fd || x in Clients(init) {
      var k :| 0 <= k < |table| && table[k] >= 0 && table[k] == x;
      if k < n {
        assert init[k] == x;
      }
    }
    forall x | x in Clients(init) ensures x in Clients(table) && x != fd {
      var k :| 0 <= k < |init| && init[k] >= 0 && init[k] == x;
      assert table[k] == x;
    }
    assert table[n] in Clients(table);
  }

  lemma {:induction false} DistinctCount(table: seq<int>)
    requires Distinct(table) && forall k :: 0 <= k < |table| ==> table[k] >= 0
    ensures |Clients(table)| == |table|
  {
    if table == [] {
      assert Clients(table) == {};
    } else {
      ClientsLast(table);
      DistinctCount(table[..|table| - 1]);
    }
  }

  /** Pigeonhole: fewer than `n` numbers below `n` when one of them is taken. */
  lemma CountBelow(a: set<int>, n: nat, taken: int)
    requires 0 <= taken < n && forall x :: x in a ==> 0 <= x < n && x != taken
    ensures |a| <= n - 1
  {
    var room := UpTo(n) - {taken};
    assert UpTo(n) == room + {taken};
    assert room == a + (room - a);
  }

  /** The clients and the listener are different numbers below FD_SETSIZE. */
  lemma ClientsFit(s: Server)
    requires Valid(s) && InRange(s)
    ensures |Clients(s.table)| <= FD_SETSIZE - 1
  {
    CountBelow(Clients(s.table), FD_SETSIZE, s.listenfd);
  }

  /** The "too many clients" exit cannot be reached while descriptors fit FD_SET. */
  lemma TableNeverFull(s: Server, input: Input)
    requires Valid(s) && Possible(s, input) && InRange(s)
    ensures !TableFull(s, input)
  {
    ClientsFit(s);
    if TableFull(s, input) {
      DistinctCount(s.table);
      assert false;
    }
  }

  /** The environment's part alone: readiness, chunks and fresh descriptors in range. */
  predicate InRangeRun(s: Server, inputs: seq<Input>)
    requires Valid(s) && InRange(s)
    decreases |inputs|
  {
    inputs == [] || (
      && Possible(s, inputs[0])
      && (s.listenfd in inputs[0].ready ==> inputs[0].newfd < FD_SETSIZE)
      && (RoundInRange(s, inputs[0]); InRangeRun(Round(s, inputs[0]).0, inputs[1..])))
  }

  lemma {:induction false} ServeShrinks(s: Server, i: nat, input: Input)
    requires Valid(s) && i <= |s.table|
    requires forall fd :: fd in input.ready && fd != s.listenfd ==> fd in input.chunks
    ensures Serve(s, i, input).0.allset <= s.allset
    decreases |s.table| - i
  {
    if i < |s.table| {
      var fd := s.table[i];
      if fd >= 0 && fd in input.ready && input.chunks[fd] == [] {
        CloseValid(s, i);
        ServeShrinks(s.(table := s.table[i := -1], allset := s.allset - {fd}), i + 1, input);
      } else {
        ServeShrinks(s, i + 1, input);
      }
    }
  }

  lemma RoundInRange(s: Server, input: Input)
    requires Valid(s) && Possible(s, input) && InRange(s)
    requires s.listenfd in input.ready ==> input.newfd < FD_SETSIZE
    ensures !TableFull(s, input) && Valid(Round(s, input).0) && InRange(Round(s, input).0)
  {
    TableNeverFull(s, input);
    RoundValid(s, input);
    AcceptValid(s, input);
    ServeShrinks(Accept(s, input), 0, input);
  }

  /** So a run in range never stops for lack of room, and keeps the four views in agreement. */
  lemma {:induction false} RunsInRange(s: Server, inputs: seq<Input>)
    requires Valid(s) && InRange(s) && InRangeRun(s, inputs)
    ensures Run(s, inputs) && Valid(Last(s, inputs)) && InRange(Last(s, inputs))
    decreases |inputs|
  {
    if inputs != [] {
      RoundInRange(s, inputs[0]);
      RoundValid(s, inputs[0]);
      RunsInRange(Round(s, inputs[0]).0, inputs[1..]);
    }
  }
}
