/** The select server as its code keeps it, one round of its event loop at a time. */
module SelectServer {
  import opened Prelude
  import opened SelectSpec
  import opened ForkServer

  /** How a round ends: the loop goes on, select failed (exit -1) or the table was full (exit 1). */
  datatype Outcome = Continue | SelectError | TooManyClients

  /** select's return: an error, or the ready set left in `rset`. */
  datatype Selected = Failed | Ready(input: Input)

  class SelectServer {
    const listenfd: int
    const client: array<int>
    const buf: array<byte>
    var maxi: int
    var maxfd: int
    var allset: set<int>

    ghost function View(): Server
      reads this, client
    {
      Server(listenfd, client[..], maxi, maxfd, allset)
    }

    ghost predicate Ok()
      reads this, client
    {
      Valid(View()) && buf.Length == MAXLINE
    }

    constructor (fd: int)
      requires fd >= 0
      ensures Ok() && fresh(client) && fresh(buf)
      ensures View() == Server(fd, seq(FD_SETSIZE, _ => -1), -1, fd, {fd})
    {
      listenfd := fd;
      maxfd := fd;
      maxi := -1;
      client := new int[FD_SETSIZE](_ => -1);
      buf := new byte[MAXLINE](_ => 0);
      allset := {fd};
      new;
      assert Clients(client[..]) == {};
      assert client[..] == seq(FD_SETSIZE, _ => -1);
    }

    /** The scan for a free entry, and the bookkeeping of a new connection. */
    method AcceptClient(connfd: int, ghost input: Input) returns (full: bool)
      requires Ok() && Possible(View(), input) && listenfd in input.ready && connfd == input.newfd
      modifies this, client
      ensures full <==> TableFull(old(View()), input)
      ensures full ==> View() == old(View())
      ensures !full ==> Ok() && View() == Accept(old(View()), input)
    {
      ghost var s := View();
      var i := 0;
      while i < FD_SETSIZE
        invariant 0 <= i <= FD_SETSIZE
        invariant forall k :: 0 <= k < i ==> client[k] >= 0
        invariant View() == s
      {
        if client[i] < 0 {
          break;
        }
        i := i + 1;
      }
      assert FirstFree(s.table, 0) == i;
      if i == FD_SETSIZE {
        return true;
      }
      AcceptValid(s, input);
      client[i] := connfd;
      allset := allset + {connfd};
      if connfd > maxfd {
        maxfd := connfd;
      }
      if i > maxi {
        maxi := i;
      }
      assert client[..] == s.table[i := connfd];
      return false;
    }

    /** Serves the client of entry `i`, which is ready: reads into the shared buffer, then closes or answers. */
    method ServeClient(i: nat, chunk: seq<byte>) returns (event: Event)
      requires Ok() && i < client.Length && client[i] >= 0 && |chunk| <= MAXLINE
      modifies this`allset, client, buf
      ensures Ok()
      ensures event == Reply(old(client[i]), chunk) && event.fd == old(client[i])
      ensures if chunk == [] then event.Closed? else event.Echo? && InCapitals(chunk, event.bytes)
      ensures View() == if chunk == []
        then old(View()).(table := old(View()).table[i := -1], allset := old(allset) - {old(client[i])})
        else old(View())
    {
      ghost var s := View();
      var sockfd := client[i];
      var n := ReadInto(buf, chunk);
      if n == 0 {
        CloseValid(s, i);
        allset := allset - {sockfd};
        client[i] := -1;
        assert client[..] == s.table[i := -1];
        event := Closed(sockfd);
      } else {
        UpperInPlace(buf, n);
        event := Echo(sockfd, buf[..n]);
      }
    }

    /** The loop over the table up to `maxi`, stopped as soon as `nready` descriptors have been served. */
    method ServeReady(input: Input, nready: nat) returns (events: seq<Event>)
      requires Ok() && Answerable(View(), input)
      requires nready == |input.ready * Clients(client[..])|
      modifies this`allset, client, buf
      ensures Ok() && (View(), events) == old(Serve(View(), 0, input))
    {
      ghost var s := View();
      var left := nready;
      events := [];
      var i := 0;
      ProgressStarts(s, input);
      while i <= maxi
        invariant 0 <= i <= maxi + 1 <= client.Length && Ok() && maxi == s.maxi
        invariant Progress(s, View(), i, input, left, events)
      {
        var last;
        left, events, last := ServeEntry(i, input, left, events, s);
        i := i + 1;
        if last {
          break;
        }
      }
      ProgressEnds(s, View(), i, input, left, events);
    }

    /** One turn of that loop; `last` says that the last ready descriptor was served. */
    method ServeEntry(i: nat, input: Input, left: int, events: seq<Event>, ghost s: Server)
        returns (left': int, events': seq<Event>, last: bool)
      requires Ok() && i < client.Length && Progress(s, View(), i, input, left, events)
      modifies this`allset, client, buf
      ensures Ok() && Progress(s, View(), i + 1, input, left', events') && (last ==> left' == 0)
    {
      ghost var v := View();
      var sockfd := client[i];
      left', events', last := left, events, false;
      if sockfd < 0 {
        ProgressSkips(s, v, i, input, left, events);
      } else if sockfd in input.ready {
        var event := ServeClient(i, input.chunks[sockfd]);
        ProgressServes(s, v, View(), i, input, left, events);
        events' := events + [event];
        left' := left - 1;
        last := left' == 0;
      } else {
        ProgressSkips(s, v, i, input, left, events);
      }
    }

    /** One round of the event loop; the two early exits are taken when no ready descriptor is left. */
    method Loop(sel: Selected) returns (outcome: Outcome, events: seq<Event>)
      requires Ok() && (sel.Ready? ==> Possible(View(), sel.input))
      modifies this, client, buf
      ensures outcome.SelectError? <==> sel.Failed?
      ensures outcome.TooManyClients? <==> sel.Ready? && TableFull(old(View()), sel.input)
      ensures !outcome.Continue? ==> View() == old(View()) && events == []
      ensures outcome.Continue? ==> Ok() && (View(), events) == Round(old(View()), sel.input)
    {
      if sel.Failed? {
        return SelectError, [];
      }
      var input := sel.input;
      ghost var s := View();
      var nready := |input.ready|;
      events := [];
      if listenfd in input.ready {
        var full := AcceptClient(input.newfd, input);
        if full {
          return TooManyClients, [];
        }
        events := [Accepted(input.newfd)];
        nready := nready - 1;
        AfterAccept(s, input);
        ReadyCount(s, input);
        if nready == 0 {
          NothingElseReady(s, input);
          return Continue, events;
        }
      } else {
        AfterAccept(s, input);
        ReadyCount(s, input);
      }
      var served := ServeReady(input, nready);
      events := events + served;
      outcome := Continue;
    }
  }

  /** A round is the accept followed by the scan. */
  lemma AfterAccept(s: Server, input: Input)
    requires Valid(s) && Possible(s, input) && !TableFull(s, input)
    ensures var s' := Accept(s, input);
      && Valid(s') && Answerable(s', input)
      && Round(s, input).0 == Serve(s', 0, input).0
      && Round(s, input).1 == Opening(s, input) + Serve(s', 0, input).1
  {
    AcceptValid(s, input);
  }

  lemma QuietScan(s: Server, input: Input)
    requires Valid(s) && Answerable(s, input) && |input.ready * Clients(s.table)| == 0
    ensures Serve(s, 0, input) == (s, [])
  {
    assert s.table[0..] == s.table;
    assert Unserved(s, 0, input) == {};
    NoneLeft(s, 0, input);
    ServeNothing(s, 0, input);
  }

  lemma ReadyCount(s: Server, input: Input)
    requires Valid(s) && Possible(s, input) && !TableFull(s, input)
    ensures |input.ready * Clients(Accept(s, input).table)| == |input.ready| - |Opening(s, input)|
  {
    ReadyAfterAccept(s, input);
  }

  lemma NothingElseReady(s: Server, input: Input)
    requires Valid(s) && Possible(s, input) && !TableFull(s, input)
    requires |input.ready| == |Opening(s, input)|
    ensures Round(s, input) == (Accept(s, input), Opening(s, input))
  {
    ReadyCount(s, input);
    QuietRoundState(s, input);
    QuietRoundEvents(s, input);
  }

  lemma QuietRoundState(s: Server, input: Input)
    requires Valid(s) && Possible(s, input) && !TableFull(s, input)
    requires |input.ready * Clients(Accept(s, input).table)| == 0
    ensures Round(s, input).0 == Accept(s, input)
  {
    AfterAccept(s, input);
    QuietScan(Accept(s, input), input);
  }

  lemma QuietRoundEvents(s: Server, input: Input)
    requires Valid(s) && Possible(s, input) && !TableFull(s, input)
    requires |input.ready * Clients(Accept(s, input).table)| == 0
    ensures Round(s, input).1 == Opening(s, input)
  {
    AfterAccept(s, input);
    QuietScan(Accept(s, input), input);
    assert Round(s, input).1 == Opening(s, input) + [];
  }

  predicate Answerable(s: Server, input: Input) {
    forall fd :: fd in input.ready && fd != s.listenfd ==> fd in input.chunks && |input.chunks[fd]| <= MAXLINE
  }

  lemma ReadySets(ready: set<int>, l: int, clients: set<int>, more: set<int>)
    requires ready <= {l} + clients && l !in clients && l !in more && ready !! more
    ensures ready * (clients + more) == ready - {l}
    ensures |ready - {l}| == |ready| - (if l in ready then 1 else 0)
  {
    if l in ready {
      assert ready == (ready - {l}) + {l};
    } else {
      assert ready == ready - {l};
    }
  }

  /** After the accept the ready clients are the ready descriptors but the listener, without the new client. */
  lemma ReadyAfterAccept(s: Server, input: Input)
    requires Valid(s) && Possible(s, input) && !TableFull(s, input)
    ensures input.ready * Clients(Accept(s, input).table) == input.ready - {s.listenfd}
    ensures |input.ready - {s.listenfd}| == |input.ready| - (if s.listenfd in input.ready then 1 else 0)
  {
    var opens := s.listenfd in input.ready;
    if opens {
      ClientsUpdate(s.table, FirstFree(s.table, 0), input.newfd);
    }
    var more := if opens then {input.newfd} else {};
    assert Clients(Accept(s, input).table) == Clients(s.table) + more;
    ReadySets(input.ready, s.listenfd, Clients(s.table), more);
  }

  /**
   The loop invariant of the scan: what is left of the full scan completes the
   events so far, and `left` counts the ready clients not yet served.
   */
  ghost predicate Progress(s: Server, v: Server, i: nat, input: Input, left: int, events: seq<Event>) {
    && Valid(s) && Valid(v) && v.listenfd == s.listenfd && i <= |v.table| && Answerable(v, input)
    && left == |Unserved(v, i, input)|
    && Serve(s, 0, input).0 == Serve(v, i, input).0
    && Serve(s, 0, input).1 == events + Serve(v, i, input).1
  }

  lemma ProgressStarts(s: Server, input: Input)
    requires Valid(s) && Answerable(s, input)
    ensures Progress(s, s, 0, input, |input.ready * Clients(s.table)|, [])
  {
    assert s.table[0..] == s.table;
  }

  lemma ProgressSkips(s: Server, v: Server, i: nat, input: Input, left: int, events: seq<Event>)
    requires Progress(s, v, i, input, left, events) && i < |v.table|
    requires !(v.table[i] >= 0 && v.table[i] in input.ready)
    ensures Progress(s, v, i + 1, input, left, events)
  {
    UnservedStep(v, i, input);
  }

  lemma ServeStep(v: Server, v': Server, i: nat, input: Input)
    requires Valid(v) && Answerable(v, input) && i < |v.table| && v.table[i] >= 0 && v.table[i] in input.ready
    requires v' == if input.chunks[v.table[i]] == []
      then v.(table := v.table[i := -1], allset := v.allset - {v.table[i]}) else v
    requires Valid(v')
    ensures Serve(v, i, input).0 == Serve(v', i + 1, input).0
    ensures Serve(v, i, input).1 == [Reply(v.table[i], input.chunks[v.table[i]])] + Serve(v', i + 1, input).1
  {
  }

  lemma ProgressServes(s: Server, v: Server, v': Server, i: nat, input: Input, left: int, events: seq<Event>)
    requires Progress(s, v, i, input, left, events) && i < |v.table| && Valid(v')
    requires v.table[i] >= 0 && v.table[i] in input.ready
    requires v' == if input.chunks[v.table[i]] == []
      then v.(table := v.table[i := -1], allset := v.allset - {v.table[i]}) else v
    ensures Progress(s, v', i + 1, input, left - 1, events + [Reply(v.table[i], input.chunks[v.table[i]])])
  {
    UnservedStep(v, i, input);
    UnservedFrame(v, v', i + 1, input);
    ServeStep(v, v', i, input);
    var event, rest := Reply(v.table[i], input.chunks[v.table[i]]), Serve(v', i + 1, input).1;
    assert events + ([event] + rest) == (events + [event]) + rest;
  }

  /** With nothing left to serve, or nothing but free entries ahead, the full scan has been done. */
  lemma ProgressEnds(s: Server, v: Server, i: nat, input: Input, left: int, events: seq<Event>)
    requires Progress(s, v, i, input, left, events) && (left == 0 || i > v.maxi)
    ensures (v, events) == Serve(s, 0, input)
  {
    if left == 0 {
      assert Unserved(v, i, input) == {};
      NoneLeft(v, i, input);
    }
    ServeNothing(v, i, input);
    assert events + [] == events;
  }

  /** The ready clients of the entries from `i` on. */
  function Unserved(s: Server, i: nat, input: Input): set<int>
    requires i <= |s.table|
  {
    input.ready * Clients(s.table[i..])
  }

  lemma UnservedStep(s: Server, i: nat, input: Input)
    requires Valid(s) && i < |s.table|
    ensures s.table[i] >= 0 && s.table[i] in input.ready ==>
      |Unserved(s, i + 1, input)| == |Unserved(s, i, input)| - 1
    ensures !(s.table[i] >= 0 && s.table[i] in input.ready) ==>
      Unserved(s, i + 1, input) == Unserved(s, i, input)
  {
    var fd, here, there := s.table[i], s.table[i..], s.table[i + 1..];
    forall x | x in Clients(here) ensures x == fd || x in Clients(there) {
      var k :| 0 <= k < |here| && here[k] >= 0 && here[k] == x;
      if k > 0 {
        assert there[k - 1] == x;
      }
    }
    forall x | x in Clients(there) ensures x in Clients(here) && x != fd {
      var k :| 0 <= k < |there| && there[k] >= 0 && there[k] == x;
      assert here[k + 1] == x && s.table[i + 1 + k] == x;
    }
    if fd >= 0 {
      assert here[0] in Clients(here);
      if fd in input.ready {
        assert Unserved(s, i, input) == Unserved(s, i + 1, input) + {fd};
      }
    }
  }

  lemma UnservedFrame(s: Server, s': Server, i: nat, input: Input)
    requires i <= |s.table| == |s'.table| && s.table[i..] == s'.table[i..]
    ensures Unserved(s, i, input) == Unserved(s', i, input)
  {
  }

  lemma NoneLeft(s: Server, i: nat, input: Input)
    requires i <= |s.table| && Unserved(s, i, input) == {}
    ensures NoneReady(s, i, input)
  {
    forall k | i <= k < |s.table| && s.table[k] >= 0 ensures s.table[k] !in input.ready {
      var x, later := s.table[k], Clients(s.table[i..]);
      assert s.table[i..][k - i] in later;
      assert x in input.ready * later <==> x in input.ready && x in later;
    }
  }
}
