/**
 The select server as a value: a table of client descriptors with its three
 redundant summaries, and rounds in which the environment says which
 descriptors are ready, what they deliver and which descriptor accept returns.
 Its yardstick is the server that forks one child per connection.
 */
module SelectSpec {
  import opened Prelude

  const MAXLINE: nat := 80
  const FD_SETSIZE: nat := 1024

  /** toupper of the C locale. */
  function ToUpper(b: byte): byte {
    if 'a' as int <= b as int <= 'z' as int then b - 32 else b
  }

  function Upper(s: seq<byte>): (r: seq<byte>)
    ensures |r| == |s| && forall k :: 0 <= k < |s| ==> r[k] == ToUpper(s[k])
  {
    seq(|s|, k requires 0 <= k < |s| => ToUpper(s[k]))
  }

  predicate SmallLetter(b: byte) {
    'a' as int <= b as int <= 'z' as int
  }

  /** The same text in capitals: the j-th small letter is the j-th capital, and all else as it was. */
  predicate InCapitals(text: seq<byte>, r: seq<byte>) {
    && |r| == |text|
    && (forall k :: 0 <= k < |r| && SmallLetter(text[k]) ==>
          r[k] as int - 'A' as int == text[k] as int - 'a' as int)
    && (forall k :: 0 <= k < |r| && !SmallLetter(text[k]) ==> r[k] == text[k])
  }

  /** What upper case means: no small letter is left, letters keep their place in the alphabet, and once is enough. */
  lemma UpperMeans(text: seq<byte>)
    ensures InCapitals(text, Upper(text))
    ensures forall k :: 0 <= k < |text| ==> !SmallLetter(Upper(text)[k])
    ensures Upper(Upper(text)) == Upper(text)
  {
    assert forall k :: 0 <= k < |text| ==> ToUpper(ToUpper(text[k])) == ToUpper(text[k]);
  }

  datatype Event = Accepted(fd: int) | Echo(fd: int, bytes: seq<byte>) | Closed(fd: int)

  /** One round's environment: the ready set select leaves, what each ready client's read returns, accept's result. */
  datatype Input = Input(ready: set<int>, chunks: map<int, seq<byte>>, newfd: int)

  /** `client[]`, `maxi`, `maxfd` and `allset`. */
  datatype Server = Server(listenfd: int, table: seq<int>, maxi: int, maxfd: int, allset: set<int>)

  function Clients(table: seq<int>): set<int> {
    set i | 0 <= i < |table| && table[i] >= 0 :: table[i]
  }

  predicate Distinct(table: seq<int>) {
    forall i, j :: 0 <= i < j < |table| && table[i] >= 0 ==> table[i] != table[j]
  }

  /** The four views agree. */
  predicate Valid(s: Server) {
    && s.listenfd >= 0 && |s.table| == FD_SETSIZE
    && (forall i :: 0 <= i < |s.table| ==> s.table[i] >= -1 && s.table[i] != s.listenfd)
    && Distinct(s.table)
    && s.allset == {s.listenfd} + Clients(s.table)
    && -1 <= s.maxi < |s.table|
    && (forall i :: s.maxi < i < |s.table| ==> s.table[i] == -1)
    && (forall fd :: fd in s.allset ==> fd <= s.maxfd)
  }

  /**
   What the environment may do: select only reports watched descriptors, read
   at most fills the buffer, accept returns a new descriptor.
   */
  predicate Possible(s: Server, input: Input) {
    && input.ready <= s.allset
    && (forall fd :: fd in input.ready && fd != s.listenfd ==> fd in input.chunks && |input.chunks[fd]| <= MAXLINE)
    && (s.listenfd in input.ready ==> input.newfd >= 0 && input.newfd !in s.allset)
  }

  function FirstFree(table: seq<int>, i: nat): (r: nat)
    requires i <= |table|
    ensures i <= r <= |table| && (r < |table| ==> table[r] < 0)
    ensures forall k :: i <= k < r ==> table[k] >= 0
    decreases |table| - i
  {
    if i == |table| || table[i] < 0 then i else FirstFree(table, i + 1)
  }

  /** A new connection finds no free entry: the server gives up. */
  predicate TableFull(s: Server, input: Input) {
    s.listenfd in input.ready && FirstFree(s.table, 0) == |s.table|
  }

  function Accept(s: Server, input: Input): Server
    requires !TableFull(s, input)
  {
    if s.listenfd in input.ready then
      var i := FirstFree(s.table, 0);
      s.(table := s.table[i := input.newfd], allset := s.allset + {input.newfd},
         maxfd := Max(s.maxfd, input.newfd), maxi := Max(s.maxi, i))
    else s
  }

  function Reply(fd: int, chunk: seq<byte>): Event {
    if chunk == [] then Closed(fd) else Echo(fd, Upper(chunk))
  }

  /** Serving every ready client by a full scan of the table from entry `i` on: no early exit, no high-water mark. */
  function Serve(s: Server, i: nat, input: Input): (Server, seq<Event>)
    requires i <= |s.table| && s.listenfd >= 0
    requires forall fd :: fd in input.ready && fd != s.listenfd ==> fd in input.chunks
    requires forall k :: 0 <= k < |s.table| ==> s.table[k] != s.listenfd
    decreases |s.table| - i
  {
    if i == |s.table| then (s, [])
    else
      var fd := s.table[i];
      if fd >= 0 && fd in input.ready then
        var chunk := input.chunks[fd];
        var s' := if chunk == [] then s.(table := s.table[i := -1], allset := s.allset - {fd}) else s;
        var (last, events) := Serve(s', i + 1, input);
        (last, [Reply(fd, chunk)] + events)
      else Serve(s, i + 1, input)
  }

  function Opening(s: Server, input: Input): seq<Event> {
    if s.listenfd in input.ready then [Accepted(input.newfd)] else []
  }

  /** A whole round. */
  function Round(s: Server, input: Input): (Server, seq<Event>)
    requires Valid(s) && Possible(s, input) && !TableFull(s, input)
  {
    var (last, events) := Serve(Accept(s, input), 0, input);
    (last, Opening(s, input) + events)
  }

  lemma AcceptValid(s: Server, input: Input)
    requires Valid(s) && Possible(s, input) && !TableFull(s, input)
    ensures Valid(Accept(s, input))
  {
    if s.listenfd in input.ready {
      var i, s' := FirstFree(s.table, 0), Accept(s, input);
      ClientsUpdate(s.table, i, input.newfd);
    }
  }

  /** Filling a free entry adds its descriptor; freeing an entry removes it. */
  lemma ClientsUpdate(table: seq<int>, i: nat, fd: int)
    requires i < |table| && Distinct(table) && fd !in Clients(table)
    requires table[i] < 0 || fd < 0
    ensures fd >= 0 ==> Clients(table[i := fd]) == Clients(table) + {fd}
    ensures fd < 0 && table[i] >= 0 ==> Clients(table[i := fd]) == Clients(table) - {table[i]}
    ensures Distinct(table[i := fd])
  {
    var t := table[i := fd];
    forall x | x in Clients(table) && x != table[i] ensures x in Clients(t) {
      var k :| 0 <= k < |table| && table[k] >= 0 && table[k] == x;
      assert t[k] == x;
    }
    forall x | x in Clients(t) && x != fd ensures x in Clients(table) && x != table[i] {
      var k :| 0 <= k < |t| && t[k] >= 0 && t[k] == x;
      assert table[k] == x;
    }
    if fd >= 0 {
      assert t[i] in Clients(t);
      assert Clients(t) == Clients(table) + {fd};
    } else if table[i] >= 0 {
      assert Clients(t) == Clients(table) - {table[i]};
    }
    forall a, b | 0 <= a < b < |t| && t[a] >= 0 ensures t[a] != t[b] {
      if b == i {
        assert table[a] in Clients(table);
      } else if a == i {
        assert table[b] >= 0 ==> table[b] in Clients(table);
      }
    }
  }

  lemma CloseValid(s: Server, i: nat)
    requires Valid(s) && i < |s.table| && s.table[i] >= 0
    ensures Valid(s.(table := s.table[i := -1], allset := s.allset - {s.table[i]}))
  {
    ClientsUpdate(s.table, i, -1);
  }

  lemma {:induction false} ServeValid(s: Server, i: nat, input: Input)
    requires Valid(s) && i <= |s.table|
    requires forall fd :: fd in input.ready && fd != s.listenfd ==> fd in input.chunks
    ensures Valid(Serve(s, i, input).0) && Serve(s, i, input).0.listenfd == s.listenfd
    decreases |s.table| - i
  {
    if i < |s.table| {
      var fd := s.table[i];
      if fd >= 0 && fd in input.ready && input.chunks[fd] == [] {
        CloseValid(s, i);
        ServeValid(s.(table := s.table[i := -1], allset := s.allset - {fd}), i + 1, input);
      } else {
        ServeValid(s, i + 1, input);
      }
    }
  }

  /** The four views still agree after every round. */
  lemma RoundValid(s: Server, input: Input)
    requires Valid(s) && Possible(s, input) && !TableFull(s, input)
    ensures Valid(Round(s, input).0) && Round(s, input).0.listenfd == s.listenfd
  {
    AcceptValid(s, input);
    ServeValid(Accept(s, input), 0, input);
  }

  /** No descriptor of the entries from `i` on is ready. */
  predicate NoneReady(s: Server, i: nat, input: Input) {
    forall k :: i <= k < |s.table| && s.table[k] >= 0 ==> s.table[k] !in input.ready
  }

  /** A scan that finds nothing ready may as well stop: both early exits are safe. */
  lemma {:induction false} ServeNothing(s: Server, i: nat, input: Input)
    requires i <= |s.table| && NoneReady(s, i, input) && s.listenfd >= 0
    requires forall fd :: fd in input.ready && fd != s.listenfd ==> fd in input.chunks
    requires forall k :: 0 <= k < |s.table| ==> s.table[k] != s.listenfd
    ensures Serve(s, i, input) == (s, [])
    decreases |s.table| - i
  {
    if i < |s.table| {
      ServeNothing(s, i + 1, input);
    }
  }

  /** The events of one descriptor. */
  function Of(fd: int, events: seq<Event>): seq<Event> {
    if events == [] then []
    else (if events[0].fd == fd then [events[0]] else []) + Of(fd, events[1..])
  }

  lemma OfCons(fd: int, e: Event, events: seq<Event>)
    ensures Of(fd, [e] + events) == (if e.fd == fd then [e] else []) + Of(fd, events)
  {
    assert ([e] + events)[1..] == events;
  }

  lemma {:induction false} OfAppend(fd: int, a: seq<Event>, b: seq<Event>)
    ensures Of(fd, a + b) == Of(fd, a) + Of(fd, b)
  {
    if a == [] {
      assert a + b == b;
    } else {
      var e, rest := a[0], a[1..];
      assert a == [e] + rest && a + b == [e] + (rest + b);
      OfCons(fd, e, rest);
      OfCons(fd, e, rest + b);
      OfAppend(fd, rest, b);
    }
  }

  /** The entries of the ready clients from `i` on, in order. */
  predicate ReadyEntries(table: seq<int>, i: nat, ready: set<int>, entries: seq<nat>) {
    && (forall j :: 0 <= j < |entries| ==>
          i <= entries[j] < |table| && table[entries[j]] >= 0 && table[entries[j]] in ready)
    && (forall j, k :: 0 <= j < k < |entries| ==> entries[j] < entries[k])
    && (forall e :: i <= e < |table| && table[e] >= 0 && table[e] in ready ==> e in entries)
  }

  /** The events answer the listed entries, one by one. */
  predicate AnswersTo(table: seq<int>, chunks: map<int, seq<byte>>, entries: seq<nat>, events: seq<Event>) {
    && |events| == |entries|
    && forall j :: 0 <= j < |entries| ==>
         entries[j] < |table| && table[entries[j]] in chunks
         && events[j] == Reply(table[entries[j]], chunks[table[entries[j]]])
  }

  lemma EntriesFrame(table: seq<int>, table': seq<int>, i: nat, ready: set<int>, entries: seq<nat>)
    requires |table| == |table'| && forall e :: i <= e < |table| ==> table'[e] == table[e]
    requires ReadyEntries(table', i, ready, entries)
    ensures ReadyEntries(table, i, ready, entries)
  {
  }

  lemma EntriesCons(table: seq<int>, i: nat, ready: set<int>, later: seq<nat>)
    requires i < |table| && table[i] >= 0 && table[i] in ready && ReadyEntries(table, i + 1, ready, later)
    ensures ReadyEntries(table, i, ready, [i] + later)
  {
    var entries := [i] + later;
    assert entries[0] == i && forall j :: 0 < j < |entries| ==> entries[j] == later[j - 1];
    forall e | i <= e < |table| && table[e] >= 0 && table[e] in ready ensures e in entries {
      assert e > i ==> e in later;
    }
  }

  lemma AnswersCons(table: seq<int>, table': seq<int>, i: nat, ready: set<int>, chunks: map<int, seq<byte>>,
                    later: seq<nat>, events: seq<Event>)
    requires i < |table| == |table'| && table'[i + 1..] == table[i + 1..]
    requires ReadyEntries(table', i + 1, ready, later) && AnswersTo(table', chunks, later, events)
    ensures AnswersTo(table, chunks, later, events)
    ensures table[i] in chunks ==> AnswersTo(table, chunks, [i] + later, [Reply(table[i], chunks[table[i]])] + events)
  {
    forall j | 0 <= j < |later| ensures table'[later[j]] == table[later[j]] {
      var e := later[j];
      assert table'[e] == table'[i + 1..][e - i - 1] && table[e] == table[i + 1..][e - i - 1];
    }
  }

  lemma {:induction false} ServeOrdered(s: Server, i: nat, input: Input) returns (entries: seq<nat>)
    requires Valid(s) && i <= |s.table|
    requires forall x :: x in input.ready && x != s.listenfd ==> x in input.chunks
    ensures ReadyEntries(s.table, i, input.ready, entries)
    ensures AnswersTo(s.table, input.chunks, entries, Serve(s, i, input).1)
    decreases |s.table| - i
  {
    if i == |s.table| {
      entries := [];
    } else {
      var x := s.table[i];
      var closes := x >= 0 && x in input.ready && input.chunks[x] == [];
      var s' := if closes then s.(table := s.table[i := -1], allset := s.allset - {x}) else s;
      if closes {
        CloseValid(s, i);
      }
      var later := ServeOrdered(s', i + 1, input);
      EntriesFrame(s.table, s'.table, i + 1, input.ready, later);
      AnswersCons(s.table, s'.table, i, input.ready, input.chunks, later, Serve(s', i + 1, input).1);
      if x >= 0 && x in input.ready {
        EntriesCons(s.table, i, input.ready, later);
        entries := [i] + later;
      } else {
        entries := later;
      }
    }
  }

  /** What the environment does to one descriptor. */
  datatype Delivery = Opened | Data(chunk: seq<byte>)

  /** In one round: accept may have returned it, or it may be ready with a chunk (an empty one is the end of file). */
  function Delivered(s: Server, input: Input, fd: int): seq<Delivery>
    requires Possible(s, input)
  {
    if s.listenfd in input.ready && fd == input.newfd then [Opened]
    else if fd in input.ready && fd != s.listenfd then [Data(input.chunks[fd])]
    else []
  }

  /** The answer to each thing delivered, one by one. */
  function Replies(fd: int, ds: seq<Delivery>): seq<Event> {
    if ds == [] then []
    else [if ds[0].Opened? then Accepted(fd) else Reply(fd, ds[0].chunk)] + Replies(fd, ds[1..])
  }

  lemma {:induction false} RepliesAppend(fd: int, a: seq<Delivery>, b: seq<Delivery>)
    ensures Replies(fd, a + b) == Replies(fd, a) + Replies(fd, b)
  {
    if a == [] {
      assert a + b == b;
    } else {
      assert (a + b)[0] == a[0] && (a + b)[1..] == a[1..] + b;
      RepliesAppend(fd, a[1..], b);
    }
  }

  predicate Pending(s: Server, i: nat, input: Input, fd: int) {
    fd >= 0 && fd in input.ready && exists k :: i <= k < |s.table| && s.table[k] == fd
  }

  /** The scan serves a ready client exactly once and says nothing to any other descriptor. */
  lemma {:induction false} ServeOf(s: Server, i: nat, input: Input, fd: int)
    requires Valid(s) && i <= |s.table| && fd != s.listenfd
    requires forall x :: x in input.ready && x != s.listenfd ==> x in input.chunks
    ensures Of(fd, Serve(s, i, input).1) == if Pending(s, i, input, fd) then [Reply(fd, input.chunks[fd])] else []
    decreases |s.table| - i
  {
    if i < |s.table| {
      var x := s.table[i];
      if x >= 0 && x in input.ready {
        var chunk := input.chunks[x];
        var s' := if chunk == [] then s.(table := s.table[i := -1], allset := s.allset - {x}) else s;
        if chunk == [] {
          CloseValid(s, i);
        }
        ServeOf(s', i + 1, input, fd);
        OfCons(fd, Reply(x, chunk), Serve(s', i + 1, input).1);
        if x == fd {
          assert !Pending(s', i + 1, input, fd);
          assert Pending(s, i, input, fd);
        } else {
          assert Pending(s', i + 1, input, fd) <==> Pending(s, i, input, fd) by {
            assert forall k :: i + 1 <= k < |s.table| ==> s'.table[k] == s.table[k];
          }
        }
      } else {
        ServeOf(s, i + 1, input, fd);
        assert Pending(s, i + 1, input, fd) <==> Pending(s, i, input, fd);
      }
    }
  }

  lemma {:induction false} ServeSkipsListener(s: Server, i: nat, input: Input)
    requires Valid(s) && i <= |s.table|
    requires forall x :: x in input.ready && x != s.listenfd ==> x in input.chunks
    ensures Of(s.listenfd, Serve(s, i, input).1) == []
    decreases |s.table| - i
  {
    if i < |s.table| {
      var x := s.table[i];
      if x >= 0 && x in input.ready {
        var s' := if input.chunks[x] == [] then s.(table := s.table[i := -1], allset := s.allset - {x}) else s;
        if input.chunks[x] == [] {
          CloseValid(s, i);
        }
        ServeSkipsListener(s', i + 1, input);
        OfCons(s.listenfd, Reply(x, input.chunks[x]), Serve(s', i + 1, input).1);
      } else {
        ServeSkipsListener(s, i + 1, input);
      }
    }
  }

  /**
   No ready descriptor is missed and none is served twice: seen from any one
   descriptor, a round answers exactly what the environment delivered to it,
   whatever happens on the others.
   */
  lemma RoundServesEach(s: Server, input: Input, fd: int)
    requires Valid(s) && Possible(s, input) && !TableFull(s, input)
    ensures Of(fd, Round(s, input).1) == Replies(fd, Delivered(s, input, fd))
  {
    AcceptValid(s, input);
    var s' := Accept(s, input);
    OfAppend(fd, Opening(s, input), Serve(s', 0, input).1);
    if fd == s.listenfd {
      ServeSkipsListener(s', 0, input);
    } else {
      ServeOf(s', 0, input, fd);
      if fd in input.ready {
        assert fd in Clients(s.table);
        var k :| 0 <= k < |s.table| && s.table[k] >= 0 && s.table[k] == fd;
        assert s'.table[k] == fd;
        assert Pending(s', 0, input, fd);
      }
    }
  }

  /** A round accepts first, then answers each client that was ready once, in the order of the table. */
  lemma RoundInOrder(s: Server, input: Input) returns (entries: seq<nat>)
    requires Valid(s) && Possible(s, input) && !TableFull(s, input)
    ensures var table, events := Accept(s, input).table, Round(s, input).1;
      && ReadyEntries(table, 0, input.ready, entries)
      && if s.listenfd in input.ready
         then events != [] && events[0] == Accepted(input.newfd) && AnswersTo(table, input.chunks, entries, events[1..])
         else AnswersTo(table, input.chunks, entries, events)
  {
    AcceptValid(s, input);
    entries := ServeOrdered(Accept(s, input), 0, input);
    var served := Serve(Accept(s, input), 0, input).1;
    assert ([Accepted(input.newfd)] + served)[1..] == served;
    assert [] + served == served;
  }
}
