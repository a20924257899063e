/**
 Connections of the select server: what any run delivers on a descriptor is a
 list of whole connections and at most one still open, and each gets the stream
 the fork-per-connection server would give it.
 */
module SelectStreams {
  import opened Prelude
  import opened SelectSpec
  import opened SelectRuns
  import opened ForkServer

  // The shape of what a run delivers.

  /** Accept first, then chunks until an empty one, over and over; `watched` says whether a connection is open. */
  predicate Orderly(watched: bool, ds: seq<Delivery>)
    decreases |ds|
  {
    ds == [] ||
    match ds[0]
    case Opened => !watched && Orderly(true, ds[1..])
    case Data(chunk) => watched && |chunk| <= MAXLINE && Orderly(chunk != [], ds[1..])
  }

  lemma OrderlyFirst(watched: bool, d: Delivery, ds: seq<Delivery>)
    requires d.Opened? ==> !watched && Orderly(true, ds)
    requires d.Data? ==> watched && |d.chunk| <= MAXLINE && Orderly(d.chunk != [], ds)
    ensures Orderly(watched, [d] + ds)
  {
    assert ([d] + ds)[1..] == ds;
  }

  /** The scan stops watching a client exactly when it is ready with an end of file. */
  lemma {:induction false} ServeWatches(s: Server, i: nat, input: Input, fd: int)
    requires Valid(s) && i <= |s.table| && fd != s.listenfd
    requires forall x :: x in input.ready && x != s.listenfd ==> x in input.chunks
    ensures fd in Serve(s, i, input).0.allset <==>
      fd in s.allset && !(Pending(s, i, input, fd) && input.chunks[fd] == [])
    decreases |s.table| - i
  {
    if i < |s.table| {
      var x := s.table[i];
      if x >= 0 && x in input.ready && input.chunks[x] == [] {
        var s' := s.(table := s.table[i := -1], allset := s.allset - {x});
        CloseValid(s, i);
        ServeWatches(s', i + 1, input, fd);
        PendingAfter(s, s', i, input, fd);
      } else {
        ServeWatches(s, i + 1, input, fd);
        PendingAfter(s, s, i, input, fd);
      }
    }
  }

  lemma PendingAfter(s: Server, s': Server, i: nat, input: Input, fd: int)
    requires i < |s.table| == |s'.table| && s'.table[i + 1..] == s.table[i + 1..]
    ensures s.table[i] != fd ==> (Pending(s', i + 1, input, fd) <==> Pending(s, i, input, fd))
    ensures s.table[i] == fd >= 0 && fd in input.ready ==> Pending(s, i, input, fd)
  {
    assert forall k :: i + 1 <= k < |s.table| ==> s'.table[k] == s'.table[i + 1..][k - i - 1];
    assert forall k :: i + 1 <= k < |s.table| ==> s.table[k] == s.table[i + 1..][k - i - 1];
  }

  /** A round opens, continues or closes a connection on a descriptor as its delivery says. */
  lemma RoundWatches(s: Server, input: Input, fd: int)
    requires Valid(s) && Possible(s, input) && !TableFull(s, input) && fd != s.listenfd
    ensures var ds, after := Delivered(s, input, fd), fd in Round(s, input).0.allset;
      && (ds == [] ==> (after <==> fd in s.allset))
      && (ds != [] && ds[0].Opened? ==> fd !in s.allset && after)
      && (ds != [] && ds[0].Data? ==> fd in s.allset && |ds[0].chunk| <= MAXLINE && (after <==> ds[0].chunk != []))
  {
    AcceptValid(s, input);
    var s' := Accept(s, input);
    ServeWatches(s', 0, input, fd);
    if fd in input.ready {
      assert fd in Clients(s.table);
      var k :| 0 <= k < |s.table| && s.table[k] >= 0 && s.table[k] == fd;
      assert s'.table[k] == fd;
      assert Pending(s', 0, input, fd);
    }
  }

  /** Over every run what is delivered on a descriptor is orderly. */
  lemma {:induction false} RunOrderly(s: Server, inputs: seq<Input>, fd: int)
    requires Valid(s) && Run(s, inputs) && fd != s.listenfd
    ensures Orderly(fd in s.allset, AllDelivered(s, inputs, fd))
    decreases |inputs|
  {
    if inputs != [] {
      RoundValid(s, inputs[0]);
      RoundWatches(s, inputs[0], fd);
      var s', ds := Round(s, inputs[0]).0, Delivered(s, inputs[0], fd);
      var rest := AllDelivered(s', inputs[1..], fd);
      RunOrderly(s', inputs[1..], fd);
      if ds == [] {
        assert ds + rest == rest;
      } else {
        assert ds == [ds[0]];
        OrderlyFirst(fd in s.allset, ds[0], rest);
      }
    }
  }

  function Chunks(chunks: seq<seq<byte>>): seq<Delivery> {
    seq(|chunks|, k requires 0 <= k < |chunks| => Data(chunks[k]))
  }

  /** What a connection delivers from its accept to its end of file. */
  function Session(chunks: seq<seq<byte>>): seq<Delivery> {
    [Opened] + Chunks(chunks) + [Data([])]
  }

  function Sessions(closed: seq<seq<seq<byte>>>): seq<Delivery> {
    if closed == [] then [] else Session(closed[0]) + Sessions(closed[1..])
  }

  /** What a connection still open has delivered, if there is one. */
  function OpenPart(open: Option<seq<seq<byte>>>): seq<Delivery> {
    if open.None? then [] else [Opened] + Chunks(open.value)
  }

  predicate Connections(closed: seq<seq<seq<byte>>>, open: Option<seq<seq<byte>>>) {
    (forall k :: 0 <= k < |closed| ==> Connection(closed[k])) && (open.Some? ==> Connection(open.value))
  }

  lemma ChunksCons(chunk: seq<byte>, more: seq<seq<byte>>, rest: seq<Delivery>)
    ensures Chunks([chunk] + more) + rest == [Data(chunk)] + (Chunks(more) + rest)
  {
    assert Chunks([chunk] + more) == [Data(chunk)] + Chunks(more);
  }

  /** The chunks of an open connection, up to its end of file or the end of the run. */
  lemma {:induction false} SplitChunks(ds: seq<Delivery>) returns (chunks: seq<seq<byte>>, rest: seq<Delivery>)
    requires Orderly(true, ds)
    ensures Connection(chunks) && ds == Chunks(chunks) + rest
    ensures rest == [] || (rest[0] == Data([]) && Orderly(false, rest[1..]))
    decreases |ds|
  {
    if ds == [] || ds[0].chunk == [] {
      chunks, rest := [], ds;
      assert Chunks([]) + ds == ds;
    } else {
      var more;
      more, rest := SplitChunks(ds[1..]);
      chunks := [ds[0].chunk] + more;
      ChunksCons(ds[0].chunk, more, rest);
      assert ds == [ds[0]] + ds[1..];
    }
  }

  lemma SessionThen(chunks: seq<seq<byte>>, rest: seq<Delivery>, later: seq<seq<seq<byte>>>, open: seq<Delivery>)
    requires rest == [Data([])] + (Sessions(later) + open)
    ensures [Opened] + (Chunks(chunks) + rest) == Sessions([chunks] + later) + open
  {
    assert ([chunks] + later)[1..] == later;
    assert Sessions([chunks] + later) == Session(chunks) + Sessions(later);
  }

  /** Orderly deliveries are whole connections, then at most one that is still open. */
  lemma {:induction false} SplitConnections(ds: seq<Delivery>)
      returns (closed: seq<seq<seq<byte>>>, open: Option<seq<seq<byte>>>)
    requires Orderly(false, ds)
    ensures Connections(closed, open) && ds == Sessions(closed) + OpenPart(open)
    decreases |ds|
  {
    if ds == [] {
      closed, open := [], None;
    } else {
      assert ds == [Opened] + ds[1..];
      var chunks, rest := SplitChunks(ds[1..]);
      if rest == [] {
        closed, open := [], Some(chunks);
        assert Chunks(chunks) + rest == Chunks(chunks);
        assert Sessions(closed) + OpenPart(open) == OpenPart(open);
      } else {
        var later;
        later, open := SplitConnections(rest[1..]);
        closed := [chunks] + later;
        assert rest == [Data([])] + rest[1..];
        SessionThen(chunks, rest, later, OpenPart(open));
      }
    }
  }

  // What the server does for it.

  /** The bytes written back among some events. */
  function Written(events: seq<Event>): seq<byte> {
    if events == [] then []
    else (if events[0].Echo? then events[0].bytes else []) + Written(events[1..])
  }

  lemma {:induction false} EchoesUpper(fd: int, chunks: seq<seq<byte>>)
    requires Connection(chunks)
    ensures Written(Replies(fd, Chunks(chunks))) == Upper(Concat(chunks))
  {
    if chunks != [] {
      var ds := Chunks(chunks);
      assert ds[0] == Data(chunks[0]) && ds[1..] == Chunks(chunks[1..]);
      EchoesUpper(fd, chunks[1..]);
      var e := Reply(fd, chunks[0]);
      assert Replies(fd, ds)[0] == e && Replies(fd, ds)[1..] == Replies(fd, ds[1..]);
      UpperAppend(chunks[0], Concat(chunks[1..]));
    }
  }

  function SessionEvents(fd: int, chunks: seq<seq<byte>>): seq<Event> {
    [Accepted(fd)] + Replies(fd, Chunks(chunks)) + [Closed(fd)]
  }

  function AllSessionEvents(fd: int, closed: seq<seq<seq<byte>>>): seq<Event> {
    if closed == [] then [] else SessionEvents(fd, closed[0]) + AllSessionEvents(fd, closed[1..])
  }

  function OpenEvents(fd: int, open: Option<seq<seq<byte>>>): seq<Event> {
    if open.None? then [] else [Accepted(fd)] + Replies(fd, Chunks(open.value))
  }

  lemma OneReply(fd: int, d: Delivery)
    ensures Replies(fd, [d]) == [if d.Opened? then Accepted(fd) else Reply(fd, d.chunk)]
  {
    assert [d][1..] == [];
  }

  lemma SessionReplies(fd: int, chunks: seq<seq<byte>>)
    ensures Replies(fd, Session(chunks)) == SessionEvents(fd, chunks)
  {
    RepliesAppend(fd, [Opened] + Chunks(chunks), [Data([])]);
    RepliesAppend(fd, [Opened], Chunks(chunks));
    OneReply(fd, Opened);
    OneReply(fd, Data([]));
  }

  lemma {:induction false} SessionsReplies(fd: int, closed: seq<seq<seq<byte>>>)
    ensures Replies(fd, Sessions(closed)) == AllSessionEvents(fd, closed)
  {
    if closed != [] {
      RepliesAppend(fd, Session(closed[0]), Sessions(closed[1..]));
      SessionReplies(fd, closed[0]);
      SessionsReplies(fd, closed[1..]);
    }
  }

  lemma OpenReplies(fd: int, open: Option<seq<seq<byte>>>)
    ensures Replies(fd, OpenPart(open)) == OpenEvents(fd, open)
  {
    if open.Some? {
      RepliesAppend(fd, [Opened], Chunks(open.value));
      OneReply(fd, Opened);
    }
  }

  /** The echoes of a connection are its bytes in capitals, and what a forked child writes for them in any chunking. */
  ghost predicate SameAsChild(fd: int, chunks: seq<seq<byte>>) {
    && InCapitals(Concat(chunks), Written(Replies(fd, Chunks(chunks))))
    && forall others: seq<seq<byte>> :: Connection(others) && Concat(others) == Concat(chunks) ==>
      Written(Replies(fd, Chunks(chunks))) == ChildOutput(others)
  }

  /**
   Same streams as the fork server: in every run, what is delivered on a
   descriptor not watched at first is a list of whole connections and at most
   one still open; the events of the descriptor are, connection by connection,
   the accept, the echoes and the close; and the echoes of each connection, open
   or closed, are the bytes a forked child writes for the same input.
   */
  lemma SameStream(s: Server, inputs: seq<Input>, fd: int)
      returns (closed: seq<seq<seq<byte>>>, open: Option<seq<seq<byte>>>)
    requires Valid(s) && Run(s, inputs) && fd !in s.allset
    ensures Connections(closed, open) && AllDelivered(s, inputs, fd) == Sessions(closed) + OpenPart(open)
    ensures Of(fd, Events(s, inputs)) == AllSessionEvents(fd, closed) + OpenEvents(fd, open)
    ensures forall k :: 0 <= k < |closed| ==> SameAsChild(fd, closed[k])
    ensures open.Some? ==> SameAsChild(fd, open.value)
  {
    RunOrderly(s, inputs, fd);
    closed, open := SplitConnections(AllDelivered(s, inputs, fd));
    RunServesEach(s, inputs, fd);
    RepliesAppend(fd, Sessions(closed), OpenPart(open));
    SessionsReplies(fd, closed);
    OpenReplies(fd, open);
    forall k | 0 <= k < |closed| ensures SameAsChild(fd, closed[k]) {
      EchoesUpper(fd, closed[k]);
      UpperMeans(Concat(closed[k]));
    }
    if open.Some? {
      EchoesUpper(fd, open.value);
      UpperMeans(Concat(open.value));
    }
  }
}
