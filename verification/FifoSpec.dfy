/**
 The globalfifo device seen from outside: a byte queue of at most
 GLOBALFIFO_SIZE bytes on which every system call is one atomic operation.
 Both models of the driver are measured against `Apply`.
 */
module FifoSpec {
  import opened Prelude

  const GLOBALFIFO_SIZE: nat := 0x1000
  const FIFO_CLEAR: nat := 0x1

  type Queue = q: seq<byte> | |q| <= GLOBALFIFO_SIZE

  /** A system call with the arguments and file flags the driver looks at. */
  datatype Call =
    | Read(count: nat, nonblock: bool)
    | Write(data: seq<byte>, nonblock: bool)
    | Ioctl(cmd: nat)
    | Poll

  /** What a call hands back: bytes, a count, a poll mask, or an error number. */
  datatype Ret =
    | Got(bytes: seq<byte>)
    | Put(n: nat)
    | Mask(readable: bool, writable: bool)
    | Cleared
    | Again     // -EAGAIN
    | Fault     // -EFAULT
    | Restart   // -ERESTARTSYS
    | Inval     // -EINVAL

  /** The queue after `call` returns `ret` atomically, or None when `call` cannot return `ret` on `q`. */
  function Apply(q: Queue, call: Call, ret: Ret): Option<Queue> {
    match call
    case Read(count, nonblock) => ApplyRead(q, count, nonblock, ret)
    case Write(data, nonblock) => ApplyWrite(q, data, nonblock, ret)
    case Ioctl(cmd) =>
      if cmd == FIFO_CLEAR && ret == Cleared then Some([])
      else if cmd != FIFO_CLEAR && ret == Inval then Some(q)
      else None
    case Poll =>
      if ret == Mask(q != [], |q| != GLOBALFIFO_SIZE) then Some(q) else None
  }

  function ApplyRead(q: Queue, count: nat, nonblock: bool, ret: Ret): Option<Queue> {
    match ret
    case Got(bytes) => if q != [] && bytes == q[..Min(count, |q|)] then Some(q[Min(count, |q|)..]) else None
    case Again => if nonblock && q == [] then Some(q) else None
    case Fault => if q != [] && count > 0 then Some(q) else None
    case Restart => if !nonblock then Some(q) else None
    case _ => None
  }

  function ApplyWrite(q: Queue, data: seq<byte>, nonblock: bool, ret: Ret): Option<Queue> {
    var room := GLOBALFIFO_SIZE - |q|;
    match ret
    case Put(n) => if room > 0 && n == Min(|data|, room) then Some(q + data[..n]) else None
    case Again => if nonblock && room == 0 then Some(q) else None
    case Fault => if room > 0 && |data| > 0 then Some(q) else None
    case Restart => if !nonblock then Some(q) else None
    case _ => None
  }

  /** One atomic operation in a history. */
  datatype Commit = Commit(task: nat, call: Call, ret: Ret)

  /** The queue after a history of atomic operations, or None when some operation could not have returned so. */
  function Replay(q: Queue, h: seq<Commit>): Option<Queue>
    decreases |h|
  {
    if h == [] then Some(q)
    else
      match Apply(q, h[0].call, h[0].ret)
      case None => None
      case Some(q') => Replay(q', h[1..])
  }

  /** The bytes an operation puts into the queue. */
  function Puts(c: Commit): seq<byte> {
    match (c.call, c.ret)
    case (Write(data, _), Put(n)) => if n <= |data| then data[..n] else []
    case _ => []
  }

  /** The bytes an operation takes out of the queue `q`: delivered to a reader, or discarded. */
  function Takes(q: Queue, c: Commit): seq<byte> {
    match c.ret
    case Got(bytes) => bytes
    case Cleared => q
    case _ => []
  }

  /** The bytes accepted by the writes of a history, in order. */
  function Accepted(h: seq<Commit>): seq<byte> {
    if h == [] then [] else Puts(h[0]) + Accepted(h[1..])
  }

  /** The bytes delivered by the reads or discarded by the clears of a history that starts on `q`, in removal order. */
  function Removed(q: Queue, h: seq<Commit>): seq<byte>
    requires Replay(q, h).Some?
    decreases |h|
  {
    if h == [] then []
    else Takes(q, h[0]) + Removed(Apply(q, h[0].call, h[0].ret).value, h[1..])
  }

  lemma {:induction false} ReplayAppend(q: Queue, h: seq<Commit>, c: Commit)
    ensures Replay(q, h + [c]) ==
            match Replay(q, h)
            case None => None
            case Some(q') => Apply(q', c.call, c.ret)
    decreases |h|
  {
    if h == [] {
      assert h + [c] == [c];
      assert Apply(q, c.call, c.ret).Some? ==> Replay(Apply(q, c.call, c.ret).value, []) == Apply(q, c.call, c.ret);
    } else {
      assert (h + [c])[0] == h[0] && (h + [c])[1..] == h[1..] + [c];
      if Apply(q, h[0].call, h[0].ret).Some? {
        ReplayAppend(Apply(q, h[0].call, h[0].ret).value, h[1..], c);
      }
    }
  }

  /** One operation: what was there and what comes in is what goes out and what stays. */
  lemma OneConserves(q: Queue, c: Commit)
    requires Apply(q, c.call, c.ret).Some?
    ensures q + Puts(c) == Takes(q, c) + Apply(q, c.call, c.ret).value
  {
  }

  lemma Reassociate(q: seq<byte>, a: seq<byte>, t: seq<byte>, q': seq<byte>, b: seq<byte>, u: seq<byte>, r: seq<byte>)
    requires q + a == t + q' && q' + b == u + r
    ensures q + (a + b) == (t + u) + r
  {
    assert q + (a + b) == (q + a) + b;
    assert (t + q') + b == t + (q' + b);
    assert t + (u + r) == (t + u) + r;
  }

  /**
   No byte is lost, duplicated or reordered: what was there plus what writers
   put in equals what left the queue plus what is still in it.
   */
  lemma {:induction false} Conservation(q: Queue, h: seq<Commit>)
    requires Replay(q, h).Some?
    ensures q + Accepted(h) == Removed(q, h) + Replay(q, h).value
    decreases |h|
  {
    if h != [] {
      var q' := Apply(q, h[0].call, h[0].ret).value;
      OneConserves(q, h[0]);
      Conservation(q', h[1..]);
      Reassociate(q, Puts(h[0]), Takes(q, h[0]), q', Accepted(h[1..]), Removed(q', h[1..]), Replay(q', h[1..]).value);
    }
  }

  /** Every outcome but success leaves the queue as it was. */
  lemma ErrorsChangeNothing(q: Queue, call: Call, ret: Ret)
    requires Apply(q, call, ret).Some?
    requires ret.Again? || ret.Fault? || ret.Restart? || ret.Inval?
    ensures Apply(q, call, ret) == Some(q)
  {
  }

  /** The call returns at once: there is something to read or room to write, or it asked not to wait. */
  predicate ReturnsAtOnce(q: Queue, call: Call) {
    match call
    case Read(_, nonblock) => q != [] || nonblock
    case Write(_, nonblock) => |q| < GLOBALFIFO_SIZE || nonblock
    case _ => true
  }

  /** What a call returns that is neither interrupted nor faults. */
  function Answer(q: Queue, call: Call): Ret
    requires ReturnsAtOnce(q, call)
  {
    match call
    case Read(count, _) => if q == [] then Again else Got(if count < |q| then q[..count] else q)
    case Write(data, _) =>
      if |q| == GLOBALFIFO_SIZE then Again
      else if |q| + |data| <= GLOBALFIFO_SIZE then Put(|data|)
      else Put(GLOBALFIFO_SIZE - |q|)
    case Ioctl(cmd) => if cmd == FIFO_CLEAR then Cleared else Inval
    case Poll => Mask(|q| > 0, |q| < GLOBALFIFO_SIZE)
  }

  /** Apart from faults and interruptions the outcome is determined, and a call that must wait has none. */
  lemma AnswerUnique(q: Queue, call: Call, ret: Ret)
    requires !ret.Fault? && !ret.Restart?
    ensures Apply(q, call, ret).Some? <==> ReturnsAtOnce(q, call) && ret == Answer(q, call)
  {
  }

  /**
   A write takes the longest prefix of its data that fits. If that is not all,
   the queue is full, and a write of the rest is turned away or must wait.
   */
  lemma WriteTakesWhatFits(q: Queue, data: seq<byte>, nonblock: bool, n: nat)
    requires Apply(q, Write(data, nonblock), Put(n)).Some?
    ensures n <= |data| && |q + data[..n]| <= GLOBALFIFO_SIZE
    ensures Apply(q, Write(data, nonblock), Put(n)) == Some(q + data[..n])
    ensures n < |data| ==>
      && |q + data[..n]| == GLOBALFIFO_SIZE
      && Apply(q + data[..n], Write(data[n..], true), Again) == Some(q + data[..n])
      && forall m, wait :: Apply(q + data[..n], Write(data[n..], wait), Put(m)).None?
  {
  }

  /** A read takes as much as it asked for, or all there is. */
  lemma ReadTakesWhatIsThere(q: Queue, count: nat, nonblock: bool, bytes: seq<byte>)
    requires Apply(q, Read(count, nonblock), Got(bytes)).Some?
    ensures q == bytes + Apply(q, Read(count, nonblock), Got(bytes)).value
    ensures |bytes| <= count && (|bytes| < count ==> bytes == q)
  {
  }

  /** The history of one task reading with the given sizes until the sizes or the queue run out. */
  function Reads(q: Queue, counts: seq<nat>): (h: seq<Commit>)
  {
    if counts == [] || q == [] then []
    else
      var k := Min(counts[0], |q|);
      [Commit(0, Read(counts[0], false), Got(q[..k]))] + Reads(q[k..], counts[1..])
  }

  /** The bytes returned by the reads of a history, in order. */
  function Delivered(h: seq<Commit>): seq<byte> {
    if h == [] then []
    else (if h[0].ret.Got? then h[0].ret.bytes else []) + Delivered(h[1..])
  }

  lemma FirstRead(q: Queue, counts: seq<nat>)
    requires counts != [] && q != []
    ensures var k, h := Min(counts[0], |q|), Reads(q, counts);
      && h[0].ret == Got(q[..k]) && h[1..] == Reads(q[k..], counts[1..])
      && Replay(q, h) == Replay(q[k..], h[1..])
  {
    var k, h := Min(counts[0], |q|), Reads(q, counts);
    assert h[0] == Commit(0, Read(counts[0], false), Got(q[..k])) && h[1..] == Reads(q[k..], counts[1..]);
    assert Apply(q, h[0].call, h[0].ret) == Some(q[k..]);
  }

  lemma Join3(a: seq<byte>, b: seq<byte>, c: seq<byte>)
    ensures a + (b + c) == (a + b) + c
  {
  }

  /** Reads of any sizes deliver the queue from the front and leave the rest; positive ones get somewhere each time. */
  lemma {:induction false} ReadsFromFront(q: Queue, counts: seq<nat>)
    requires forall k :: 0 <= k < |counts| ==> counts[k] > 0
    ensures |Reads(q, counts)| <= |q|
    ensures Replay(q, Reads(q, counts)).Some?
    ensures Delivered(Reads(q, counts)) + Replay(q, Reads(q, counts)).value == q
    ensures |counts| >= |q| ==> Replay(q, Reads(q, counts)) == Some([])
  {
    if counts != [] && q != [] {
      var k, h := Min(counts[0], |q|), Reads(q, counts);
      FirstRead(q, counts);
      ReadsFromFront(q[k..], counts[1..]);
      Join3(q[..k], Delivered(h[1..]), Replay(q[k..], h[1..]).value);
      assert q == q[..k] + q[k..];
    }
  }

  /**
   Chunking of reads is invisible: any reads of positive size, at least as
   many as there are bytes, drain the queue in at most |q| calls and deliver
   together what a single large read delivers.
   */
  lemma {:induction false} ChunkedReads(q: Queue, counts: seq<nat>, large: nat)
    requires forall k :: 0 <= k < |counts| ==> counts[k] > 0
    requires |counts| >= |q| && large >= |q| > 0
    ensures |Reads(q, counts)| <= |q| && Replay(q, Reads(q, counts)) == Some([])
    ensures Apply(q, Read(large, false), Got(Delivered(Reads(q, counts)))) == Some([])
  {
    ReadsFromFront(q, counts);
    assert Delivered(Reads(q, counts)) + [] == Delivered(Reads(q, counts));
    assert q[..|q|] == q;
  }

  /** A write that fits is accepted whole. */
  lemma WholeWrite(q: Queue, data: seq<byte>, nonblock: bool)
    requires |q| + |data| <= GLOBALFIFO_SIZE && |q| < GLOBALFIFO_SIZE
    ensures Apply(q, Write(data, nonblock), Put(|data|)) == Some(q + data)
  {
    assert data[..|data|] == data;
  }

  lemma ReplayOne(q: Queue, c: Commit)
    ensures Replay(q, [c]) == Apply(q, c.call, c.ret)
  {
    assert [c][1..] == [];
  }

  /** Two writes that fit are one write of the concatenation. */
  lemma ChunkedWrites(q: Queue, a: seq<byte>, b: seq<byte>, nonblock: bool)
    requires |q| + |a| + |b| <= GLOBALFIFO_SIZE && |q| + |a| < GLOBALFIFO_SIZE
    ensures Replay(q, [Commit(0, Write(a, nonblock), Put(|a|)), Commit(0, Write(b, nonblock), Put(|b|))])
         == Replay(q, [Commit(0, Write(a + b, nonblock), Put(|a + b|))])
         == Some(q + a + b)
  {
    var first, second := Commit(0, Write(a, nonblock), Put(|a|)), Commit(0, Write(b, nonblock), Put(|b|));
    WholeWrite(q, a, nonblock);
    WholeWrite(q + a, b, nonblock);
    WholeWrite(q, a + b, nonblock);
    Join3(q, a, b);
    assert [first, second][1..] == [second];
    ReplayOne(q + a, second);
    ReplayOne(q, Commit(0, Write(a + b, nonblock), Put(|a + b|)));
  }
}
