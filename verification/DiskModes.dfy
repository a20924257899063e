/** The two dispatch modes of the RAM disk: bios handled directly, and requests drained from a queue. */
module DiskModes {
  import opened DiskSpec

  ghost predicate AllSafe<P>(s: Store<P>, bios: seq<Bio<P>>) {
    forall bio :: bio in bios ==> Safe(s, bio)
  }

  /** What may be transferred depends on sizes only, which no transfer changes. */
  lemma SafeKept<P>(s: Store<P>, s': Store<P>, bios: seq<Bio<P>>)
    requires SameShape(s, s') && AllSafe(s, bios)
    ensures AllSafe(s', bios)
  {
    forall bio | bio in bios ensures Safe(s', bio) {
      assert Safe(s, bio);
      BoundsKept(s, s', bio.sector, PerSegment(bio.segs), bio.segs);
    }
  }

  /** make_request: bio by bio. */
  function Direct<P>(s: Store<P>, bios: seq<Bio<P>>): (s': Store<P>)
    requires AllSafe(s, bios)
    ensures SameShape(s, s')
    decreases |bios|
  {
    if bios == [] then s
    else
      SafeKept(s, XferBio(s, bios[0]), bios[1..]);
      Direct(XferBio(s, bios[0]), bios[1..])
  }

  ghost predicate SafeQueue<P>(s: Store<P>, queue: seq<Request<P>>) {
    forall i :: 0 <= i < |queue| && queue[i].fs ==> AllSafe(s, queue[i].bios)
  }

  lemma SafeQueueKept<P>(s: Store<P>, s': Store<P>, queue: seq<Request<P>>)
    requires SameShape(s, s') && SafeQueue(s, queue)
    ensures SafeQueue(s', queue)
  {
    forall i | 0 <= i < |queue| && queue[i].fs ensures AllSafe(s', queue[i].bios) {
      SafeKept(s, s', queue[i].bios);
    }
  }

  /** request: the queue drained from the front, other requests skipped. */
  function Drained<P>(s: Store<P>, queue: seq<Request<P>>): (s': Store<P>)
    requires SafeQueue(s, queue)
    ensures SameShape(s, s')
    decreases |queue|
  {
    if queue == [] then s
    else
      var s' := if queue[0].fs then Direct(s, queue[0].bios) else s;
      assert SafeQueue(s', queue[1..]) by { SafeQueueKept(s, s', queue[1..]); }
      Drained(s', queue[1..])
  }

  /** The bios of the file system requests of a queue, in order. */
  function FsBios<P>(queue: seq<Request<P>>): seq<Bio<P>> {
    if queue == [] then []
    else (if queue[0].fs then queue[0].bios else []) + FsBios(queue[1..])
  }

  lemma {:induction false} SafeBios<P>(s: Store<P>, queue: seq<Request<P>>)
    requires SafeQueue(s, queue)
    ensures AllSafe(s, FsBios(queue))
    decreases |queue|
  {
    if queue != [] {
      SafeBios(s, queue[1..]);
    }
  }

  lemma {:induction false} DirectAppend<P>(s: Store<P>, a: seq<Bio<P>>, b: seq<Bio<P>>)
    requires AllSafe(s, a) && AllSafe(s, b)
    ensures AllSafe(s, a + b) && AllSafe(Direct(s, a), b)
    ensures Direct(s, a + b) == Direct(Direct(s, a), b)
    decreases |a|
  {
    SafeKept(s, Direct(s, a), b);
    if a == [] {
      assert a + b == b;
    } else {
      assert (a + b)[0] == a[0] && (a + b)[1..] == a[1..] + b;
      SafeKept(s, XferBio(s, a[0]), a[1..]);
      SafeKept(s, XferBio(s, a[0]), b);
      DirectAppend(XferBio(s, a[0]), a[1..], b);
    }
  }

  /**
   Mode equivalence: draining any queue, however its bios are grouped into
   requests and whatever other requests stand between them, leaves the disk
   and all pages as handling its bios one by one does.
   */
  lemma {:induction false} ModesAgree<P>(s: Store<P>, queue: seq<Request<P>>)
    requires SafeQueue(s, queue)
    ensures AllSafe(s, FsBios(queue))
    ensures Drained(s, queue) == Direct(s, FsBios(queue))
    decreases |queue|
  {
    SafeBios(s, queue);
    if queue != [] {
      var first := if queue[0].fs then queue[0].bios else [];
      SafeBios(s, queue[1..]);
      DirectAppend(s, first, FsBios(queue[1..]));
      SafeQueueKept(s, Direct(s, first), queue[1..]);
      ModesAgree(Direct(s, first), queue[1..]);
    }
  }

  /** Requests are taken from the front: what stands ahead is done first. */
  lemma {:induction false} DrainedAppend<P>(s: Store<P>, a: seq<Request<P>>, b: seq<Request<P>>)
    requires SafeQueue(s, a) && SafeQueue(s, b)
    ensures SafeQueue(s, a + b) && SafeQueue(Drained(s, a), b)
    ensures Drained(s, a + b) == Drained(Drained(s, a), b)
    decreases |a|
  {
    SafeQueueKept(s, Drained(s, a), b);
    if a == [] {
      assert a + b == b;
    } else {
      assert (a + b)[0] == a[0] && (a + b)[1..] == a[1..] + b;
      var t := if a[0].fs then Direct(s, a[0].bios) else s;
      SafeQueueKept(s, t, a[1..]);
      SafeQueueKept(s, t, b);
      DrainedAppend(t, a[1..], b);
    }
  }
}
