/**
 The RAM disk as a value: the disk bytes and the bytes of every memory page,
 and the transfers of bios, segment by segment, between them. `P` names pages.
 */
module DiskSpec {
  import opened Prelude

  const KERNEL_SECTOR_SIZE: nat := 512
  const ULONG_RANGE: nat := 0x1_0000_0000_0000_0000

  datatype Store<!P> = Store(disk: seq<byte>, pages: map<P, seq<byte>>)

  /** A segment of a bio: `len` bytes of a page from `off` on. */
  datatype Seg<P> = Seg(page: P, off: nat, len: nat)

  /** A block transfer: from `sector` on, out of or into its segments. */
  datatype Bio<P> = Bio(sector: nat, write: bool, segs: seq<Seg<P>>)

  /** A queued request: a file system request with its bios, or another kind. */
  datatype Request<P> = Request(fs: bool, bios: seq<Bio<P>>)

  /** The byte offset of a sector, in unsigned long arithmetic. */
  function ByteOffset(sector: nat): (r: nat)
    ensures r < ULONG_RANGE
  {
    sector * KERNEL_SECTOR_SIZE % ULONG_RANGE
  }

  /** The sectors moved per segment: the driver always asks for the length of the first. */
  function PerSegment<P>(segs: seq<Seg<P>>): nat {
    if segs == [] then 0 else segs[0].len / KERNEL_SECTOR_SIZE
  }

  /** The segment lies within its page. */
  predicate Window<P>(s: Store<P>, seg: Seg<P>) {
    seg.page in s.pages && seg.off + seg.len <= |s.pages[seg.page]|
  }

  predicate Windows<P>(s: Store<P>, segs: seq<Seg<P>>) {
    forall k :: 0 <= k < |segs| ==> Window(s, segs[k])
  }

  /** The segments as the driver moves them: each `len` bytes from where it starts, whatever its own length. */
  function Resized<P>(segs: seq<Seg<P>>, len: nat): (r: seq<Seg<P>>)
    ensures |r| == |segs|
    ensures forall k :: 0 <= k < |segs| ==> r[k] == Seg(segs[k].page, segs[k].off, len)
  {
    seq(|segs|, k requires 0 <= k < |segs| => Seg(segs[k].page, segs[k].off, len))
  }

  /** The driver turns the copy away, comparing a sum that may wrap around, or it stays on device and page. */
  predicate InBounds<P>(s: Store<P>, offset: nat, seg: Seg<P>) {
    && seg.page in s.pages
    && ((offset + seg.len) % ULONG_RANGE > |s.disk| || (offset + seg.len <= |s.disk| && Window(s, seg)))
  }

  predicate AllInBounds<P>(s: Store<P>, sector: nat, n: nat, segs: seq<Seg<P>>)
    decreases |segs|
  {
    segs == [] || (
      && InBounds(s, ByteOffset(sector), Seg(segs[0].page, segs[0].off, n * KERNEL_SECTOR_SIZE))
      && AllInBounds(s, sector + n, n, segs[1..]))
  }

  /** No copy leaves its page or the device. */
  predicate Safe<P>(s: Store<P>, bio: Bio<P>) {
    AllInBounds(s, bio.sector, PerSegment(bio.segs), bio.segs)
  }

  /** Same disk size, same pages, same page sizes. */
  predicate SameShape<P>(s: Store<P>, s': Store<P>) {
    && |s'.disk| == |s.disk| && s'.pages.Keys == s.pages.Keys
    && forall p :: p in s.pages ==> |s'.pages[p]| == |s.pages[p]|
  }

  /** The bytes of a segment. */
  function Held<P>(s: Store<P>, seg: Seg<P>): (r: seq<byte>)
    requires Window(s, seg)
    ensures |r| == seg.len
  {
    s.pages[seg.page][seg.off..seg.off + seg.len]
  }

  /** memcpy between `seg` and the disk from byte `at` on. */
  function Move<P>(s: Store<P>, at: nat, seg: Seg<P>, write: bool): (s': Store<P>)
    requires Window(s, seg) && at + seg.len <= |s.disk|
    ensures SameShape(s, s')
  {
    if write then s.(disk := Splice(s.disk, at, Held(s, seg)))
    else s.(pages := s.pages[seg.page := Splice(s.pages[seg.page], seg.off, s.disk[at..at + seg.len])])
  }

  /** One transfer of `n` sectors; beyond the end of the device it does nothing. */
  function Transfer<P>(s: Store<P>, sector: nat, n: nat, page: P, off: nat, write: bool): (s': Store<P>)
    requires InBounds(s, ByteOffset(sector), Seg(page, off, n * KERNEL_SECTOR_SIZE))
    ensures SameShape(s, s')
  {
    var offset, nbytes := ByteOffset(sector), n * KERNEL_SECTOR_SIZE;
    if (offset + nbytes) % ULONG_RANGE > |s.disk| then s else Move(s, offset, Seg(page, off, nbytes), write)
  }

  /** The segment loop. */
  function Segments<P>(s: Store<P>, sector: nat, n: nat, segs: seq<Seg<P>>, write: bool): (s': Store<P>)
    requires AllInBounds(s, sector, n, segs)
    ensures SameShape(s, s')
    decreases |segs|
  {
    if segs == [] then s
    else
      var t := Transfer(s, sector, n, segs[0].page, segs[0].off, write);
      BoundsKept(s, t, sector + n, n, segs[1..]);
      Segments(t, sector + n, n, segs[1..], write)
  }

  function XferBio<P>(s: Store<P>, bio: Bio<P>): (s': Store<P>)
    requires Safe(s, bio)
    ensures SameShape(s, s')
  {
    Segments(s, bio.sector, PerSegment(bio.segs), bio.segs, bio.write)
  }

  lemma WindowsKept<P>(s: Store<P>, t: Store<P>, segs: seq<Seg<P>>)
    requires SameShape(s, t) && Windows(s, segs)
    ensures Windows(t, segs)
  {
    forall k | 0 <= k < |segs| ensures Window(t, segs[k]) {
      assert Window(s, segs[k]);
    }
  }

  /** What is in bounds depends on sizes only. */
  lemma {:induction false} BoundsKept<P>(s: Store<P>, t: Store<P>, sector: nat, n: nat, segs: seq<Seg<P>>)
    requires SameShape(s, t) && AllInBounds(s, sector, n, segs)
    ensures AllInBounds(t, sector, n, segs)
    decreases |segs|
  {
    if segs != [] {
      BoundsKept(s, t, sector + n, n, segs[1..]);
    }
  }

  // The transfer a bio stands for: every segment with its own length, one behind the other.

  function Total<P>(segs: seq<Seg<P>>): nat {
    if segs == [] then 0 else segs[0].len + Total(segs[1..])
  }

  predicate OnDisk<P>(s: Store<P>, at: nat, segs: seq<Seg<P>>) {
    segs == [] || at + Total(segs) <= |s.disk|
  }

  function Contiguous<P>(s: Store<P>, at: nat, segs: seq<Seg<P>>, write: bool): (s': Store<P>)
    requires Windows(s, segs) && OnDisk(s, at, segs)
    ensures SameShape(s, s')
    decreases |segs|
  {
    if segs == [] then s
    else
      var t := Move(s, at, segs[0], write);
      WindowsKept(s, t, segs);
      Contiguous(t, at + segs[0].len, segs[1..], write)
  }

  lemma ContiguousStep<P>(s: Store<P>, at: nat, segs: seq<Seg<P>>, write: bool) returns (t: Store<P>)
    requires Windows(s, segs) && OnDisk(s, at, segs) && segs != []
    ensures Window(s, segs[0]) && at + segs[0].len <= |s.disk| && t == Move(s, at, segs[0], write)
    ensures Windows(t, segs[1..]) && OnDisk(t, at + segs[0].len, segs[1..])
    ensures Contiguous(s, at, segs, write) == Contiguous(t, at + segs[0].len, segs[1..], write)
  {
    t := Move(s, at, segs[0], write);
    WindowsKept(s, t, segs);
  }

  /** The bytes the segments hold, joined. */
  function Data<P>(s: Store<P>, segs: seq<Seg<P>>): (r: seq<byte>)
    requires Windows(s, segs)
    ensures |r| == Total(segs)
    decreases |segs|
  {
    if segs == [] then []
    else
      assert Window(s, segs[0]);
      Held(s, segs[0]) + Data(s, segs[1..])
  }

  lemma {:induction false} DataFrame<P>(s: Store<P>, t: Store<P>, segs: seq<Seg<P>>)
    requires Windows(s, segs) && t.pages == s.pages
    ensures Windows(t, segs) && Data(t, segs) == Data(s, segs)
    decreases |segs|
  {
    forall k | 0 <= k < |segs| ensures Window(t, segs[k]) {
      assert Window(s, segs[k]);
    }
    if segs != [] {
      DataFrame(s, t, segs[1..]);
    }
  }

  /** The bytes are written to the disk from byte `at` on, and nothing else changes. */
  ghost predicate HasWritten<P>(s: Store<P>, t: Store<P>, at: nat, data: seq<byte>) {
    at + |data| <= |s.disk| && t == s.(disk := Splice(s.disk, at, data))
  }

  lemma HasWrittenJoin<P>(s: Store<P>, t: Store<P>, u: Store<P>, at: nat, a: seq<byte>, b: seq<byte>)
    requires HasWritten(s, t, at, a) && HasWritten(t, u, at + |a|, b)
    ensures HasWritten(s, u, at, a + b)
  {
    assert Splice(Splice(s.disk, at, a), at + |a|, b) == Splice(s.disk, at, a + b);
  }

  lemma WriteStep<P>(s: Store<P>, at: nat, segs: seq<Seg<P>>) returns (t: Store<P>)
    requires Windows(s, segs) && OnDisk(s, at, segs) && segs != []
    ensures Window(s, segs[0]) && HasWritten(s, t, at, Held(s, segs[0]))
    ensures Windows(t, segs[1..]) && OnDisk(t, at + segs[0].len, segs[1..])
    ensures Data(s, segs) == Held(s, segs[0]) + Data(t, segs[1..])
    ensures Contiguous(s, at, segs, true) == Contiguous(t, at + segs[0].len, segs[1..], true)
  {
    t := ContiguousStep(s, at, segs, true);
    DataFrame(s, t, segs[1..]);
  }

  /** Writing segment behind segment is one write of what they hold joined, all other bytes unchanged. */
  lemma {:induction false} WriteIsSplice<P>(s: Store<P>, at: nat, segs: seq<Seg<P>>)
    requires Windows(s, segs) && at + Total(segs) <= |s.disk|
    ensures HasWritten(s, Contiguous(s, at, segs, true), at, Data(s, segs))
    decreases |segs|
  {
    if segs == [] {
      assert Splice(s.disk, at, []) == s.disk;
    } else {
      var t := WriteStep(s, at, segs);
      WriteIsSplice(t, at + segs[0].len, segs[1..]);
      var u := Contiguous(t, at + segs[0].len, segs[1..], true);
      HasWrittenJoin(s, t, u, at, Held(s, segs[0]), Data(t, segs[1..]));
    }
  }
}
