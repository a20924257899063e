/** What bios do when they come through either dispatch mode, and the disk as an array of sectors. */
module DiskQueue {
  import opened Prelude
  import opened DiskSpec
  import opened DiskPlaces
  import opened DiskTransfers
  import opened DiskExact
  import opened DiskModes

  // One bio.

  /** A bio handled directly, or as the one bio of a request, is transferred; a request of another kind does nothing. */
  lemma OneBio<P>(s: Store<P>, bio: Bio<P>)
    requires Safe(s, bio)
    ensures AllSafe(s, [bio]) && SafeQueue(s, [Request(true, [bio])]) && SafeQueue(s, [Request(false, [bio])])
    ensures Direct(s, [bio]) == Drained(s, [Request(true, [bio])]) == XferBio(s, bio)
    ensures Drained(s, [Request(false, [bio])]) == s
  {
    assert [bio][1..] == [];
    assert [Request(true, [bio])][1..] == [];
    assert [Request(false, [bio])][1..] == [];
  }

  /** In either mode a write puts exactly the page bytes at the moved places on the disk. */
  lemma ModesWrite<P>(s: Store<P>, bio: Bio<P>)
    requires Regular(s, bio) && bio.write
    ensures AllSafe(s, [bio]) && SafeQueue(s, [Request(true, [bio])])
    ensures var at, places := ByteOffset(bio.sector), Places(Moved(|s.disk|, bio));
      && WrittenFrom(s, Direct(s, [bio]), at, places)
      && WrittenFrom(s, Drained(s, [Request(true, [bio])]), at, places)
  {
    OneBio(s, bio);
    BioWrites(s, bio);
  }

  /** In either mode a read fills the moved length from the start of each segment that fits, and nothing else. */
  lemma ModesRead<P>(s: Store<P>, bio: Bio<P>, place: Place<P>)
    requires Regular(s, bio) && !bio.write && Inside(s, place)
    ensures AllSafe(s, [bio]) && SafeQueue(s, [Request(true, [bio])])
    ensures var at, m := ByteOffset(bio.sector), PerSegment(bio.segs) * KERNEL_SECTOR_SIZE;
      var fitting := bio.segs[..Fit(|s.disk|, at, m, |bio.segs|)];
      && ReadInto(s, Direct(s, [bio]), at, fitting, m, place)
      && ReadInto(s, Drained(s, [Request(true, [bio])]), at, fitting, m, place)
  {
    OneBio(s, bio);
    BioReads(s, bio, place);
  }

  // Out and back through a queue.

  lemma {:induction false} SegmentsKeepDisk<P>(s: Store<P>, sector: nat, n: nat, segs: seq<Seg<P>>)
    requires AllInBounds(s, sector, n, segs)
    ensures Segments(s, sector, n, segs, false).disk == s.disk
    decreases |segs|
  {
    if segs != [] {
      var t := SegmentsStep(s, sector, n, segs, false);
      SegmentsKeepDisk(t, sector + n, n, segs[1..]);
    }
  }

  predicate OnlyReads<P>(bios: seq<Bio<P>>) {
    forall k :: 0 <= k < |bios| ==> !bios[k].write
  }

  lemma {:induction false} ReadsKeepTheDisk<P>(s: Store<P>, bios: seq<Bio<P>>)
    requires AllSafe(s, bios) && OnlyReads(bios)
    ensures Direct(s, bios).disk == s.disk
    decreases |bios|
  {
    if bios != [] {
      var bio := bios[0];
      assert bio in bios;
      SegmentsKeepDisk(s, bio.sector, PerSegment(bio.segs), bio.segs);
      SafeKept(s, XferBio(s, bio), bios[1..]);
      ReadsKeepTheDisk(XferBio(s, bio), bios[1..]);
    }
  }

  /** After a write, whatever is read meanwhile, a read of the same range brings the data back. */
  lemma DirectRoundTrip<P>(s: Store<P>, out: Bio<P>, mid: seq<Bio<P>>, back: Bio<P>)
    requires WellPlaced(s, out) && out.write && WellPlaced(s, back) && !back.write && |s.disk| < ULONG_RANGE
    requires EqualSectors(out.segs) && EqualSectors(back.segs) && NoRepeat(Places(back.segs))
    requires ByteOffset(out.sector) == ByteOffset(back.sector) && Total(out.segs) == Total(back.segs)
    requires OnlyReads(mid) && AllSafe(s, [out] + mid + [back])
    ensures var u := Direct(s, [out] + mid + [back]);
      Windows(u, back.segs) && Data(u, back.segs) == Data(s, out.segs)
  {
    var t := XferBio(s, out);
    AllSafeParts(s, out, mid, back);
    OneBio(s, out);
    SafeKept(s, t, mid);
    DirectAppend(s, [out] + mid, [back]);
    DirectAppend(s, [out], mid);
    ReadsKeepTheDisk(t, mid);
    var v := Direct(t, mid);
    RegularBoth(s, out, back);
    RegularKept(s, v, back);
    OneBio(v, back);
    WrittenRange(s, out);
    ReadRange(v, back);
    StoredFront(t.disk, ByteOffset(out.sector), Data(s, out.segs), Data(XferBio(v, back), back.segs));
  }

  lemma AllSafeParts<P>(s: Store<P>, out: Bio<P>, mid: seq<Bio<P>>, back: Bio<P>)
    requires AllSafe(s, [out] + mid + [back])
    ensures Safe(s, out) && Safe(s, back) && AllSafe(s, mid) && AllSafe(s, [out] + mid) && AllSafe(s, [out])
  {
    var all := [out] + mid + [back];
    assert out in all && back in all;
    forall bio | bio in mid ensures Safe(s, bio) {
      assert bio in all;
    }
  }

  lemma RegularBoth<P>(s: Store<P>, out: Bio<P>, back: Bio<P>)
    requires WellPlaced(s, out) && WellPlaced(s, back) && |s.disk| < ULONG_RANGE
    requires EqualSectors(out.segs) && EqualSectors(back.segs)
    ensures Regular(s, out) && Regular(s, back)
    ensures Moved(|s.disk|, out) == out.segs && Moved(|s.disk|, back) == back.segs
  {
    EqualIsRegular(s, out);
    EqualIsRegular(s, back);
    EqualIsMoved(s, out);
    EqualIsMoved(s, back);
  }

  /**
   The same through a queue, however its bios are grouped into requests and
   whatever other requests stand between them: what a write bio puts out, a later
   read bio of the range brings back, as long as only reads come between.
   */
  lemma QueueRoundTrip<P>(s: Store<P>, queue: seq<Request<P>>, before: seq<Bio<P>>,
                          out: Bio<P>, mid: seq<Bio<P>>, back: Bio<P>)
    requires SafeQueue(s, queue) && FsBios(queue) == before + ([out] + mid + [back])
    requires WellPlaced(s, out) && out.write && WellPlaced(s, back) && !back.write && |s.disk| < ULONG_RANGE
    requires EqualSectors(out.segs) && EqualSectors(back.segs) && NoRepeat(Places(back.segs))
    requires ByteOffset(out.sector) == ByteOffset(back.sector) && Total(out.segs) == Total(back.segs) && OnlyReads(mid)
    ensures AllSafe(s, before)
    ensures var t, u := Direct(s, before), Drained(s, queue);
      Windows(t, out.segs) && Windows(u, back.segs) && Data(u, back.segs) == Data(t, out.segs)
  {
    var rest := [out] + mid + [back];
    ModesAgree(s, queue);
    assert forall bio :: bio in before || bio in rest ==> bio in before + rest;
    DirectAppend(s, before, rest);
    var t := Direct(s, before);
    WindowsKept(s, t, out.segs);
    WindowsKept(s, t, back.segs);
    SafeKept(s, t, rest);
    DirectRoundTrip(t, out, mid, back);
  }

  // The disk as an array of sectors.

  const SECTOR_RANGE: nat := 0x80_0000_0000_0000

  /** The byte offset sees a sector number modulo 2^55. */
  lemma OffsetOfSector(sector: nat)
    ensures ByteOffset(sector) == sector % SECTOR_RANGE * KERNEL_SECTOR_SIZE
  {
    var q, r := sector / SECTOR_RANGE, sector % SECTOR_RANGE;
    assert sector * KERNEL_SECTOR_SIZE == q * ULONG_RANGE + r * KERNEL_SECTOR_SIZE;
  }

  /** A bio of one segment of one sector. */
  predicate OneSector<P>(bio: Bio<P>) {
    |bio.segs| == 1 && bio.segs[0].len == KERNEL_SECTOR_SIZE
  }

  lemma OneSectorIs<P>(s: Store<P>, bio: Bio<P>)
    requires OneSector(bio)
    ensures Total(bio.segs) == KERNEL_SECTOR_SIZE && NoRepeat(Places(bio.segs)) && EqualSectors(bio.segs)
    ensures Safe(s, bio) <==> InBounds(s, ByteOffset(bio.sector), bio.segs[0])
    ensures var seg := bio.segs[0];
      Safe(s, bio) ==> XferBio(s, bio) == Transfer(s, bio.sector, 1, seg.page, seg.off, bio.write)
  {
    var seg := bio.segs[0];
    assert bio.segs[1..] == [] && PerSegment(bio.segs) == 1 && seg == Seg(seg.page, seg.off, 1 * KERNEL_SECTOR_SIZE);
    assert AllInBounds(s, bio.sector + 1, 1, bio.segs[1..]);
    if Safe(s, bio) {
      var t := SegmentsStep(s, bio.sector, 1, bio.segs, bio.write);
      assert Segments(t, bio.sector + 1, 1, bio.segs[1..], bio.write) == t;
    }
  }

  /**
   Which sectors a device of `count` sectors has: exactly those whose number
   modulo 2^55 is below `count`. All others are turned away but the last before
   2^55, whose end wraps around to 0 and passes for one on the device.
   */
  lemma SectorsOnDevice<P>(s: Store<P>, bio: Bio<P>, count: nat)
    requires OneSector(bio) && Windows(s, bio.segs)
    requires |s.disk| == count * KERNEL_SECTOR_SIZE < ULONG_RANGE
    ensures Safe(s, bio) <==> bio.sector % SECTOR_RANGE != SECTOR_RANGE - 1
    ensures bio.sector % SECTOR_RANGE < count ==> Regular(s, bio) && Moved(|s.disk|, bio) == bio.segs
    ensures Safe(s, bio) && bio.sector % SECTOR_RANGE >= count ==> XferBio(s, bio) == s
  {
    OffsetOfSector(bio.sector);
    OneSectorIs(s, bio);
    assert Window(s, bio.segs[0]);
    if bio.sector % SECTOR_RANGE < count {
      EqualIsRegular(s, bio);
      EqualIsMoved(s, bio);
    }
  }

  lemma WrittenSector<P>(s: Store<P>, out: Bio<P>)
    requires OneSector(out) && out.write && Regular(s, out) && Windows(s, out.segs) && Moved(|s.disk|, out) == out.segs
    ensures HasWritten(s, XferBio(s, out), ByteOffset(out.sector), Data(s, out.segs))
  {
    OneSectorIs(s, out);
    BioMoves(s, out);
    WriteIsSplice(s, ByteOffset(out.sector), out.segs);
  }

  lemma ReadSector<P>(t: Store<P>, back: Bio<P>)
    requires OneSector(back) && !back.write && Regular(t, back) && Moved(|t.disk|, back) == back.segs
    ensures var u, at := XferBio(t, back), ByteOffset(back.sector);
      && Windows(u, back.segs) && at + KERNEL_SECTOR_SIZE <= |t.disk|
      && Data(u, back.segs) == t.disk[at..at + KERNEL_SECTOR_SIZE]
  {
    OneSectorIs(t, back);
    ReadRange(t, back);
  }

  /** What is read from a sector is what was last written to it: a write to one sector leaves all others alone. */
  lemma SectorsAreSeparate<P>(s: Store<P>, out: Bio<P>, back: Bio<P>, count: nat)
    requires OneSector(out) && Windows(s, out.segs) && out.write
    requires OneSector(back) && Windows(s, back.segs) && !back.write
    requires |s.disk| == count * KERNEL_SECTOR_SIZE < ULONG_RANGE
    requires out.sector % SECTOR_RANGE < count && back.sector % SECTOR_RANGE < count
    ensures Safe(s, out) && Safe(XferBio(s, out), back)
    ensures var u, at := XferBio(XferBio(s, out), back), ByteOffset(back.sector);
      Windows(u, back.segs) && at + KERNEL_SECTOR_SIZE <= |s.disk| && Data(u, back.segs) ==
        if out.sector % SECTOR_RANGE == back.sector % SECTOR_RANGE then Data(s, out.segs)
        else s.disk[at..at + KERNEL_SECTOR_SIZE]
  {
    SectorsOnDevice(s, out, count);
    SectorsOnDevice(s, back, count);
    OffsetOfSector(out.sector);
    OffsetOfSector(back.sector);
    var t := XferBio(s, out);
    RegularKept(s, t, back);
    WrittenSector(s, out);
    ReadSector(t, back);
    SpliceSlices(s.disk, ByteOffset(out.sector), Data(s, out.segs), ByteOffset(back.sector));
  }

  lemma SpliceSlices(d: seq<byte>, at: nat, data: seq<byte>, other: nat)
    requires at + |data| <= |d| && other + |data| <= |d|
    ensures Splice(d, at, data)[at..at + |data|] == data
    ensures at + |data| <= other || other + |data| <= at ==>
      Splice(d, at, data)[other..other + |data|] == d[other..other + |data|]
  {
  }
}
