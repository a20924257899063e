/** The RAM disk driver as its code works: copies between the device array and windows of memory pages, in place. */
module VmemDisk {
  import opened Prelude
  import D = DiskSpec
  import T = DiskTransfers
  import M = DiskModes
  import Q = DiskQueue

  const HARDSECT_SIZE: nat := 512
  const NSECTORS: nat := 1024

  type Page = array<byte>

  /** How a request ends. */
  datatype Status = Done | IoError

  /** File system requests end well, others with an error. */
  predicate Ended(queue: seq<D.Request<Page>>, statuses: seq<Status>) {
    && |statuses| == |queue|
    && forall i :: 0 <= i < |queue| ==> statuses[i] == if queue[i].fs then Done else IoError
  }

  /** The capacity the driver announces, in sectors. */
  const CAPACITY: nat := NSECTORS * (HARDSECT_SIZE / D.KERNEL_SECTOR_SIZE)

  class VmemDisk {
    const data: array<byte>
    const size: nat
    var queue: seq<D.Request<Page>>

    ghost predicate Valid() {
      size == data.Length == NSECTORS * HARDSECT_SIZE
    }

    /** The disk and the given pages as a value. */
    ghost function Contents(pages: set<Page>): D.Store<Page>
      reads data, pages
    {
      D.Store(data[..], map p | p in pages :: p[..])
    }

    constructor ()
      ensures Valid() && fresh(data) && queue == []
    {
      size := NSECTORS * HARDSECT_SIZE;
      data := new byte[NSECTORS * HARDSECT_SIZE](_ => 0);
      queue := [];
    }

    method Transfer(sector: nat, nsect: nat, buffer: Page, off: nat, write: bool, ghost pages: set<Page>)
      requires Valid() && buffer in pages && data !in pages
      requires D.InBounds(Contents(pages), D.ByteOffset(sector), D.Seg(buffer, off, nsect * D.KERNEL_SECTOR_SIZE))
      modifies data, buffer
      ensures Contents(pages) == D.Transfer(old(Contents(pages)), sector, nsect, buffer, off, write)
    {
      ghost var before := Contents(pages);
      var offset := sector * D.KERNEL_SECTOR_SIZE % D.ULONG_RANGE;
      var nbytes := nsect * D.KERNEL_SECTOR_SIZE;
      if (offset + nbytes) % D.ULONG_RANGE > size {
        return;
      }
      ghost var seg := D.Seg(buffer, off, nbytes);
      assert D.Transfer(before, sector, nsect, buffer, off, write) == D.Move(before, offset, seg, write);
      if write {
        CopyOut(offset, nbytes, buffer, off, pages);
      } else {
        CopyIn(offset, nbytes, buffer, off, pages);
      }
    }

    /** memcpy to the device. */
    method CopyOut(offset: nat, nbytes: nat, buffer: Page, off: nat, ghost pages: set<Page>)
      requires buffer in pages && data !in pages && off + nbytes <= buffer.Length && offset + nbytes <= data.Length
      modifies data
      ensures Contents(pages) == D.Move(old(Contents(pages)), offset, D.Seg(buffer, off, nbytes), true)
    {
      ghost var before := Contents(pages);
      forall k | 0 <= k < nbytes {
        data[offset + k] := buffer[off + k];
      }
      assert data[..] == Splice(before.disk, offset, before.pages[buffer][off..off + nbytes]);
      forall p: Page | p in pages ensures p[..] == before.pages[p] {
        assert p[..] == old(p[..]);
      }
      assert Contents(pages).pages == before.pages;
    }

    /** memcpy from the device. */
    method CopyIn(offset: nat, nbytes: nat, buffer: Page, off: nat, ghost pages: set<Page>)
      requires buffer in pages && data !in pages && off + nbytes <= buffer.Length && offset + nbytes <= data.Length
      modifies buffer
      ensures Contents(pages) == D.Move(old(Contents(pages)), offset, D.Seg(buffer, off, nbytes), false)
    {
      ghost var before := Contents(pages);
      forall k | 0 <= k < nbytes {
        buffer[off + k] := data[offset + k];
      }
      assert buffer[..] == Splice(before.pages[buffer], off, before.disk[offset..offset + nbytes]);
      forall p: Page | p in pages && p != buffer ensures p[..] == before.pages[p] {
        assert p[..] == old(p[..]);
      }
      assert Contents(pages).pages == before.pages[buffer := buffer[..]];
      assert Contents(pages).disk == before.disk;
    }

    /** The segment loop. */
    method XferBio(bio: D.Bio<Page>, ghost pages: set<Page>)
      requires Valid() && data !in pages && D.Safe(Contents(pages), bio)
      modifies data, pages
      ensures Contents(pages) == D.XferBio(old(Contents(pages)), bio)
    {
      ghost var before := Contents(pages);
      var sector: nat := bio.sector;
      var i: nat := 0;
      assert bio.segs[0..] == bio.segs;
      while i < |bio.segs|
        invariant 0 <= i <= |bio.segs|
        invariant InLoop(before, Contents(pages), bio, i, sector)
      {
        sector := XferSegment(bio, i, sector, before, pages);
        i := i + 1;
      }
    }

    /** One turn of the loop; the length asked for is that of the bio's current segment, which stays the first. */
    method XferSegment(bio: D.Bio<Page>, i: nat, sector: nat, ghost before: D.Store<Page>, ghost pages: set<Page>)
        returns (next: nat)
      requires Valid() && data !in pages && i < |bio.segs| && InLoop(before, Contents(pages), bio, i, sector)
      modifies data, pages
      ensures InLoop(before, Contents(pages), bio, i + 1, next)
    {
      var nsect := bio.segs[0].len / D.KERNEL_SECTOR_SIZE;
      LoopStep(before, Contents(pages), bio, i, sector);
      Transfer(sector, nsect, bio.segs[i].page, bio.segs[i].off, bio.write, pages);
      next := sector + nsect;
    }

    /** make_request: one bio at once. */
    method MakeRequest(bio: D.Bio<Page>, ghost pages: set<Page>) returns (status: Status)
      requires Valid() && data !in pages && M.AllSafe(Contents(pages), [bio])
      modifies data, pages
      ensures status == Done
      ensures Contents(pages) == M.Direct(old(Contents(pages)), [bio]) == D.XferBio(old(Contents(pages)), bio)
    {
      assert bio in [bio];
      Q.OneBio(Contents(pages), bio);
      XferBio(bio, pages);
      status := Done;
    }

    /** The loop over the bios of one request. */
    method TransferRequest(bios: seq<D.Bio<Page>>, ghost pages: set<Page>)
      requires Valid() && data !in pages && M.AllSafe(Contents(pages), bios)
      modifies data, pages
      ensures Contents(pages) == M.Direct(old(Contents(pages)), bios)
    {
      ghost var before := Contents(pages);
      var i := 0;
      while i < |bios|
        invariant 0 <= i <= |bios| && D.SameShape(before, Contents(pages))
        invariant M.AllSafe(Contents(pages), bios[i..])
        invariant M.Direct(before, bios) == M.Direct(Contents(pages), bios[i..])
      {
        ghost var now := Contents(pages);
        assert bios[i..][0] == bios[i] && bios[i..][1..] == bios[i + 1..];
        XferBio(bios[i], pages);
        M.SafeKept(now, Contents(pages), bios[i + 1..]);
        i := i + 1;
      }
    }

    /** request: drains the queue; requests of other kinds are skipped with an error. */
    method DrainQueue(ghost pages: set<Page>) returns (statuses: seq<Status>)
      requires Valid() && data !in pages && M.SafeQueue(Contents(pages), queue)
      modifies this`queue, data, pages
      ensures queue == [] && |statuses| == |old(queue)|
      ensures forall i :: 0 <= i < |statuses| ==> statuses[i] == if old(queue)[i].fs then Done else IoError
      ensures Contents(pages) == M.Drained(old(Contents(pages)), old(queue))
    {
      ghost var before, all := Contents(pages), queue;
      statuses := [];
      while queue != []
        invariant |statuses| + |queue| == |all| && queue == all[|statuses|..]
        invariant Ended(all[..|statuses|], statuses)
        invariant D.SameShape(before, Contents(pages)) && M.SafeQueue(Contents(pages), queue)
        invariant M.Drained(before, all) == M.Drained(Contents(pages), queue)
        decreases |queue|
      {
        ghost var now := Contents(pages);
        EndedGrows(all, statuses);
        var req := queue[0];
        queue := queue[1..];
        assert req == all[|statuses|];
        if !req.fs {
          statuses := statuses + [IoError];
        } else {
          TransferRequest(req.bios, pages);
          statuses := statuses + [Done];
        }
        assert M.SafeQueue(now, queue);
        M.SafeQueueKept(now, Contents(pages), queue);
      }
      assert all[..|statuses|] == all;
    }
  }

  /** The invariant of the segment loop: what is left of the segments completes the bio. */
  ghost predicate InLoop(s: D.Store<Page>, now: D.Store<Page>, bio: D.Bio<Page>, i: nat, sector: nat)
    requires i <= |bio.segs|
  {
    var n := D.PerSegment(bio.segs);
    && D.Safe(s, bio) && D.SameShape(s, now) && D.AllInBounds(now, sector, n, bio.segs[i..])
    && D.XferBio(s, bio) == D.Segments(now, sector, n, bio.segs[i..], bio.write)
  }

  lemma LoopStep(s: D.Store<Page>, now: D.Store<Page>, bio: D.Bio<Page>, i: nat, sector: nat)
    requires i < |bio.segs| && InLoop(s, now, bio, i, sector)
    ensures var n, seg := D.PerSegment(bio.segs), bio.segs[i];
      && D.InBounds(now, D.ByteOffset(sector), D.Seg(seg.page, seg.off, n * D.KERNEL_SECTOR_SIZE))
      && InLoop(s, D.Transfer(now, sector, n, seg.page, seg.off, bio.write), bio, i + 1, sector + n)
  {
    var n, rest := D.PerSegment(bio.segs), bio.segs[i..];
    assert rest[0] == bio.segs[i] && rest[1..] == bio.segs[i + 1..];
    var t := D.Transfer(now, sector, n, rest[0].page, rest[0].off, bio.write);
    D.BoundsKept(now, t, sector + n, n, rest[1..]);
  }

  lemma EndedGrows(queue: seq<D.Request<Page>>, statuses: seq<Status>)
    requires |statuses| < |queue| && Ended(queue[..|statuses|], statuses)
    ensures Ended(queue[..|statuses| + 1], statuses + [if queue[|statuses|].fs then Done else IoError])
  {
  }

  /** The device has exactly the sectors it announces: a one-sector bio is moved there, and turned away beyond. */
  lemma AnnouncedSectors(s: D.Store<Page>, bio: D.Bio<Page>)
    requires Q.OneSector(bio) && D.Windows(s, bio.segs) && |s.disk| == NSECTORS * HARDSECT_SIZE
    ensures bio.sector < CAPACITY ==> D.Safe(s, bio) && T.Moved(|s.disk|, bio) == bio.segs
    ensures CAPACITY <= bio.sector < Q.SECTOR_RANGE - 1 ==> D.Safe(s, bio) && D.XferBio(s, bio) == s
  {
    Q.SectorsOnDevice(s, bio, CAPACITY);
  }
}
