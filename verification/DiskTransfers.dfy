/** Whole bios of the RAM disk: what the driver moves, against what the segments ask for. */
module DiskTransfers {
  import opened Prelude
  import opened DiskSpec
  import opened DiskPlaces

  /** How many of `count` moves of `m` bytes from byte `at` on end on a device of `size` bytes. */
  function Fit(size: nat, at: nat, m: nat, count: nat): (r: nat)
    ensures r <= count
    decreases count
  {
    if count == 0 || at + m > size then 0 else 1 + Fit(size, at + m, m, count - 1)
  }

  /** Move `k` is done exactly when its end lies on the device. */
  lemma {:induction false} FitIsLongest(size: nat, at: nat, m: nat, count: nat, k: nat)
    requires k < count
    ensures k < Fit(size, at, m, count) <==> at + (k + 1) * m <= size
    decreases count
  {
    assert (k + 1) * m == k * m + m;
    if at + m <= size && k > 0 {
      FitIsLongest(size, at + m, m, count - 1, k - 1);
    }
  }

  lemma {:induction false} FitAll<P>(size: nat, at: nat, segs: seq<Seg<P>>, m: nat)
    requires at + Total(Resized(segs, m)) <= size
    ensures Fit(size, at, m, |segs|) == |segs|
    decreases |segs|
  {
    if segs != [] {
      assert Resized(segs, m)[1..] == Resized(segs[1..], m);
      FitAll(size, at + m, segs[1..], m);
    }
  }

  lemma OffsetNext(sector: nat, n: nat)
    requires ByteOffset(sector) + n * KERNEL_SECTOR_SIZE < ULONG_RANGE
    ensures ByteOffset(sector + n) == ByteOffset(sector) + n * KERNEL_SECTOR_SIZE
  {
    var x, y := sector * KERNEL_SECTOR_SIZE, n * KERNEL_SECTOR_SIZE;
    assert (sector + n) * KERNEL_SECTOR_SIZE == x / ULONG_RANGE * ULONG_RANGE + (x % ULONG_RANGE + y);
  }

  /** The segments as far as the driver moves them: resized, and only those that fit the device. */
  function Fitting<P>(size: nat, at: nat, segs: seq<Seg<P>>, m: nat): seq<Seg<P>> {
    Resized(segs[..Fit(size, at, m, |segs|)], m)
  }

  lemma FittingStep<P>(size: nat, at: nat, segs: seq<Seg<P>>, m: nat)
    requires segs != []
    ensures at + m > size ==> Fitting(size, at, segs, m) == []
    ensures at + m <= size ==> Fitting(size, at, segs, m) == [Resized(segs, m)[0]] + Fitting(size, at + m, segs[1..], m)
  {
    if at + m <= size {
      var r := Fit(size, at + m, m, |segs| - 1);
      assert segs[..1 + r][1..] == segs[1..][..r];
    }
  }

  lemma FittingHead<P>(size: nat, at: nat, segs: seq<Seg<P>>, m: nat) returns (moved: seq<Seg<P>>)
    requires segs != [] && at + m <= size
    ensures moved == Fitting(size, at, segs, m) && moved != []
    ensures moved[0] == Seg(segs[0].page, segs[0].off, m) && moved[1..] == Fitting(size, at + m, segs[1..], m)
  {
    moved := Fitting(size, at, segs, m);
    FittingStep(size, at, segs, m);
  }

  lemma {:induction false} FittingOnDisk<P>(s: Store<P>, at: nat, segs: seq<Seg<P>>, m: nat)
    ensures OnDisk(s, at, Fitting(|s.disk|, at, segs, m))
    decreases |segs|
  {
    if segs != [] {
      FittingStep(|s.disk|, at, segs, m);
      if at + m <= |s.disk| {
        FittingOnDisk(s, at + m, segs[1..], m);
        assert Fitting(|s.disk|, at, segs, m)[1..] == Fitting(|s.disk|, at + m, segs[1..], m);
      }
    }
  }

  /** The byte offsets of the segment loop do not wrap around. */
  predicate Straight<P>(sector: nat, n: nat, segs: seq<Seg<P>>) {
    ByteOffset(sector) + Total(Resized(segs, n * KERNEL_SECTOR_SIZE)) < ULONG_RANGE
  }

  lemma StraightStep<P>(sector: nat, n: nat, segs: seq<Seg<P>>)
    requires segs != [] && Straight(sector, n, segs)
    ensures ByteOffset(sector) + n * KERNEL_SECTOR_SIZE < ULONG_RANGE
    ensures ByteOffset(sector + n) == ByteOffset(sector) + n * KERNEL_SECTOR_SIZE
    ensures Straight(sector + n, n, segs[1..])
  {
    var m := n * KERNEL_SECTOR_SIZE;
    assert Resized(segs, m)[1..] == Resized(segs[1..], m);
    OffsetNext(sector, n);
  }

  lemma FirstInBounds<P>(s: Store<P>, sector: nat, n: nat, segs: seq<Seg<P>>)
    requires segs != [] && Straight(sector, n, segs)
    ensures var at, first := ByteOffset(sector), Seg(segs[0].page, segs[0].off, n * KERNEL_SECTOR_SIZE);
      InBounds(s, at, first) <==> first.page in s.pages && (at + first.len <= |s.disk| ==> Window(s, first))
  {
    StraightStep(sector, n, segs);
  }

  /** A bio is in bounds when the windows it moves are, and only then. */
  lemma {:induction false} BoundsIff<P>(s: Store<P>, sector: nat, n: nat, segs: seq<Seg<P>>)
    requires Straight(sector, n, segs) && forall k :: 0 <= k < |segs| ==> segs[k].page in s.pages
    ensures AllInBounds(s, sector, n, segs)
      <==> Windows(s, Fitting(|s.disk|, ByteOffset(sector), segs, n * KERNEL_SECTOR_SIZE))
    decreases |segs|
  {
    if segs != [] {
      var at, m := ByteOffset(sector), n * KERNEL_SECTOR_SIZE;
      FirstInBounds(s, sector, n, segs);
      StraightStep(sector, n, segs);
      BoundsIff(s, sector + n, n, segs[1..]);
      FittingStep(|s.disk|, at, segs, m);
      if at + m <= |s.disk| {
        WindowsCons(s, Resized(segs, m)[0], Fitting(|s.disk|, at + m, segs[1..], m));
      } else if |segs| > 1 {
        FittingStep(|s.disk|, at + m, segs[1..], m);
      }
    }
  }

  lemma WindowsCons<P>(s: Store<P>, first: Seg<P>, rest: seq<Seg<P>>)
    ensures Windows(s, [first] + rest) <==> Window(s, first) && Windows(s, rest)
  {
    var segs := [first] + rest;
    if Windows(s, segs) {
      assert Window(s, segs[0]);
      forall k | 0 <= k < |rest| ensures Window(s, rest[k]) {
        assert Window(s, segs[k + 1]);
      }
    }
  }

  lemma {:induction false} PagesInBounds<P>(s: Store<P>, sector: nat, n: nat, segs: seq<Seg<P>>)
    requires AllInBounds(s, sector, n, segs)
    ensures forall k :: 0 <= k < |segs| ==> segs[k].page in s.pages
    decreases |segs|
  {
    if segs != [] {
      PagesInBounds(s, sector + n, n, segs[1..]);
      forall k | 0 <= k < |segs| ensures segs[k].page in s.pages {
        assert k > 0 ==> segs[k] == segs[1..][k - 1];
      }
    }
  }

  lemma TransferMoves<P>(s: Store<P>, sector: nat, n: nat, page: P, off: nat, write: bool)
    requires var seg := Seg(page, off, n * KERNEL_SECTOR_SIZE);
      InBounds(s, ByteOffset(sector), seg) && ByteOffset(sector) + seg.len < ULONG_RANGE
    ensures var at, seg := ByteOffset(sector), Seg(page, off, n * KERNEL_SECTOR_SIZE);
      Transfer(s, sector, n, page, off, write) == if at + seg.len > |s.disk| then s else Move(s, at, seg, write)
  {
  }

  lemma SegmentsStep<P>(s: Store<P>, sector: nat, n: nat, segs: seq<Seg<P>>, write: bool) returns (t: Store<P>)
    requires AllInBounds(s, sector, n, segs) && segs != []
    ensures t == Transfer(s, sector, n, segs[0].page, segs[0].off, write)
    ensures AllInBounds(t, sector + n, n, segs[1..])
    ensures Segments(s, sector, n, segs, write) == Segments(t, sector + n, n, segs[1..], write)
  {
    t := Transfer(s, sector, n, segs[0].page, segs[0].off, write);
    BoundsKept(s, t, sector + n, n, segs[1..]);
  }

  lemma {:induction false} BeyondEnd<P>(s: Store<P>, sector: nat, n: nat, segs: seq<Seg<P>>, write: bool)
    requires Straight(sector, n, segs) && AllInBounds(s, sector, n, segs)
    requires ByteOffset(sector) + n * KERNEL_SECTOR_SIZE > |s.disk|
    ensures Segments(s, sector, n, segs, write) == s
    decreases |segs|
  {
    if segs != [] {
      var t := SegmentsStep(s, sector, n, segs, write);
      StraightStep(sector, n, segs);
      TransferMoves(s, sector, n, segs[0].page, segs[0].off, write);
      BeyondEnd(t, sector + n, n, segs[1..], write);
    }
  }

  lemma HeadStep<P>(s: Store<P>, t: Store<P>, at: nat, segs: seq<Seg<P>>, write: bool)
    requires segs != [] && Windows(s, segs) && OnDisk(s, at, segs)
    requires Window(s, segs[0]) && at + segs[0].len <= |s.disk| && t == Move(s, at, segs[0], write)
    ensures Windows(t, segs[1..]) && OnDisk(t, at + segs[0].len, segs[1..])
    ensures Contiguous(s, at, segs, write) == Contiguous(t, at + segs[0].len, segs[1..], write)
  {
    var t' := ContiguousStep(s, at, segs, write);
  }

  lemma FirstMoves<P>(s: Store<P>, sector: nat, n: nat, segs: seq<Seg<P>>, write: bool) returns (t: Store<P>)
    requires Straight(sector, n, segs) && AllInBounds(s, sector, n, segs) && segs != []
    requires ByteOffset(sector) + n * KERNEL_SECTOR_SIZE <= |s.disk|
    ensures var first := Seg(segs[0].page, segs[0].off, n * KERNEL_SECTOR_SIZE);
      Window(s, first) && t == Move(s, ByteOffset(sector), first, write)
    ensures AllInBounds(t, sector + n, n, segs[1..])
    ensures Segments(s, sector, n, segs, write) == Segments(t, sector + n, n, segs[1..], write)
  {
    t := SegmentsStep(s, sector, n, segs, write);
    StraightStep(sector, n, segs);
    FirstInBounds(s, sector, n, segs);
    TransferMoves(s, sector, n, segs[0].page, segs[0].off, write);
  }

  /** The same as `Fitting`, followed along the segments. */
  ghost predicate AreFitting<P>(size: nat, at: nat, segs: seq<Seg<P>>, m: nat, moved: seq<Seg<P>>)
    decreases |segs|
  {
    if segs == [] || at + m > size then moved == []
    else
      && moved != [] && moved[0] == Seg(segs[0].page, segs[0].off, m)
      && AreFitting(size, at + m, segs[1..], m, moved[1..])
  }

  lemma {:induction false} FittingAre<P>(size: nat, at: nat, segs: seq<Seg<P>>, m: nat)
    ensures AreFitting(size, at, segs, m, Fitting(size, at, segs, m))
    decreases |segs|
  {
    if segs != [] && at + m <= size {
      var moved := FittingHead(size, at, segs, m);
      FittingAre(size, at + m, segs[1..], m);
    }
  }

  lemma {:induction false} SegmentsAreMoved<P>(s: Store<P>, sector: nat, n: nat, segs: seq<Seg<P>>, write: bool,
                                               moved: seq<Seg<P>>)
    requires Straight(sector, n, segs) && AllInBounds(s, sector, n, segs)
    requires AreFitting(|s.disk|, ByteOffset(sector), segs, n * KERNEL_SECTOR_SIZE, moved)
    requires Windows(s, moved) && OnDisk(s, ByteOffset(sector), moved)
    ensures Segments(s, sector, n, segs, write) == Contiguous(s, ByteOffset(sector), moved, write)
    decreases |segs|
  {
    if segs == [] {
    } else if ByteOffset(sector) + n * KERNEL_SECTOR_SIZE > |s.disk| {
      BeyondEnd(s, sector, n, segs, write);
    } else {
      var t := FirstMoves(s, sector, n, segs, write);
      StraightStep(sector, n, segs);
      HeadStep(s, t, ByteOffset(sector), moved, write);
      SegmentsAreMoved(t, sector + n, n, segs[1..], write, moved[1..]);
    }
  }

  /** The segment loop is the transfer of one contiguous range: of the segments as resized, as far as they fit. */
  lemma SegmentsMove<P>(s: Store<P>, sector: nat, n: nat, segs: seq<Seg<P>>, write: bool)
    requires Straight(sector, n, segs) && AllInBounds(s, sector, n, segs)
    ensures var at := ByteOffset(sector);
      var moved := Fitting(|s.disk|, at, segs, n * KERNEL_SECTOR_SIZE);
      && Windows(s, moved) && OnDisk(s, at, moved)
      && Segments(s, sector, n, segs, write) == Contiguous(s, at, moved, write)
  {
    PagesInBounds(s, sector, n, segs);
    BoundsIff(s, sector, n, segs);
    var at, m := ByteOffset(sector), n * KERNEL_SECTOR_SIZE;
    FittingOnDisk(s, at, segs, m);
    FittingAre(|s.disk|, at, segs, m);
    SegmentsAreMoved(s, sector, n, segs, write, Fitting(|s.disk|, at, segs, m));
  }

  /** What the driver moves for a bio: as much per segment as the first one holds in whole sectors, while it fits. */
  function Moved<P>(size: nat, bio: Bio<P>): seq<Seg<P>> {
    Fitting(size, ByteOffset(bio.sector), bio.segs, PerSegment(bio.segs) * KERNEL_SECTOR_SIZE)
  }

  /** Each segment is moved from its own start with the length of the first, down to whole sectors. */
  lemma MovedIs<P>(size: nat, bio: Bio<P>, k: nat)
    requires k < |Moved(size, bio)|
    ensures k < |bio.segs|
    ensures var seg, len := bio.segs[k], bio.segs[0].len;
      Moved(size, bio)[k] == Seg(seg.page, seg.off, len - len % KERNEL_SECTOR_SIZE)
  {
  }

  /** No copy leaves its page or the device, and the byte offsets do not wrap around. */
  predicate Regular<P>(s: Store<P>, bio: Bio<P>) {
    Safe(s, bio) && Straight(bio.sector, PerSegment(bio.segs), bio.segs)
  }

  lemma BioMoves<P>(s: Store<P>, bio: Bio<P>)
    requires Regular(s, bio)
    ensures var at, moved := ByteOffset(bio.sector), Moved(|s.disk|, bio);
      && Windows(s, moved) && OnDisk(s, at, moved)
      && XferBio(s, bio) == Contiguous(s, at, moved, bio.write)
  {
    SegmentsMove(s, bio.sector, PerSegment(bio.segs), bio.segs, bio.write);
  }

  /** The disk holds the bytes of the listed places from byte `at` on; nothing else changes. */
  ghost predicate WrittenFrom<P>(s: Store<P>, t: Store<P>, at: nat, places: seq<Place<P>>) {
    && t.pages == s.pages && |t.disk| == |s.disk|
    && (forall j :: 0 <= j < |places| ==>
          Inside(s, places[j]) && at + j < |t.disk| && t.disk[at + j] == Byte(s, places[j]))
    && (forall k :: 0 <= k < |s.disk| && !(at <= k < at + |places|) ==> t.disk[k] == s.disk[k])
  }

  lemma WriteBytes<P>(s: Store<P>, at: nat, segs: seq<Seg<P>>)
    requires Windows(s, segs) && OnDisk(s, at, segs)
    ensures WrittenFrom(s, Contiguous(s, at, segs, true), at, Places(segs))
  {
    if segs != [] {
      WriteIsSplice(s, at, segs);
      DataWritten(s, Contiguous(s, at, segs, true), at, segs);
    }
  }

  lemma DataWritten<P>(s: Store<P>, t: Store<P>, at: nat, segs: seq<Seg<P>>)
    requires Windows(s, segs) && HasWritten(s, t, at, Data(s, segs))
    ensures WrittenFrom(s, t, at, Places(segs))
  {
    forall j | 0 <= j < Total(segs) ensures Inside(s, Places(segs)[j]) && t.disk[at + j] == Byte(s, Places(segs)[j]) {
      DataAt(s, segs, j);
    }
  }

  /** A write, byte by byte: the range moved holds the page bytes at its places, all else stays. */
  lemma BioWrites<P>(s: Store<P>, bio: Bio<P>)
    requires Regular(s, bio) && bio.write
    ensures WrittenFrom(s, XferBio(s, bio), ByteOffset(bio.sector), Places(Moved(|s.disk|, bio)))
  {
    BioMoves(s, bio);
    WriteBytes(s, ByteOffset(bio.sector), Moved(|s.disk|, bio));
  }

  /** Some segment covers the place when taken `m` bytes long. */
  ghost predicate Reaches<P>(segs: seq<Seg<P>>, m: nat, place: Place<P>) {
    exists k :: 0 <= k < |segs| && Covers(Resized(segs, m)[k], place)
  }

  lemma {:induction false} ReachesIff<P>(segs: seq<Seg<P>>, m: nat, place: Place<P>)
    ensures LastIndex(Places(Resized(segs, m)), place) >= 0 <==> Reaches(segs, m, place)
    decreases |segs|
  {
    if segs != [] {
      var first, rest := Resized(segs, m)[0], Resized(segs[1..], m);
      assert Resized(segs, m)[1..] == rest;
      LastIndexConcat(Run(first), Places(rest), place);
      LastIndexRun(first, place);
      ReachesIff(segs[1..], m, place);
      if Reaches(segs[1..], m, place) {
        var k :| 0 <= k < |segs| - 1 && Covers(rest[k], place);
        assert Covers(Resized(segs, m)[k + 1], place);
      }
      if Reaches(segs, m, place) && !Covers(first, place) {
        var k :| 0 <= k < |segs| && Covers(Resized(segs, m)[k], place);
        assert Covers(rest[k - 1], place);
      }
    }
  }

  /**
   What a place holds when `m` bytes from the start of each segment are read
   in: it is overwritten if it is less than `m` bytes behind some start, inside
   the segment or not, and gets the disk byte of the last move that reaches it.
   */
  ghost predicate ReadInto<P>(s: Store<P>, t: Store<P>, at: nat, segs: seq<Seg<P>>, m: nat, place: Place<P>) {
    var last := LastIndex(Places(Resized(segs, m)), place);
    && t.disk == s.disk && Inside(s, place) && Inside(t, place)
    && (Reaches(segs, m, place) ==> last >= 0 && at + last < |s.disk| && Byte(t, place) == s.disk[at + last])
    && (!Reaches(segs, m, place) ==> Byte(t, place) == Byte(s, place))
  }

  lemma HasReadInto<P>(s: Store<P>, t: Store<P>, at: nat, segs: seq<Seg<P>>, m: nat, place: Place<P>)
    requires HasRead(s, t, at, Places(Resized(segs, m)), place)
    ensures ReadInto(s, t, at, segs, m, place)
  {
    ReachesIff(segs, m, place);
  }

  /** A read, byte by byte: it fills the moved length from the start of each segment that fits, and nothing else. */
  lemma BioReads<P>(s: Store<P>, bio: Bio<P>, place: Place<P>)
    requires Regular(s, bio) && !bio.write && Inside(s, place)
    ensures var at, m := ByteOffset(bio.sector), PerSegment(bio.segs) * KERNEL_SECTOR_SIZE;
      ReadInto(s, XferBio(s, bio), at, bio.segs[..Fit(|s.disk|, at, m, |bio.segs|)], m, place)
  {
    var at, m := ByteOffset(bio.sector), PerSegment(bio.segs) * KERNEL_SECTOR_SIZE;
    BioMoves(s, bio);
    ReadBytes(s, at, Moved(|s.disk|, bio), place);
    HasReadInto(s, XferBio(s, bio), at, bio.segs[..Fit(|s.disk|, at, m, |bio.segs|)], m, place);
  }

  // Out and back.

  /** No byte of a page is named twice. */
  predicate NoRepeat<P(==)>(places: seq<Place<P>>) {
    forall i, j :: 0 <= i < j < |places| ==> places[i] != places[j]
  }

  lemma LastIndexOnce<P>(places: seq<Place<P>>, k: nat)
    requires NoRepeat(places) && k < |places|
    ensures LastIndex(places, places[k]) == k
  {
    LastIndexIs(places, places[k], k);
  }

  lemma ReadOnce<P>(s: Store<P>, t: Store<P>, at: nat, places: seq<Place<P>>, k: nat)
    requires NoRepeat(places) && k < |places| && HasRead(s, t, at, places, places[k])
    ensures at + k < |s.disk| && Inside(t, places[k]) && Byte(t, places[k]) == s.disk[at + k]
  {
    LastIndexOnce(places, k);
  }

  lemma PlaceRead<P>(s: Store<P>, at: nat, segs: seq<Seg<P>>, k: nat)
    requires Windows(s, segs) && at + Total(segs) <= |s.disk| && NoRepeat(Places(segs)) && k < Total(segs)
    ensures var t, place := Contiguous(s, at, segs, false), Places(segs)[k];
      Inside(t, place) && Byte(t, place) == s.disk[at + k]
  {
    DataAt(s, segs, k);
    ReadBytes(s, at, segs, Places(segs)[k]);
    ReadOnce(s, Contiguous(s, at, segs, false), at, Places(segs), k);
  }

  lemma DataIs<P>(t: Store<P>, segs: seq<Seg<P>>, d: seq<byte>)
    requires Windows(t, segs) && |d| == Total(segs)
    requires forall k :: 0 <= k < |d| ==> Inside(t, Places(segs)[k]) && Byte(t, Places(segs)[k]) == d[k]
    ensures Data(t, segs) == d
  {
    forall k | 0 <= k < |d| ensures Data(t, segs)[k] == d[k] {
      DataAt(t, segs, k);
    }
  }

  /** After a read into separate places, they hold the range that was read. */
  lemma ReadIsSlice<P>(s: Store<P>, at: nat, segs: seq<Seg<P>>)
    requires Windows(s, segs) && at + Total(segs) <= |s.disk| && NoRepeat(Places(segs))
    ensures var t := Contiguous(s, at, segs, false);
      Windows(t, segs) && Data(t, segs) == s.disk[at..at + Total(segs)]
  {
    var t, d := Contiguous(s, at, segs, false), s.disk[at..at + Total(segs)];
    WindowsKept(s, t, segs);
    forall k | 0 <= k < |d| ensures Inside(t, Places(segs)[k]) && Byte(t, Places(segs)[k]) == d[k] {
      PlaceRead(s, at, segs, k);
    }
    DataIs(t, segs, d);
  }

  lemma RegularKept<P>(s: Store<P>, t: Store<P>, bio: Bio<P>)
    requires SameShape(s, t) && Regular(s, bio)
    ensures Regular(t, bio)
  {
    BoundsKept(s, t, bio.sector, PerSegment(bio.segs), bio.segs);
  }

  /** The bytes are on the disk from byte `at` on. */
  predicate Stored(disk: seq<byte>, at: nat, data: seq<byte>) {
    data == [] || (at + |data| <= |disk| && disk[at..at + |data|] == data)
  }

  lemma StoredFront(disk: seq<byte>, at: nat, sent: seq<byte>, got: seq<byte>)
    requires Stored(disk, at, sent) && Stored(disk, at, got) && |got| <= |sent|
    ensures got == sent[..|got|]
  {
    if got != [] {
      assert disk[at..at + |got|] == disk[at..at + |sent|][..|got|];
    }
  }

  lemma WrittenRange<P>(s: Store<P>, bio: Bio<P>)
    requires Regular(s, bio) && bio.write
    ensures var at, moved, t := ByteOffset(bio.sector), Moved(|s.disk|, bio), XferBio(s, bio);
      Windows(s, moved) && Stored(t.disk, at, Data(s, moved))
  {
    var at, moved := ByteOffset(bio.sector), Moved(|s.disk|, bio);
    BioMoves(s, bio);
    if moved != [] {
      WriteIsSplice(s, at, moved);
      assert Splice(s.disk, at, Data(s, moved))[at..at + Total(moved)] == Data(s, moved);
    }
  }

  lemma ReadRange<P>(t: Store<P>, bio: Bio<P>)
    requires Regular(t, bio) && !bio.write && NoRepeat(Places(Moved(|t.disk|, bio)))
    ensures var at, moved, u := ByteOffset(bio.sector), Moved(|t.disk|, bio), XferBio(t, bio);
      Windows(u, moved) && Stored(t.disk, at, Data(u, moved))
  {
    BioMoves(t, bio);
    WindowsKept(t, XferBio(t, bio), Moved(|t.disk|, bio));
    if Moved(|t.disk|, bio) != [] {
      ReadIsSlice(t, ByteOffset(bio.sector), Moved(|t.disk|, bio));
    }
  }

  /** What one bio moves out another moves back, under any two segmentations and into any pages. */
  lemma RoundTrip<P>(s: Store<P>, out: Bio<P>, back: Bio<P>)
    requires Regular(s, out) && out.write && Regular(s, back) && !back.write
    requires ByteOffset(out.sector) == ByteOffset(back.sector)
    requires Total(Moved(|s.disk|, back)) <= Total(Moved(|s.disk|, out)) && NoRepeat(Places(Moved(|s.disk|, back)))
    ensures Regular(XferBio(s, out), back)
    ensures var u, sent, got := XferBio(XferBio(s, out), back), Moved(|s.disk|, out), Moved(|s.disk|, back);
      Windows(s, sent) && Windows(u, got) && Data(u, got) == Data(s, sent)[..Total(got)]
  {
    var t := XferBio(s, out);
    RegularKept(s, t, back);
    WrittenRange(s, out);
    ReadRange(t, back);
    var sent, got := Data(s, Moved(|s.disk|, out)), Data(XferBio(t, back), Moved(|s.disk|, back));
    StoredFront(t.disk, ByteOffset(out.sector), sent, got);
  }
}
