/** When exactly a segmented transfer is the contiguous transfer of its segments. */
module DiskExact {
  import opened Prelude
  import opened DiskSpec
  import opened DiskPlaces
  import opened DiskTransfers

  // Writes: the same places.

  /** A store of the same shape with `fill` on the disk, and 0 in memory except for 1 at one place. */
  ghost function Marked<P>(s: Store<P>, fill: byte, place: Place<P>): (t: Store<P>)
    ensures SameShape(s, t)
    ensures forall k :: 0 <= k < |t.disk| ==> t.disk[k] == fill
  {
    Store(seq(|s.disk|, _ => fill),
          map p | p in s.pages ::
            seq(|s.pages[p]|, i requires 0 <= i < |s.pages[p]| => if Place(p, i) == place then 1 else 0))
  }

  lemma MarkedByte<P>(s: Store<P>, fill: byte, place: Place<P>, q: Place<P>)
    requires Inside(s, q)
    ensures Inside(Marked(s, fill, place), q) && Byte(Marked(s, fill, place), q) == if q == place then 1 else 0
  {
  }

  lemma SameData<P>(s: Store<P>, a: seq<Seg<P>>, b: seq<Seg<P>>)
    requires Windows(s, a) && Windows(s, b) && Places(a) == Places(b)
    ensures Data(s, a) == Data(s, b)
  {
    forall k | 0 <= k < Total(a) ensures Data(s, a)[k] == Data(s, b)[k] {
      DataAt(s, a, k);
      DataAt(s, b, k);
    }
  }

  lemma WriteSame<P>(s: Store<P>, at: nat, a: seq<Seg<P>>, b: seq<Seg<P>>)
    requires Windows(s, a) && Windows(s, b) && at + Total(a) <= |s.disk| && Places(a) == Places(b)
    ensures Total(a) == Total(b) && Contiguous(s, at, a, true) == Contiguous(s, at, b, true)
  {
    assert |Places(a)| == |Places(b)|;
    SameData(s, a, b);
    WriteIsSplice(s, at, a);
    WriteIsSplice(s, at, b);
  }

  /** Where two lists of places differ first, in length or content. */
  lemma FirstDifference<P>(a: seq<Place<P>>, b: seq<Place<P>>) returns (k: nat)
    requires a != b
    ensures k < |a| || k < |b|
    ensures k < |a| && k < |b| ==> a[k] != b[k]
  {
    if |a| != |b| {
      k := Min(|a|, |b|);
    } else {
      k :| 0 <= k < |a| && a[k] != b[k];
    }
  }

  lemma MarkedWrite<P>(s: Store<P>, fill: byte, place: Place<P>, at: nat, segs: seq<Seg<P>>, k: nat)
    requires Windows(s, segs) && OnDisk(s, at, segs) && at + k < |s.disk|
    ensures var t := Marked(s, fill, place);
      && Windows(t, segs)
      && Contiguous(t, at, segs, true).disk[at + k] ==
        if k < Total(segs) then (if Places(segs)[k] == place then 1 else 0) else fill
  {
    var t := Marked(s, fill, place);
    WindowsKept(s, t, segs);
    WriteBytes(t, at, segs);
    if k < Total(segs) {
      DataAt(s, segs, k);
      MarkedByte(s, fill, place, Places(segs)[k]);
    }
  }

  /** Lists of places that differ are told apart by a write on some contents. */
  lemma WriteDiffersAt<P>(s: Store<P>, at: nat, a: seq<Seg<P>>, b: seq<Seg<P>>, k: nat) returns (t: Store<P>)
    requires Windows(s, a) && Windows(s, b) && OnDisk(s, at, a) && OnDisk(s, at, b)
    requires k < Total(a) && (k < Total(b) ==> Places(a)[k] != Places(b)[k])
    ensures SameShape(s, t) && Windows(t, a) && Windows(t, b)
    ensures Contiguous(t, at, a, true).disk[at + k] != Contiguous(t, at, b, true).disk[at + k]
  {
    t := Marked(s, 2, Places(a)[k]);
    MarkedWrite(s, 2, Places(a)[k], at, a, k);
    MarkedWrite(s, 2, Places(a)[k], at, b, k);
  }

  lemma WriteDiffers<P>(s: Store<P>, at: nat, a: seq<Seg<P>>, b: seq<Seg<P>>) returns (t: Store<P>)
    requires Windows(s, a) && Windows(s, b) && OnDisk(s, at, a) && OnDisk(s, at, b)
    requires Places(a) != Places(b)
    ensures SameShape(s, t) && Windows(t, a) && Windows(t, b)
    ensures Contiguous(t, at, a, true) != Contiguous(t, at, b, true)
  {
    var k := FirstDifference(Places(a), Places(b));
    if k < Total(a) {
      t := WriteDiffersAt(s, at, a, b, k);
    } else {
      t := WriteDiffersAt(s, at, b, a, k);
    }
  }

  // Reads: the same last position of every place.

  /** Every byte of memory comes last at the same position. */
  ghost predicate SameLast<P>(a: seq<Place<P>>, b: seq<Place<P>>) {
    forall place :: place in a + b ==> LastIndex(a, place) == LastIndex(b, place)
  }

  lemma SamePages<P>(s: Store<P>, t: Store<P>)
    requires SameShape(s, t) && t.disk == s.disk
    requires forall p, i :: p in s.pages && 0 <= i < |s.pages[p]| ==> t.pages[p][i] == s.pages[p][i]
    ensures s == t
  {
    forall p | p in s.pages ensures s.pages[p] == t.pages[p] {
    }
    assert s.pages == t.pages;
  }

  lemma SameLastAt<P>(a: seq<Place<P>>, b: seq<Place<P>>, place: Place<P>)
    requires SameLast(a, b)
    ensures LastIndex(a, place) == LastIndex(b, place)
  {
    if place !in a + b {
      LastIndexIs(a, place, -1);
      LastIndexIs(b, place, -1);
    }
  }

  lemma HasReadSame<P>(s: Store<P>, t: Store<P>, u: Store<P>, at: nat,
                       a: seq<Place<P>>, b: seq<Place<P>>, place: Place<P>)
    requires SameLast(a, b) && HasRead(s, t, at, a, place) && HasRead(s, u, at, b, place)
    ensures Byte(t, place) == Byte(u, place)
  {
    SameLastAt(a, b, place);
  }

  lemma ReadSame<P>(s: Store<P>, at: nat, a: seq<Seg<P>>, b: seq<Seg<P>>)
    requires Windows(s, a) && Windows(s, b) && OnDisk(s, at, a) && OnDisk(s, at, b)
    requires SameLast(Places(a), Places(b))
    ensures Contiguous(s, at, a, false) == Contiguous(s, at, b, false)
  {
    var t, u := Contiguous(s, at, a, false), Contiguous(s, at, b, false);
    assert t.disk == u.disk by {
      ReadsKeepDisk(s, at, a);
      ReadsKeepDisk(s, at, b);
    }
    forall p, i | p in t.pages && 0 <= i < |t.pages[p]| ensures u.pages[p][i] == t.pages[p][i] {
      ReadBytes(s, at, a, Place(p, i));
      ReadBytes(s, at, b, Place(p, i));
      HasReadSame(s, t, u, at, Places(a), Places(b), Place(p, i));
    }
    SamePages(t, u);
  }

  lemma {:induction false} ReadsKeepDisk<P>(s: Store<P>, at: nat, segs: seq<Seg<P>>)
    requires Windows(s, segs) && OnDisk(s, at, segs)
    ensures Contiguous(s, at, segs, false).disk == s.disk
    decreases |segs|
  {
    if segs != [] {
      var t := ContiguousStep(s, at, segs, false);
      ReadsKeepDisk(t, at + segs[0].len, segs[1..]);
    }
  }

  /** A store of the same shape with 2 in all of memory, and 0 on the disk except for 1 at one byte. */
  ghost function MarkedDisk<P>(s: Store<P>, x: int): (t: Store<P>)
    ensures SameShape(s, t)
    ensures forall k :: 0 <= k < |t.disk| ==> t.disk[k] == if k == x then 1 else 0
  {
    Store(seq(|s.disk|, k => if k == x then 1 else 0), map p | p in s.pages :: seq(|s.pages[p]|, _ => 2))
  }

  lemma MarkedRead<P>(s: Store<P>, x: int, at: nat, segs: seq<Seg<P>>, place: Place<P>)
    requires Windows(s, segs) && OnDisk(s, at, segs) && Inside(s, place)
    ensures var t := MarkedDisk(s, x);
      && Windows(t, segs) && Inside(Contiguous(t, at, segs, false), place)
      && var last := LastIndex(Places(segs), place);
      Byte(Contiguous(t, at, segs, false), place) == if last < 0 then 2 else if at + last == x then 1 else 0
  {
    var t := MarkedDisk(s, x);
    WindowsKept(s, t, segs);
    assert Inside(t, place) && Byte(t, place) == 2;
    ReadBytes(t, at, segs, place);
  }

  lemma PlacesInside<P>(s: Store<P>, segs: seq<Seg<P>>, place: Place<P>)
    requires Windows(s, segs) && place in Places(segs)
    ensures Inside(s, place)
  {
    var k :| 0 <= k < Total(segs) && Places(segs)[k] == place;
    DataAt(s, segs, k);
  }

  lemma ReadDiffersAt<P>(s: Store<P>, at: nat, a: seq<Seg<P>>, b: seq<Seg<P>>, place: Place<P>) returns (t: Store<P>)
    requires Windows(s, a) && Windows(s, b) && OnDisk(s, at, a) && OnDisk(s, at, b) && Inside(s, place)
    requires LastIndex(Places(a), place) != LastIndex(Places(b), place) && LastIndex(Places(a), place) >= 0
    ensures SameShape(s, t) && Windows(t, a) && Windows(t, b)
    ensures Contiguous(t, at, a, false) != Contiguous(t, at, b, false)
  {
    var x := at + LastIndex(Places(a), place);
    t := MarkedDisk(s, x);
    MarkedRead(s, x, at, a, place);
    MarkedRead(s, x, at, b, place);
  }

  lemma ReadDiffers<P>(s: Store<P>, at: nat, a: seq<Seg<P>>, b: seq<Seg<P>>) returns (t: Store<P>)
    requires Windows(s, a) && Windows(s, b) && OnDisk(s, at, a) && OnDisk(s, at, b)
    requires !SameLast(Places(a), Places(b))
    ensures SameShape(s, t) && Windows(t, a) && Windows(t, b)
    ensures Contiguous(t, at, a, false) != Contiguous(t, at, b, false)
  {
    var place :| place in Places(a) + Places(b) && LastIndex(Places(a), place) != LastIndex(Places(b), place);
    if LastIndex(Places(a), place) >= 0 {
      PlacesInside(s, a, place);
      t := ReadDiffersAt(s, at, a, b, place);
    } else {
      PlacesInside(s, b, place);
      t := ReadDiffersAt(s, at, b, a, place);
    }
  }

  // Whole bios.

  /** The segments of the bio lie in their pages, and its data on the device. */
  ghost predicate WellPlaced<P>(s: Store<P>, bio: Bio<P>) {
    Windows(s, bio.segs) && OnDisk(s, ByteOffset(bio.sector), bio.segs)
  }

  /** On contents `t` the driver does what one transfer of the segments, each with its own length, would do. */
  ghost predicate AsAsked<P>(s: Store<P>, bio: Bio<P>, t: Store<P>)
    requires WellPlaced(s, bio) && Regular(s, bio) && SameShape(s, t)
  {
    RegularKept(s, t, bio);
    WindowsKept(s, t, bio.segs);
    XferBio(t, bio) == Contiguous(t, ByteOffset(bio.sector), bio.segs, bio.write)
  }

  /** The driver leaves neither pages nor device, and does what is asked on all contents of disk and memory. */
  ghost predicate AlwaysAsAsked<P(!new)>(s: Store<P>, bio: Bio<P>)
    requires WellPlaced(s, bio)
  {
    Regular(s, bio) && forall t: Store<P> :: SameShape(s, t) ==> AsAsked(s, bio, t)
  }

  /** The places moved are those asked for: all in order for a write, for a read the last of each byte. */
  ghost predicate SamePlaces<P>(moved: seq<Seg<P>>, segs: seq<Seg<P>>, write: bool) {
    if write then Places(moved) == Places(segs) else SameLast(Places(moved), Places(segs))
  }

  lemma SamePlacesAgree<P>(s: Store<P>, bio: Bio<P>, t: Store<P>)
    requires WellPlaced(s, bio) && Regular(s, bio) && SameShape(s, t)
    requires SamePlaces(Moved(|s.disk|, bio), bio.segs, bio.write)
    ensures AsAsked(s, bio, t)
  {
    var at, moved := ByteOffset(bio.sector), Moved(|s.disk|, bio);
    RegularKept(s, t, bio);
    WindowsKept(s, t, bio.segs);
    BioMoves(t, bio);
    if !bio.write {
      ReadSame(t, at, moved, bio.segs);
    } else if bio.segs != [] {
      WriteSame(t, at, bio.segs, moved);
    }
  }

  lemma OtherPlacesDiffer<P>(s: Store<P>, bio: Bio<P>) returns (t: Store<P>)
    requires WellPlaced(s, bio) && Regular(s, bio) && !SamePlaces(Moved(|s.disk|, bio), bio.segs, bio.write)
    ensures SameShape(s, t) && !AsAsked(s, bio, t)
  {
    var at, moved := ByteOffset(bio.sector), Moved(|s.disk|, bio);
    BioMoves(s, bio);
    if bio.write {
      t := WriteDiffers(s, at, moved, bio.segs);
    } else {
      t := ReadDiffers(s, at, moved, bio.segs);
    }
    RegularKept(s, t, bio);
    BioMoves(t, bio);
  }

  lemma {:induction false} LastPlace<P>(segs: seq<Seg<P>>, k: nat)
    requires k < |segs| && segs[k].len > 0
    ensures Place(segs[k].page, segs[k].off + segs[k].len - 1) in Places(segs)
    decreases |segs|
  {
    var place := Place(segs[k].page, segs[k].off + segs[k].len - 1);
    if k == 0 {
      assert Run(segs[0])[segs[0].len - 1] == place;
    } else {
      LastPlace(segs[1..], k - 1);
    }
  }

  lemma SamePlacesHave<P>(moved: seq<Seg<P>>, segs: seq<Seg<P>>, write: bool, place: Place<P>)
    requires SamePlaces(moved, segs, write) && place in Places(moved)
    ensures place in Places(segs)
  {
    if !write {
      SameLastAt(Places(moved), Places(segs), place);
      assert LastIndex(Places(moved), place) >= 0;
    }
  }

  /** Moving the places of segments that lie in their pages, the driver cannot leave a page. */
  lemma SamePlacesInBounds<P>(s: Store<P>, bio: Bio<P>)
    requires WellPlaced(s, bio) && Straight(bio.sector, PerSegment(bio.segs), bio.segs)
    requires SamePlaces(Moved(|s.disk|, bio), bio.segs, bio.write)
    ensures Regular(s, bio)
  {
    var moved, segs := Moved(|s.disk|, bio), bio.segs;
    forall k | 0 <= k < |moved| ensures Window(s, moved[k]) {
      assert Window(s, segs[k]);
      if moved[k].len > 0 {
        var place := Place(moved[k].page, moved[k].off + moved[k].len - 1);
        LastPlace(moved, k);
        SamePlacesHave(moved, segs, bio.write, place);
        PlacesInside(s, segs, place);
      }
    }
    assert forall k :: 0 <= k < |segs| ==> Window(s, segs[k]);
    BoundsIff(s, bio.sector, PerSegment(segs), segs);
  }

  /**
   Exactly when the driver does, on all contents of disk and memory, what the
   segments ask for: when the bytes it moves are, place by place, theirs.
   */
  lemma TransferIff<P(!new)>(s: Store<P>, bio: Bio<P>)
    requires WellPlaced(s, bio)
    ensures AlwaysAsAsked(s, bio)
      <==> Straight(bio.sector, PerSegment(bio.segs), bio.segs) && SamePlaces(Moved(|s.disk|, bio), bio.segs, bio.write)
  {
    if Straight(bio.sector, PerSegment(bio.segs), bio.segs) {
      if SamePlaces(Moved(|s.disk|, bio), bio.segs, bio.write) {
        SamePlacesInBounds(s, bio);
        forall t: Store<P> | SameShape(s, t) ensures AsAsked(s, bio, t) {
          SamePlacesAgree(s, bio, t);
        }
      } else if Regular(s, bio) {
        var t := OtherPlacesDiffer(s, bio);
        assert !AsAsked(s, bio, t);
      }
    }
  }

  // The condition on the segments alone.

  /** All segments are as long as the first, and that is a whole number of sectors. */
  predicate EqualSectors<P>(segs: seq<Seg<P>>) {
    forall k :: 0 <= k < |segs| ==> segs[k].len == segs[0].len && segs[k].len % KERNEL_SECTOR_SIZE == 0
  }

  /** No segment is empty and no byte of memory is in two of them. */
  ghost predicate Separate<P>(segs: seq<Seg<P>>) {
    (forall k :: 0 <= k < |segs| ==> segs[k].len > 0) && NoRepeat(Places(segs))
  }

  /** The second segment starts where the first ends. */
  ghost predicate Neighbours<P>(a: Seg<P>, b: Seg<P>) {
    b.page == a.page && b.off == a.off + a.len
  }

  /** No segment starts where the one before it ends; the block layer merges such neighbours. */
  ghost predicate Unmerged<P>(segs: seq<Seg<P>>) {
    forall k :: 0 < k < |segs| ==> !Neighbours(segs[k - 1], segs[k])
  }

  lemma {:induction false} SeparateTail<P>(segs: seq<Seg<P>>)
    requires segs != [] && Separate(segs)
    ensures Separate(segs[1..])
  {
    var rest := Places(segs[1..]);
    forall i, j | 0 <= i < j < |rest| ensures rest[i] != rest[j] {
      assert rest[i] == Places(segs)[segs[0].len + i] && rest[j] == Places(segs)[segs[0].len + j];
    }
  }

  lemma {:induction false} PlacesStart<P>(segs: seq<Seg<P>>, k: nat)
    requires segs != []
    ensures k < segs[0].len ==> k < Total(segs) && Places(segs)[k] == Place(segs[0].page, segs[0].off + k)
    ensures |segs| > 1 && segs[1].len > 0 ==>
      segs[0].len < Total(segs) && Places(segs)[segs[0].len] == Place(segs[1].page, segs[1].off)
  {
    if |segs| > 1 && segs[1].len > 0 {
      assert Places(segs[1..])[0] == Run(segs[1])[0];
    }
  }

  lemma {:induction false} TotalResized<P>(segs: seq<Seg<P>>, m: nat)
    ensures m == 0 || |segs| <= 1 ==> Total(Resized(segs, m)) <= m
    decreases |segs|
  {
    if segs != [] {
      assert Resized(segs, m)[1..] == Resized(segs[1..], m);
      TotalResized(segs[1..], m);
    }
  }

  /** If moving `m` bytes for each of the first `f` segments moves what all hold, the first is `m` bytes long. */
  lemma {:induction false} FirstIsMoved<P>(segs: seq<Seg<P>>, m: nat, f: nat)
    requires segs != [] && Separate(segs) && f <= |segs| && (f == |segs| || Unmerged(segs))
    requires Places(Resized(segs[..f], m)) == Places(segs)
    ensures f > 0 && segs[0].len == m
  {
    var moved, len := Resized(segs[..f], m), segs[0].len;
    PlacesStart(segs, 0);
    assert |Places(moved)| == |Places(segs)|;
    TotalResized(segs[..f], m);
    if f > 0 {
      PlacesStart(moved, len);
      PlacesStart(segs, len);
      PlacesStart(moved, m);
      PlacesStart(segs, m);
    }
  }

  lemma {:induction false} AllAreMoved<P>(segs: seq<Seg<P>>, m: nat, f: nat)
    requires Separate(segs) && f <= |segs| && (f == |segs| || Unmerged(segs))
    requires Places(Resized(segs[..f], m)) == Places(segs)
    ensures forall k :: 0 <= k < |segs| ==> segs[k].len == m
    decreases |segs|
  {
    if segs != [] {
      FirstIsMoved(segs, m, f);
      SeparateTail(segs);
      var rest, moved := segs[1..], Resized(segs[..f], m);
      assert segs[..f][1..] == rest[..f - 1];
      assert moved[1..] == Resized(rest[..f - 1], m);
      assert Places(moved)[m..] == Places(moved[1..]) && Places(segs)[m..] == Places(rest);
      assert f < |segs| ==> Unmerged(rest) by {
        UnmergedTail(segs);
      }
      AllAreMoved(rest, m, f - 1);
      forall k | 0 <= k < |segs| ensures segs[k].len == m {
        assert k > 0 ==> segs[k] == rest[k - 1];
      }
    }
  }

  lemma UnmergedTail<P>(segs: seq<Seg<P>>)
    requires segs != []
    ensures Unmerged(segs) ==> Unmerged(segs[1..])
  {
    if Unmerged(segs) {
      var rest := segs[1..];
      forall k | 0 < k < |rest| ensures !Neighbours(rest[k - 1], rest[k]) {
        assert rest[k] == segs[k + 1] && rest[k - 1] == segs[k];
      }
    }
  }

  lemma SameLastOnce<P>(a: seq<Place<P>>, b: seq<Place<P>>)
    requires SameLast(a, b) && NoRepeat(b)
    ensures a == b
  {
    if b != [] {
      LastIndexOnce(b, |b| - 1);
      SameLastAt(a, b, b[|b| - 1]);
    }
    if a != [] {
      LastIndexIs(a, a[|a| - 1], |a| - 1);
      SameLastAt(a, b, a[|a| - 1]);
    }
    assert |a| == |b|;
    forall k | 0 <= k < |b| ensures a[k] == b[k] {
      LastIndexOnce(b, k);
      SameLastAt(a, b, b[k]);
    }
  }

  lemma EqualIsMoved<P>(s: Store<P>, bio: Bio<P>)
    requires WellPlaced(s, bio) && EqualSectors(bio.segs)
    ensures Moved(|s.disk|, bio) == bio.segs
  {
    var m, segs := PerSegment(bio.segs) * KERNEL_SECTOR_SIZE, bio.segs;
    if segs != [] {
      assert segs[0].len == m;
      assert Resized(segs, m) == segs;
      FitAll(|s.disk|, ByteOffset(bio.sector), segs, m);
      assert segs[..|segs|] == segs;
    }
  }

  lemma EqualIsRegular<P>(s: Store<P>, bio: Bio<P>)
    requires WellPlaced(s, bio) && |s.disk| < ULONG_RANGE && EqualSectors(bio.segs)
    ensures Regular(s, bio)
  {
    var m, segs := PerSegment(bio.segs) * KERNEL_SECTOR_SIZE, bio.segs;
    EqualIsMoved(s, bio);
    assert segs != [] ==> segs[0].len == m;
    assert Resized(segs, m) == segs;
    assert forall k :: 0 <= k < |segs| ==> Window(s, segs[k]);
    BoundsIff(s, bio.sector, PerSegment(segs), segs);
  }

  /**
   Exactly when a segmented transfer, out or in, keeps to pages and device and
   is the contiguous transfer of its segments on all contents: when all segments
   are as long as the first and that is a whole number of sectors. The driver
   never looks at the others.
   */
  lemma SegmentedIsContiguousIff<P(!new)>(s: Store<P>, bio: Bio<P>)
    requires WellPlaced(s, bio) && |s.disk| < ULONG_RANGE && Separate(bio.segs)
    requires Unmerged(bio.segs) || |Moved(|s.disk|, bio)| == |bio.segs|
    ensures AlwaysAsAsked(s, bio) <==> EqualSectors(bio.segs)
  {
    var m, segs, moved := PerSegment(bio.segs) * KERNEL_SECTOR_SIZE, bio.segs, Moved(|s.disk|, bio);
    TransferIff(s, bio);
    if EqualSectors(segs) {
      EqualIsMoved(s, bio);
      EqualIsRegular(s, bio);
    }
    if SamePlaces(moved, segs, bio.write) {
      if !bio.write {
        SameLastOnce(Places(moved), Places(segs));
      }
      AllAreMoved(segs, m, |moved|);
    }
  }

  lemma PlacesOfTwo<P>(a: Seg<P>, b: Seg<P>)
    ensures Places([a, b]) == Run(a) + Run(b) && Total([a, b]) == a.len + b.len
  {
    assert [a, b][1..] == [b];
    assert Places([b]) == Run(b) + Places([b][1..]);
  }

  lemma PlacesOfThree<P>(a: Seg<P>, b: Seg<P>, c: Seg<P>)
    ensures Places([a, b, c]) == Run(a) + Run(b) + Run(c) && Total([a, b, c]) == a.len + b.len + c.len
  {
    assert [a, b, c][1..] == [b, c];
    PlacesOfTwo(b, c);
  }

  lemma FitTwo(size: nat, at: nat, m: nat)
    requires m > 0 && size == at + m + m
    ensures Fit(size, at, m, 3) == 2
  {
    assert Fit(size, at + m + m, m, 1) == 0;
    assert Fit(size, at + m, m, 2) == 1;
  }

  lemma MovesTwo<P>(size: nat, bio: Bio<P>)
    requires |bio.segs| == 3 && bio.segs[0].len > 0 && bio.segs[0].len % KERNEL_SECTOR_SIZE == 0
    requires size == ByteOffset(bio.sector) + bio.segs[0].len + bio.segs[0].len
    ensures Moved(size, bio) == [bio.segs[0], bio.segs[1].(len := bio.segs[0].len)]
  {
    var m := PerSegment(bio.segs) * KERNEL_SECTOR_SIZE;
    assert m == bio.segs[0].len;
    FitTwo(size, ByteOffset(bio.sector), m);
    assert bio.segs[..2] == [bio.segs[0], bio.segs[1]];
  }

  /**
   When the first segment is as long as two neighbours behind it together and
   the device ends there, the driver moves both at once, drops the last move
   and is right by chance.
   */
  lemma SplitNeighboursMove<P>(size: nat, bio: Bio<P>)
    requires |bio.segs| == 3 && bio.segs[0].len > 0 && bio.segs[0].len % KERNEL_SECTOR_SIZE == 0
    requires Neighbours(bio.segs[1], bio.segs[2])
    requires bio.segs[1].len + bio.segs[2].len == bio.segs[0].len && bio.segs[2].len > 0
    requires size == ByteOffset(bio.sector) + Total(bio.segs)
    ensures SamePlaces(Moved(size, bio), bio.segs, bio.write) && !EqualSectors(bio.segs)
  {
    var a, b, c := bio.segs[0], bio.segs[1], bio.segs[2];
    var both := Seg(b.page, b.off, a.len);
    assert bio.segs == [a, b, c];
    PlacesOfThree(a, b, c);
    PlacesOfTwo(a, both);
    MovesTwo(size, bio);
    assert Run(both) == Run(b) + Run(c);
    assert Run(a) + Run(both) == Run(a) + Run(b) + Run(c);
  }

  lemma ThreeSeparate(a: Seg<nat>, b: Seg<nat>, c: Seg<nat>)
    requires a.len > 0 && b.len > 0 && c.len > 0 && a.page != b.page && Neighbours(b, c)
    ensures Separate([a, b, c])
  {
    PlacesOfThree(a, b, c);
  }

  /**
   So the hypothesis on neighbours is needed: a disk of four sectors, two pages
   and a bio of two sectors and twice one, which the driver handles as asked on
   all contents although the lengths are not equal.
   */
  lemma SplitNeighboursAgree(write: bool) returns (s: Store<nat>, bio: Bio<nat>)
    ensures bio.write == write && WellPlaced(s, bio) && |s.disk| < ULONG_RANGE && Separate(bio.segs)
    ensures AlwaysAsAsked(s, bio) && !EqualSectors(bio.segs)
  {
    var a: Seg<nat>, b: Seg<nat>, c: Seg<nat> := Seg(0, 0, 1024), Seg(1, 0, 512), Seg(1, 512, 512);
    s := Store(seq(2048, _ => 0), map[0 := seq(1024, _ => 0), 1 := seq(1024, _ => 0)]);
    bio := Bio(0, write, [a, b, c]);
    PlacesOfThree(a, b, c);
    ThreeSeparate(a, b, c);
    SplitNeighboursMove(|s.disk|, bio);
    var b', c' := Seg(1, 0, 1024), Seg(1, 512, 1024);
    assert Resized(bio.segs, 1024) == [a, b', c'];
    PlacesOfThree(a, b', c');
    TransferIff(s, bio);
  }

  /** Between bios of equal whole sectors the data comes back as it went out, however each is segmented. */
  lemma DataRoundTrip<P>(s: Store<P>, out: Bio<P>, back: Bio<P>)
    requires WellPlaced(s, out) && out.write && WellPlaced(s, back) && !back.write && |s.disk| < ULONG_RANGE
    requires EqualSectors(out.segs) && EqualSectors(back.segs) && NoRepeat(Places(back.segs))
    requires ByteOffset(out.sector) == ByteOffset(back.sector) && Total(out.segs) == Total(back.segs)
    ensures Regular(s, out) && Regular(XferBio(s, out), back)
    ensures var u := XferBio(XferBio(s, out), back);
      Windows(u, back.segs) && Data(u, back.segs) == Data(s, out.segs)
  {
    EqualIsMoved(s, out);
    EqualIsMoved(s, back);
    EqualIsRegular(s, out);
    EqualIsRegular(s, back);
    RoundTrip(s, out, back);
  }
}
