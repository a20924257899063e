/** Bios byte by byte: where each byte of a segmented transfer comes from and goes to. */
module DiskPlaces {
  import opened Prelude
  import opened DiskSpec

  /** A byte of a page. */
  datatype Place<P> = Place(page: P, index: nat)

  /** The bytes of one segment. */
  function Run<P>(seg: Seg<P>): (r: seq<Place<P>>)
    ensures |r| == seg.len
    ensures forall j :: 0 <= j < seg.len ==> r[j] == Place(seg.page, seg.off + j)
  {
    seq(seg.len, j requires 0 <= j < seg.len => Place(seg.page, seg.off + j))
  }

  /** The page bytes of the segments, in transfer order. */
  function Places<P>(segs: seq<Seg<P>>): (r: seq<Place<P>>)
    ensures |r| == Total(segs)
  {
    if segs == [] then [] else Run(segs[0]) + Places(segs[1..])
  }

  predicate Inside<P>(s: Store<P>, place: Place<P>) {
    place.page in s.pages && place.index < |s.pages[place.page]|
  }

  function Byte<P>(s: Store<P>, place: Place<P>): byte
    requires Inside(s, place)
  {
    s.pages[place.page][place.index]
  }

  ghost predicate Covers<P>(seg: Seg<P>, place: Place<P>) {
    place.page == seg.page && seg.off <= place.index < seg.off + seg.len
  }

  /** The last position of an element, or -1. */
  ghost function LastIndex<T>(xs: seq<T>, x: T): (r: int)
    ensures -1 <= r < |xs| && (r >= 0 ==> xs[r] == x)
    ensures forall k :: r < k < |xs| ==> xs[k] != x
  {
    if xs == [] then -1
    else if xs[|xs| - 1] == x then |xs| - 1
    else LastIndex(xs[..|xs| - 1], x)
  }

  lemma LastIndexIs<T>(xs: seq<T>, x: T, r: int)
    requires -1 <= r < |xs| && (r >= 0 ==> xs[r] == x)
    requires forall k :: r < k < |xs| ==> xs[k] != x
    ensures LastIndex(xs, x) == r
  {
  }

  lemma LastIndexConcat<T>(xs: seq<T>, ys: seq<T>, x: T)
    ensures LastIndex(xs + ys, x) == if LastIndex(ys, x) >= 0 then |xs| + LastIndex(ys, x) else LastIndex(xs, x)
  {
    var r := if LastIndex(ys, x) >= 0 then |xs| + LastIndex(ys, x) else LastIndex(xs, x);
    forall k | r < k < |xs + ys| ensures (xs + ys)[k] != x {
      if k >= |xs| {
        assert (xs + ys)[k] == ys[k - |xs|];
      }
    }
    LastIndexIs(xs + ys, x, r);
  }

  lemma LastIndexRun<P>(seg: Seg<P>, place: Place<P>)
    ensures LastIndex(Run(seg), place) == if Covers(seg, place) then place.index - seg.off else -1
  {
    LastIndexIs(Run(seg), place, if Covers(seg, place) then place.index - seg.off else -1);
  }

  lemma DataStep<P>(s: Store<P>, segs: seq<Seg<P>>)
    requires segs != [] && Windows(s, segs)
    ensures Window(s, segs[0]) && Windows(s, segs[1..])
    ensures Data(s, segs) == Held(s, segs[0]) + Data(s, segs[1..])
  {
  }

  /** The data of a bio is the bytes at its places. */
  lemma {:induction false} DataAt<P>(s: Store<P>, segs: seq<Seg<P>>, k: nat)
    requires Windows(s, segs) && k < Total(segs)
    ensures Inside(s, Places(segs)[k]) && Data(s, segs)[k] == Byte(s, Places(segs)[k])
    decreases |segs|
  {
    var seg := segs[0];
    DataStep(s, segs);
    if k < seg.len {
      assert Places(segs)[k] == Run(seg)[k] == Place(seg.page, seg.off + k);
    } else {
      DataAt(s, segs[1..], k - seg.len);
      assert Places(segs)[k] == Places(segs[1..])[k - seg.len];
    }
  }

  /** After a read from byte `at` into the listed places: what one place holds. */
  ghost predicate HasRead<P>(s: Store<P>, t: Store<P>, at: nat, places: seq<Place<P>>, place: Place<P>) {
    var last := LastIndex(places, place);
    && t.disk == s.disk && Inside(s, place) && Inside(t, place)
    && (last >= 0 ==> at + last < |s.disk| && Byte(t, place) == s.disk[at + last])
    && (last < 0 ==> Byte(t, place) == Byte(s, place))
  }

  /** A move into memory, byte by byte. */
  lemma MoveReads<P>(s: Store<P>, at: nat, seg: Seg<P>, place: Place<P>)
    requires Window(s, seg) && at + seg.len <= |s.disk| && Inside(s, place)
    ensures HasRead(s, Move(s, at, seg, false), at, Run(seg), place)
  {
    LastIndexRun(seg, place);
  }

  lemma HasReadJoin<P>(s: Store<P>, t: Store<P>, u: Store<P>, at: nat,
                       a: seq<Place<P>>, b: seq<Place<P>>, place: Place<P>)
    requires HasRead(s, t, at, a, place) && HasRead(t, u, at + |a|, b, place)
    ensures HasRead(s, u, at, a + b, place)
  {
    LastIndexConcat(a, b, place);
  }

  lemma HasReadCons<P>(s: Store<P>, t: Store<P>, u: Store<P>, at: nat, segs: seq<Seg<P>>, place: Place<P>)
    requires segs != []
    requires HasRead(s, t, at, Run(segs[0]), place) && HasRead(t, u, at + segs[0].len, Places(segs[1..]), place)
    ensures HasRead(s, u, at, Places(segs), place)
  {
    HasReadJoin(s, t, u, at, Run(segs[0]), Places(segs[1..]), place);
  }

  lemma ReadStep<P>(s: Store<P>, at: nat, segs: seq<Seg<P>>, place: Place<P>) returns (t: Store<P>)
    requires Windows(s, segs) && OnDisk(s, at, segs) && segs != [] && Inside(s, place)
    ensures HasRead(s, t, at, Run(segs[0]), place)
    ensures Windows(t, segs[1..]) && OnDisk(t, at + segs[0].len, segs[1..])
    ensures Contiguous(s, at, segs, false) == Contiguous(t, at + segs[0].len, segs[1..], false)
  {
    t := ContiguousStep(s, at, segs, false);
    MoveReads(s, at, segs[0], place);
  }

  /**
   Reading segment by segment, byte by byte: a place gets the disk byte of its
   last position in transfer order; a place of no segment keeps its byte.
   */
  lemma {:induction false} ReadBytes<P>(s: Store<P>, at: nat, segs: seq<Seg<P>>, place: Place<P>)
    requires Windows(s, segs) && OnDisk(s, at, segs) && Inside(s, place)
    ensures HasRead(s, Contiguous(s, at, segs, false), at, Places(segs), place)
    decreases |segs|
  {
    if segs != [] {
      var t := ReadStep(s, at, segs, place);
      ReadBytes(t, at + segs[0].len, segs[1..], place);
      HasReadCons(s, t, Contiguous(t, at + segs[0].len, segs[1..], false), at, segs, place);
    }
  }
}
