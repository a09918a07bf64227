/** The hole map of a disk, as `find_sparse_map` builds it for a bundle. */
module SparseMap {
  import opened Base
  import opened DiskFile

  /** The block size of an archive. */
  const BLOCK := 512

  datatype Extent = Extent(offset: nat, length: nat)

  datatype Map = Map(logicalSize: nat, storedSize: nat, extents: seq<Extent>)

  datatype MapError = OutsideLogicalSize | DidNotAdvance | IoError

  function Sum(es: seq<Extent>): nat {
    if es == [] then 0 else es[0].length + Sum(es[1..])
  }

  lemma {:induction false} SumSnoc(es: seq<Extent>, e: Extent)
    ensures Sum(es + [e]) == Sum(es) + e.length
  {
    if es == [] {
      assert [e][1..] == [];
    } else {
      SumSnoc(es[1..], e);
      assert (es + [e])[1..] == es[1..] + [e];
    }
  }

  /** Extents in order, disjoint and non-empty, from `from` to at most `to`. */
  predicate Ordered(es: seq<Extent>, from: nat, to: nat) {
    if es == [] then from <= to else
      && from <= es[0].offset && 0 < es[0].length
      && Ordered(es[1..], es[0].offset + es[0].length, to)
  }

  lemma {:induction false} OrderedSnoc(es: seq<Extent>, from: nat, mid: nat, e: Extent)
    requires Ordered(es, from, mid) && mid <= e.offset && 0 < e.length
    ensures Ordered(es + [e], from, e.offset + e.length)
  {
    if es == [] {
      assert [e][1..] == [];
    } else {
      OrderedSnoc(es[1..], es[0].offset + es[0].length, mid, e);
      assert (es + [e])[1..] == es[1..] + [e];
    }
  }

  lemma {:induction false} OrderedWiden(es: seq<Extent>, from: nat, to: nat, to': nat)
    requires Ordered(es, from, to) && to <= to'
    ensures Ordered(es, from, to')
  {
    if es != [] {
      OrderedWiden(es[1..], es[0].offset + es[0].length, to, to');
    }
  }

  /** Every byte of [from, to) outside the extents is zero. */
  predicate Covers(es: seq<Extent>, bytes: seq<byte>, from: nat, to: nat)
    requires to <= |bytes|
  {
    forall i :: from <= i < to && !Inside(es, i) ==> bytes[i] == 0
  }

  predicate Inside(es: seq<Extent>, i: nat) {
    exists k :: 0 <= k < |es| && es[k].offset <= i < es[k].offset + es[k].length
  }

  /** The map ends in an empty extent at the end of the disk, which stands for a trailing hole. */
  predicate WellFormed(m: Map) {
    && m.extents != []
    && m.extents[|m.extents| - 1] == Extent(m.logicalSize, 0)
    && Ordered(Body(m), 0, m.logicalSize)
    && m.storedSize == Sum(Body(m))
  }

  function Body(m: Map): seq<Extent>
    requires m.extents != []
  {
    m.extents[..|m.extents| - 1]
  }

  /** Where the data at an offset ends, and where the next data begins if there is more. */
  method NextExtent(seeker: Seeker, size: nat, from: nat) returns (r: Result<(Extent, Option<nat>), MapError>)
    requires from < size && seeker.data(0) != Unsupported
    ensures r.Ok? ==> r.value.0.offset == from && 0 < r.value.0.length <= size - from
    ensures r.Ok? && r.value.1.Some? ==> from + r.value.0.length < r.value.1.value <= size
    ensures Honest(seeker, size) && !IsHole(seeker, from) ==>
      r.Ok? && HonestNext(seeker, size, from + r.value.0.length, r.value.1)
    ensures r.Ok? && BlockSeeker(seeker, size) && OnBoundary(from) ==>
      GridExtent(r.value.0, size) && (r.value.1.Some? ==> OnBoundary(r.value.1.value))
  {
    assert Honest(seeker, size) ==> HonestHole(seeker, size, from);
    assert BlockSeeker(seeker, size) ==> BlockAnswers(seeker, size, from);
    var hole := seeker.hole(from);
    if !hole.At? {
      return Err(IoError);
    }
    var end := hole.offset;
    if end <= from || end > size {
      return Err(OutsideLogicalSize);
    }
    var e := Extent(from, end - from);
    if end == size {
      return Ok((e, None));
    }
    assert Honest(seeker, size) ==> HonestData(seeker, size, end);
    assert BlockSeeker(seeker, size) ==> BlockAnswers(seeker, size, end);
    var next := seeker.data(end);
    if next == Nxio {
      return Ok((e, None));
    }
    if !next.At? {
      return Err(IoError);
    }
    if next.offset <= end || next.offset > size {
      return Err(DidNotAdvance);
    }
    r := Ok((e, Some(next.offset)));
  }

  /** From the end of an extent there are holes, up to the next data or to the end of the file. */
  predicate HonestNext(seeker: Seeker, size: nat, end: nat, next: Option<nat>) {
    && (next.Some? ==> next.value < size && !IsHole(seeker, next.value))
    && HolesBetween(seeker, end, if next.Some? then next.value else size)
  }

  /** The loop of `find_sparse_map`, from the first data on: the extents and the sum of their lengths. */
  method CollectExtents(seeker: Seeker, size: nat, first: nat) returns (r: Result<(seq<Extent>, nat), MapError>)
    requires seeker.data(0) == At(first) && size > 0
    ensures r.Ok? ==> Ordered(r.value.0, 0, size) && r.value.1 == Sum(r.value.0)
    ensures r.Ok? && Honest(seeker, size) ==> HolesOutside(seeker, r.value.0, size)
    ensures r.Ok? && BlockSeeker(seeker, size) ==> OnGrid(r.value.0, size)
    ensures Honest(seeker, size) ==> r.Ok?
  {
    assert Honest(seeker, size) ==> HonestData(seeker, size, 0);
    assert BlockSeeker(seeker, size) ==> BlockAnswers(seeker, size, 0);
    var dataOffset, storedSize, extents := first, 0, [];
    ghost var done: nat := 0;
    while dataOffset < size
      invariant done <= size && done <= dataOffset
      invariant Ordered(extents, 0, done) && storedSize == Sum(extents)
      invariant Honest(seeker, size) ==> dataOffset < size ==> !IsHole(seeker, dataOffset)
      invariant Honest(seeker, size) ==> HolesOutside(seeker, extents, Min(dataOffset, size))
      invariant BlockSeeker(seeker, size) ==> OnBoundary(dataOffset) && OnGrid(extents, size)
      decreases size - dataOffset
    {
      var found := NextExtent(seeker, size, dataOffset);
      if found.Err? {
        return Err(found.error);
      }
      var e, next := found.value.0, found.value.1;
      OrderedSnoc(extents, 0, done, e);
      SumSnoc(extents, e);
      HolesSnoc(seeker, extents, e, if next.Some? then next.value else size);
      GridSnoc(extents, e, size);
      extents, storedSize, done := extents + [e], storedSize + e.length, e.offset + e.length;
      if next.None? {
        break;
      }
      dataOffset := next.value;
    }
    OrderedWiden(extents, 0, done, size);
    r := Ok((extents, storedSize));
  }

  /**
   Whatever `lseek` answers the loop ends, and a map it returns is ordered, disjoint and sums to its
   stored size.
   */
  method FindSparseMap(seeker: Seeker, logicalSize: nat) returns (r: Result<Option<Map>, MapError>)
    ensures r.Ok? && r.value.Some? ==> WellFormed(r.value.value) && r.value.value.logicalSize == logicalSize
    ensures r.Ok? && r.value.Some? && Honest(seeker, logicalSize) ==>
      HolesOutside(seeker, Body(r.value.value), logicalSize)
    ensures r.Ok? && r.value.Some? && BlockSeeker(seeker, logicalSize) ==> OnGrid(Body(r.value.value), logicalSize)
    ensures Honest(seeker, logicalSize) ==> r.Ok?
    ensures logicalSize == 0 || seeker.data(0) == Unsupported ==> r == Ok(None)
  {
    if logicalSize == 0 {
      return Ok(None);
    }
    assert Honest(seeker, logicalSize) ==> HonestData(seeker, logicalSize, 0);
    var first := seeker.data(0);
    if first == Nxio {
      assert [Extent(logicalSize, 0)][..0] == [];
      return Ok(Some(Map(logicalSize, 0, [Extent(logicalSize, 0)])));
    }
    if first == Unsupported {
      return Ok(None);
    }
    if first == Failed {
      return Err(IoError);
    }
    var found := CollectExtents(seeker, logicalSize, first.offset);
    if found.Err? {
      return Err(found.error);
    }
    var (extents, storedSize) := found.value;
    if |extents| == 1 && extents[0] == Extent(0, logicalSize) {
      return Ok(None);
    }
    assert (extents + [Extent(logicalSize, 0)])[..|extents|] == extents;
    r := Ok(Some(Map(logicalSize, storedSize, extents + [Extent(logicalSize, 0)])));
  }

  // Maps whose stored data stays on block boundaries.

  /** Every extent begins on a block boundary and ends on one or at the end of the file. */
  predicate OnGrid(es: seq<Extent>, size: nat) { forall k :: 0 <= k < |es| ==> GridExtent(es[k], size) }

  predicate GridExtent(e: Extent, size: nat) {
    OnBoundary(e.offset) && (OnBoundary(e.offset + e.length) || e.offset + e.length == size)
  }

  predicate OnBoundary(o: nat) { o % BLOCK == 0 }

  lemma GridSnoc(es: seq<Extent>, e: Extent, size: nat)
    ensures OnGrid(es, size) && GridExtent(e, size) ==> OnGrid(es + [e], size)
  {
  }

  /** Data begins on block boundaries and ends on them, or at the end of the file. */
  predicate BlockAnswers(seeker: Seeker, size: nat, o: nat) {
    var data, hole := seeker.data(o), seeker.hole(o);
    && (data.At? ==> data.offset == o || OnBoundary(data.offset))
    && (hole.At? ==> hole.offset == o || OnBoundary(hole.offset) || hole.offset == size)
  }

  predicate BlockSeeker(seeker: Seeker, size: nat) { forall o: nat :: o < size ==> BlockAnswers(seeker, size, o) }

  /** The allocation changes only on block boundaries. */
  predicate BlockAllocated(image: Image) {
    forall i :: 0 < i < |image.data| && image.data[i] != image.data[i - 1] ==> OnBoundary(i)
  }

  /** The kernel answers in blocks about a file that is allocated in blocks. */
  lemma KernelSeeksBlocks(image: Image, supported: bool)
    requires image.Valid() && BlockAllocated(image)
    ensures BlockSeeker(Kernel(image, supported), |image.bytes|)
  {
    forall o: nat | o < |image.bytes| ensures BlockAnswers(Kernel(image, supported), |image.bytes|, o) {
      var data, hole := Next(image.data, o, true), Next(image.data, o, false);
      assert o < data < |image.data| ==> image.data[data] != image.data[data - 1];
      assert o < hole < |image.data| ==> image.data[hole] != image.data[hole - 1];
    }
  }

  lemma InsideSnoc(es: seq<Extent>, e: Extent)
    ensures forall i: nat :: Inside(es + [e], i) <==> Inside(es, i) || e.offset <= i < e.offset + e.length
  {
    forall i: nat
      ensures Inside(es + [e], i) <==> Inside(es, i) || e.offset <= i < e.offset + e.length
    {
      assert (es + [e])[|es|] == e;
      if Inside(es, i) {
        var k :| 0 <= k < |es| && es[k].offset <= i < es[k].offset + es[k].length;
        assert (es + [e])[k] == es[k];
      }
    }
  }

  /** What the answers of SEEK_DATA say about one offset. */
  predicate IsHole(seeker: Seeker, i: nat) { seeker.data(i) != At(i) }

  predicate HolesBetween(seeker: Seeker, from: nat, to: nat) { forall i: nat :: from <= i < to ==> IsHole(seeker, i) }

  /** Up to an offset, everything outside the extents is in a hole. */
  predicate HolesOutside(seeker: Seeker, es: seq<Extent>, to: nat) {
    forall i: nat :: i < to && !Inside(es, i) ==> IsHole(seeker, i)
  }

  lemma HolesSnoc(seeker: Seeker, es: seq<Extent>, e: Extent, to: nat)
    ensures HolesOutside(seeker, es, e.offset) && HolesBetween(seeker, e.offset + e.length, to) ==>
      HolesOutside(seeker, es + [e], to)
  {
    InsideSnoc(es, e);
  }

  predicate HonestData(seeker: Seeker, size: nat, o: nat) {
    match seeker.data(o)
    case At(i) => o <= i < size && !IsHole(seeker, i) && forall j: nat :: o <= j < i ==> IsHole(seeker, j)
    case Nxio => forall j: nat :: o <= j < size ==> IsHole(seeker, j)
    case Unsupported => seeker.data(0) == Unsupported
    case Failed => false
  }

  predicate HonestHole(seeker: Seeker, size: nat, o: nat) {
    !IsHole(seeker, o) ==>
      var h := seeker.hole(o);
      h.At? && o < h.offset <= size && (h.offset < size ==> IsHole(seeker, h.offset))
  }

  /** `lseek` answers consistently about a file of this size. */
  predicate Honest(seeker: Seeker, size: nat) {
    forall o: nat :: o < size ==> HonestData(seeker, size, o) && HonestHole(seeker, size, o)
  }

  lemma KernelIsHonest(image: Image, supported: bool)
    requires image.Valid()
    ensures Honest(Kernel(image, supported), |image.bytes|)
    ensures forall i: nat :: supported && i < |image.bytes| && IsHole(Kernel(image, supported), i) ==>
              image.bytes[i] == 0
  {
    var k := Kernel(image, supported);
    forall o: nat | o < |image.bytes|
      ensures HonestData(k, |image.bytes|, o) && HonestHole(k, |image.bytes|, o)
    {
      var i := Next(image.data, o, true);
      assert forall j: nat :: j < |image.data| && !image.data[j] ==> k.data(j) != At(j);
      if supported && i < |image.bytes| {
        assert k.data(i) == At(i);
      }
    }
  }
}
