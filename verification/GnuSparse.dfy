/**
 The GNU sparse tar entry of a bundle: a header with four sparse slots, a chain of extension blocks
 with twenty-one slots each, the data of the extents, and padding to 512 bytes. The writer follows
 `append_sparse_mapped_file`; the reader is the GNU format's own reading of such an entry. Reading
 what was written gives the disk back, byte for byte, if the data of every extent is stored from a
 block boundary on, and is refused otherwise.
 */
module GnuSparse {
  import opened Base
  import opened SparseMap

  const INLINE_SLOTS := 4
  const CHAIN_SLOTS := 21

  // Numeric fields.

  function Pow(b: nat, k: nat): nat { if k == 0 then 1 else b * Pow(b, k - 1) }

  /** The `width` lowest digits of `n`, most significant first. */
  function Digits(n: nat, base: nat, width: nat): (ds: seq<nat>)
    requires 2 <= base
    ensures |ds| == width && forall i :: 0 <= i < width ==> ds[i] < base
  {
    if width == 0 then [] else Digits(n / base, base, width - 1) + [n % base]
  }

  function Value(ds: seq<nat>, base: nat): nat {
    if ds == [] then 0 else Value(ds[..|ds| - 1], base) * base + ds[|ds| - 1]
  }

  lemma MulMonotone(b: nat, p: nat, q: nat)
    requires p <= q
    ensures b * p <= b * q
  {
  }

  lemma QuotientBound(n: nat, b: nat, p: nat)
    requires 0 < b && n < b * p
    ensures n / b < p
  {
    if p <= n / b {
      MulMonotone(b, p, n / b);
      assert false;
    }
  }

  lemma ValueSnoc(ds: seq<nat>, d: nat, base: nat)
    ensures Value(ds + [d], base) == Value(ds, base) * base + d
  {
    assert (ds + [d])[..|ds|] == ds;
  }

  lemma {:induction false} DigitsRoundTrip(n: nat, base: nat, width: nat)
    requires 2 <= base && n < Pow(base, width)
    ensures Value(Digits(n, base, width), base) == n
  {
    if width > 0 {
      QuotientBound(n, base, Pow(base, width - 1));
      DigitsRoundTrip(n / base, base, width - 1);
      ValueSnoc(Digits(n / base, base, width - 1), n % base, base);
      DivisionIdentity(n, base);
    }
  }

  lemma DivisionIdentity(n: nat, b: nat)
    requires 0 < b
    ensures (n / b) * b + n % b == n
  {
  }

  const OCTAL_LIMIT: nat := 8589934592  // 8 to the power 11

  function Ascii(ds: seq<nat>): (b: seq<byte>)
    requires forall i :: 0 <= i < |ds| ==> ds[i] < 8
    ensures |b| == |ds|
  {
    seq(|ds|, i requires 0 <= i < |ds| => (48 + ds[i]) as byte)
  }

  function Raw(ds: seq<nat>): (b: seq<byte>)
    requires forall i :: 0 <= i < |ds| ==> ds[i] < 256
    ensures |b| == |ds|
  {
    seq(|ds|, i requires 0 <= i < |ds| => ds[i] as byte)
  }

  /** A 12-byte field: eleven octal digits and a NUL, or base 256 behind a marker. */
  function Number(n: nat): (b: seq<byte>)
    ensures |b| == 12 && b[0] != 0
  {
    if n < OCTAL_LIMIT then Ascii(Digits(n, 8, 11)) + [0] else [128] + Raw(Digits(n, 256, 11))
  }

  function ReadNumber(b: seq<byte>): nat
    requires |b| == 12
  {
    if b[0] >= 128 then Value(seq(11, i requires 0 <= i < 11 => b[i + 1] as nat), 256)
    else Value(seq(11, i requires 0 <= i < 11 => if b[i] >= 48 then b[i] as nat - 48 else 0), 8)
  }

  lemma NumberRoundTrip(n: nat)
    requires n <= U64_MAX
    ensures ReadNumber(Number(n)) == n
  {
    var b := Number(n);
    if n < OCTAL_LIMIT {
      var ds := Digits(n, 8, 11);
      assert Pow(8, 11) == OCTAL_LIMIT;
      DigitsRoundTrip(n, 8, 11);
      assert b[0] == (48 + ds[0]) as byte;
      assert seq(11, i requires 0 <= i < 11 => if b[i] >= 48 then b[i] as nat - 48 else 0) == ds;
    } else {
      var ds := Digits(n, 256, 11);
      assert Pow(256, 11) > U64_MAX;
      DigitsRoundTrip(n, 256, 11);
      assert seq(11, i requires 0 <= i < 11 => b[i + 1] as nat) == ds;
    }
  }

  // Sparse slots.

  function Slot(e: Extent): (b: seq<byte>)
    ensures |b| == 24
  {
    Number(e.offset) + Number(e.length)
  }

  function SlotBytes(es: seq<Extent>): (b: seq<byte>)
    ensures |b| == 24 * |es|
  {
    if es == [] then [] else Slot(es[0]) + SlotBytes(es[1..])
  }

  /** `capacity` slots, the unused ones left zero. */
  function Slots(es: seq<Extent>, capacity: nat): (b: seq<byte>)
    requires |es| <= capacity
    ensures |b| == 24 * capacity
  {
    SlotBytes(es) + Zeros(24 * (capacity - |es|))
  }

  /** A slot whose fields begin with a zero byte is unused. */
  function ReadSlot(b: seq<byte>): seq<Extent>
    requires |b| == 24
  {
    if b[0] == 0 || b[12] == 0 then [] else [Extent(ReadNumber(b[..12]), ReadNumber(b[12..]))]
  }

  function ReadSlots(b: seq<byte>): seq<Extent> {
    if |b| < 24 then [] else ReadSlot(b[..24]) + ReadSlots(b[24..])
  }

  predicate Fits(es: seq<Extent>) {
    forall i :: 0 <= i < |es| ==> es[i].offset <= U64_MAX && es[i].length <= U64_MAX
  }

  lemma SlotRoundTrip(e: Extent)
    requires e.offset <= U64_MAX && e.length <= U64_MAX
    ensures ReadSlot(Slot(e)) == [e]
  {
    var b := Slot(e);
    assert b[..12] == Number(e.offset) && b[12..] == Number(e.length);
    assert b[12] == Number(e.length)[0];
    NumberRoundTrip(e.offset);
    NumberRoundTrip(e.length);
  }

  lemma {:induction false} ZeroSlots(n: nat)
    ensures ReadSlots(Zeros(24 * n)) == []
  {
    if n > 0 {
      assert Zeros(24 * n)[24..] == Zeros(24 * (n - 1));
      assert Zeros(24 * n)[..24][0] == 0;
      ZeroSlots(n - 1);
    }
  }

  lemma ReadSlotsCons(slot: seq<byte>, rest: seq<byte>, e: Extent, es: seq<Extent>)
    requires |slot| == 24 && ReadSlot(slot) == [e] && ReadSlots(rest) == es
    ensures ReadSlots(slot + rest) == [e] + es
  {
    assert (slot + rest)[..24] == slot && (slot + rest)[24..] == rest;
  }

  lemma {:induction false} SlotBytesRead(es: seq<Extent>, z: seq<byte>)
    requires Fits(es) && ReadSlots(z) == []
    ensures ReadSlots(SlotBytes(es) + z) == es
  {
    if es == [] {
      assert SlotBytes(es) + z == z;
    } else {
      SlotRoundTrip(es[0]);
      SlotBytesRead(es[1..], z);
      ReadSlotsCons(Slot(es[0]), SlotBytes(es[1..]) + z, es[0], es[1..]);
      Regroup(Slot(es[0]), SlotBytes(es[1..]), z);
      assert [es[0]] + es[1..] == es;
    }
  }

  lemma SlotsRoundTrip(es: seq<Extent>, capacity: nat)
    requires |es| <= capacity && Fits(es)
    ensures ReadSlots(Slots(es, capacity)) == es
  {
    ZeroSlots(capacity - |es|);
    SlotBytesRead(es, Zeros(24 * (capacity - |es|)));
  }

  lemma {:induction false} SlotBytesSnoc(es: seq<Extent>, e: Extent)
    ensures SlotBytes(es + [e]) == SlotBytes(es) + Slot(e)
  {
    if es == [] {
      assert [e][1..] == [];
    } else {
      SlotBytesSnoc(es[1..], e);
      assert (es + [e])[1..] == es[1..] + [e];
      Regroup(Slot(es[0]), SlotBytes(es[1..]), Slot(e));
    }
  }

  // Extension blocks.

  function Flag(more: bool): byte { if more then 1 else 0 }

  function ChainBlock(es: seq<Extent>, more: bool): (b: seq<byte>)
    requires |es| <= CHAIN_SLOTS
    ensures |b| == BLOCK
  {
    Slots(es, CHAIN_SLOTS) + [Flag(more)] + Zeros(7)
  }

  /** Blocks of at most 21 extents; every block but the last says that another follows. */
  function Chain(es: seq<Extent>): seq<byte> {
    if es == [] then []
    else if |es| <= CHAIN_SLOTS then ChainBlock(es, false)
    else ChainBlock(es[..CHAIN_SLOTS], true) + Chain(es[CHAIN_SLOTS..])
  }

  datatype ReadError = Truncated | Misaligned | OutOfOrder | SizeMismatch

  /** Reads blocks until one does not announce another; returns what follows them. */
  function ReadChain(b: seq<byte>): Result<(seq<Extent>, seq<byte>), ReadError> {
    if |b| < BLOCK then Err(Truncated) else
      var slots := ReadSlots(b[..24 * CHAIN_SLOTS]);
      if b[24 * CHAIN_SLOTS] != 1 then Ok((slots, b[BLOCK..])) else
        match ReadChain(b[BLOCK..])
        case Err(e) => Err(e)
        case Ok((more, rest)) => Ok((slots + more, rest))
  }

  lemma ChainBlockRead(es: seq<Extent>, more: bool, rest: seq<byte>)
    requires |es| <= CHAIN_SLOTS && Fits(es)
    ensures var b := ChainBlock(es, more) + rest;
            && |b| >= BLOCK && ReadSlots(b[..24 * CHAIN_SLOTS]) == es
            && b[24 * CHAIN_SLOTS] == Flag(more) && b[BLOCK..] == rest
  {
    var b := ChainBlock(es, more) + rest;
    assert b[..24 * CHAIN_SLOTS] == Slots(es, CHAIN_SLOTS);
    SlotsRoundTrip(es, CHAIN_SLOTS);
  }

  lemma ReadChainCons(first: seq<Extent>, tail: seq<byte>, others: seq<Extent>, rest: seq<byte>)
    requires |first| <= CHAIN_SLOTS && Fits(first) && ReadChain(tail) == Ok((others, rest))
    ensures ReadChain(ChainBlock(first, true) + tail) == Ok((first + others, rest))
  {
    ChainBlockRead(first, true, tail);
  }

  lemma ReadChainLast(es: seq<Extent>, rest: seq<byte>)
    requires |es| <= CHAIN_SLOTS && Fits(es)
    ensures ReadChain(ChainBlock(es, false) + rest) == Ok((es, rest))
  {
    ChainBlockRead(es, false, rest);
  }

  lemma {:induction false} ChainRoundTrip(es: seq<Extent>, rest: seq<byte>)
    requires es != [] && Fits(es)
    ensures ReadChain(Chain(es) + rest) == Ok((es, rest))
    decreases |es|
  {
    if |es| <= CHAIN_SLOTS {
      ReadChainLast(es, rest);
    } else {
      var first, others := es[..CHAIN_SLOTS], es[CHAIN_SLOTS..];
      ChainRoundTrip(others, rest);
      ReadChainCons(first, Chain(others) + rest, others, rest);
      Regroup(ChainBlock(first, true), Chain(others), rest);
      assert first + others == es;
    }
  }

  lemma Regroup(a: seq<byte>, b: seq<byte>, c: seq<byte>)
    ensures (a + b) + c == a + (b + c)
  {
  }

  // The data of the extents.

  /** Extents in order, ending exactly at `end`; an empty one may stand there for a trailing hole. */
  predicate Chained(es: seq<Extent>, at: nat, end: nat) {
    if es == [] then at == end else
      && at <= es[0].offset && es[0].offset + es[0].length <= end
      && Chained(es[1..], es[0].offset + es[0].length, end)
  }

  function Gather(es: seq<Extent>, at: nat, disk: seq<byte>): seq<byte>
    requires Chained(es, at, |disk|)
  {
    if es == [] then [] else
      var end := es[0].offset + es[0].length;
      disk[es[0].offset..end] + Gather(es[1..], end, disk)
  }

  /**
   Puts the stored data back between the holes. Data must start on a block boundary of what is stored, the
   extents must be in order, and all of the data and of the file must be used.
   */
  function Spread(es: seq<Extent>, at: nat, done: nat, data: seq<byte>, size: nat): Result<seq<byte>, ReadError> {
    if es == [] then
      if at == size && data == [] then Ok([]) else Err(SizeMismatch)
    else if es[0].length != 0 && done % BLOCK != 0 then Err(Misaligned)
    else if es[0].offset < at then Err(OutOfOrder)
    else if es[0].length > |data| then Err(SizeMismatch)
    else
      match Spread(es[1..], es[0].offset + es[0].length, done + es[0].length, data[es[0].length..], size)
      case Err(e) => Err(e)
      case Ok(tail) => Ok(Zeros(es[0].offset - at) + data[..es[0].length] + tail)
  }

  /** With `done` bytes stored before them, the data of these extents starts on block boundaries. */
  predicate Aligned(es: seq<Extent>, done: nat) {
    if es == [] then true else (es[0].length != 0 ==> done % BLOCK == 0) && Aligned(es[1..], done + es[0].length)
  }

  /** For the extents of a map: all but the last are whole numbers of blocks. */
  predicate WholeBlocks(es: seq<Extent>) { forall i :: 0 <= i < |es| - 1 ==> es[i].length % BLOCK == 0 }

  lemma WholeBlocksCons(es: seq<Extent>)
    requires |es| > 1
    ensures WholeBlocks(es) <==> es[0].length % BLOCK == 0 && WholeBlocks(es[1..])
  {
    assert forall i :: 0 <= i < |es[1..]| - 1 ==> es[1..][i] == es[i + 1];
    assert forall i :: 1 <= i < |es| - 1 ==> es[i] == es[1..][i - 1];
  }

  /** A map, with its empty extent at the end, is aligned exactly when its other extents are so. */
  lemma {:induction false} AlignedIff(es: seq<Extent>, from: nat, to: nat, done: nat)
    requires Ordered(es, from, to) && done % BLOCK == 0
    ensures Aligned(es + [Extent(to, 0)], done) <==> WholeBlocks(es)
  {
    var closed := es + [Extent(to, 0)];
    if es != [] {
      var rest, next := es[1..], done + es[0].length;
      assert closed[1..] == rest + [Extent(to, 0)];
      if rest == [] {
        var last := [Extent(to, 0)];
        assert closed[1..] == last && last[1..] == [] && Aligned(last[1..], next);
      } else {
        WholeBlocksCons(es);
        assert (rest + [Extent(to, 0)])[0] == rest[0];
        if next % BLOCK == 0 {
          AlignedIff(rest, es[0].offset + es[0].length, to, next);
        }
      }
    } else {
      assert closed[1..] == [];
    }
  }

  lemma {:induction false} OrderedGap(es: seq<Extent>, from: nat, to: nat, i: nat)
    requires Ordered(es, from, to) && i < |es|
    ensures es[i].offset + es[i].length <= to
    ensures i < |es| - 1 ==> es[i].offset + es[i].length < to
  {
    if i == 0 {
      OrderedEnd(es[1..], es[0].offset + es[0].length, to);
    } else {
      OrderedGap(es[1..], es[0].offset + es[0].length, to, i - 1);
    }
  }

  lemma {:induction false} OrderedEnd(es: seq<Extent>, from: nat, to: nat)
    requires Ordered(es, from, to)
    ensures from <= to && (es != [] ==> from < to)
  {
    if es != [] {
      OrderedEnd(es[1..], es[0].offset + es[0].length, to);
    }
  }

  /** Extents on the grid are whole blocks, so the map of a file allocated in blocks is aligned. */
  lemma GridIsAligned(m: Map)
    requires WellFormed(m) && OnGrid(Body(m), m.logicalSize)
    ensures Aligned(m.extents, 0)
  {
    var es := Body(m);
    forall i | 0 <= i < |es| - 1 ensures es[i].length % BLOCK == 0 {
      OrderedGap(es, 0, m.logicalSize, i);
    }
    AlignedIff(es, 0, m.logicalSize, 0);
    assert m.extents == es + [Extent(m.logicalSize, 0)];
  }

  lemma InsideCons(es: seq<Extent>, i: nat)
    requires es != []
    ensures Inside(es, i) <==> es[0].offset <= i < es[0].offset + es[0].length || Inside(es[1..], i)
  {
    assert forall k :: 0 < k < |es| ==> es[k] == es[1..][k - 1];
    if Inside(es[1..], i) {
      var k :| 0 <= k < |es[1..]| && es[1..][k].offset <= i < es[1..][k].offset + es[1..][k].length;
      assert es[k + 1] == es[1..][k];
    }
  }

  lemma {:induction false} OutsideBefore(es: seq<Extent>, at: nat, end: nat, i: nat)
    requires Chained(es, at, end) && i < at
    ensures !Inside(es, i)
  {
    if es != [] {
      InsideCons(es, i);
      OutsideBefore(es[1..], es[0].offset + es[0].length, end, i);
    }
  }

  /** Spreading the gathered data restores the disk exactly if it is aligned, where the extents cover the data. */
  lemma {:induction false} SpreadGather(es: seq<Extent>, at: nat, done: nat, disk: seq<byte>)
    requires Chained(es, at, |disk|) && at <= |disk| && Covers(es, disk, at, |disk|)
    ensures Spread(es, at, done, Gather(es, at, disk), |disk|)
         == if Aligned(es, done) then Ok(disk[at..]) else Err(Misaligned)
  {
    if es != [] {
      var e := es[0];
      var end := e.offset + e.length;
      HoleBefore(es, at, disk);
      CoversRest(es, at, disk);
      SpreadGather(es[1..], end, done + e.length, disk);
      var data := Gather(es, at, disk);
      assert data[..e.length] == disk[e.offset..end];
      assert data[e.length..] == Gather(es[1..], end, disk);
      assert disk[at..] == disk[at..e.offset] + disk[e.offset..end] + disk[end..];
    }
  }

  lemma HoleBefore(es: seq<Extent>, at: nat, disk: seq<byte>)
    requires es != [] && Chained(es, at, |disk|) && Covers(es, disk, at, |disk|)
    ensures disk[at..es[0].offset] == Zeros(es[0].offset - at)
  {
    forall i: nat | at <= i < es[0].offset
      ensures disk[i] == 0
    {
      InsideCons(es, i);
      OutsideBefore(es[1..], es[0].offset + es[0].length, |disk|, i);
    }
  }

  lemma CoversRest(es: seq<Extent>, at: nat, disk: seq<byte>)
    requires es != [] && Chained(es, at, |disk|) && Covers(es, disk, at, |disk|)
    ensures Covers(es[1..], disk, es[0].offset + es[0].length, |disk|)
  {
    forall i: nat | es[0].offset + es[0].length <= i < |disk| && !Inside(es[1..], i)
      ensures disk[i] == 0
    {
      InsideCons(es, i);
    }
  }

  lemma {:induction false} GatherLength(es: seq<Extent>, at: nat, disk: seq<byte>)
    requires Chained(es, at, |disk|)
    ensures |Gather(es, at, disk)| == Sum(es)
  {
    if es != [] {
      GatherLength(es[1..], es[0].offset + es[0].length, disk);
    }
  }

  // The whole entry.

  /** The header fields that do not concern sparseness: name, mode, owner, time, checksum, magic. */
  datatype Info = Info(lead: seq<byte>, mid: seq<byte>) {
    predicate Valid() { |lead| == 124 && |mid| == 250 }
  }

  function Header(info: Info, stored: nat, es: seq<Extent>, more: bool, logical: nat): (b: seq<byte>)
    requires info.Valid() && |es| <= INLINE_SLOTS
    ensures |b| == BLOCK
  {
    info.lead + Number(stored) + info.mid + Slots(es, INLINE_SLOTS) + [Flag(more)] + Number(logical) + Zeros(17)
  }

  function Padding(n: nat): (p: nat)
    ensures p < BLOCK && (n + p) % BLOCK == 0
  {
    (BLOCK - n % BLOCK) % BLOCK
  }

  function Inline(es: seq<Extent>): (r: seq<Extent>)
    ensures |r| <= INLINE_SLOTS
  {
    es[..Min(INLINE_SLOTS, |es|)]
  }

  function Overflow(es: seq<Extent>): seq<Extent> { es[Min(INLINE_SLOTS, |es|)..] }

  function Encode(info: Info, m: Map, disk: seq<byte>): seq<byte>
    requires info.Valid() && Chained(m.extents, 0, |disk|)
  {
    Header(info, m.storedSize, Inline(m.extents), |m.extents| > INLINE_SLOTS, m.logicalSize)
    + Chain(Overflow(m.extents)) + Gather(m.extents, 0, disk) + Zeros(Padding(m.storedSize))
  }

  /** Reads one sparse entry and returns its file and what follows it in the archive. */
  function Decode(b: seq<byte>): Result<(seq<byte>, seq<byte>), ReadError> {
    if |b| < BLOCK then Err(Truncated) else
      var slots := ReadSlots(b[386..482]);
      var body := if b[482] == 1 then ReadChain(b[BLOCK..]) else Ok(([], b[BLOCK..]));
      match body
      case Err(e) => Err(e)
      case Ok((more, rest)) => ReadData(slots + more, ReadNumber(b[124..136]), ReadNumber(b[483..495]), rest)
  }

  function ReadData(es: seq<Extent>, stored: nat, logical: nat, b: seq<byte>)
    : Result<(seq<byte>, seq<byte>), ReadError>
  {
    if |b| < stored + Padding(stored) then Err(Truncated) else
      match Spread(es, 0, 0, b[..stored], logical)
      case Err(e) => Err(e)
      case Ok(file) => Ok((file, b[stored + Padding(stored)..]))
  }

  /** What a reader finds in a header block. */
  predicate HeaderSays(h: seq<byte>, stored: nat, es: seq<Extent>, more: bool, logical: nat) {
    && |h| == BLOCK
    && ReadSlots(h[386..482]) == es && h[482] == Flag(more)
    && ReadNumber(h[124..136]) == stored && ReadNumber(h[483..495]) == logical
  }

  lemma HeaderSlices(lead: seq<byte>, a: seq<byte>, mid: seq<byte>, s: seq<byte>, f: byte,
                     r: seq<byte>, z: seq<byte>)
    requires |lead| == 124 && |a| == 12 && |mid| == 250 && |s| == 96 && |r| == 12 && |z| == 17
    ensures var h := lead + a + mid + s + [f] + r + z;
            |h| == BLOCK && h[124..136] == a && h[386..482] == s && h[482] == f && h[483..495] == r
  {
  }

  lemma HeaderRead(info: Info, stored: nat, es: seq<Extent>, more: bool, logical: nat)
    requires info.Valid() && |es| <= INLINE_SLOTS && Fits(es) && stored <= U64_MAX && logical <= U64_MAX
    ensures HeaderSays(Header(info, stored, es, more, logical), stored, es, more, logical)
  {
    HeaderSlices(info.lead, Number(stored), info.mid, Slots(es, INLINE_SLOTS), Flag(more),
                 Number(logical), Zeros(17));
    SlotsRoundTrip(es, INLINE_SLOTS);
    NumberRoundTrip(stored);
    NumberRoundTrip(logical);
  }

  /** The disk and what follows its entry, or the refusal of data that is not aligned. */
  function ReadBack(m: Map, disk: seq<byte>, rest: seq<byte>): Result<(seq<byte>, seq<byte>), ReadError> {
    if Aligned(m.extents, 0) then Ok((disk, rest)) else Err(Misaligned)
  }

  lemma DataRead(m: Map, disk: seq<byte>, rest: seq<byte>)
    requires Chained(m.extents, 0, |disk|) && Covers(m.extents, disk, 0, |disk|)
    requires m.storedSize == Sum(m.extents) && m.logicalSize == |disk|
    ensures ReadData(m.extents, m.storedSize, m.logicalSize,
                     Gather(m.extents, 0, disk) + Zeros(Padding(m.storedSize)) + rest) == ReadBack(m, disk, rest)
  {
    var data := Gather(m.extents, 0, disk);
    var b := data + Zeros(Padding(m.storedSize)) + rest;
    GatherLength(m.extents, 0, disk);
    SpreadGather(m.extents, 0, 0, disk);
    assert b[..m.storedSize] == data && disk[0..] == disk;
  }

  /** A header, a chain it announces and data are read as the data is. */
  lemma DecodeParts(h: seq<byte>, chain: seq<byte>, data: seq<byte>, stored: nat, logical: nat,
                    slots: seq<Extent>, others: seq<Extent>, more: bool,
                    read: Result<(seq<byte>, seq<byte>), ReadError>)
    requires HeaderSays(h, stored, slots, more, logical)
    requires if more then ReadChain(chain + data) == Ok((others, data)) else chain == [] && others == []
    requires ReadData(slots + others, stored, logical, data) == read
    ensures Decode(h + (chain + data)) == read
  {
    var b := h + (chain + data);
    assert b[386..482] == h[386..482] && b[124..136] == h[124..136] && b[483..495] == h[483..495];
    assert b[BLOCK..] == chain + data;
    if !more {
      assert chain + data == data;
    }
  }

  /**
   Reading an encoded entry gives the disk back and leaves the archive at the next entry, exactly if the
   data of its extents is aligned.
   */
  lemma EntryRoundTrip(info: Info, m: Map, disk: seq<byte>, rest: seq<byte>)
    requires info.Valid() && Chained(m.extents, 0, |disk|) && Covers(m.extents, disk, 0, |disk|)
    requires m.storedSize == Sum(m.extents) && m.logicalSize == |disk| <= U64_MAX
    requires Fits(m.extents) && m.storedSize <= U64_MAX
    ensures Decode(Encode(info, m, disk) + rest) == ReadBack(m, disk, rest)
  {
    var es, more := m.extents, |m.extents| > INLINE_SLOTS;
    var h := Header(info, m.storedSize, Inline(es), more, m.logicalSize);
    var data := Gather(es, 0, disk) + Zeros(Padding(m.storedSize)) + rest;
    HeaderRead(info, m.storedSize, Inline(es), more, m.logicalSize);
    OverflowRead(es, data);
    DataRead(m, disk, rest);
    DecodeParts(h, Chain(Overflow(es)), data, m.storedSize, m.logicalSize,
                Inline(es), Overflow(es), more, ReadBack(m, disk, rest));
    EncodeParts(h, Chain(Overflow(es)), Gather(es, 0, disk), Zeros(Padding(m.storedSize)), rest);
  }

  lemma OverflowRead(es: seq<Extent>, data: seq<byte>)
    requires Fits(es)
    ensures Inline(es) + Overflow(es) == es
    ensures |es| > INLINE_SLOTS ==> ReadChain(Chain(Overflow(es)) + data) == Ok((Overflow(es), data))
    ensures |es| <= INLINE_SLOTS ==> Overflow(es) == [] && Chain(Overflow(es)) == []
  {
    if |es| > INLINE_SLOTS {
      ChainRoundTrip(Overflow(es), data);
    }
  }

  lemma EncodeParts(h: seq<byte>, c: seq<byte>, g: seq<byte>, z: seq<byte>, rest: seq<byte>)
    ensures h + c + g + z + rest == h + (c + (g + z + rest))
  {
  }
}
