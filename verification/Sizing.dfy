/** The size of a workspace image, in saturating 64-bit arithmetic. */
module Sizing {
  import opened Base

  const MIN_IMAGE: nat := 64 * 1024 * 1024
  const HEADROOM: nat := 32 * 1024 * 1024
  const ALIGNMENT: nat := 4 * 1024 * 1024
  const INODE: nat := 256
  const MIN_INODE_HEADROOM: nat := 128

  type U64 = x: nat | x <= U64_MAX

  datatype Stats = Stats(content: U64, entries: U64, payload: U64)

  function InodeCount(stats: Stats): (n: U64) {
    var required := SatAdd(stats.entries, 1);
    SatAdd(required, Max(required / 4, MIN_INODE_HEADROOM))
  }

  /** `align_up_saturating`: past the last multiple that fits, that multiple. */
  function AlignUp(bytes: U64, alignment: nat): (r: U64)
    requires alignment > 0
  {
    var remainder := bytes % alignment;
    if remainder == 0 then bytes
    else if bytes + (alignment - remainder) <= U64_MAX then bytes + (alignment - remainder)
    else U64_MAX - U64_MAX % alignment
  }

  function Estimated(stats: Stats): U64 {
    SatAdd(Max(stats.payload, stats.content), SatMul(InodeCount(stats), INODE))
  }

  function Requested(stats: Stats): U64 {
    Max(SatAdd(SatMul(Estimated(stats), 2), HEADROOM), MIN_IMAGE)
  }

  function ImageSize(stats: Stats): U64 { AlignUp(Requested(stats), ALIGNMENT) }

  // Alignment.

  /** The greatest size an image can have. */
  const TOP: U64 := U64_MAX - U64_MAX % ALIGNMENT

  /** The result is the least multiple that is not smaller, or the greatest one there is. */
  lemma AlignUpIs(bytes: U64, multiple: U64)
    requires multiple % ALIGNMENT == 0
    ensures var r := AlignUp(bytes, ALIGNMENT);
      && r % ALIGNMENT == 0 && r <= TOP && (bytes <= multiple ==> bytes <= r <= multiple)
      && if bytes <= TOP then bytes <= r < bytes + ALIGNMENT else r == TOP
  {
    var r := AlignUp(bytes, ALIGNMENT);
    assert r % ALIGNMENT == 0;
    assert bytes <= multiple ==> bytes <= r;
  }

  lemma AlignUpMonotone(a: U64, b: U64)
    requires a <= b
    ensures AlignUp(a, ALIGNMENT) <= AlignUp(b, ALIGNMENT)
  {
    AlignUpIs(b, 0);
    AlignUpIs(a, AlignUp(b, ALIGNMENT));
  }

  // The image size.

  /** Every image is a whole number of 4 MiB, and at least 64 MiB. */
  lemma SizeIsAligned(stats: Stats)
    ensures ImageSize(stats) % 4_194_304 == 0 && ImageSize(stats) >= 67_108_864
  {
    AlignUpIs(Requested(stats), 0);
    AlignUpMonotone(MIN_IMAGE, Requested(stats));
  }

  predicate NoMore(a: Stats, b: Stats) { a.content <= b.content && a.entries <= b.entries && a.payload <= b.payload }

  lemma InodesMonotone(a: Stats, b: Stats)
    requires a.entries <= b.entries
    ensures InodeCount(a) <= InodeCount(b)
  {
  }

  /** More content, more entries or more payload never make a smaller image. */
  lemma SizeIsMonotone(a: Stats, b: Stats)
    requires NoMore(a, b)
    ensures ImageSize(a) <= ImageSize(b)
  {
    InodesMonotone(a, b);
    assert SatMul(InodeCount(a), INODE) <= SatMul(InodeCount(b), INODE);
    assert Estimated(a) <= Estimated(b);
    assert Requested(a) <= Requested(b);
    AlignUpMonotone(Requested(a), Requested(b));
  }

  /** What the image has to hold, without saturation: the payload twice, the inode table twice, and headroom. */
  function Needed(stats: Stats): nat {
    var required := stats.entries + 1;
    2 * (Max(stats.payload, stats.content) + 256 * (required + Max(required / 4, 128))) + 33_554_432
  }

  lemma RequestedIs(stats: Stats)
    ensures Requested(stats) == Max(Min(Needed(stats), U64_MAX), MIN_IMAGE)
  {
    var required := stats.entries + 1;
    var inodes := required + Max(required / 4, MIN_INODE_HEADROOM);
    assert InodeCount(stats) == Min(inodes, U64_MAX);
    var estimated := Max(stats.payload, stats.content) + INODE * inodes;
    assert Estimated(stats) == Min(estimated, U64_MAX);
  }

  /** When nothing saturates, the image holds what is needed and exceeds it, or the minimum, by less than 4 MiB. */
  lemma SizeIsTight(stats: Stats)
    requires Needed(stats) <= TOP
    ensures var wanted := Max(Needed(stats), 67_108_864);
      wanted <= ImageSize(stats) < wanted + 4_194_304
  {
    RequestedIs(stats);
    AlignUpIs(Requested(stats), 0);
  }

  /** When what is needed is beyond the greatest size, that size is what is made, and it falls short. */
  lemma SizeSaturates(stats: Stats)
    requires Needed(stats) > TOP
    ensures ImageSize(stats) == TOP && ImageSize(stats) < Needed(stats)
  {
    RequestedIs(stats);
    AlignUpIs(Requested(stats), 0);
  }
}
