/**
 Disk files with holes, the kernel's SEEK_DATA and SEEK_HOLE, and the two copy algorithms of the
 Box store. Both copies are proved to produce exactly the bytes of their source.
 */
module DiskFile {
  import opened Base

  /** A file as the kernel keeps it: bytes, and which of them lie in allocated extents. */
  datatype Image = Image(bytes: seq<byte>, data: seq<bool>) {
    /** A hole reads as zero. */
    predicate Valid() {
      |data| == |bytes| && forall i :: 0 <= i < |data| ==> data[i] || bytes[i] == 0
    }
  }

  /** The first offset from `from` on where the allocation is `kind`, or the end of the file. */
  function Next(data: seq<bool>, from: nat, kind: bool): (r: nat)
    requires from <= |data|
    ensures from <= r <= |data|
    ensures forall i :: from <= i < r ==> data[i] != kind
    ensures r < |data| ==> data[r] == kind
    decreases |data| - from
  {
    if from == |data| || data[from] == kind then from else Next(data, from + 1, kind)
  }

  datatype Seek = At(offset: nat) | Nxio | Unsupported | Failed

  /** The answers of `lseek`; an arbitrary pair of functions unless stated to be the kernel's. */
  datatype Seeker = Seeker(data: nat -> Seek, hole: nat -> Seek)

  /** SEEK_DATA of an honest kernel: it fails past the last data. */
  function SeekData(image: Image, supported: bool, from: nat): Seek {
    if !supported then Unsupported
    else if from >= |image.data| || Next(image.data, from, true) == |image.data| then Nxio
    else At(Next(image.data, from, true))
  }

  /** SEEK_HOLE of an honest kernel: a hole sits at the end of the file. */
  function SeekHole(image: Image, from: nat): Seek {
    if from >= |image.data| then Nxio else At(Next(image.data, from, false))
  }

  function Kernel(image: Image, supported: bool): Seeker {
    Seeker((o: nat) => SeekData(image, supported, o), (o: nat) => SeekHole(image, o))
  }

  function PadTo(b: seq<byte>, n: nat): (r: seq<byte>)
    ensures |r| == Max(|b|, n) && r[..|b|] == b
    ensures forall i :: |b| <= i < |r| ==> r[i] == 0
  {
    if |b| >= n then b else b + Zeros(n - |b|)
  }

  function Resized(b: seq<byte>, n: nat): (r: seq<byte>)
    ensures |r| == n
  {
    PadTo(b, n)[..n]
  }

  /** `write` at an offset: the gap before it, if any, reads as zero. */
  function Written(b: seq<byte>, at: nat, buffer: seq<byte>): (r: seq<byte>)
    ensures |r| == Max(|b|, at + |buffer|)
    ensures forall i :: 0 <= i < |r| ==>
      r[i] == if at <= i < at + |buffer| then buffer[i - at] else PadTo(b, at + |buffer|)[i]
  {
    var p := PadTo(b, at + |buffer|);
    p[..at] + buffer + p[at + |buffer|..]
  }

  predicate AllZero(b: seq<byte>) { forall i :: 0 <= i < |b| ==> b[i] == 0 }

  /** An open file: its contents and its position. */
  class File {
    var bytes: seq<byte>
    var position: nat

    constructor ()
      ensures bytes == [] && position == 0
    {
      bytes, position := [], 0;
    }

    method SeekStart(offset: nat)
      modifies `position
      ensures position == offset
    {
      position := offset;
    }

    method SeekCurrent(delta: nat)
      modifies `position
      ensures position == old(position) + delta
    {
      position := position + delta;
    }

    method SetLen(n: nat)
      modifies `bytes
      ensures bytes == Resized(old(bytes), n)
    {
      bytes := Resized(bytes, n);
    }

    method WriteAll(buffer: seq<byte>)
      modifies this
      ensures bytes == Written(old(bytes), old(position), buffer)
      ensures position == old(position) + |buffer|
    {
      bytes := Written(bytes, position, buffer);
      position := position + |buffer|;
    }
  }

  datatype CopyError = InvalidExtent | UnexpectedEof | SeekFailed

  /** The destination holds the source up to `n`, and zeros after it. */
  predicate CopiedTo(source: seq<byte>, copy: seq<byte>, n: nat) {
    && |copy| == |source| && n <= |source|
    && copy[..n] == source[..n] && AllZero(copy[n..])
  }

  /** Where the source is zero the copy is already done. */
  lemma SkipZeros(source: seq<byte>, copy: seq<byte>, n: nat, m: nat)
    requires CopiedTo(source, copy, n) && n <= m <= |source|
    requires forall i :: n <= i < m ==> source[i] == 0
    ensures CopiedTo(source, copy, m)
  {
    assert forall i :: n <= i < m ==> copy[i] == copy[n..][i - n];
    assert copy[..m] == source[..m];
    assert forall i :: m <= i < |copy| ==> copy[i] == copy[n..][i - n];
  }

  lemma WriteRange(source: seq<byte>, copy: seq<byte>, n: nat, m: nat)
    requires CopiedTo(source, copy, n) && n <= m <= |source|
    ensures CopiedTo(source, Written(copy, n, source[n..m]), m)
  {
    var after := Written(copy, n, source[n..m]);
    assert forall i :: 0 <= i < n ==> after[i] == copy[..n][i] == source[..n][i];
    assert after[..m] == source[..m];
    assert forall i :: m <= i < |copy| ==> after[i] == copy[n..][i - n];
  }

  /** Copies [start, end) and insists that the source had that much. */
  method CopyExactRange(source: Image, destination: File, start: nat, end: nat)
      returns (r: Result<(), CopyError>)
    modifies destination
    ensures r.Ok? <==> start <= end && (start == end || end <= |source.bytes|)
    ensures r.Ok? ==> destination.bytes == Written(old(destination.bytes), start,
                                                    if start == end then [] else source.bytes[start..end])
    ensures start > end ==> destination.bytes == old(destination.bytes)
  {
    if end < start {
      return Err(InvalidExtent);
    }
    destination.SeekStart(start);
    var available := if start > |source.bytes| then [] else source.bytes[start..Min(end, |source.bytes|)];
    destination.WriteAll(available);
    if |available| != end - start {
      return Err(UnexpectedEof);
    }
    r := Ok(());
  }

  /** Copies the data extents the kernel reports into a file of zeros. */
  method CopySparseExtents(source: Image, destination: File, supported: bool)
      returns (r: Result<bool, CopyError>)
    requires source.Valid() && destination.bytes == Zeros(|source.bytes|)
    modifies destination
    ensures r == Ok(supported || source.bytes == [])
    ensures destination.bytes == if r == Ok(true) then source.bytes else old(destination.bytes)
  {
    var length := |source.bytes|;
    if length == 0 {
      return Ok(true);
    }
    assert CopiedTo(source.bytes, destination.bytes, 0);
    var first := SeekData(source, supported, 0);
    match first {
      case Unsupported => return Ok(false);
      case Failed => assert false;
      case Nxio =>
        SkipZeros(source.bytes, destination.bytes, 0, length);
        assert destination.bytes[..length] == source.bytes[..length];
        return Ok(true);
      case At(_) =>
    }
    var dataOffset := first.offset;
    SkipZeros(source.bytes, destination.bytes, 0, dataOffset);
    while dataOffset < length
      invariant dataOffset <= length
      invariant dataOffset < length ==> source.data[dataOffset]
      invariant CopiedTo(source.bytes, destination.bytes, dataOffset)
    {
      var holeOffset := Min(SeekHole(source, dataOffset).offset, length);
      WriteRange(source.bytes, destination.bytes, dataOffset, holeOffset);
      var copied := CopyExactRange(source, destination, dataOffset, holeOffset);
      assert copied.Ok?;
      if holeOffset >= length {
        assert destination.bytes[..length] == source.bytes[..length];
        return Ok(true);
      }
      var next := SeekData(source, supported, holeOffset);
      if next == Nxio {
        SkipZeros(source.bytes, destination.bytes, holeOffset, length);
        assert destination.bytes[..length] == source.bytes[..length];
        return Ok(true);
      }
      SkipZeros(source.bytes, destination.bytes, holeOffset, next.offset);
      dataOffset := next.offset;
    }
    r := Ok(true);
  }

  const COPY_BUFFER := 1024 * 1024

  /** The fallback: reads everything, and seeks over buffers that are all zero. */
  method CopySparseZeroRanges(source: Image, destination: File)
    requires destination.bytes == Zeros(|source.bytes|)
    modifies destination
    ensures destination.bytes == source.bytes
  {
    destination.SeekStart(0);
    var length := |source.bytes|;
    var remaining := length;
    assert CopiedTo(source.bytes, destination.bytes, 0);
    while remaining > 0
      invariant remaining <= length && destination.position == length - remaining
      invariant CopiedTo(source.bytes, destination.bytes, length - remaining)
    {
      var requested := Min(remaining, COPY_BUFFER);
      var at := length - remaining;
      var buffer := source.bytes[at..at + requested];
      if AllZero(buffer) {
        assert forall i :: at <= i < at + requested ==> source.bytes[i] == buffer[i - at];
        SkipZeros(source.bytes, destination.bytes, at, at + requested);
        destination.SeekCurrent(requested);
      } else {
        WriteRange(source.bytes, destination.bytes, at, at + requested);
        destination.WriteAll(buffer);
      }
      remaining := remaining - requested;
    }
    assert destination.bytes[..length] == source.bytes[..length];
  }

  /** A fresh file with exactly the bytes of the source, whether or not the kernel reports holes. */
  method SparseCopy(source: Image, supported: bool) returns (destination: File)
    requires source.Valid()
    ensures fresh(destination) && destination.bytes == source.bytes
  {
    destination := new File();
    destination.SetLen(|source.bytes|);
    assert destination.bytes == Zeros(|source.bytes|);
    var done := CopySparseExtents(source, destination, supported);
    if done == Ok(false) {
      CopySparseZeroRanges(source, destination);
    }
  }
}
