/** The writers that turn zero buffers into holes: the archive of an export, the disk of an import. */
module Archive {
  import opened Base
  import opened DiskFile
  import opened SparseMap
  import opened GnuSparse

  /** A file that lags behind its position stands for the bytes written so far. */
  predicate StandsFor(bytes: seq<byte>, written: seq<byte>) {
    |bytes| <= |written| && PadTo(bytes, |written|) == written
  }

  lemma SkippedZeros(bytes: seq<byte>, written: seq<byte>, buffer: seq<byte>)
    requires StandsFor(bytes, written) && AllZero(buffer)
    ensures StandsFor(bytes, written + buffer)
  {
    var p := PadTo(bytes, |written| + |buffer|);
    forall i | 0 <= i < |p| ensures p[i] == (written + buffer)[i] {
      assert i < |bytes| ==> p[i] == bytes[i] == PadTo(bytes, |written|)[i];
    }
  }

  lemma WroteBuffer(bytes: seq<byte>, written: seq<byte>, buffer: seq<byte>)
    requires StandsFor(bytes, written)
    ensures Written(bytes, |written|, buffer) == written + buffer
  {
    var w := Written(bytes, |written|, buffer);
    var p := PadTo(bytes, |written| + |buffer|);
    forall i | 0 <= i < |written| ensures w[i] == written[i] {
      assert i < |bytes| ==> p[i] == bytes[i] == PadTo(bytes, |written|)[i];
    }
  }

  lemma Completed(bytes: seq<byte>, written: seq<byte>)
    requires StandsFor(bytes, written)
    ensures Resized(bytes, |written|) == written
  {
  }

  class SparseArchiveWriter {
    const output: File
    var logicalPosition: nat
    var hashed: seq<byte>

    /** The file, read to the position, is exactly what was written and hashed. */
    ghost predicate Valid()
      reads this, output
    {
      && output.position == logicalPosition == |hashed| <= U64_MAX
      && StandsFor(output.bytes, hashed)
    }

    constructor (output: File)
      requires output.bytes == [] && output.position == 0
      ensures Valid() && hashed == [] && this.output == output
    {
      this.output := output;
      logicalPosition, hashed := 0, [];
    }

    /** Fails, changing nothing, only when the archive would not fit in 64 bits. */
    method Write(buffer: seq<byte>) returns (ok: bool)
      requires Valid()
      modifies this, output
      ensures Valid() && ok == (|old(hashed)| + |buffer| <= U64_MAX)
      ensures hashed == if ok then old(hashed) + buffer else old(hashed)
    {
      if buffer == [] {
        assert hashed == hashed + buffer;
        return true;
      }
      if logicalPosition + |buffer| > U64_MAX {
        return false;
      }
      if AllZero(buffer) {
        SkippedZeros(output.bytes, hashed, buffer);
        output.SeekCurrent(|buffer|);
      } else {
        WroteBuffer(output.bytes, hashed, buffer);
        output.WriteAll(buffer);
      }
      hashed := hashed + buffer;
      logicalPosition := logicalPosition + |buffer|;
      ok := true;
    }

    method Finish(sha: seq<byte> -> string) returns (size: nat, digest: string)
      requires Valid()
      modifies output
      ensures output.bytes == hashed && size == |hashed| && digest == sha(hashed)
    {
      Completed(output.bytes, hashed);
      output.SetLen(logicalPosition);
      output.SeekStart(logicalPosition);
      size, digest := logicalPosition, sha(hashed);
    }
  }

  /** Fills the slots of a header from the first extents, as far as both reach. */
  method FillSlots(es: seq<Extent>, capacity: nat) returns (b: seq<byte>)
    requires |es| <= capacity
    ensures b == Slots(es, capacity)
  {
    b := [];
    for i := 0 to |es|
      invariant b == SlotBytes(es[..i])
    {
      SlotBytesSnoc(es[..i], es[i]);
      assert es[..i] + [es[i]] == es[..i + 1];
      b := b + Slot(es[i]);
    }
    assert es[..|es|] == es;
    b := b + Zeros(24 * (capacity - |es|));
  }

  lemma ChainStep(es: seq<Extent>)
    requires es != []
    ensures var n := Min(CHAIN_SLOTS, |es|);
            Chain(es) == ChainBlock(es[..n], n < |es|) + Chain(es[n..])
  {
    if |es| <= CHAIN_SLOTS {
      assert es[..|es|] == es && es[|es|..] == [];
    }
  }

  lemma ChainTail(es: seq<Extent>, at: nat)
    requires at < |es|
    ensures var next := Min(at + CHAIN_SLOTS, |es|);
            Chain(es[at..]) == ChainBlock(es[at..next], at + CHAIN_SLOTS < |es|) + Chain(es[next..])
  {
    var next := Min(at + CHAIN_SLOTS, |es|);
    assert es[at..][..next - at] == es[at..next] && es[at..][next - at..] == es[next..];
    ChainStep(es[at..]);
  }

  lemma Slide(done: seq<byte>, all: seq<byte>, head: seq<byte>, block: seq<byte>, tail: seq<byte>)
    requires done + head == all && head == block + tail
    ensures (done + block) + tail == all
  {
  }

  method MakeBlock(es: seq<Extent>, more: bool) returns (b: seq<byte>)
    requires |es| <= CHAIN_SLOTS
    ensures b == ChainBlock(es, more)
  {
    var slots := FillSlots(es, CHAIN_SLOTS);
    b := slots + [Flag(more)] + Zeros(7);
  }

  /** The extension blocks, one after another. */
  method BuildChain(es: seq<Extent>) returns (blocks: seq<seq<byte>>)
    ensures Joined(blocks) == Chain(es)
  {
    blocks := [];
    var at := 0;
    assert es[0..] == es;
    while at < |es|
      invariant at <= |es|
      invariant Joined(blocks) + Chain(es[at..]) == Chain(es)
    {
      var next := Min(at + CHAIN_SLOTS, |es|);
      var block := MakeBlock(es[at..next], at + CHAIN_SLOTS < |es|);
      ChainTail(es, at);
      Slide(Joined(blocks), Chain(es), Chain(es[at..]), block, Chain(es[next..]));
      JoinedSnoc(blocks, block);
      blocks := blocks + [block];
      at := next;
    }
  }

  function Joined(parts: seq<seq<byte>>): seq<byte> {
    if parts == [] then [] else Joined(parts[..|parts| - 1]) + parts[|parts| - 1]
  }

  lemma JoinedSnoc(parts: seq<seq<byte>>, last: seq<byte>)
    ensures Joined(parts + [last]) == Joined(parts) + last
  {
    assert (parts + [last])[..|parts|] == parts;
  }

  /** The data of the extents, in the order of the map. */
  method CollectData(es: seq<Extent>, disk: seq<byte>) returns (parts: seq<seq<byte>>)
    requires Chained(es, 0, |disk|)
    ensures Joined(parts) == Gather(es, 0, disk)
  {
    parts := [];
    var i := 0;
    ghost var at: nat := 0;
    assert es[0..] == es;
    while i < |es|
      invariant 0 <= i <= |es| && Chained(es[i..], at, |disk|)
      invariant Joined(parts) + Gather(es[i..], at, disk) == Gather(es, 0, disk)
    {
      var e := es[i];
      assert es[i..][1..] == es[i + 1..];
      var data := disk[e.offset..e.offset + e.length];
      Regroup(Joined(parts), data, Gather(es[i + 1..], e.offset + e.length, disk));
      if e.length > 0 {
        JoinedSnoc(parts, data);
        parts := parts + [data];
      } else {
        assert Joined(parts) + data == Joined(parts);
      }
      at := e.offset + e.length;
      i := i + 1;
    }
  }

  /** Each part is one `write_all`; the first failure stops the export. */
  method WriteParts(writer: SparseArchiveWriter, parts: seq<seq<byte>>) returns (ok: bool)
    requires writer.Valid()
    modifies writer, writer.output
    ensures writer.Valid()
    ensures ok ==> writer.hashed == old(writer.hashed) + Joined(parts)
    ensures |old(writer.hashed)| + |Joined(parts)| <= U64_MAX ==> ok
  {
    var i := 0;
    ok := true;
    while i < |parts|
      invariant 0 <= i <= |parts| && writer.Valid()
      invariant writer.hashed == old(writer.hashed) + Joined(parts[..i])
    {
      JoinedSnoc(parts[..i], parts[i]);
      assert parts[..i] + [parts[i]] == parts[..i + 1];
      JoinedPrefix(parts, i + 1);
      ok := writer.Write(parts[i]);
      if !ok {
        return;
      }
      i := i + 1;
    }
    assert parts[..|parts|] == parts;
  }

  lemma {:induction false} JoinedPrefix(parts: seq<seq<byte>>, n: nat)
    requires n <= |parts|
    ensures |Joined(parts[..n])| <= |Joined(parts)|
  {
    if n == |parts| {
      assert parts[..n] == parts;
    } else {
      JoinedPrefix(parts[..|parts| - 1], n);
      assert parts[..|parts| - 1][..n] == parts[..n];
    }
  }

  /** The bytes an entry adds to the archive are exactly its encoding. */
  method AppendSparseMapped(writer: SparseArchiveWriter, info: Info, m: Map, disk: seq<byte>)
      returns (ok: bool)
    requires writer.Valid() && info.Valid() && Chained(m.extents, 0, |disk|)
    modifies writer, writer.output
    ensures writer.Valid()
    ensures ok ==> writer.hashed == old(writer.hashed) + Encode(info, m, disk)
    ensures |old(writer.hashed)| + |Encode(info, m, disk)| <= U64_MAX ==> ok
  {
    var more := |m.extents| > INLINE_SLOTS;
    var header := MakeHeader(info, m, more);
    var blocks := BuildChain(Overflow(m.extents));
    var data := CollectData(m.extents, disk);
    var padding := Zeros(Padding(m.storedSize));
    ghost var before := writer.hashed;
    var parts := [header] + blocks + data + [padding];
    JoinFour(header, blocks, data, padding);
    ok := WriteParts(writer, parts);
  }

  method MakeHeader(info: Info, m: Map, more: bool) returns (h: seq<byte>)
    requires info.Valid()
    ensures h == Header(info, m.storedSize, Inline(m.extents), more, m.logicalSize)
  {
    var slots := FillSlots(Inline(m.extents), INLINE_SLOTS);
    h := info.lead + Number(m.storedSize) + info.mid + slots + [Flag(more)] + Number(m.logicalSize) + Zeros(17);
  }

  lemma {:induction false} JoinedConcat(a: seq<seq<byte>>, b: seq<seq<byte>>)
    ensures Joined(a + b) == Joined(a) + Joined(b)
  {
    if b == [] {
      assert a + b == a;
    } else {
      JoinedConcat(a, b[..|b| - 1]);
      assert (a + b)[..|a + b| - 1] == a + b[..|b| - 1];
      Regroup(Joined(a), Joined(b[..|b| - 1]), b[|b| - 1]);
    }
  }

  lemma JoinFour(header: seq<byte>, blocks: seq<seq<byte>>, data: seq<seq<byte>>, padding: seq<byte>)
    ensures Joined([header] + blocks + data + [padding]) == header + Joined(blocks) + Joined(data) + padding
  {
    JoinedSnoc([header] + blocks + data, padding);
    JoinedConcat([header] + blocks, data);
    JoinedConcat([header], blocks);
    JoinedSnoc([], header);
    assert [] + [header] == [header];
  }

  datatype CopyResult = Copied(digest: string) | TooLong | TooShort

  const MAX_ROOT_DISK: nat := 1024 * 1024 * 1024 * 1024

  /** Copies the buffers a reader yields into a fresh file, turning zero buffers into holes. */
  method CopySparseAndHash(buffers: seq<seq<byte>>, output: File, expected: nat, sha: seq<byte> -> string)
      returns (r: CopyResult)
    requires output.bytes == [] && output.position == 0
    requires forall i :: 0 <= i < |buffers| ==> buffers[i] != []
    modifies output
    ensures r.Copied? <==> |Joined(buffers)| == expected <= MAX_ROOT_DISK
    ensures r.Copied? ==> output.bytes == Joined(buffers) && r.digest == sha(Joined(buffers))
  {
    ghost var all := Joined(buffers);
    var total := 0;
    var hashed: seq<byte> := [];
    var i := 0;
    while i < |buffers|
      invariant 0 <= i <= |buffers|
      invariant hashed == Joined(buffers[..i]) && total == |hashed| == output.position
      invariant total <= expected && total <= MAX_ROOT_DISK
      invariant StandsFor(output.bytes, hashed)
    {
      var buffer := buffers[i];
      JoinedSnoc(buffers[..i], buffer);
      assert buffers[..i] + [buffer] == buffers[..i + 1];
      JoinedPrefix(buffers, i + 1);
      total := total + |buffer|;
      if total > expected || total > MAX_ROOT_DISK {
        return TooLong;
      }
      if AllZero(buffer) {
        SkippedZeros(output.bytes, hashed, buffer);
        output.SeekCurrent(|buffer|);
      } else {
        WroteBuffer(output.bytes, hashed, buffer);
        output.WriteAll(buffer);
      }
      hashed := hashed + buffer;
      i := i + 1;
    }
    assert buffers[..|buffers|] == buffers;
    if total != expected {
      return TooShort;
    }
    Completed(output.bytes, hashed);
    output.SetLen(total);
    r := Copied(sha(hashed));
  }
}
