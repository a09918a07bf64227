/**
 The bounded output buffer of a session and the loop that drains it.

 The buffer keeps chunks in a queue and evicts from the front, byte by byte. It is proved to be a
 window on an unbounded log of labelled bytes: `log` is that log, and every method is specified by
 what it does to the log and by the window it leaves.
 */
module Output {
  import opened Base

  datatype Channel = Stdout | Stderr | Tty

  /** A byte of the log together with the channel that produced it. */
  datatype Labelled = Labelled(channel: Channel, data: byte)

  type Log = seq<Labelled>

  datatype Chunk = Chunk(cursor: nat, channel: Channel, data: seq<byte>)

  datatype Read = Read(chunks: seq<Chunk>, nextCursor: nat, truncated: bool)

  datatype ReadError =
    | CursorExpired(requested: nat, earliest: nat)
    | CursorAhead(requested: nat, next: nat)

  /** A chunk in the queue: `data` is shared and immutable, `start` bytes of it are evicted. */
  datatype Stored = Stored(cursor: nat, channel: Channel, data: seq<byte>, start: nat) {
    predicate Valid() { start < |data| }

    function Len(): nat
      requires Valid()
    {
      |data| - start
    }

    function EndCursor(): nat
      requires Valid()
    {
      cursor + Len()
    }

    /** The log bytes this chunk still holds. */
    function Body(): (l: Log)
      requires Valid()
      ensures |l| == Len()
    {
      Label(channel, data[start..])
    }
  }

  /** A range of shared data, taken without copying it. */
  datatype Shared = Shared(cursor: nat, channel: Channel, data: seq<byte>, lo: nat, hi: nat) {
    predicate Valid() { lo <= hi <= |data| }
  }

  datatype Snapshot = Snapshot(chunks: seq<Shared>, nextCursor: nat, truncated: bool) {
    predicate Valid() { forall i :: 0 <= i < |chunks| ==> chunks[i].Valid() }

    function Materialize(): (r: Read)
      requires Valid()
    {
      Read(seq(|chunks|, i requires 0 <= i < |chunks| =>
             Chunk(chunks[i].cursor, chunks[i].channel, chunks[i].data[chunks[i].lo..chunks[i].hi])),
           nextCursor, truncated)
    }
  }

  function Label(channel: Channel, data: seq<byte>): (l: Log)
    ensures |l| == |data|
  {
    seq(|data|, i requires 0 <= i < |data| => Labelled(channel, data[i]))
  }

  /** Chunk `i` carries its part of the log and abuts the next chunk, or the end of the log. */
  ghost predicate Linked(chunks: seq<Stored>, i: nat, log: Log)
    requires i < |chunks|
  {
    var c := chunks[i];
    && c.Valid()
    && c.EndCursor() <= |log|
    && c.EndCursor() == (if i + 1 < |chunks| then chunks[i + 1].cursor else |log|)
    && c.Body() == log[c.cursor..c.EndCursor()]
  }

  /** The queue holds exactly the log bytes from `from` on, in abutting non-empty chunks. */
  ghost predicate Holds(chunks: seq<Stored>, from: nat, log: Log) {
    && from <= |log|
    && from == (if chunks == [] then |log| else chunks[0].cursor)
    && forall i :: 0 <= i < |chunks| ==> Linked(chunks, i, log)
  }

  lemma HoldsAppend(chunks: seq<Stored>, from: nat, log: Log, c: Stored)
    requires Holds(chunks, from, log) && c.Valid() && c.cursor == |log|
    ensures Holds(chunks + [c], from, log + c.Body())
  {
    var longer := log + c.Body();
    assert longer[|log|..] == c.Body();
    forall i | 0 <= i < |chunks|
      ensures Linked(chunks + [c], i, longer)
    {
      assert Linked(chunks, i, log);
      var lo, hi := chunks[i].cursor, chunks[i].EndCursor();
      assert longer[lo..hi] == log[lo..hi];
    }
  }

  lemma HoldsPop(chunks: seq<Stored>, from: nat, log: Log)
    requires Holds(chunks, from, log) && chunks != []
    ensures chunks[0].Valid() && Holds(chunks[1..], chunks[0].EndCursor(), log)
  {
    assert Linked(chunks, 0, log);
    forall i | 0 <= i < |chunks| - 1
      ensures Linked(chunks[1..], i, log)
    {
      assert Linked(chunks, i + 1, log);
    }
  }

  /** Evicting `n` bytes of the front chunk leaves a queue that holds `n` bytes less. */
  lemma HoldsCut(chunks: seq<Stored>, from: nat, log: Log, n: nat)
    requires Holds(chunks, from, log) && chunks != [] && Linked(chunks, 0, log)
    requires n < chunks[0].Len()
    ensures var kept := chunks[0].(start := chunks[0].start + n, cursor := chunks[0].cursor + n);
            Holds([kept] + chunks[1..], from + n, log)
  {
    var front := chunks[0];
    var kept := front.(start := front.start + n, cursor := front.cursor + n);
    assert kept.EndCursor() == front.EndCursor();
    assert kept.Body() == front.Body()[n..];
    assert log[from..front.EndCursor()][n..] == log[from + n..kept.EndCursor()];
    forall i | 0 < i < |chunks|
      ensures Linked([kept] + chunks[1..], i, log)
    {
      assert Linked(chunks, i, log);
    }
  }

  /** The log bytes a list of materialized chunks carries. */
  function Flatten(chunks: seq<Chunk>): Log {
    if chunks == [] then [] else Label(chunks[0].channel, chunks[0].data) + Flatten(chunks[1..])
  }

  /** Materialized chunks that abut, are non-empty, and run from `from` to `to`. */
  predicate Abut(chunks: seq<Chunk>, from: nat, to: nat) {
    if chunks == [] then from == to else
      && chunks[0].cursor == from
      && chunks[0].data != []
      && Abut(chunks[1..], from + |chunks[0].data|, to)
  }

  lemma {:induction false} FlattenAppend(chunks: seq<Chunk>, c: Chunk, from: nat, to: nat)
    requires Abut(chunks, from, to) && c.cursor == to && c.data != []
    ensures Abut(chunks + [c], from, to + |c.data|)
    ensures Flatten(chunks + [c]) == Flatten(chunks) + Label(c.channel, c.data)
  {
    if chunks == [] {
      assert [c][1..] == [];
    } else {
      FlattenAppend(chunks[1..], c, from + |chunks[0].data|, to);
      assert (chunks + [c])[1..] == chunks[1..] + [c];
    }
  }

  lemma {:induction false} AbutEmpty(chunks: seq<Chunk>, from: nat, to: nat)
    requires Abut(chunks, from, to)
    ensures from <= to && (chunks == [] <==> from == to)
  {
    if chunks != [] {
      AbutEmpty(chunks[1..], from + |chunks[0].data|, to);
    }
  }

  /** What a snapshot shows of a log: the slice between its cursors, with the right labels. */
  ghost predicate Shows(s: Snapshot, log: Log, cursor: nat) {
    && s.Valid()
    && cursor <= s.nextCursor <= |log|
    && Abut(s.Materialize().chunks, cursor, s.nextCursor)
    && Flatten(s.Materialize().chunks) == log[cursor..s.nextCursor]
  }

  /** A snapshot still materializes to the same slice after any later pushes. */
  lemma SnapshotOutlivesEviction(s: Snapshot, log: Log, more: Log, cursor: nat)
    requires Shows(s, log, cursor)
    ensures Shows(s, log + more, cursor)
  {
    assert (log + more)[cursor..s.nextCursor] == log[cursor..s.nextCursor];
  }

  class OutputBuffer {
    const capacity: nat
    var retainedBytes: nat
    var earliestCursor: nat
    var nextCursor: nat
    var truncated: bool
    var chunks: seq<Stored>
    ghost var log: Log

    /** The buffer is exactly the last `capacity` bytes of the log. */
    ghost predicate Valid()
      reads this
    {
      && 0 < capacity
      && Consistent()
      && earliestCursor == (if |log| <= capacity then 0 else |log| - capacity)
      && (truncated <==> |log| > capacity)
    }

    /** What also holds while `Trim` is at work. */
    ghost predicate Consistent()
      reads this
    {
      && Holds(chunks, earliestCursor, log)
      && nextCursor == |log|
      && retainedBytes == |log| - earliestCursor
    }

    constructor (capacity: nat)
      requires 0 < capacity
      ensures Valid() && log == [] && this.capacity == capacity
    {
      this.capacity := capacity;
      retainedBytes, earliestCursor, nextCursor, truncated := 0, 0, 0, false;
      chunks, log := [], [];
    }

    method Push(channel: Channel, data: seq<byte>) returns (cursor: nat)
      requires Valid()
      modifies this
      ensures Valid()
      ensures log == old(log) + Label(channel, data) && cursor == |old(log)|
    {
      cursor := nextCursor;
      nextCursor := nextCursor + |data|;
      if data == [] {
        assert log == log + Label(channel, data);
        return;
      }
      retainedBytes := retainedBytes + |data|;
      var c := Stored(cursor, channel, data, 0);
      HoldsAppend(chunks, earliestCursor, log, c);
      assert data[0..] == data;
      chunks := chunks + [c];
      log := log + Label(channel, data);
      Trim();
    }

    method Trim()
      requires 0 < capacity && Consistent()
      requires earliestCursor <= Max(|log|, capacity) - capacity
      requires truncated ==> |log| > capacity
      requires earliestCursor > 0 ==> truncated
      modifies `retainedBytes, `earliestCursor, `truncated, `chunks
      ensures Valid() && log == old(log)
    {
      while retainedBytes > capacity
        invariant Consistent() && log == old(log)
        invariant earliestCursor <= Max(|log|, capacity) - capacity
        invariant truncated ==> |log| > capacity
        invariant earliestCursor > 0 ==> truncated
        decreases retainedBytes
      {
        var excess := retainedBytes - capacity;
        var front := chunks[0];
        HoldsPop(chunks, earliestCursor, log);
        if excess >= front.Len() {
          chunks := chunks[1..];
          retainedBytes := retainedBytes - front.Len();
          earliestCursor := front.EndCursor();
        } else {
          HoldsCut(chunks, earliestCursor, log, excess);
          var kept := front.(start := front.start + excess, cursor := front.cursor + excess);
          chunks := [kept] + chunks[1..];
          retainedBytes := retainedBytes - excess;
          earliestCursor := kept.cursor;
        }
        truncated := true;
      }
    }

    /** Takes the slice without copying bytes; the errors name exactly the cursors not retained. */
    method TakeSnapshot(cursor: nat, maxBytes: nat) returns (r: Result<Snapshot, ReadError>)
      requires Valid()
      ensures cursor < |log| - capacity ==> r == Err(CursorExpired(cursor, |log| - capacity))
      ensures cursor > |log| ==> r == Err(CursorAhead(cursor, |log|))
      ensures |log| - capacity <= cursor <= |log| ==>
        && r.Ok?
        && Shows(r.value, log, cursor)
        && r.value.nextCursor == Min(cursor + maxBytes, |log|)
        && r.value.truncated == (|log| > capacity)
    {
      if cursor < earliestCursor {
        return Err(CursorExpired(cursor, earliestCursor));
      }
      if cursor > nextCursor {
        return Err(CursorAhead(cursor, nextCursor));
      }
      var s := Snapshot([], cursor, truncated);
      var i := 0;
      while i < |chunks| && s.nextCursor - cursor < maxBytes
        invariant 0 <= i <= |chunks|
        invariant Shows(s, log, cursor)
        invariant s.nextCursor
          == Min(cursor + maxBytes, Max(cursor, if i < |chunks| then chunks[i].cursor else |log|))
        invariant s.truncated == truncated
      {
        assert Linked(chunks, i, log);
        s := TakePiece(s, chunks[i], cursor, maxBytes - (s.nextCursor - cursor));
        i := i + 1;
      }
      r := Ok(s);
    }

    /** The body of the snapshot loop: at most `remaining` bytes of one chunk past the cursor. */
    method TakePiece(s: Snapshot, chunk: Stored, cursor: nat, remaining: nat) returns (t: Snapshot)
      requires Shows(s, log, cursor) && 0 < remaining
      requires chunk.Valid() && chunk.EndCursor() <= |log|
      requires chunk.Body() == log[chunk.cursor..chunk.EndCursor()]
      requires s.nextCursor == Max(cursor, chunk.cursor)
      ensures Shows(t, log, cursor) && t.truncated == s.truncated
      ensures t.nextCursor == Min(s.nextCursor + remaining, Max(cursor, chunk.EndCursor()))
    {
      if chunk.EndCursor() <= cursor {
        return s;
      }
      var offset := if cursor < chunk.cursor then 0 else cursor - chunk.cursor;
      var start := chunk.start + offset;
      var take := Min(remaining, |chunk.data| - start);
      Extend(s, log, cursor, chunk, offset, take);
      var piece := Shared(chunk.cursor + offset, chunk.channel, chunk.data, start, start + take);
      t := Snapshot(s.chunks + [piece], chunk.cursor + offset + take, s.truncated);
    }

    /** A piece of a chunk, labelled, is the slice of the log at its cursor. */
    static lemma PieceIsSlice(log: Log, chunk: Stored, offset: nat, take: nat)
      requires chunk.Valid() && chunk.EndCursor() <= |log| && offset + take <= chunk.Len()
      requires chunk.Body() == log[chunk.cursor..chunk.EndCursor()]
      ensures var start, next := chunk.start + offset, chunk.cursor + offset;
              Label(chunk.channel, chunk.data[start..start + take]) == log[next..next + take]
    {
      var start, next := chunk.start + offset, chunk.cursor + offset;
      var piece, slice := Label(chunk.channel, chunk.data[start..start + take]), log[next..next + take];
      forall k | 0 <= k < take ensures piece[k] == slice[k] {
        assert chunk.Body()[offset + k] == log[next + k];
      }
    }

    /** One more piece of a snapshot continues the slice it shows. */
    static lemma Extend(s: Snapshot, log: Log, cursor: nat, chunk: Stored, offset: nat, take: nat)
      requires Shows(s, log, cursor)
      requires chunk.Valid() && chunk.EndCursor() <= |log|
      requires chunk.Body() == log[chunk.cursor..chunk.EndCursor()]
      requires s.nextCursor == chunk.cursor + offset
      requires 0 < take && offset + take <= chunk.Len()
      ensures var start := chunk.start + offset;
              var piece := Shared(s.nextCursor, chunk.channel, chunk.data, start, start + take);
              Shows(Snapshot(s.chunks + [piece], s.nextCursor + take, s.truncated), log, cursor)
    {
      var start, next := chunk.start + offset, s.nextCursor;
      var piece := Shared(next, chunk.channel, chunk.data, start, start + take);
      var after := Snapshot(s.chunks + [piece], next + take, s.truncated);
      var c := Chunk(next, chunk.channel, chunk.data[start..start + take]);
      assert after.Materialize().chunks == s.Materialize().chunks + [c];
      FlattenAppend(s.Materialize().chunks, c, cursor, next);
      PieceIsSlice(log, chunk, offset, take);
      assert log[cursor..next] + log[next..next + take] == log[cursor..next + take];
    }

    method ReadAt(cursor: nat, maxBytes: nat) returns (r: Result<Read, ReadError>)
      requires Valid()
      ensures cursor < |log| - capacity ==> r == Err(CursorExpired(cursor, |log| - capacity))
      ensures cursor > |log| ==> r == Err(CursorAhead(cursor, |log|))
      ensures |log| - capacity <= cursor <= |log| ==>
        && r.Ok?
        && r.value.nextCursor == Min(cursor + maxBytes, |log|)
        && Abut(r.value.chunks, cursor, r.value.nextCursor)
        && Flatten(r.value.chunks) == log[cursor..r.value.nextCursor]
        && (r.value.chunks == [] <==> r.value.nextCursor == cursor)
        && r.value.truncated == (|log| > capacity)
    {
      var s := TakeSnapshot(cursor, maxBytes);
      match s
      case Err(e) => r := Err(e);
      case Ok(snapshot) =>
        r := Ok(snapshot.Materialize());
        AbutEmpty(r.value.chunks, cursor, r.value.nextCursor);
    }
  }
}
