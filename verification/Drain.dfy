/**
 The loop that copies a session's output to the terminal while the session keeps writing.

 Pushes by the session are interleaved by a schedule: `schedule[k]` is what the session pushed before
 the loop's k-th read. The schedule is arbitrary, so the contract covers every interleaving; it is
 finite, which is the case in which the loop has to end.
 */
module Drain {
  import opened Base
  import opened Output

  datatype Pushed = Pushed(channel: Channel, data: seq<byte>)

  /** Standard error carries the session's own bytes and the loop's warnings. */
  datatype StderrItem = Data(data: byte) | Dropped(earliest: nat)

  /** A range of the log the loop did not print. */
  datatype Gap = Gap(lo: nat, hi: nat)

  function PushedLog(pushes: seq<Pushed>): Log {
    if pushes == [] then [] else Label(pushes[0].channel, pushes[0].data) + PushedLog(pushes[1..])
  }

  function ScheduleLog(schedule: seq<seq<Pushed>>): Log {
    if schedule == [] then [] else PushedLog(schedule[0]) + ScheduleLog(schedule[1..])
  }

  /** What standard output receives of a slice of the log. */
  function StdoutOf(log: Log): seq<byte> {
    if log == [] then [] else
      (if log[0].channel == Stderr then [] else [log[0].data]) + StdoutOf(log[1..])
  }

  /** What standard error receives of a slice of the log. */
  function StderrOf(log: Log): seq<StderrItem> {
    if log == [] then [] else
      (if log[0].channel == Stderr then [Data(log[0].data)] else []) + StderrOf(log[1..])
  }

  /** Disjoint gaps in order, all inside [from, to]. */
  predicate Ordered(gaps: seq<Gap>, from: nat, to: nat) {
    if gaps == [] then from <= to else
      var g := gaps[|gaps| - 1];
      g.lo < g.hi <= to && Ordered(gaps[..|gaps| - 1], from, g.lo)
  }

  /** Standard output of the log from `from` to `to`, each byte once and in order, minus the gaps. */
  function Printed(log: Log, from: nat, to: nat, gaps: seq<Gap>): seq<byte>
    requires Ordered(gaps, from, to) && to <= |log|
    decreases |gaps|
  {
    if gaps == [] then StdoutOf(log[from..to]) else
      var g := gaps[|gaps| - 1];
      Printed(log, from, g.lo, gaps[..|gaps| - 1]) + StdoutOf(log[g.hi..to])
  }

  /** Standard error of the same range, with one warning standing where each gap was. */
  function Reported(log: Log, from: nat, to: nat, gaps: seq<Gap>): seq<StderrItem>
    requires Ordered(gaps, from, to) && to <= |log|
    decreases |gaps|
  {
    if gaps == [] then StderrOf(log[from..to]) else
      var g := gaps[|gaps| - 1];
      Reported(log, from, g.lo, gaps[..|gaps| - 1]) + [Dropped(g.hi)] + StderrOf(log[g.hi..to])
  }

  lemma Regroup<T>(a: seq<T>, b: seq<T>, c: seq<T>)
    ensures a + (b + c) == a + b + c
  {
  }

  lemma {:induction false} StdoutConcat(a: Log, b: Log)
    ensures StdoutOf(a + b) == StdoutOf(a) + StdoutOf(b)
  {
    if a == [] {
      assert a + b == b;
    } else {
      StdoutConcat(a[1..], b);
      assert (a + b)[1..] == a[1..] + b;
      var first := if a[0].channel == Stderr then [] else [a[0].data];
      Regroup(first, StdoutOf(a[1..]), StdoutOf(b));
    }
  }

  lemma {:induction false} StderrConcat(a: Log, b: Log)
    ensures StderrOf(a + b) == StderrOf(a) + StderrOf(b)
  {
    if a == [] {
      assert a + b == b;
    } else {
      StderrConcat(a[1..], b);
      assert (a + b)[1..] == a[1..] + b;
      var first := if a[0].channel == Stderr then [Data(a[0].data)] else [];
      Regroup(first, StderrOf(a[1..]), StderrOf(b));
    }
  }

  lemma {:induction false} OrderedBound(gaps: seq<Gap>, from: nat, to: nat)
    requires Ordered(gaps, from, to)
    ensures from <= to
  {
    if gaps != [] {
      OrderedBound(gaps[..|gaps| - 1], from, gaps[|gaps| - 1].lo);
    }
  }

  /** Printing [to, to') after [from, to) prints [from, to'). */
  lemma PrintMore(log: Log, from: nat, to: nat, to': nat, gaps: seq<Gap>)
    requires Ordered(gaps, from, to) && to <= to' <= |log|
    ensures Ordered(gaps, from, to')
    ensures Printed(log, from, to', gaps) == Printed(log, from, to, gaps) + StdoutOf(log[to..to'])
    ensures Reported(log, from, to', gaps) == Reported(log, from, to, gaps) + StderrOf(log[to..to'])
  {
    var at := if gaps == [] then from else gaps[|gaps| - 1].hi;
    assert log[at..to'] == log[at..to] + log[to..to'];
    StdoutConcat(log[at..to], log[to..to']);
    StderrConcat(log[at..to], log[to..to']);
  }

  /** Skipping to `hi` adds one gap and one warning and prints nothing. */
  lemma Skip(log: Log, from: nat, to: nat, hi: nat, gaps: seq<Gap>)
    requires Ordered(gaps, from, to) && to < hi <= |log|
    ensures Ordered(gaps + [Gap(to, hi)], from, hi)
    ensures Printed(log, from, hi, gaps + [Gap(to, hi)]) == Printed(log, from, to, gaps)
    ensures Reported(log, from, hi, gaps + [Gap(to, hi)])
         == Reported(log, from, to, gaps) + [Dropped(hi)]
  {
    var more := gaps + [Gap(to, hi)];
    assert more[..|more| - 1] == gaps;
    assert log[hi..hi] == [];
  }

  /** Later pushes do not change what was printed. */
  lemma {:induction false} PrintedStable(log: Log, more: Log, from: nat, to: nat, gaps: seq<Gap>)
    requires Ordered(gaps, from, to) && to <= |log|
    ensures Printed(log + more, from, to, gaps) == Printed(log, from, to, gaps)
    ensures Reported(log + more, from, to, gaps) == Reported(log, from, to, gaps)
    decreases |gaps|
  {
    if gaps == [] {
      assert (log + more)[from..to] == log[from..to];
    } else {
      var g := gaps[|gaps| - 1];
      assert (log + more)[g.hi..to] == log[g.hi..to];
      PrintedStable(log, more, from, g.lo, gaps[..|gaps| - 1]);
    }
  }

  lemma {:induction false} ScheduleSnoc(schedule: seq<seq<Pushed>>, k: nat)
    requires k < |schedule|
    ensures ScheduleLog(schedule[..k + 1]) == ScheduleLog(schedule[..k]) + PushedLog(schedule[k])
  {
    if k == 0 {
      assert schedule[..1][1..] == [] && schedule[..0] == [];
    } else {
      ScheduleSnoc(schedule[1..], k - 1);
      assert schedule[..k + 1][1..] == schedule[1..][..k];
      assert schedule[..k][1..] == schedule[1..][..k - 1];
    }
  }

  /** The session's side of the interleaving. */
  method PushAll(buffer: OutputBuffer, pushes: seq<Pushed>)
    requires buffer.Valid()
    modifies buffer
    ensures buffer.Valid() && buffer.log == old(buffer.log) + PushedLog(pushes)
  {
    var i := 0;
    assert pushes[0..] == pushes;
    while i < |pushes|
      invariant 0 <= i <= |pushes| && buffer.Valid()
      invariant buffer.log + PushedLog(pushes[i..]) == old(buffer.log) + PushedLog(pushes)
    {
      assert pushes[i..][1..] == pushes[i + 1..];
      var _ := buffer.Push(pushes[i].channel, pushes[i].data);
      i := i + 1;
    }
  }

  method PushTurn(buffer: OutputBuffer, schedule: seq<seq<Pushed>>, turn: nat, ghost origin: Log)
    requires buffer.Valid() && turn < |schedule|
    requires buffer.log == origin + ScheduleLog(schedule[..turn])
    modifies buffer
    ensures buffer.Valid() && buffer.log == old(buffer.log) + PushedLog(schedule[turn])
    ensures buffer.log == origin + ScheduleLog(schedule[..turn + 1])
  {
    ScheduleSnoc(schedule, turn);
    PushAll(buffer, schedule[turn]);
  }

  function AsStderr(data: seq<byte>): seq<StderrItem> {
    seq(|data|, k requires 0 <= k < |data| => Data(data[k]))
  }

  /** Splits the chunks of one read between the two streams, as the channel of each says. */
  method SplitChunks(chunks: seq<Chunk>) returns (out: seq<byte>, err: seq<StderrItem>)
    ensures out == StdoutOf(Flatten(chunks)) && err == StderrOf(Flatten(chunks))
  {
    out, err := [], [];
    for i := 0 to |chunks|
      invariant out == StdoutOf(Flatten(chunks[..i])) && err == StderrOf(Flatten(chunks[..i]))
    {
      OneMoreChunk(chunks, i);
      if chunks[i].channel == Stderr {
        err := err + AsStderr(chunks[i].data);
      } else {
        out := out + chunks[i].data;
      }
    }
    assert chunks[..|chunks|] == chunks;
  }

  lemma {:induction false} FlattenSnoc(chunks: seq<Chunk>, c: Chunk)
    ensures Flatten(chunks + [c]) == Flatten(chunks) + Label(c.channel, c.data)
  {
    if chunks == [] {
      assert [c][1..] == [];
    } else {
      FlattenSnoc(chunks[1..], c);
      assert (chunks + [c])[1..] == chunks[1..] + [c];
    }
  }

  lemma OneMoreChunk(chunks: seq<Chunk>, i: nat)
    requires i < |chunks|
    ensures StdoutOf(Flatten(chunks[..i + 1]))
         == StdoutOf(Flatten(chunks[..i])) + if chunks[i].channel == Stderr then [] else chunks[i].data
    ensures StderrOf(Flatten(chunks[..i + 1]))
         == StderrOf(Flatten(chunks[..i]))
            + if chunks[i].channel == Stderr then AsStderr(chunks[i].data) else []
  {
    var c := chunks[i];
    assert chunks[..i + 1] == chunks[..i] + [c];
    FlattenSnoc(chunks[..i], c);
    StdoutConcat(Flatten(chunks[..i]), Label(c.channel, c.data));
    StderrConcat(Flatten(chunks[..i]), Label(c.channel, c.data));
    OneChannel(c.channel, c.data);
  }

  lemma {:induction false} OneChannel(channel: Channel, data: seq<byte>)
    ensures StdoutOf(Label(channel, data)) == if channel == Stderr then [] else data
    ensures StderrOf(Label(channel, data)) == if channel == Stderr then AsStderr(data) else []
  {
    if data != [] {
      OneChannel(channel, data[1..]);
      assert Label(channel, data)[1..] == Label(channel, data[1..]);
    }
  }

  /**
   Drains to the end of the log. Every log byte from `start` on is printed exactly once and in
   order, except those of the reported gaps, and each gap had been evicted when it was reported.
   */
  method DrainInteractive(buffer: OutputBuffer, start: nat, maxBytes: nat, schedule: seq<seq<Pushed>>)
      returns (r: Result<nat, ReadError>, s: Screen, turns: nat)
    requires buffer.Valid() && 0 < maxBytes
    modifies buffer
    ensures buffer.Valid() && turns <= |schedule|
    ensures buffer.log == old(buffer.log) + ScheduleLog(schedule[..turns])
    ensures r == if start > |buffer.log| then Err(CursorAhead(start, |buffer.log|))
                 else Ok(|buffer.log|)
    ensures r.Ok? ==> Faithful(s, buffer.log, start, |buffer.log|, buffer.capacity)
    ensures r.Err? ==> s == Screen([], [], [])
  {
    var cursor: nat := start;
    s, turns := Screen([], [], []), 0;
    while true
      invariant buffer.Valid() && turns <= |schedule|
      invariant buffer.log == old(buffer.log) + ScheduleLog(schedule[..turns])
      invariant Tracks(s, buffer.log, start, cursor, buffer.capacity)
      decreases |schedule| - turns, Max(|buffer.log|, cursor) - cursor
    {
      if turns < |schedule| {
        TracksPush(s, buffer.log, start, cursor, buffer.capacity, PushedLog(schedule[turns]));
        PushTurn(buffer, schedule, turns, old(buffer.log));
        turns := turns + 1;
      }
      var step := DrainOnce(buffer, start, cursor, maxBytes, s);
      match step
      case Done(result) =>
        r := result;
        return;
      case More(t, next) =>
        s, cursor := t, next;
    }
  }

  datatype Step = Done(result: Result<nat, ReadError>) | More(screen: Screen, cursor: nat)

  /** One turn of the loop: end, print what was read, or warn about what was lost. */
  method DrainOnce(buffer: OutputBuffer, start: nat, cursor: nat, maxBytes: nat, s: Screen)
      returns (step: Step)
    requires buffer.Valid() && 0 < maxBytes
    requires Tracks(s, buffer.log, start, cursor, buffer.capacity)
    ensures cursor > |buffer.log| ==> step == Done(Err(CursorAhead(cursor, |buffer.log|)))
    ensures cursor == |buffer.log| ==> step == Done(Ok(cursor)) && start <= cursor
    ensures cursor < |buffer.log| ==>
      && step.More?
      && cursor < step.cursor <= |buffer.log|
      && Faithful(step.screen, buffer.log, start, step.cursor, buffer.capacity)
  {
    TracksBound(s, buffer.log, start, cursor, buffer.capacity);
    var read := buffer.ReadAt(cursor, maxBytes);
    match read
    case Err(CursorExpired(_, earliest)) =>
      Skip(buffer.log, start, cursor, earliest, s.gaps);
      step := More(Screen(s.out, s.err + [Dropped(earliest)], s.gaps + [Gap(cursor, earliest)]), earliest);
    case Err(CursorAhead(_, _)) =>
      step := Done(Err(read.error));
    case Ok(output) =>
      if output.chunks == [] {
        return Done(Ok(cursor));
      }
      PrintMore(buffer.log, start, cursor, output.nextCursor, s.gaps);
      var out, err := SplitChunks(output.chunks);
      step := More(Screen(s.out + out, s.err + err, s.gaps), output.nextCursor);
  }

  /** What the loop wrote so far, and the ranges it skipped. */
  datatype Screen = Screen(out: seq<byte>, err: seq<StderrItem>, gaps: seq<Gap>)

  /** The screen is the log from `start` to `cursor`, minus gaps that were all evicted. */
  ghost predicate Faithful(s: Screen, log: Log, start: nat, cursor: nat, capacity: nat)
    requires cursor <= |log|
  {
    && Ordered(s.gaps, start, cursor)
    && s.out == Printed(log, start, cursor, s.gaps)
    && s.err == Reported(log, start, cursor, s.gaps)
    && forall g :: g in s.gaps ==> g.hi + capacity <= |log|
  }

  /** A cursor still ahead of the log is the one the loop began with. */
  ghost predicate Tracks(s: Screen, log: Log, start: nat, cursor: nat, capacity: nat) {
    if cursor > |log| then cursor == start && s == Screen([], [], [])
    else Faithful(s, log, start, cursor, capacity)
  }

  lemma TracksBound(s: Screen, log: Log, start: nat, cursor: nat, capacity: nat)
    requires Tracks(s, log, start, cursor, capacity)
    ensures start <= cursor
  {
    if cursor <= |log| {
      OrderedBound(s.gaps, start, cursor);
    }
  }

  lemma TracksPush(s: Screen, log: Log, start: nat, cursor: nat, capacity: nat, more: Log)
    requires Tracks(s, log, start, cursor, capacity)
    ensures Tracks(s, log + more, start, cursor, capacity)
  {
    if cursor <= |log| {
      PrintedStable(log, more, start, cursor, s.gaps);
    } else if cursor <= |log + more| {
      assert (log + more)[start..cursor] == [];
    }
  }
}
