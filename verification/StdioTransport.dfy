/**
 The bounded stdio line framer. Whatever the chunks and however output blocks
 and drains, the lines reported are the LF-split of the bytes received.
 */
module Stdio {
  import opened Common

  const LF: Byte := 10
  const INITIAL_BUFFER_BYTES := 65536

  // ---------- The split ----------

  datatype Framed = Framed(lines: seq<seq<Byte>>, rest: seq<Byte>)

  /** The lines a stream completes and the bytes after the last LF. */
  function Split(stream: seq<Byte>): Framed {
    if stream == [] then Framed([], []) else
    var f, b := Split(stream[..|stream| - 1]), stream[|stream| - 1];
    if b == LF then Framed(f.lines + [f.rest], []) else Framed(f.lines, f.rest + [b])
  }

  /** Every line followed by a line feed. */
  function Join(lines: seq<seq<Byte>>): seq<Byte> {
    if lines == [] then [] else Join(lines[..|lines| - 1]) + lines[|lines| - 1] + [10]
  }

  lemma JoinOneMore(lines: seq<seq<Byte>>, line: seq<Byte>)
    ensures Join(lines + [line]) == Join(lines) + line + [LF]
  {
    assert (lines + [line])[..|lines|] == lines;
  }

  /** Splitting loses, repeats and moves no byte, and no line holds an LF. */
  lemma {:induction false} JoinUndoesSplit(stream: seq<Byte>)
    ensures Join(Split(stream).lines) + Split(stream).rest == stream
    ensures 10 !in Split(stream).rest && forall l :: l in Split(stream).lines ==> 10 !in l
  {
    if stream != [] {
      var front, b := stream[..|stream| - 1], stream[|stream| - 1];
      JoinUndoesSplit(front);
      assert stream == front + [b];
      var f := Split(front);
      if b == LF {
        JoinOneMore(f.lines, f.rest);
        assert Split(stream) == Framed(f.lines + [f.rest], []);
      } else {
        assert Split(stream) == Framed(f.lines, f.rest + [b]);
        assert Join(f.lines) + (f.rest + [b]) == Join(f.lines) + f.rest + [b];
      }
      hide Join, Split;
    }
  }

  /** Splitting is the only way to cut a stream into lines without LF. */
  lemma {:induction false} SplitUndoesJoin(lines: seq<seq<Byte>>, rest: seq<Byte>)
    requires 10 !in rest && forall l :: l in lines ==> 10 !in l
    ensures Split(Join(lines) + rest) == Framed(lines, rest)
    decreases |lines|, |rest|
  {
    var stream := Join(lines) + rest;
    if rest != [] {
      var n := |rest| - 1;
      assert stream[..|stream| - 1] == Join(lines) + rest[..n];
      SplitUndoesJoin(lines, rest[..n]);
    } else if lines != [] {
      var n := |lines| - 1;
      assert lines[n] in lines;
      assert stream[..|stream| - 1] == Join(lines[..n]) + lines[n];
      SplitUndoesJoin(lines[..n], lines[n]);
      assert lines == lines[..n] + [lines[n]];
    } else {
      assert stream == [];
    }
  }

  /** Bytes without LF lengthen the line at hand. */
  lemma {:induction false} SplitExtends(stream: seq<Byte>, more: seq<Byte>)
    requires LF !in more
    ensures Split(stream + more) == Framed(Split(stream).lines, Split(stream).rest + more)
  {
    if more == [] {
      assert stream + more == stream;
      assert Split(stream).rest + more == Split(stream).rest;
    } else {
      var n := |more| - 1;
      assert (stream + more)[..|stream| + n] == stream + more[..n];
      SplitExtends(stream, more[..n]);
      assert Split(stream).rest + more == Split(stream).rest + more[..n] + [more[n]];
    }
  }

  lemma SplitEnds(stream: seq<Byte>)
    ensures Split(stream + [LF]) == Framed(Split(stream).lines + [Split(stream).rest], [])
  {
    assert (stream + [LF])[..|stream|] == stream;
  }

  // ---------- What is reported ----------

  datatype Report = Line(content: seq<Byte>) | TooLarge(bytes: nat) | Truncated(bytes: nat)

  function ReportOf(line: seq<Byte>, limit: nat): Report {
    if |line| > limit then TooLarge(|line|) else Line(line)
  }

  function Reports(lines: seq<seq<Byte>>, limit: nat): seq<Report> {
    seq(|lines|, i requires 0 <= i < |lines| => ReportOf(lines[i], limit))
  }

  /** What is left when the stream ends is one rejection. */
  function Tail(rest: seq<Byte>, limit: nat): seq<Report> {
    if rest == [] then [] else if |rest| > limit then [TooLarge(|rest|)] else [Truncated(|rest|)]
  }

  lemma ReportsGrow(lines: seq<seq<Byte>>, line: seq<Byte>, limit: nat)
    ensures Reports(lines + [line], limit) == Reports(lines, limit) + [ReportOf(line, limit)]
  {}

  lemma LineEnds(stream: seq<Byte>, limit: nat)
    ensures Split(stream + [LF]).rest == []
    ensures Reports(Split(stream + [LF]).lines, limit) ==
        Reports(Split(stream).lines, limit) + [ReportOf(Split(stream).rest, limit)]
  {
    SplitEnds(stream);
    ReportsGrow(Split(stream).lines, Split(stream).rest, limit);
    hide Split, Reports;
  }

  // ---------- The transport ----------

  /** What reporting a line brings about: nothing yet, or an answer of so many bytes on top of those queued, which
      may fill the output. */
  datatype Reaction = Silent | Answer(bytes: nat, queued: nat, full: bool)

  class BoundedStdioTransport {
    const limitBytes: nat
    const outputLimitBytes: nat
    var buffer: array?<Byte>
    var lineBytes: nat
    var pendingChunk: Option<seq<Byte>>
    var outputBlocked: bool
    var inputEnded: bool
    var closed: bool
    var reports: seq<Report>
    /** The bytes handled, those received, and whether the end of the input was handled. */
    ghost var consumed: seq<Byte>
    ghost var received: seq<Byte>
    ghost var finished: bool

    ghost function Rest(): seq<Byte>
      reads this
    {
      if finished then [] else Split(consumed).rest
    }

    /** The buffer holds the line at hand, unless it is over the limit and only counted. */
    ghost predicate Holds()
      reads this, buffer
    {
      && lineBytes == |Rest()|
      && (0 < lineBytes <= limitBytes ==> buffer != null && lineBytes <= buffer.Length && buffer[..lineBytes] == Rest())
    }

    /** Everything reported is the split of the bytes handled. */
    ghost predicate Framing()
      reads this, buffer
    {
      && limitBytes >= 1 && (!closed ==> Holds()) && (finished ==> inputEnded)
      && reports == Reports(Split(consumed).lines, limitBytes)
          + (if finished then Tail(Split(consumed).rest, limitBytes) else [])
    }

    /** Between events every byte received was handled, but for a chunk put off while output is blocked. */
    ghost predicate Valid()
      reads this, buffer
    {
      && Framing()
      && (closed ==> consumed <= received && pendingChunk.None?)
      && (!closed ==> received == consumed + (if pendingChunk.Some? then pendingChunk.value else []))
      && (pendingChunk.Some? ==> outputBlocked && !finished)
      && (finished ==> consumed == received)
    }

    constructor (limit: nat, outputLimit: nat)
      requires limit >= 1
      ensures Valid() && limitBytes == limit && outputLimitBytes == outputLimit && received == [] && !closed
          && !inputEnded && pendingChunk.None? && buffer == null
    {
      limitBytes, outputLimitBytes := limit, outputLimit;
      buffer, lineBytes, pendingChunk := null, 0, None;
      outputBlocked, inputEnded, closed, reports := false, false, false, [];
      consumed, received, finished := [], [], false;
    }

    static method IndexOfLF(chunk: seq<Byte>, offset: nat) returns (newline: Option<nat>)
      requires offset <= |chunk|
      ensures newline.Some? ==>
                && offset <= newline.value < |chunk| && chunk[newline.value] == LF
                && LF !in chunk[offset..newline.value]
      ensures newline.None? ==> LF !in chunk[offset..]
    {
      for i := offset to |chunk|
        invariant LF !in chunk[offset..i]
      {
        if chunk[i] == LF {
          return Some(i);
        }
        assert chunk[offset..i + 1] == chunk[offset..i] + [chunk[i]];
      }
      assert chunk[offset..|chunk|] == chunk[offset..];
      newline := None;
    }

    /** Makes room for `size` bytes in all, keeping the first `used`. */
    method Grow(used: nat, size: nat)
      requires used < size <= limitBytes && (used > 0 ==> buffer != null && used <= buffer.Length)
      modifies this`buffer
      ensures buffer != null && buffer.Length >= size && (used > 0 ==> buffer[..used] == old(buffer[..used]))
      ensures buffer == old(buffer) || fresh(buffer)
    {
      if buffer != null && buffer.Length >= size {
        return;
      }
      var capacity := Min(limitBytes, Max(INITIAL_BUFFER_BYTES,
          Max(size, if buffer == null then 0 else buffer.Length * 2)));
      var grown := new Byte[capacity];
      if used > 0 {
        for i := 0 to used
          invariant grown[..i] == buffer[..i]
          modifies grown
        {
          grown[i] := buffer[i];
        }
      }
      buffer := grown;
    }

    method CopyInto(target: array<Byte>, at: nat, piece: seq<Byte>)
      requires at + |piece| <= target.Length
      modifies target
      ensures target[..at + |piece|] == old(target[..at]) + piece
    {
      for i := 0 to |piece|
        invariant target[..at + i] == old(target[..at]) + piece[..i]
      {
        target[at + i] := piece[i];
        assert piece[..i + 1] == piece[..i] + [piece[i]];
      }
      assert piece[..|piece|] == piece;
    }

    /** Puts bytes after those the buffer holds; `newline` when an LF follows them. */
    method Store(piece: seq<Byte>, newline: bool, previousBytes: nat)
      requires lineBytes == previousBytes + |piece|
      requires 0 < previousBytes <= limitBytes ==> buffer != null && previousBytes <= buffer.Length
      modifies this`buffer, buffer
      ensures buffer == old(buffer) || buffer == null || fresh(buffer)
      ensures 0 < lineBytes <= limitBytes ==> buffer != null && lineBytes <= buffer.Length
      ensures 0 < lineBytes <= limitBytes ==>
          buffer[..lineBytes] == (if previousBytes > 0 then old(buffer[..previousBytes]) else []) + piece
    {
      if lineBytes > limitBytes {
        buffer := null;
      } else if previousBytes == 0 && newline {
        buffer := new Byte[|piece|](i requires 0 <= i < |piece| => piece[i]);
      } else if piece != [] {
        Grow(previousBytes, lineBytes);
        CopyInto(buffer, previousBytes, piece);
      }
    }

    /** Adds bytes to the line at hand. */
    method Append(piece: seq<Byte>, newline: bool)
      requires Framing() && !closed && !finished && LF !in piece && (piece != [] || newline)
      modifies this`buffer, this`lineBytes, this`consumed, buffer
      ensures buffer == old(buffer) || buffer == null || fresh(buffer)
      ensures consumed == old(consumed) + piece && Framing()
    {
      ghost var rest := Rest();
      SplitExtends(consumed, piece);
      assert Split(consumed + piece).lines == Split(consumed).lines && Split(consumed + piece).rest == rest + piece;
      hide Split, Reports;
      var previousBytes := lineBytes;
      lineBytes := lineBytes + |piece|;
      Store(piece, newline, previousBytes);
      assert previousBytes == 0 ==> rest == [] && rest + piece == [] + piece;
      consumed := consumed + piece;
    }

    method Close()
      modifies this`closed, this`buffer, this`pendingChunk, this`lineBytes
      ensures closed && buffer == null && pendingChunk.None?
    {
      closed := true;
      buffer, pendingChunk, lineBytes := null, None, 0;
    }

    /** writeMessage: output beyond its capacity closes the transport, and a full one holds up the input. */
    method WriteMessage(bytes: nat, queued: nat, full: bool)
      modifies this`closed, this`buffer, this`pendingChunk, this`lineBytes, this`outputBlocked
      ensures closed <==> old(closed) || queued + bytes > outputLimitBytes
      ensures closed == old(closed) ==>
                buffer == old(buffer) && pendingChunk == old(pendingChunk) && lineBytes == old(lineBytes)
      ensures closed != old(closed) ==> buffer == null && pendingChunk.None?
      ensures outputBlocked == (old(outputBlocked) || (!closed && full))
    {
      if closed {
        return;
      }
      if queued + bytes > outputLimitBytes {
        Close();
      } else if full {
        outputBlocked := true;
      }
    }

    method React(reaction: Reaction)
      modifies this`closed, this`buffer, this`pendingChunk, this`lineBytes, this`outputBlocked
      ensures closed <==> old(closed) || (reaction.Answer? && reaction.queued + reaction.bytes > outputLimitBytes)
      ensures closed == old(closed) ==>
                buffer == old(buffer) && pendingChunk == old(pendingChunk) && lineBytes == old(lineBytes)
      ensures closed != old(closed) ==> buffer == null && pendingChunk.None?
      ensures outputBlocked == (old(outputBlocked) || (!closed && reaction.Answer? && reaction.full))
    {
      if reaction.Answer? {
        WriteMessage(reaction.bytes, reaction.queued, reaction.full);
      }
    }

    method FinishLine(reaction: Reaction)
      requires Framing() && !closed && !finished && pendingChunk.None?
      modifies this
      ensures Framing() && consumed == old(consumed) + [LF] && !finished && pendingChunk.None?
      ensures received == old(received) && inputEnded == old(inputEnded)
      ensures closed ==> buffer == null
      ensures buffer == null
    {
      hide Split, Reports;
      ghost var rest := Split(consumed).rest;
      LineEnds(consumed, limitBytes);
      var bytes := lineBytes;
      var line := if 0 < bytes <= limitBytes then buffer[..bytes] else [];
      assert bytes == |rest| && (bytes <= limitBytes ==> line == rest);
      lineBytes, buffer := 0, null;
      consumed := consumed + [LF];
      reports := reports + [if bytes > limitBytes then TooLarge(bytes) else Line(line)];
      assert Framing();
      React(reaction);
    }

    /** onData after the bytes have been received: `react` gives what each report brings about. */
    method Consume(chunk: seq<Byte>, react: nat -> Reaction)
      requires Framing() && !closed && !finished && pendingChunk.None? && received == consumed + chunk
      modifies this, buffer
      ensures Valid() && received == old(received) && inputEnded == old(inputEnded) && !finished
      ensures buffer == old(buffer) || buffer == null || fresh(buffer)
    {
      hide Split, Reports;
      var offset := 0;
      while offset < |chunk| && !closed
        invariant offset <= |chunk| + 1 && Framing() && !finished && pendingChunk.None?
        invariant received == old(received) && inputEnded == old(inputEnded)
        invariant received == consumed + chunk[Min(offset, |chunk|)..]
        invariant buffer == old(buffer) || buffer == null || fresh(buffer)
        decreases |chunk| + 1 - offset
      {
        if outputBlocked {
          pendingChunk := Some(chunk[offset..]);
          return;
        }
        var newline := IndexOfLF(chunk, offset);
        var end := if newline.Some? then newline.value else |chunk|;
        assert LF !in chunk[offset..end] by { assert chunk[offset..|chunk|] == chunk[offset..]; }
        CutsChunk(consumed, chunk, offset, end);
        Append(chunk[offset..end], newline.Some?);
        offset := end + 1;
        if newline.Some? {
          FinishLine(react(|reports|));
        } else {
          assert chunk[end..] == [];
        }
      }
    }

    /** The input delivers a chunk, which it does only while it is not paused. */
    method OnData(chunk: seq<Byte>, react: nat -> Reaction)
      requires Valid() && !closed && !inputEnded && pendingChunk.None?
      modifies this, buffer
      ensures Valid() && received == old(received) + chunk && !inputEnded
      ensures buffer == old(buffer) || buffer == null || fresh(buffer)
    {
      received := received + chunk;
      assert received == consumed + chunk;
      Consume(chunk, react);
    }

    /** A line cut off by the end is one rejection; with no line at hand the transport closes at once. */
    method OnEnd(reaction: Reaction)
      requires Valid()
      modifies this
      ensures Valid() && received == old(received)
      ensures !old(closed) ==> inputEnded
      ensures !old(closed) && old(pendingChunk).None? ==>
          finished && consumed == received && (old(lineBytes) == 0 ==> closed)
      ensures old(closed) || old(pendingChunk).Some? ==> consumed == old(consumed) && finished == old(finished)
      ensures buffer == old(buffer) || buffer == null
    {
      hide Split, Reports;
      if closed {
        return;
      }
      inputEnded := true;
      if pendingChunk.Some? {
        return;
      }
      var bytes := lineBytes;
      ghost var rest := Split(consumed).rest;
      assert bytes == |Rest()| && (finished ==> bytes == 0) && (!finished ==> Rest() == rest);
      lineBytes, buffer := 0, null;
      if bytes > 0 {
        assert !finished && rest != [];
        var rejection := if bytes > limitBytes then TooLarge(bytes) else Truncated(bytes);
        assert Tail(rest, limitBytes) == [rejection];
        reports := reports + [rejection];
        finished := true;
        assert Framing();
        React(reaction);
      } else {
        assert !finished ==> Tail(rest, limitBytes) == [];
        finished := true;
        Close();
      }
    }

    /** The output took what was waiting: the chunk put off is handled, then a waiting end. */
    method OnDrain(react: nat -> Reaction)
      requires Valid()
      modifies this, buffer
      ensures Valid() && received == old(received)
      ensures inputEnded == old(inputEnded) && (buffer == old(buffer) || buffer == null || fresh(buffer))
      ensures !closed && pendingChunk.None? ==> consumed == received
      ensures !old(closed) && inputEnded && pendingChunk.None? && !closed ==> finished
      ensures finished ==> consumed == received
    {
      hide Split, Reports;
      outputBlocked := false;
      var chunk := pendingChunk;
      pendingChunk := None;
      if chunk.Some? && !closed {
        Consume(chunk.value, react);
      }
      if inputEnded && pendingChunk.None? && !closed {
        OnEnd(react(|reports|));
      }
    }

    method Send(bytes: nat, queued: nat, full: bool)
      requires Valid()
      modifies this
      ensures Valid() && received == old(received) && reports == old(reports) && consumed == old(consumed)
      ensures inputEnded == old(inputEnded) && (buffer == old(buffer) || buffer == null)
      ensures closed <==> old(closed) || queued + bytes > outputLimitBytes
    {
      hide Split, Reports;
      WriteMessage(bytes, queued, full);
    }
  }

  lemma CutsChunk(consumed: seq<Byte>, chunk: seq<Byte>, offset: nat, end: nat)
    requires offset <= end <= |chunk|
    ensures consumed + chunk[offset..] == consumed + chunk[offset..end] + chunk[end..]
    ensures end < |chunk| && chunk[end] == LF ==>
        consumed + chunk[offset..] == consumed + chunk[offset..end] + [LF] + chunk[end + 1..]
  {
    if end < |chunk| && chunk[end] == LF {
      assert chunk[end..] == [LF] + chunk[end + 1..];
    }
  }

  /** At the end of its input, or with nothing put off, a transport that its output has not closed has handled every
      byte. */
  ghost predicate Caught(t: BoundedStdioTransport)
    reads t
  {
    t.finished || (!t.closed && t.pendingChunk.None?)
  }

  /** Two transports given the same bytes, in whatever chunks and with whatever waits, have reported the same. */
  lemma {:induction false} ChunkingDoesNotMatter(a: BoundedStdioTransport, b: BoundedStdioTransport)
    requires a.Valid() && b.Valid() && a.limitBytes == b.limitBytes && a.received == b.received
    requires Caught(a) && Caught(b) && a.finished == b.finished
    ensures a.reports == b.reports
    ensures a.reports == Reports(Split(a.received).lines, a.limitBytes) + if a.finished
        then Tail(Split(a.received).rest, a.limitBytes) else []
  {
    assert a.consumed == a.received && b.consumed == b.received;
  }

  /** Whatever happened, what was reported is the beginning of that. */
  lemma {:induction false} ReportsArePrefix(t: BoundedStdioTransport)
    requires t.Valid()
    ensures t.reports <= Reports(Split(t.received).lines, t.limitBytes) + Tail(Split(t.received).rest, t.limitBytes)
  {
    if !t.finished {
      assert t.consumed <= t.received;
      var more := t.received[|t.consumed|..];
      assert t.received == t.consumed + more;
      LinesGrow(t.consumed, more);
      ReportsPrefix(Split(t.consumed).lines, Split(t.received).lines, t.limitBytes);
    }
  }

  lemma {:induction false} LinesGrow(stream: seq<Byte>, more: seq<Byte>)
    ensures Split(stream).lines <= Split(stream + more).lines
    decreases |more|
  {
    if more == [] {
      assert stream + more == stream;
    } else {
      assert stream + more == (stream + [more[0]]) + more[1..];
      LinesGrow(stream + [more[0]], more[1..]);
      if more[0] == LF {
        SplitEnds(stream);
      } else {
        SplitExtends(stream, [more[0]]);
      }
    }
  }

  lemma {:induction false} ReportsPrefix(lines: seq<seq<Byte>>, more: seq<seq<Byte>>, limit: nat)
    requires lines <= more
    ensures Reports(lines, limit) <= Reports(more, limit)
    decreases |more|
  {
    if lines == more {
    } else {
      var n := |more| - 1;
      ReportsPrefix(lines, more[..n], limit);
      ReportsGrow(more[..n], more[n], limit);
      assert more == more[..n] + [more[n]];
    }
  }

  // ---------- Runs ----------

  /** What the streams and the consumers bring; each line reported may be answered. */
  datatype Event =
    | Data(chunk: seq<Byte>, react: nat -> Reaction)
    | End(reaction: Reaction)
    | Drain(react: nat -> Reaction)
    | Message(bytes: nat, queued: nat, full: bool)

  /** The chunks among the events that the input delivered, in order. */
  function Delivered(events: seq<Event>, taken: seq<bool>): seq<Byte>
    requires |taken| == |events|
  {
    if events == [] then [] else
    var n := |events| - 1;
    Delivered(events[..n], taken[..n]) + if taken[n] && events[n].Data? then events[n].chunk else []
  }

  /** Everything the bytes call for when they are all there is. */
  function AllReports(stream: seq<Byte>, limit: nat): seq<Report> {
    Reports(Split(stream).lines, limit) + Tail(Split(stream).rest, limit)
  }

  method Step(t: BoundedStdioTransport, e: Event) returns (taken: bool)
    requires t.Valid()
    modifies t, t.buffer
    ensures t.Valid() && t.received == old(t.received) + if taken && e.Data? then e.chunk else []
    ensures t.buffer == old(t.buffer) || t.buffer == null || fresh(t.buffer)
    ensures e.Data? ==> (taken <==> !old(t.closed) && !old(t.inputEnded) && old(t.pendingChunk).None?)
  {
    hide Split, Reports;
    taken := true;
    match e
    case Data(chunk, react) =>
      taken := !t.closed && !t.inputEnded && t.pendingChunk.None?;
      if taken {
        t.OnData(chunk, react);
      }
    case End(reaction) => t.OnEnd(reaction);
    case Drain(react) => t.OnDrain(react);
    case Message(bytes, queued, full) => t.Send(bytes, queued, full);
  }

  lemma DeliveredOneMore(events: seq<Event>, taken: seq<bool>, i: nat, more: bool)
    requires i < |events| && |taken| == i
    ensures Delivered(events[..i + 1], taken + [more]) ==
            Delivered(events[..i], taken) + if more && events[i].Data? then events[i].chunk else []
  {
    assert events[..i + 1][..i] == events[..i] && (taken + [more])[..i] == taken;
  }

  /**
   Any run from a new transport. A chunk is delivered only while the input is open and not paused; `taken` says which
   were. Whatever the cuts, answers, waits and drains, what was reported is the beginning of what the delivered bytes
   call for: all of it once the end was handled, and all complete lines whenever nothing is put off.
   */
  method Run(limit: nat, outputLimit: nat, events: seq<Event>) returns (t: BoundedStdioTransport, taken: seq<bool>)
    requires limit >= 1
    ensures t.Valid() && t.limitBytes == limit && |taken| == |events|
    ensures var stream := Delivered(events, taken);
            && t.received == stream && t.reports <= AllReports(stream, limit)
            && (t.finished ==> t.reports == AllReports(stream, limit))
            && (!t.finished && !t.closed && t.pendingChunk.None? ==> t.reports == Reports(Split(stream).lines, limit))
  {
    hide Split, Reports, Tail;
    t := new BoundedStdioTransport(limit, outputLimit);
    taken := [];
    for i := 0 to |events|
      invariant fresh(t) && (t.buffer == null || fresh(t.buffer)) && t.Valid() && t.limitBytes == limit
      invariant |taken| == i && t.received == Delivered(events[..i], taken)
    {
      var more := Step(t, events[i]);
      DeliveredOneMore(events, taken, i, more);
      taken := taken + [more];
    }
    assert events[..|events|] == events;
    ReportsArePrefix(t);
    if !t.finished && !t.closed && t.pendingChunk.None? {
      assert t.consumed + [] == t.consumed;
      assert Reports(Split(t.consumed).lines, limit) + [] == Reports(Split(t.consumed).lines, limit);
    }
  }
}
