/** The combined capture of a child's output streams, merged one whole line at a time. */
module LineCapture {
  import opened Options

  newtype byte = x: int | 0 <= x < 256

  type Bytes = seq<byte>

  const NEWLINE: byte := 10

  // ----------------------------------------------------- lines of a byte string

  /** The complete lines of s, newline included, read byte by byte. */
  function Lines(s: Bytes): seq<Bytes> {
    if |s| == 0 then []
    else
      var n := |s| - 1;
      if s[n] == NEWLINE then Lines(s[..n]) + [Tail(s[..n]) + [NEWLINE]] else Lines(s[..n])
  }

  /** What follows the last newline of s. */
  function Tail(s: Bytes): Bytes {
    if |s| == 0 then []
    else
      var n := |s| - 1;
      if s[n] == NEWLINE then [] else Tail(s[..n]) + [s[n]]
  }

  function Join(parts: seq<Bytes>): Bytes {
    if |parts| == 0 then [] else Join(parts[..|parts| - 1]) + parts[|parts| - 1]
  }

  predicate NoNewline(s: Bytes) { NEWLINE !in s }

  lemma JoinSnoc(parts: seq<Bytes>, p: Bytes)
    ensures Join(parts + [p]) == Join(parts) + p
  {
    assert (parts + [p])[..|parts|] == parts;
  }

  lemma JoinUpTo(parts: seq<Bytes>, i: nat)
    requires i < |parts|
    ensures Join(parts[..i + 1]) == Join(parts[..i]) + parts[i]
  {
    assert parts[..i + 1] == parts[..i] + [parts[i]];
    JoinSnoc(parts[..i], parts[i]);
  }

  lemma {:induction false} NoLines(s: Bytes)
    requires NoNewline(s)
    ensures Lines(s) == [] && Tail(s) == s
  {
    if |s| > 0 {
      NoLines(s[..|s| - 1]);
    }
  }

  lemma {:induction false} TailHasNone(s: Bytes)
    ensures NoNewline(Tail(s))
  {
    if |s| > 0 {
      TailHasNone(s[..|s| - 1]);
    }
  }

  /** Splitting loses nothing: lines and tail put together are the bytes themselves. */
  lemma {:induction false} LinesCover(s: Bytes)
    ensures Join(Lines(s)) + Tail(s) == s
  {
    if |s| > 0 {
      var n := |s| - 1;
      LinesCover(s[..n]);
      if s[n] == NEWLINE {
        JoinSnoc(Lines(s[..n]), Tail(s[..n]) + [NEWLINE]);
      }
    }
  }

  /** The lines of a stream do not depend on how it was cut: more bytes extend the lines by those
      that the held-back tail and the new bytes complete. */
  lemma {:induction false} LinesExtend(a: Bytes, b: Bytes)
    ensures Lines(a + b) == Lines(a) + Lines(Tail(a) + b)
    ensures Tail(a + b) == Tail(Tail(a) + b)
    decreases |b|
  {
    if |b| == 0 {
      assert a + b == a && Tail(a) + b == Tail(a);
      TailHasNone(a);
      NoLines(Tail(a));
    } else {
      var n := |b| - 1;
      LinesExtend(a, b[..n]);
      assert (a + b)[..|a| + n] == a + b[..n];
      assert (Tail(a) + b)[..|Tail(a)| + n] == Tail(a) + b[..n];
    }
  }

  lemma OneLine(p: Bytes)
    requires NoNewline(p)
    ensures Lines(p + [NEWLINE]) == [p + [NEWLINE]] && Tail(p + [NEWLINE]) == []
  {
    NoLines(p);
    assert (p + [NEWLINE])[..|p|] == p;
  }

  lemma LineThen(p: Bytes, rest: Bytes)
    requires NoNewline(p)
    ensures Lines(p + [NEWLINE] + rest) == [p + [NEWLINE]] + Lines(rest)
    ensures Tail(p + [NEWLINE] + rest) == Tail(rest)
  {
    OneLine(p);
    LinesExtend(p + [NEWLINE], rest);
    assert [] + rest == rest;
  }

  lemma CutAt(s: Bytes, nl: int)
    requires 0 <= nl < |s| && s[nl] == NEWLINE
    ensures s[..nl] + [NEWLINE] == s[..nl + 1] && s[..nl] + [NEWLINE] + s[nl + 1..] == s
  {
  }

  /** The first newline cuts off the first line. */
  lemma FirstLineOf(s: Bytes, nl: int)
    requires 0 <= nl < |s| && s[nl] == NEWLINE && NoNewline(s[..nl])
    ensures Lines(s) == [s[..nl + 1]] + Lines(s[nl + 1..]) && Tail(s) == Tail(s[nl + 1..])
  {
    LineThen(s[..nl], s[nl + 1..]);
    CutAt(s, nl);
  }

  /** The index of the first newline, or -1. */
  function IndexNewline(s: Bytes): (i: int)
    ensures -1 <= i < |s|
    ensures i < 0 ==> NoNewline(s)
    ensures i >= 0 ==> s[i] == NEWLINE && NoNewline(s[..i])
  {
    if |s| == 0 then -1
    else
      var i := IndexNewline(s[..|s| - 1]);
      if i >= 0 then assert s[..|s| - 1][..i] == s[..i]; i
      else if s[|s| - 1] == NEWLINE then |s| - 1
      else assert s == s[..|s| - 1] + [s[|s| - 1]]; -1
  }

  /** `emitted` are the first lines of `all`, and `rest` is what is still to be split. */
  ghost predicate Cut(all: Bytes, emitted: seq<Bytes>, rest: Bytes) {
    Lines(all) == emitted + Lines(rest) && Tail(all) == Tail(rest)
  }

  lemma CutStart(all: Bytes)
    ensures Cut(all, [], all)
  {
    assert [] + Lines(all) == Lines(all);
  }

  lemma CutStep(all: Bytes, emitted: seq<Bytes>, rest: Bytes, nl: int)
    requires Cut(all, emitted, rest) && 0 <= nl < |rest| && rest[nl] == NEWLINE && NoNewline(rest[..nl])
    ensures Cut(all, emitted + [rest[..nl + 1]], rest[nl + 1..])
    ensures Join(emitted + [rest[..nl + 1]]) == Join(emitted) + rest[..nl + 1]
  {
    var line, rest' := rest[..nl + 1], rest[nl + 1..];
    FirstLineOf(rest, nl);
    JoinSnoc(emitted, line);
    assert emitted + ([line] + Lines(rest')) == emitted + [line] + Lines(rest');
  }

  lemma CutEnd(all: Bytes, emitted: seq<Bytes>, rest: Bytes)
    requires Cut(all, emitted, rest) && NoNewline(rest)
    ensures Lines(all) == emitted && Tail(all) == rest
  {
    NoLines(rest);
    assert emitted + [] == emitted;
  }

  // ------------------------------------------------------------- the writers

  class CombinedLineCapture {
    var buf: Bytes
    var streams: seq<StreamLineWriter>

    ghost predicate Valid()
      reads this
    {
      && (forall i :: 0 <= i < |streams| ==> streams[i].sink == this)
      && (forall i, j :: 0 <= i < j < |streams| ==> streams[i] != streams[j])
    }

    constructor ()
      ensures Valid() && buf == [] && streams == []
    {
      buf, streams := [], [];
    }

    /** A writer of its own for each of the child's streams. */
    method Stream() returns (w: StreamLineWriter)
      requires Valid()
      modifies this`streams
      ensures Valid() && fresh(w) && w.pending == [] && streams == old(streams) + [w]
    {
      w := new StreamLineWriter(this);
      streams := streams + [w];
    }

    method Emit(line: Bytes)
      modifies this`buf
      ensures buf == old(buf) + line
    {
      buf := buf + line;
    }

    /** The held-back tails, in the order the streams were created. */
    ghost function Tails(): (t: seq<Bytes>)
      reads this, streams
      ensures |t| == |streams| && forall i :: 0 <= i < |t| ==> t[i] == streams[i].pending
    {
      TailsOf(streams)
    }

    /** Flushes every stream's unterminated tail and returns the merged text.  Nothing is left to
        flush afterwards, so asking again returns the same text. */
    method Text() returns (text: Bytes)
      requires Valid()
      modifies this`buf, streams
      ensures text == buf == old(buf) + Join(old(Tails()))
      ensures forall i :: 0 <= i < |streams| ==> streams[i].pending == []
    {
      ghost var tails := Tails();
      for i := 0 to |streams|
        invariant buf == old(buf) + Join(tails[..i])
        invariant forall j :: 0 <= j < i ==> streams[j].pending == []
        invariant forall j :: i <= j < |streams| ==> streams[j].pending == tails[j]
      {
        JoinUpTo(tails, i);
        streams[i].FlushPartial();
      }
      assert tails[..|streams|] == tails;
      text := buf;
    }
  }

  ghost function TailsOf(ws: seq<StreamLineWriter>): (t: seq<Bytes>)
    reads ws
    ensures |t| == |ws| && forall i :: 0 <= i < |t| ==> t[i] == ws[i].pending
  {
    if |ws| == 0 then [] else TailsOf(ws[..|ws| - 1]) + [ws[|ws| - 1].pending]
  }

  lemma {:induction false} JoinEmpty(parts: seq<Bytes>)
    requires forall i :: 0 <= i < |parts| ==> parts[i] == []
    ensures Join(parts) == []
  {
    if |parts| > 0 {
      JoinEmpty(parts[..|parts| - 1]);
    }
  }

  class StreamLineWriter {
    const sink: CombinedLineCapture
    var pending: Bytes

    constructor (sink: CombinedLineCapture)
      ensures this.sink == sink && pending == []
    {
      this.sink, pending := sink, [];
    }

    /** Forwards the lines that p completes and holds back the rest. */
    method Write(p: Bytes) returns (n: nat)
      modifies this, sink`buf
      ensures n == |p|
      ensures sink.buf == old(sink.buf) + Join(Lines(old(pending) + p))
      ensures pending == Tail(old(pending) + p)
    {
      pending := pending + p;
      ghost var all := pending;
      ghost var emitted: seq<Bytes> := [];
      CutStart(all);
      var nl := IndexNewline(pending);
      while nl >= 0
        invariant Cut(all, emitted, pending) && nl == IndexNewline(pending)
        invariant sink.buf == old(sink.buf) + Join(emitted)
        decreases |pending|
      {
        CutStep(all, emitted, pending, nl);
        sink.Emit(pending[..nl + 1]);
        emitted := emitted + [pending[..nl + 1]];
        pending := pending[nl + 1..];
        nl := IndexNewline(pending);
      }
      CutEnd(all, emitted, pending);
      return |p|;
    }

    method FlushPartial()
      modifies this`pending, sink`buf
      ensures pending == [] && sink.buf == old(sink.buf) + old(pending)
    {
      if |pending| == 0 {
        return;
      }
      sink.Emit(pending);
      pending := [];
    }
  }

  // ------------------------------------------------- every schedule and chunking

  /** The capture between two emits: its buffer, and each stream's pending bytes. */
  datatype Capture = Capture(buf: Bytes, pending: seq<Bytes>)

  /** One stream's copier takes a chunk, or emits the first line it holds. */
  datatype Act = Take(i: nat, chunk: Bytes) | EmitLine(i: nat)

  /** A copier takes its next chunk only after the previous Write has emitted all its lines. */
  predicate Can(c: Capture, a: Act) {
    a.i < |c.pending| && (a.Take? <==> NoNewline(c.pending[a.i]))
  }

  function FirstLine(s: Bytes): Bytes { s[..IndexNewline(s) + 1] }

  function Do(c: Capture, a: Act): Capture
    requires Can(c, a)
  {
    match a
    case Take(i, chunk) => c.(pending := c.pending[i := c.pending[i] + chunk])
    case EmitLine(i) =>
      var line := FirstLine(c.pending[i]);
      Capture(c.buf + line, c.pending[i := c.pending[i][|line|..]])
  }

  /** Emits of stream i until it holds no newline: the loop of one Write, left alone. */
  function Drained(c: Capture, i: nat): Capture
    requires i < |c.pending|
    decreases |c.pending[i]|
  {
    if NoNewline(c.pending[i]) then c else Drained(Do(c, EmitLine(i)), i)
  }

  lemma JoinCons(p: Bytes, parts: seq<Bytes>)
    ensures Join([p] + parts) == p + Join(parts)
    decreases |parts|
  {
    if |parts| == 0 {
      assert [p] + parts == [] + [p];
      JoinSnoc([], p);
    } else {
      var n := |parts| - 1;
      JoinCons(p, parts[..n]);
      assert [p] + parts == ([p] + parts[..n]) + [parts[n]];
      JoinSnoc([p] + parts[..n], parts[n]);
    }
  }

  lemma OneLineMore(c: Capture, i: nat, line: Bytes, lines: Bytes, rest: Bytes, tail: Bytes)
    requires i < |c.pending|
    ensures c.buf + line + lines == c.buf + (line + lines) && c.pending[i := rest][i := tail] == c.pending[i := tail]
  {
  }

  /** A Write left alone does what its contract says: all complete lines to the buffer, the tail held back. */
  lemma {:induction false} DrainedIs(c: Capture, i: nat)
    requires i < |c.pending|
    ensures Drained(c, i) == Capture(c.buf + Join(Lines(c.pending[i])), c.pending[i := Tail(c.pending[i])])
    decreases |c.pending[i]|
  {
    var held := c.pending[i];
    if NoNewline(held) {
      NoLines(held);
      assert c.pending[i := held] == c.pending;
      assert c.buf + [] == c.buf;
    } else {
      var nl := IndexNewline(held);
      DrainedIs(Do(c, EmitLine(i)), i);
      FirstLineOf(held, nl);
      JoinCons(held[..nl + 1], Lines(held[nl + 1..]));
      OneLineMore(c, i, held[..nl + 1], Join(Lines(held[nl + 1..])), held[nl + 1..], Tail(held));
    }
  }

  function Fresh(n: nat): Capture { Capture([], seq(n, i => [])) }

  /** The capture after a schedule of n streams' copiers; None when some act was not possible. */
  function Exec(n: nat, acts: seq<Act>): Option<Capture> {
    if |acts| == 0 then Some(Fresh(n))
    else
      var before := Exec(n, acts[..|acts| - 1]);
      if before.Some? && Can(before.value, acts[|acts| - 1]) then Some(Do(before.value, acts[|acts| - 1])) else None
  }

  /** The bytes stream i has written. */
  function Received(acts: seq<Act>, i: nat): Bytes {
    if |acts| == 0 then []
    else
      var a := acts[|acts| - 1];
      Received(acts[..|acts| - 1], i) + (if a.Take? && a.i == i then a.chunk else [])
  }

  datatype Entry = Entry(stream: nat, line: Bytes)

  /** Which stream's line each emit of the schedule appended, in order. */
  function Emits(n: nat, acts: seq<Act>): seq<Entry>
    requires Exec(n, acts).Some?
  {
    if |acts| == 0 then []
    else
      var before, a := acts[..|acts| - 1], acts[|acts| - 1];
      if a.Take? then Emits(n, before)
      else Emits(n, before) + [Entry(a.i, FirstLine(Exec(n, before).value.pending[a.i]))]
  }

  function LinesIn(log: seq<Entry>): seq<Bytes> {
    if |log| == 0 then [] else LinesIn(log[..|log| - 1]) + [log[|log| - 1].line]
  }

  /** The lines of stream i within the log, in their order there. */
  function LinesOf(log: seq<Entry>, i: nat): seq<Bytes> {
    if |log| == 0 then []
    else LinesOf(log[..|log| - 1], i) + (if log[|log| - 1].stream == i then [log[|log| - 1].line] else [])
  }

  ghost predicate Merged(n: nat, acts: seq<Act>, c: Capture)
    requires Exec(n, acts).Some?
  {
    var log := Emits(n, acts);
    && |c.pending| == n
    && c.buf == Join(LinesIn(log))
    && forall i: nat :: i < n ==> Cut(Received(acts, i), LinesOf(log, i), c.pending[i])
  }

  lemma CutTake(received: Bytes, lines: seq<Bytes>, held: Bytes, chunk: Bytes)
    requires Cut(received, lines, held) && NoNewline(held)
    ensures Cut(received + chunk, lines, held + chunk)
  {
    LinesExtend(received, chunk);
    CutEnd(received, lines, held);
  }

  lemma LinesOfSnoc(log: seq<Entry>, e: Entry, i: nat)
    ensures LinesOf(log + [e], i) == LinesOf(log, i) + (if e.stream == i then [e.line] else [])
  {
    assert (log + [e])[..|log|] == log;
  }

  /** What the last act means for stream i. */
  lemma LastAct(n: nat, acts: seq<Act>, i: nat)
    requires |acts| > 0 && Exec(n, acts).Some? && i < n
    requires |Exec(n, acts[..|acts| - 1]).value.pending| == n
    ensures var before, a := acts[..|acts| - 1], acts[|acts| - 1];
            var held, now := Exec(n, before).value.pending[i], Exec(n, acts).value.pending;
            && |now| == n
            && Received(acts, i) == Received(before, i) + (if a.Take? && a.i == i then a.chunk else [])
            && LinesOf(Emits(n, acts), i)
               == LinesOf(Emits(n, before), i) + (if a.EmitLine? && a.i == i then [FirstLine(held)] else [])
            && now[i] == if a.i != i then held else if a.Take? then held + a.chunk else held[IndexNewline(held) + 1..]
  {
    var before, a := acts[..|acts| - 1], acts[|acts| - 1];
    if a.EmitLine? {
      LinesOfSnoc(Emits(n, before), Entry(a.i, FirstLine(Exec(n, before).value.pending[a.i])), i);
    }
  }

  lemma StreamStep(n: nat, acts: seq<Act>, i: nat)
    requires |acts| > 0 && Exec(n, acts).Some? && i < n
    requires Merged(n, acts[..|acts| - 1], Exec(n, acts[..|acts| - 1]).value)
    ensures |Exec(n, acts).value.pending| == n
    ensures Cut(Received(acts, i), LinesOf(Emits(n, acts), i), Exec(n, acts).value.pending[i])
  {
    var before, a := acts[..|acts| - 1], acts[|acts| - 1];
    var lines, held := LinesOf(Emits(n, before), i), Exec(n, before).value.pending[i];
    LastAct(n, acts, i);
    assert Received(before, i) + [] == Received(before, i) && lines + [] == lines;
    if a.i == i {
      if a.Take? {
        CutTake(Received(before, i), lines, held, a.chunk);
      } else {
        CutStep(Received(before, i), lines, held, IndexNewline(held));
      }
    }
  }

  lemma BufferStep(n: nat, acts: seq<Act>)
    requires |acts| > 0 && Exec(n, acts).Some?
    requires Exec(n, acts[..|acts| - 1]).value.buf == Join(LinesIn(Emits(n, acts[..|acts| - 1])))
    ensures Exec(n, acts).value.buf == Join(LinesIn(Emits(n, acts)))
  {
    var before, a := acts[..|acts| - 1], acts[|acts| - 1];
    if a.EmitLine? {
      var log := Emits(n, before);
      var e := Entry(a.i, FirstLine(Exec(n, before).value.pending[a.i]));
      assert (log + [e])[..|log|] == log;
      JoinSnoc(LinesIn(log), e.line);
    }
  }

  lemma {:induction false} MergedAlways(n: nat, acts: seq<Act>)
    requires Exec(n, acts).Some?
    ensures Merged(n, acts, Exec(n, acts).value)
  {
    if |acts| > 0 {
      MergedAlways(n, acts[..|acts| - 1]);
      BufferStep(n, acts);
      forall i: nat | i < n
        ensures |Exec(n, acts).value.pending| == n
                && Cut(Received(acts, i), LinesOf(Emits(n, acts), i), Exec(n, acts).value.pending[i])
      {
        StreamStep(n, acts, i);
      }
    } else {
      forall i: nat | i < n ensures Cut([], [], Fresh(n).pending[i]) {
        CutStart([]);
      }
    }
  }

  /** What Text returns once every copier has finished its last Write. */
  function TextOf(c: Capture): Bytes { c.buf + Join(c.pending) }

  ghost predicate Finished(c: Capture) {
    forall i :: 0 <= i < |c.pending| ==> NoNewline(c.pending[i])
  }

  /** Over every schedule and every chunking: the text is the log's lines, then the unterminated
      tails in creation order; and the log holds, for each stream, exactly the lines of the bytes
      that stream wrote, in their order. */
  lemma CaptureIsFaithful(n: nat, acts: seq<Act>, i: nat)
    requires Exec(n, acts).Some? && Finished(Exec(n, acts).value) && i < n
    ensures var c, log := Exec(n, acts).value, Emits(n, acts);
            && |c.pending| == n && TextOf(c) == Join(LinesIn(log)) + Join(c.pending)
            && LinesOf(log, i) == Lines(Received(acts, i)) && c.pending[i] == Tail(Received(acts, i))
  {
    MergedAlways(n, acts);
    CutEnd(Received(acts, i), LinesOf(Emits(n, acts), i), Exec(n, acts).value.pending[i]);
  }

  /** No byte is lost or made up: the text is as long as all the streams' bytes together. */
  lemma EveryByteOnce(n: nat, acts: seq<Act>)
    requires Exec(n, acts).Some?
    ensures |TextOf(Exec(n, acts).value)| == TotalReceived(n, acts)
  {
    BytesHeld(n, acts);
    JoinLength(Exec(n, acts).value.pending);
  }

  function TotalReceived(n: nat, acts: seq<Act>): nat {
    if |acts| == 0 then 0
    else TotalReceived(n, acts[..|acts| - 1]) + (if acts[|acts| - 1].Take? then |acts[|acts| - 1].chunk| else 0)
  }

  function Lengths(parts: seq<Bytes>): nat {
    if |parts| == 0 then 0 else Lengths(parts[..|parts| - 1]) + |parts[|parts| - 1]|
  }

  lemma {:induction false} JoinLength(parts: seq<Bytes>)
    ensures |Join(parts)| == Lengths(parts)
  {
    if |parts| > 0 {
      JoinLength(parts[..|parts| - 1]);
    }
  }

  lemma {:induction false} LengthsUpdate(parts: seq<Bytes>, i: nat, p: Bytes)
    requires i < |parts|
    ensures Lengths(parts[i := p]) == Lengths(parts) - |parts[i]| + |p|
  {
    var n := |parts| - 1;
    if i == n {
      assert parts[i := p][..n] == parts[..n];
    } else {
      assert parts[i := p][..n] == parts[..n][i := p];
      LengthsUpdate(parts[..n], i, p);
    }
  }

  lemma {:induction false} BytesHeld(n: nat, acts: seq<Act>)
    requires Exec(n, acts).Some?
    ensures var c := Exec(n, acts).value; |c.buf| + Lengths(c.pending) == TotalReceived(n, acts)
  {
    if |acts| == 0 {
      JoinEmpty(Fresh(n).pending);
      JoinLength(Fresh(n).pending);
    } else {
      var before, a := acts[..|acts| - 1], acts[|acts| - 1];
      BytesHeld(n, before);
      var c := Exec(n, before).value;
      LengthsUpdate(c.pending, a.i, Exec(n, acts).value.pending[a.i]);
    }
  }
}
