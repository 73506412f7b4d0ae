/** Assembling log lines (backend/logs.go, logSink.write, hold and flush).

    The daemon's bytes arrive in chunks that say nothing about lines, and chunks
    of the two streams interleave. What the client is offered must depend on the
    bytes of each stream alone. */
module LogLines {
  import opened Text
  import opened LogOutlet

  /** The cap on one line. */
  const MAX_LOG_LINE := 1048576
  const NEWLINE: byte := 10

  // --- what a stream's bytes mean ---

  function LineEnd(b: seq<byte>): (i: nat)
    ensures i <= |b|
    ensures i < |b| ==> b[i] == NEWLINE
    ensures NEWLINE !in b[..i]
    ensures NEWLINE !in b <==> i == |b|
  {
    if b == [] || b[0] == NEWLINE then 0
    else
      var i := LineEnd(b[1..]);
      assert b[..i + 1] == [b[0]] + b[1..][..i];
      i + 1
  }

  /** The lines of b that a newline ends. */
  function Terminated(b: seq<byte>): seq<seq<byte>> {
    var i := LineEnd(b);
    if i == |b| then [] else [b[..i]] + Terminated(b[i + 1..])
  }

  /** What follows the last newline of b. */
  function Tail(b: seq<byte>): seq<byte> {
    var i := LineEnd(b);
    if i == |b| then b else Tail(b[i + 1..])
  }

  function Unlines(lines: seq<seq<byte>>): seq<byte> {
    if lines == [] then [] else lines[0] + ([NEWLINE] + Unlines(lines[1..]))
  }

  lemma TailSteps(b: seq<byte>)
    ensures Tail(b) == if LineEnd(b) == |b| then b else Tail(b[LineEnd(b) + 1..])
  {
    hide LineEnd, Terminated;
  }

  lemma SplitSteps(b: seq<byte>)
    ensures LineEnd(b) == |b| ==> Terminated(b) == [] && Tail(b) == b
    ensures LineEnd(b) < |b| ==> Terminated(b) == [b[..LineEnd(b)]] + Terminated(b[LineEnd(b) + 1..])
    ensures LineEnd(b) < |b| ==> Tail(b) == Tail(b[LineEnd(b) + 1..])
  {
    hide LineEnd, Tail;
    TailSteps(b);
  }

  lemma UnlinesSteps(b: seq<byte>)
    ensures LineEnd(b) == |b| ==> Unlines(Terminated(b)) == []
    ensures LineEnd(b) < |b| ==>
              Unlines(Terminated(b)) == b[..LineEnd(b)] + ([NEWLINE] + Unlines(Terminated(b[LineEnd(b) + 1..])))
  {
    SplitSteps(b);
    hide LineEnd, Terminated, Tail;
    if LineEnd(b) < |b| {
      var lines := Terminated(b[LineEnd(b) + 1..]);
      assert ([b[..LineEnd(b)]] + lines)[1..] == lines;
    }
  }

  lemma PutTogether(b: seq<byte>, i: nat, lines: seq<byte>, u: seq<byte>, t: seq<byte>)
    requires i < |b| && b[i] == NEWLINE && u + t == b[i + 1..]
    requires lines == b[..i] + ([NEWLINE] + u)
    ensures lines + t == b
  {
    assert lines + t == b[..i] + ([NEWLINE] + (u + t));
  }

  /** Splitting loses nothing: the lines ended by newlines, then the tail, are
      the bytes again. */
  lemma {:induction false} SplitReassembles(b: seq<byte>)
    ensures Unlines(Terminated(b)) + Tail(b) == b
    decreases |b|
  {
    hide Terminated, Tail, Unlines, LineEnd;
    UnlinesSteps(b);
    TailSteps(b);
    var i := LineEnd(b);
    if i < |b| {
      var rest := b[i + 1..];
      SplitReassembles(rest);
      PutTogether(b, i, Unlines(Terminated(b)), Unlines(Terminated(rest)), Tail(rest));
    }
  }

  /** Splitting splits everywhere: no line and no tail holds a newline. */
  lemma {:induction false} PartsHoldNoNewline(b: seq<byte>)
    ensures NEWLINE !in Tail(b)
    ensures forall k :: 0 <= k < |Terminated(b)| ==> NEWLINE !in Terminated(b)[k]
    decreases |b|
  {
    var i := LineEnd(b);
    if i < |b| {
      PartsHoldNoNewline(b[i + 1..]);
    }
  }

  lemma {:induction false} LineEndAppend(b: seq<byte>, p: seq<byte>)
    ensures LineEnd(b + p) == if LineEnd(b) < |b| then LineEnd(b) else |b| + LineEnd(p)
    decreases |b|
  {
    if b == [] {
      assert b + p == p;
    } else if b[0] != NEWLINE {
      assert (b + p)[1..] == b[1..] + p;
      LineEndAppend(b[1..], p);
    }
  }

  lemma {:induction false} AppendWithinLine(b: seq<byte>, p: seq<byte>)
    requires NEWLINE !in p
    ensures Terminated(b + p) == Terminated(b) && Tail(b + p) == Tail(b) + p
    decreases |b|
  {
    hide Terminated, Tail, LineEnd;
    LineEndAppend(b, p);
    SplitSteps(b);
    SplitSteps(b + p);
    var i := LineEnd(b);
    if i < |b| {
      assert (b + p)[i + 1..] == b[i + 1..] + p;
      assert (b + p)[..i] == b[..i];
      AppendWithinLine(b[i + 1..], p);
    }
  }

  lemma {:induction false} AppendLineEnd(b: seq<byte>)
    ensures Terminated(b + [NEWLINE]) == Terminated(b) + [Tail(b)] && Tail(b + [NEWLINE]) == []
    decreases |b|
  {
    hide Terminated, Tail, LineEnd;
    var i, c := LineEnd(b), b + [NEWLINE];
    LineEndAppend(b, [NEWLINE]);
    SplitSteps(b);
    SplitSteps(c);
    if i < |b| {
      assert c[i + 1..] == b[i + 1..] + [NEWLINE] && c[..i] == b[..i];
      AppendLineEnd(b[i + 1..]);
      assert [b[..i]] + (Terminated(b[i + 1..]) + [Tail(b)]) == ([b[..i]] + Terminated(b[i + 1..])) + [Tail(b)];
    } else {
      assert [NEWLINE][0] == NEWLINE && LineEnd([NEWLINE]) == 0;
      assert c[..i] == b && c[i + 1..] == [];
      SplitSteps([]);
      assert [b] + [] == [] + [b];
    }
  }

  // --- what the client is offered ---

  /** One line as offered: whole, or cut to the cap and followed by a notice. */
  datatype Item = Whole(text: seq<byte>) | Cut(text: seq<byte>)

  function Deliver(line: seq<byte>): Item {
    if |line| <= MAX_LOG_LINE then Whole(line) else Cut(line[..MAX_LOG_LINE])
  }

  function DeliverAll(lines: seq<seq<byte>>): (r: seq<Item>)
    ensures |r| == |lines|
  {
    seq(|lines|, i requires 0 <= i < |lines| => Deliver(lines[i]))
  }

  /** Everything a stream's bytes amount to once the stream has closed. */
  function Expected(b: seq<byte>): seq<Item> {
    DeliverAll(Terminated(b)) + if Tail(b) == [] then [] else [Deliver(Tail(b))]
  }

  /** What has been offered while the last line is still open: an overlong one
      has been cut already. */
  function SoFar(b: seq<byte>): seq<Item> {
    DeliverAll(Terminated(b)) + if |Tail(b)| > MAX_LOG_LINE then [Deliver(Tail(b))] else []
  }

  function Held(b: seq<byte>): seq<byte> {
    if |Tail(b)| > MAX_LOG_LINE then [] else Tail(b)
  }

  function Wire(stream: Stream, item: Item): seq<Event> {
    match item
    case Whole(t) => [Line(stream, t)]
    case Cut(t) => [Line(stream, t), TruncationNotice]
  }

  function WireAll(trace: seq<(Stream, Item)>): seq<Event> {
    if trace == [] then []
    else WireAll(trace[..|trace| - 1]) + Wire(trace[|trace| - 1].0, trace[|trace| - 1].1)
  }

  /** One stream's items, in order. */
  function Of(stream: Stream, trace: seq<(Stream, Item)>): seq<Item> {
    if trace == [] then []
    else Of(stream, trace[..|trace| - 1]) + if trace[|trace| - 1].0 == stream then [trace[|trace| - 1].1] else []
  }

  lemma TraceNext(trace: seq<(Stream, Item)>, stream: Stream, item: Item)
    ensures WireAll(trace + [(stream, item)]) == WireAll(trace) + Wire(stream, item)
    ensures forall s :: Of(s, trace + [(stream, item)]) == Of(s, trace) + if s == stream then [item] else []
  {
  }

  /** The texts of one stream's lines among events, in order. */
  ghost function LinesOf(stream: Stream, events: seq<Event>): seq<seq<byte>> {
    if events == [] then []
    else
      LinesOf(stream, events[..|events| - 1]) +
      match events[|events| - 1] {
        case Line(s, text) => if s == stream then [text] else []
        case _ => []
      }
  }

  ghost function Texts(items: seq<Item>): seq<seq<byte>> {
    seq(|items|, i requires 0 <= i < |items| => items[i].text)
  }

  lemma {:induction false} LinesConcat(stream: Stream, a: seq<Event>, b: seq<Event>)
    ensures LinesOf(stream, a + b) == LinesOf(stream, a) + LinesOf(stream, b)
    decreases |b|
  {
    if b == [] {
      assert a + b == a;
    } else {
      var n := |b| - 1;
      assert (a + b)[..|a| + n] == a + b[..n];
      LinesConcat(stream, a, b[..n]);
    }
  }

  lemma OneItemShows(stream: Stream, s: Stream, item: Item)
    ensures LinesOf(stream, Wire(s, item)) == if s == stream then [item.text] else []
  {
    var w := Wire(s, item);
    assert [Line(s, item.text)][..0] == [];
    assert LinesOf(stream, [Line(s, item.text)]) == if s == stream then [item.text] else [];
    if item.Cut? { assert w[..1] == [Line(s, item.text)]; }
  }

  lemma TextsNext(items: seq<Item>, more: seq<Item>)
    requires |more| <= 1
    ensures Texts(items + more) == Texts(items) + if more == [] then [] else [more[0].text]
  {
    if more == [] { assert items + more == items; }
  }

  /** What the client is offered shows each stream its own lines, in order. */
  lemma {:induction false} WireShows(trace: seq<(Stream, Item)>, stream: Stream)
    ensures LinesOf(stream, WireAll(trace)) == Texts(Of(stream, trace))
    decreases |trace|
  {
    if trace != [] {
      hide LinesOf, Wire, Texts, WireAll, Of;
      var n := |trace| - 1;
      var s, item := trace[n].0, trace[n].1;
      assert trace == trace[..n] + [(s, item)];
      TraceNext(trace[..n], s, item);
      WireShows(trace[..n], stream);
      LinesConcat(stream, WireAll(trace[..n]), Wire(s, item));
      OneItemShows(stream, s, item);
      TextsNext(Of(stream, trace[..n]), if s == stream then [item] else []);
    }
  }

  /** The rest are notices, as many as there are cut lines, and each stands right
      behind one. */
  lemma {:induction false} NoticesFollowCuts(trace: seq<(Stream, Item)>, i: nat)
    requires i < |WireAll(trace)|
    ensures WireAll(trace)[i] == TruncationNotice ==>
              i > 0 && exists k :: 0 <= k < |trace| && trace[k].1.Cut? && WireAll(trace)[i - 1] == Line(trace[k].0, trace[k].1.text)
    ensures WireAll(trace)[i].Line? || WireAll(trace)[i] == TruncationNotice
    ensures |WireAll(trace)| == |trace| + Cuts(trace)
    decreases |trace|
  {
    var n := |trace| - 1;
    var before, last := WireAll(trace[..n]), Wire(trace[n].0, trace[n].1);
    assert WireAll(trace) == before + last;
    WiresCounted(trace);
    if i < |before| {
      NoticesFollowCuts(trace[..n], i);
      if WireAll(trace)[i] == TruncationNotice {
        var k :| 0 <= k < n && trace[..n][k].1.Cut? && before[i - 1] == Line(trace[..n][k].0, trace[..n][k].1.text);
        assert trace[k] == trace[..n][k];
      }
    } else if WireAll(trace)[i] == TruncationNotice {
      assert trace[n].1.Cut? && WireAll(trace)[i - 1] == Line(trace[n].0, trace[n].1.text);
    }
  }

  ghost function Cuts(trace: seq<(Stream, Item)>): nat {
    if trace == [] then 0 else Cuts(trace[..|trace| - 1]) + if trace[|trace| - 1].1.Cut? then 1 else 0
  }

  lemma {:induction false} WiresCounted(trace: seq<(Stream, Item)>)
    ensures |WireAll(trace)| == |trace| + Cuts(trace)
    decreases |trace|
  {
    if trace != [] { WiresCounted(trace[..|trace| - 1]); }
  }

  /** What a stream's bytes amount to: its lines in order, each whole, or its first
      1 MiB when it is longer. */
  lemma ExpectedIsLines(b: seq<byte>)
    ensures var lines := Terminated(b) + if Tail(b) == [] then [] else [Tail(b)];
            |Expected(b)| == |lines| &&
            forall i :: 0 <= i < |lines| ==>
              (Expected(b)[i].Cut? <==> |lines[i]| > 1048576) &&
              Expected(b)[i].text == if |lines[i]| > 1048576 then lines[i][..1048576] else lines[i]
  {
  }

  // --- one byte at a time ---

  /** A stream's state: the line being assembled, whether it has been cut, and
      what has been offered. */
  datatype State = State(held: seq<byte>, over: bool, items: seq<Item>)

  const START := State([], false, [])

  function StepByte(st: State, x: byte): State {
    if x == NEWLINE then
      State([], false, if st.over then st.items else st.items + [Whole(st.held)])
    else if st.over then st
    else if |st.held| < MAX_LOG_LINE then st.(held := st.held + [x])
    else State([], true, st.items + [Cut((st.held + [x])[..MAX_LOG_LINE])])
  }

  function FeedBytes(st: State, p: seq<byte>): State {
    if p == [] then st else StepByte(FeedBytes(st, p[..|p| - 1]), p[|p| - 1])
  }

  lemma {:induction false} FeedConcat(st: State, p: seq<byte>, q: seq<byte>)
    ensures FeedBytes(st, p + q) == FeedBytes(FeedBytes(st, p), q)
    decreases |q|
  {
    if q == [] {
      assert p + q == p;
    } else {
      var n := |q| - 1;
      FeedConcat(st, p, q[..n]);
      assert (p + q)[..|p + q| - 1] == p + q[..n];
    }
  }

  /** Adding a whole newline-free piece, as hold does. */
  function HoldPiece(st: State, p: seq<byte>): State {
    if st.over then st
    else if |st.held + p| <= MAX_LOG_LINE then st.(held := st.held + p)
    else State([], true, st.items + [Cut((st.held + p)[..MAX_LOG_LINE])])
  }

  /** Holding a piece at once is feeding it byte by byte. */
  lemma {:induction false} HoldIsFeeding(st: State, p: seq<byte>)
    requires |st.held| <= MAX_LOG_LINE && NEWLINE !in p
    ensures FeedBytes(st, p) == HoldPiece(st, p)
    ensures |HoldPiece(st, p).held| <= MAX_LOG_LINE
    decreases |p|
  {
    if p == [] {
      assert st.held + p == st.held;
    } else {
      var n := |p| - 1;
      assert p[n] in p;
      assert NEWLINE !in p[..n];
      HoldIsFeeding(st, p[..n]);
      assert st.held + p == st.held + p[..n] + [p[n]];
      if !st.over && |st.held + p[..n]| > MAX_LOG_LINE {
        assert (st.held + p)[..MAX_LOG_LINE] == (st.held + p[..n])[..MAX_LOG_LINE];
      }
    }
  }

  lemma {:induction false} HeldStaysCapped(b: seq<byte>)
    ensures |FeedBytes(START, b).held| <= MAX_LOG_LINE
  {
    if b != [] { HeldStaysCapped(b[..|b| - 1]); }
  }

  ghost function SplitState(b: seq<byte>): State {
    State(Held(b), |Tail(b)| > MAX_LOG_LINE, SoFar(b))
  }

  lemma DeliverAllNext(lines: seq<seq<byte>>, line: seq<byte>)
    ensures DeliverAll(lines + [line]) == DeliverAll(lines) + [Deliver(line)]
  {
  }

  lemma SplitStateNewline(c: seq<byte>)
    ensures SplitState(c + [NEWLINE]) == StepByte(SplitState(c), NEWLINE)
  {
    hide Terminated, Tail, LineEnd, DeliverAll;
    AppendLineEnd(c);
    DeliverAllNext(Terminated(c), Tail(c));
  }

  lemma SplitStateByte(c: seq<byte>, x: byte)
    requires x != NEWLINE
    ensures SplitState(c + [x]) == StepByte(SplitState(c), x)
  {
    hide Terminated, Tail, LineEnd, DeliverAll;
    AppendWithinLine(c, [x]);
    if |Tail(c)| > MAX_LOG_LINE {
      assert (Tail(c) + [x])[..MAX_LOG_LINE] == Tail(c)[..MAX_LOG_LINE];
    }
  }

  /** Feeding bytes one at a time offers what splitting all of them would. */
  lemma {:induction false} FeedingIsSplitting(b: seq<byte>)
    ensures FeedBytes(START, b) == SplitState(b)
    decreases |b|
  {
    if b == [] {
      assert LineEnd(b) == 0;
    } else {
      var n := |b| - 1;
      FeedingIsSplitting(b[..n]);
      assert b == b[..n] + [b[n]];
      if b[n] == NEWLINE {
        SplitStateNewline(b[..n]);
      } else {
        SplitStateByte(b[..n], b[n]);
      }
    }
  }

  lemma ExpectedAfterFlush(b: seq<byte>)
    ensures var st := FeedBytes(START, b);
            Expected(b) == st.items + if |st.held| > 0 && !st.over then [Whole(st.held)] else []
  {
    FeedingIsSplitting(b);
  }

  // --- the sink ---

  /** The bytes of both streams. */
  datatype Bytes = Bytes(out: seq<byte>, err: seq<byte>) {
    function Get(s: Stream): seq<byte> {
      if s.Stdout? then out else err
    }

    function Add(s: Stream, p: seq<byte>): Bytes {
      if s.Stdout? then Bytes(out + p, err) else Bytes(out, err + p)
    }
  }

  /** A chunk consumed up to k, then a piece of i bytes and the byte after it. */
  lemma SliceSteps(chunk: seq<byte>, k: nat, i: nat)
    requires k + i <= |chunk|
    ensures chunk[..k] + chunk[k..][..i] == chunk[..k + i]
    ensures k + i < |chunk| ==> chunk[k..][i + 1..] == chunk[k + i + 1..] && chunk[k..][i] == chunk[k + i]
    ensures k + i < |chunk| ==> chunk[..k + i] + [chunk[k + i]] == chunk[..k + i + 1]
    ensures chunk[..|chunk|] == chunk
  {
  }

  /** The steps of a write are the bytes of the chunk: a newline-free piece held
      at once, then the newline after it. */
  lemma PieceThenNewline(st: State, chunk: seq<byte>, k: nat, i: nat)
    requires k + i <= |chunk| && i == LineEnd(chunk[k..])
    requires |FeedBytes(st, chunk[..k]).held| <= MAX_LOG_LINE
    ensures var now := FeedBytes(st, chunk[..k]);
            var held := HoldPiece(now, chunk[k..][..i]);
            && FeedBytes(st, chunk[..k + i]) == held && |held.held| <= MAX_LOG_LINE
            && (k + i < |chunk| ==> FeedBytes(st, chunk[..k + i + 1]) == StepByte(held, NEWLINE))
  {
    SliceSteps(chunk, k, i);
    HoldIsFeeding(FeedBytes(st, chunk[..k]), chunk[k..][..i]);
    FeedConcat(st, chunk[..k], chunk[k..][..i]);
    if k + i < |chunk| {
      assert chunk[..k + i + 1][..k + i] == chunk[..k + i];
    }
  }

  class LogSink {
    var partial: map<Stream, seq<byte>>
    var overrun: map<Stream, bool>
    const outlet: Outlet
    /** All the bytes each stream has been fed. */
    ghost var fed: Bytes
    ghost var trace: seq<(Stream, Item)>
    /** The longest a held buffer, and a chunk, have been. */
    ghost var peak: nat
    ghost var widest: nat

    function PartialOf(s: Stream): seq<byte>
      reads this`partial
    {
      if s in partial then partial[s] else []
    }

    predicate OverrunOf(s: Stream)
      reads this`overrun
    {
      s in overrun && overrun[s]
    }

    ghost function StateOf(s: Stream): State
      reads this`partial, this`overrun, this`trace
    {
      State(PartialOf(s), OverrunOf(s), Of(s, trace))
    }

    /** Everything offered so far is what the trace says. */
    ghost predicate Traced()
      reads this`trace, outlet
    {
      outlet.Valid() && Offered(outlet.log) == WireAll(trace)
    }

    ghost predicate Bounded()
      reads this`partial, this`peak, this`widest
    {
      && |PartialOf(Stdout)| <= MAX_LOG_LINE && |PartialOf(Stderr)| <= MAX_LOG_LINE
      && peak <= MAX_LOG_LINE + widest
    }

    ghost predicate Valid()
      reads this, outlet
    {
      && Traced() && Bounded()
      && StateOf(Stdout) == FeedBytes(START, fed.out)
      && StateOf(Stderr) == FeedBytes(START, fed.err)
    }

    constructor (tail: int)
      ensures Valid() && fresh(outlet)
      ensures fed == Bytes([], [])
    {
      partial, overrun := map[], map[];
      outlet := new Outlet(tail);
      fed := Bytes([], []);
      trace := [];
      peak, widest := 0, 0;
    }

    /** Offers a line, whole or cut. */
    method Emit(stream: Stream, item: Item)
      requires Traced()
      modifies outlet, this`trace
      ensures Traced()
      ensures Of(stream, trace) == old(Of(stream, trace)) + [item]
      ensures forall s :: s != stream ==> Of(s, trace) == old(Of(s, trace))
    {
      hide Outlet.Valid, Fate, Of, Offered;
      ghost var before := Offered(outlet.log);
      outlet.Send(Line(stream, item.text));
      if item.Cut? {
        outlet.Send(TruncationNotice);
      }
      assert Offered(outlet.log) == before + Wire(stream, item);
      TraceNext(trace, stream, item);
      trace := trace + [(stream, item)];
    }

    /** Adds to the line being assembled, delivering it cut if it passes the cap. */
    method Hold(stream: Stream, p: seq<byte>)
      requires Traced() && Bounded() && |p| <= widest
      modifies this`partial, this`overrun, this`trace, this`peak, outlet
      ensures Traced() && Bounded()
      ensures StateOf(stream) == HoldPiece(old(StateOf(stream)), p)
      ensures peak >= old(peak) && (!old(OverrunOf(stream)) ==> peak >= |old(PartialOf(stream))| + |p|)
      ensures forall s :: s != stream ==> StateOf(s) == old(StateOf(s))
    {
      hide Traced, Of;
      if OverrunOf(stream) {
        return;
      }
      var line := PartialOf(stream) + p;
      partial := partial[stream := line];
      peak := if |line| > peak then |line| else peak;
      if |line| <= MAX_LOG_LINE {
        return;
      }
      Emit(stream, Cut(line[..MAX_LOG_LINE]));
      partial := partial[stream := []];
      overrun := overrun[stream := true];
    }

    /** Ends the line being assembled. */
    method EndLine(stream: Stream)
      requires Traced() && Bounded()
      modifies this`partial, this`overrun, this`trace, outlet
      ensures Traced() && Bounded()
      ensures StateOf(stream) == StepByte(old(StateOf(stream)), NEWLINE)
      ensures forall s :: s != stream ==> StateOf(s) == old(StateOf(s))
    {
      if OverrunOf(stream) {
        overrun := overrun[stream := false];
      } else {
        Emit(stream, Whole(PartialOf(stream)));
      }
      partial := partial[stream := []];
    }

    /** The rest of a chunk up to its next newline, and the newline if there is one. */
    method NextLine(stream: Stream, chunk: seq<byte>, k: nat, ghost st: State) returns (next: nat)
      requires Traced() && Bounded() && |chunk| <= widest
      requires k < |chunk| && StateOf(stream) == FeedBytes(st, chunk[..k])
      modifies this`partial, this`overrun, this`trace, this`peak, outlet
      ensures Traced() && Bounded() && k < next <= |chunk|
      ensures StateOf(stream) == FeedBytes(st, chunk[..next])
      ensures forall s :: s != stream ==> StateOf(s) == old(StateOf(s))
    {
      hide WireAll, Offered, FeedBytes, StepByte, HoldPiece, Of, Traced;
      var p := chunk[k..];
      var i := LineEnd(p);
      PieceThenNewline(st, chunk, k, i);
      hide LineEnd, Bounded, StateOf;
      Hold(stream, p[..i]);
      if i == |p| { return k + i; }
      EndLine(stream);
      next := k + i + 1;
    }

    /** Splits one chunk at its newlines. */
    method Split(stream: Stream, chunk: seq<byte>)
      requires Traced() && Bounded() && |chunk| <= widest
      modifies this`partial, this`overrun, this`trace, this`peak, outlet
      ensures Traced() && Bounded()
      ensures StateOf(stream) == FeedBytes(old(StateOf(stream)), chunk)
      ensures forall s :: s != stream ==> StateOf(s) == old(StateOf(s))
    {
      ghost var st := StateOf(stream);
      assert FeedBytes(st, []) == st && chunk[..0] == [];
      hide WireAll, Offered, FeedBytes, Of, Traced;
      var k := 0;
      while k < |chunk|
        invariant Traced() && Bounded() && k <= |chunk|
        invariant StateOf(stream) == FeedBytes(st, chunk[..k])
        invariant forall s :: s != stream ==> StateOf(s) == old(StateOf(s))
      {
        k := NextLine(stream, chunk, k, st);
      }
      assert chunk[..k] == chunk;
    }

    /** Feeds one chunk of one stream. Valid is the whole claim: after any chunks
        in any interleaving each stream has been offered exactly what its own
        bytes amount to, and no more than the cap and one chunk was ever held. */
    method Write(stream: Stream, chunk: seq<byte>)
      requires Valid()
      modifies this, outlet
      ensures Valid()
      ensures fed == old(fed).Add(stream, chunk)
      ensures widest == if |chunk| > old(widest) then |chunk| else old(widest)
    {
      hide FeedBytes, WireAll, Offered;
      widest := if |chunk| > widest then |chunk| else widest;
      FeedConcat(START, fed.Get(stream), chunk);
      Split(stream, chunk);
      fed := fed.Add(stream, chunk);
      assert StateOf(Stdout) == FeedBytes(START, fed.out);
    }

    /** A read from the daemon stalled. */
    method CaughtUp()
      requires Valid()
      modifies outlet
      ensures Valid() && outlet.log == old(outlet.log) && outlet.backlog == 0
    {
      hide FeedBytes, WireAll, Offered, Of;
      outlet.CaughtUp();
    }

    /** The stream has closed: an unterminated last line is still a line. The two
        streams are flushed in either order. */
    method Flush()
      requires Valid()
      modifies this`partial, this`trace, outlet
      ensures Traced()
      ensures Of(Stdout, trace) == Expected(fed.out) && Of(Stderr, trace) == Expected(fed.err)
      ensures PartialOf(Stdout) == PartialOf(Stderr) == []
    {
      hide Expected, FeedBytes, WireAll, Offered;
      ExpectedAfterFlush(fed.out);
      ExpectedAfterFlush(fed.err);
      var outFirst := *;
      assert StateOf(Stdout) == FeedBytes(START, fed.out) && StateOf(Stderr) == FeedBytes(START, fed.err);
      if outFirst {
        FlushOne(Stdout);
        FlushOne(Stderr);
      } else {
        FlushOne(Stderr);
        FlushOne(Stdout);
      }
    }

    method FlushOne(s: Stream)
      requires Traced()
      modifies this`partial, this`trace, outlet
      ensures Traced()
      ensures Of(s, trace) == old(StateOf(s)).items +
                if |old(PartialOf(s))| > 0 && !OverrunOf(s) then [Whole(old(PartialOf(s)))] else []
      ensures forall t :: t != s ==> StateOf(t) == old(StateOf(t))
      ensures forall t :: t != s ==> Of(t, trace) == old(Of(t, trace))
      ensures PartialOf(s) == [] && forall t :: t != s ==> PartialOf(t) == old(PartialOf(t))
    {
      if |PartialOf(s)| > 0 && !OverrunOf(s) {
        Emit(s, Whole(PartialOf(s)));
      }
      partial := partial[s := []];
    }
  }
}
