/** Reading the daemon's multiplexed log stream (backend/logs.go, readFramedLog
    and readRawLog).

    A frame is an 8-byte header, whose first byte names the stream and whose last
    four are the payload's length, then the payload. How the connection cuts the
    bytes up must not matter. */
module LogFrames {
  import opened LogOutlet
  import opened LogLines

  const HEADER := 8
  const LOG_CHUNK := 32768

  const FRAME_STDOUT: byte := 1
  const FRAME_STDERR: byte := 2
  const FRAME_SYSTEMERR: byte := 3

  // --- the wire format ---

  function Decode32(b: seq<byte>): nat
    requires |b| == 4
  {
    b[0] as int * 0x100_0000 + b[1] as int * 0x1_0000 + b[2] as int * 0x100 + b[3] as int
  }

  function Encode32(n: nat): (b: seq<byte>)
    requires n < 0x1_0000_0000
    ensures |b| == 4
  {
    [(n / 0x100_0000) as byte, (n / 0x1_0000 % 0x100) as byte, (n / 0x100 % 0x100) as byte, (n % 0x100) as byte]
  }

  lemma Decode32Inverts(n: nat)
    requires n < 0x1_0000_0000
    ensures Decode32(Encode32(n)) == n
  {
    var a := n / 0x100;
    var b := a / 0x100;
    assert n / 0x1_0000 == b && n / 0x100_0000 == b / 0x100;
    assert n == a * 0x100 + n % 0x100 && a == b * 0x100 + a % 0x100 && b == (b / 0x100) * 0x100 + b % 0x100;
  }

  datatype Frame = Frame(stream: Stream, payload: seq<byte>)

  function Header(kind: byte, size: nat): (h: seq<byte>)
    requires size < 0x1_0000_0000
    ensures |h| == HEADER
  {
    [kind, 0, 0, 0] + Encode32(size)
  }

  function EncodeFrame(f: Frame): seq<byte>
    requires |f.payload| < 0x1_0000_0000
  {
    Header(if f.stream.Stdout? then FRAME_STDOUT else FRAME_STDERR, |f.payload|) + f.payload
  }

  ghost predicate Encodable(frames: seq<Frame>) {
    forall f :: f in frames ==> |f.payload| < 0x1_0000_0000
  }

  function Encode(frames: seq<Frame>): seq<byte>
    requires Encodable(frames)
  {
    if frames == [] then [] else EncodeFrame(frames[0]) + Encode(frames[1..])
  }

  function Payloads(frames: seq<Frame>): Bytes {
    if frames == [] then Bytes([], [])
    else
      var rest := Payloads(frames[1..]);
      if frames[0].stream.Stdout? then Bytes(frames[0].payload + rest.out, rest.err)
      else Bytes(rest.out, frames[0].payload + rest.err)
  }

  // --- what a stream of bytes means ---

  /** How a read ends: at the end of the data on a frame boundary or inside a
      frame, with the connection's own error, with the error the daemon put in
      the stream, or at a header that names no stream. */
  datatype Ending = Closed | CutShort | Broken | DaemonError(text: seq<byte>) | BadHeader(kind: byte)

  /** What is fed to the sink, in order, and how the stream ends. */
  datatype Parsed = Parsed(fed: seq<Frame>, ending: Ending)

  function Min(a: nat, b: nat): nat {
    if a <= b then a else b
  }

  /** The ending of a read that wanted more than there was. */
  function Short(got: nat, broken: bool): Ending {
    if broken then Broken else if got == 0 then Closed else CutShort
  }

  /** The UTF-8 encoding of one of Unicode's white-space characters. */
  predicate IsSpace(b: seq<byte>) {
    match |b| {
      case 1 => 9 <= b[0] <= 13 || b[0] == 0x20
      case 2 => b[0] == 0xC2 && (b[1] == 0x85 || b[1] == 0xA0)
      case 3 =>
        b in [[0xE1, 0x9A, 0x80], [0xE2, 0x80, 0xA8], [0xE2, 0x80, 0xA9], [0xE2, 0x80, 0xAF], [0xE2, 0x81, 0x9F], [0xE3, 0x80, 0x80]] ||
        (b[0] == 0xE2 && b[1] == 0x80 && 0x80 <= b[2] <= 0x8A)
      case _ => false
    }
  }

  /** Unicode's white space, by code point. */
  ghost predicate WhiteSpace(c: nat) {
    9 <= c <= 13 || 8192 <= c <= 8202 || c in {32, 133, 160, 5760, 8232, 8233, 8239, 8287, 12288}
  }

  /** The encoding of a code point of at most three bytes (RFC 3629, section 3). */
  ghost function UTF8(c: nat): seq<byte>
    requires c < 65536
  {
    if c < 128 then [c as byte]
    else if c < 2048 then [(192 + c / 64) as byte, (128 + c % 64) as byte]
    else [(224 + c / 4096) as byte, (128 + c / 64 % 64) as byte, (128 + c % 64) as byte]
  }

  /** White space is what encodes a code point that is. */
  lemma SpacesAre(b: seq<byte>)
    ensures IsSpace(b) <==> exists c: nat :: WhiteSpace(c) && b == UTF8(c)
  {
    if IsSpace(b) {
      var c := DecodeSpace(b);
    }
    if c: nat :| WhiteSpace(c) && b == UTF8(c) {
      EncodedSpace(c);
    }
  }

  lemma DecodeSpace(b: seq<byte>) returns (c: nat)
    requires IsSpace(b)
    ensures WhiteSpace(c) && b == UTF8(c)
  {
    c := if |b| == 1 then b[0] as nat
         else if |b| == 2 then (b[0] as nat - 192) * 64 + (b[1] as nat - 128)
         else (b[0] as nat - 224) * 4096 + (b[1] as nat - 128) * 64 + (b[2] as nat - 128);
  }

  lemma EncodedSpace(c: nat)
    requires WhiteSpace(c)
    ensures IsSpace(UTF8(c))
  {
  }

  /** The width of the space a text begins with, or ends with; zero for none. */
  function Leading(s: seq<byte>): (w: nat)
    ensures w <= |s|
  {
    if |s| >= 1 && IsSpace(s[..1]) then 1
    else if |s| >= 2 && IsSpace(s[..2]) then 2
    else if |s| >= 3 && IsSpace(s[..3]) then 3
    else 0
  }

  function Trailing(s: seq<byte>): (w: nat)
    ensures w <= |s|
  {
    if |s| >= 1 && IsSpace(s[|s| - 1..]) then 1
    else if |s| >= 2 && IsSpace(s[|s| - 2..]) then 2
    else if |s| >= 3 && IsSpace(s[|s| - 3..]) then 3
    else 0
  }

  /** strings.TrimSpace. */
  function Trim(s: seq<byte>): seq<byte> {
    if Leading(s) > 0 then Trim(s[Leading(s)..])
    else if Trailing(s) > 0 then Trim(s[..|s| - Trailing(s)])
    else s
  }

  ghost predicate Spaces(s: seq<byte>) {
    s == [] || exists k :: 0 < k <= |s| && IsSpace(s[..k]) && Spaces(s[k..])
  }

  lemma {:induction false} SpacesThenSpace(s: seq<byte>, last: seq<byte>)
    requires Spaces(s) && IsSpace(last) && last != []
    ensures Spaces(s + last)
  {
    hide IsSpace;
    if s == [] {
      assert (s + last)[..|last|] == last && (s + last)[|last|..] == [];
    } else {
      var k :| 0 < k <= |s| && IsSpace(s[..k]) && Spaces(s[k..]);
      SpacesThenSpace(s[k..], last);
      assert (s + last)[..k] == s[..k] && (s + last)[k..] == s[k..] + last;
    }
  }

  lemma SpaceThenSpaces(first: seq<byte>, s: seq<byte>)
    requires IsSpace(first) && Spaces(s) && first != []
    ensures Spaces(first + s)
  {
    hide IsSpace;
    assert (first + s)[..|first|] == first && (first + s)[|first|..] == s;
  }

  /** Neither begins nor ends in white space. */
  ghost predicate Bare(s: seq<byte>) {
    forall k :: 0 < k <= |s| ==> !IsSpace(s[..k]) && !IsSpace(s[|s| - k..])
  }

  lemma NoEndsLeft(s: seq<byte>)
    requires Leading(s) == 0 && Trailing(s) == 0
    ensures Bare(s)
  {
    forall k | 0 < k <= |s| ensures !IsSpace(s[..k]) && !IsSpace(s[|s| - k..]) {
      if k > 3 {
        NoneIsLong(s[..k]);
        NoneIsLong(s[|s| - k..]);
      }
      hide IsSpace;
    }
  }

  lemma NoneIsLong(s: seq<byte>)
    ensures |s| > 3 ==> !IsSpace(s)
  {
  }

  lemma EndsAreSpaces(s: seq<byte>)
    ensures Leading(s) > 0 ==> IsSpace(s[..Leading(s)])
    ensures Trailing(s) > 0 ==> IsSpace(s[|s| - Trailing(s)..])
  {
    hide IsSpace;
  }

  lemma JoinAround(s: seq<byte>, i: nat, before: seq<byte>, middle: seq<byte>, after: seq<byte>)
    requires i <= |s|
    ensures s[i..] == before + middle + after ==> s == (s[..i] + before) + middle + after
    ensures s[..i] == before + middle + after ==> s == before + middle + (after + s[i..])
  {
    assert s == s[..i] + s[i..];
  }

  /** What is trimmed off either end is white space, and no more of it is left
      there. */
  lemma {:induction false} TrimOnlyTrims(s: seq<byte>)
    returns (before: seq<byte>, after: seq<byte>)
    ensures s == before + Trim(s) + after && Spaces(before) && Spaces(after)
    ensures Bare(Trim(s))
    decreases |s|
  {
    hide IsSpace, Leading, Trailing, Bare;
    EndsAreSpaces(s);
    before, after := [], [];
    var l, t := Leading(s), |s| - Trailing(s);
    if l > 0 {
      before, after := TrimOnlyTrims(s[l..]);
      JoinAround(s, l, before, Trim(s[l..]), after);
      SpaceThenSpaces(s[..l], before);
      before := s[..l] + before;
    } else if t < |s| {
      before, after := TrimOnlyTrims(s[..t]);
      JoinAround(s, t, before, Trim(s[..t]), after);
      SpacesThenSpace(after, s[t..]);
      after := after + s[t..];
    } else {
      NoEndsLeft(s);
    }
  }

  /** The message of a system-error frame, read in chunks and capped. */
  function ErrorText(rest: seq<byte>, size: nat, text: seq<byte>, broken: bool): Ending {
    if size == 0 then DaemonError(Trim(text))
    else
      var n := Min(size, LOG_CHUNK);
      if |rest| < n then Short(|rest|, broken)
      else ErrorText(rest[n..], size - n, if |text| < MAX_LOG_LINE then text + rest[..n] else text, broken)
  }

  /** A payload delivered chunk by chunk: what reaches the sink, and whether it
      all did. */
  function Pieces(stream: Stream, rest: seq<byte>, size: nat): seq<Frame>
    decreases size
  {
    var n := Min(size, LOG_CHUNK);
    if size == 0 || |rest| < n then []
    else [Frame(stream, rest[..n])] + Pieces(stream, rest[n..], size - n)
  }

  /** How many bytes of a payload too short for its header are left over once
      the whole chunks have been delivered. */
  function Leftover(rest: seq<byte>, size: nat): nat
    decreases size
  {
    var n := Min(size, LOG_CHUNK);
    if size == 0 || |rest| < n then |rest| else Leftover(rest[n..], size - n)
  }

  function Parse(data: seq<byte>, broken: bool): Parsed
    decreases |data|
  {
    if |data| < HEADER then Parsed([], Short(|data|, broken))
    else
      var size := Decode32(data[4..8]);
      var rest := data[HEADER..];
      if data[0] == FRAME_SYSTEMERR then Parsed([], ErrorText(rest, size, [], broken))
      else if data[0] != FRAME_STDOUT && data[0] != FRAME_STDERR then Parsed([], BadHeader(data[0]))
      else
        var stream := if data[0] == FRAME_STDOUT then Stdout else Stderr;
        var pieces := Pieces(stream, rest, size);
        if |rest| < size then Parsed(pieces, Short(Leftover(rest, size), broken))
        else
          var next := Parse(rest[size..], broken);
          Parsed(pieces + next.fed, next.ending)
  }

  // --- parsing inverts encoding ---

  lemma {:induction false} PayloadsConcat(a: seq<Frame>, b: seq<Frame>)
    ensures Payloads(a + b) == Bytes(Payloads(a).out + Payloads(b).out, Payloads(a).err + Payloads(b).err)
    decreases |a|
  {
    if a == [] {
      assert a + b == b;
    } else {
      assert (a + b)[1..] == a[1..] + b;
      PayloadsConcat(a[1..], b);
    }
  }

  lemma {:induction false} PiecesAreThePayload(stream: Stream, payload: seq<byte>, rest: seq<byte>)
    ensures Payloads(Pieces(stream, payload + rest, |payload|)) == Payloads([Frame(stream, payload)])
    decreases |payload|
  {
    var n := Min(|payload|, LOG_CHUNK);
    if payload != [] {
      assert (payload + rest)[n..] == payload[n..] + rest;
      assert (payload + rest)[..n] == payload[..n];
      PiecesAreThePayload(stream, payload[n..], rest);
      assert payload == payload[..n] + payload[n..];
      var p := Pieces(stream, payload + rest, |payload|);
      assert p[1..] == Pieces(stream, payload[n..] + rest, |payload[n..]|);
    }
  }

  lemma HeaderFields(kind: byte, size: nat, rest: seq<byte>)
    requires size < 0x1_0000_0000
    ensures var data := Header(kind, size) + rest;
            |data| >= HEADER && data[0] == kind && Decode32(data[4..8]) == size && data[HEADER..] == rest
  {
    var data := Header(kind, size) + rest;
    assert data[4..8] == Encode32(size);
    Decode32Inverts(size);
  }

  /** What one header says of the bytes behind it. */
  lemma ParseSteps(data: seq<byte>, broken: bool)
    ensures |data| < HEADER ==> Parse(data, broken) == Parsed([], Short(|data|, broken))
    ensures |data| >= HEADER && data[0] == FRAME_SYSTEMERR ==>
              Parse(data, broken) == Parsed([], ErrorText(data[HEADER..], Decode32(data[4..8]), [], broken))
    ensures |data| >= HEADER && data[0] != FRAME_SYSTEMERR && data[0] != FRAME_STDOUT && data[0] != FRAME_STDERR ==>
              Parse(data, broken) == Parsed([], BadHeader(data[0]))
    ensures |data| >= HEADER && (data[0] == FRAME_STDOUT || data[0] == FRAME_STDERR) ==>
              PayloadNext(data, if data[0] == FRAME_STDOUT then Stdout else Stderr, Decode32(data[4..8]), broken)
  {
    hide Pieces, Leftover, ErrorText, Decode32;
  }

  ghost predicate PayloadNext(data: seq<byte>, stream: Stream, size: nat, broken: bool)
    requires |data| >= HEADER
  {
    var rest := data[HEADER..];
    if |rest| < size then Parse(data, broken) == Parsed(Pieces(stream, rest, size), Short(Leftover(rest, size), broken))
    else
      Parse(data, broken) ==
      Parsed(Pieces(stream, rest, size) + Parse(rest[size..], broken).fed, Parse(rest[size..], broken).ending)
  }

  /** One whole frame in front of anything adds its payload and nothing else. */
  lemma ParseFrame(f: Frame, rest: seq<byte>, broken: bool)
    requires |f.payload| < 0x1_0000_0000
    ensures Parse(EncodeFrame(f) + rest, broken).ending == Parse(rest, broken).ending
    ensures Parse(EncodeFrame(f) + rest, broken).fed == Pieces(f.stream, f.payload + rest, |f.payload|) + Parse(rest, broken).fed
  {
    hide Parse, Pieces, Leftover, Header, Decode32;
    var kind := if f.stream.Stdout? then FRAME_STDOUT else FRAME_STDERR;
    HeaderFields(kind, |f.payload|, f.payload + rest);
    FrontOfFrame(f, kind, rest);
    assert (f.payload + rest)[|f.payload|..] == rest;
    ParseSteps(EncodeFrame(f) + rest, broken);
  }

  lemma FrontOfFrame(f: Frame, kind: byte, rest: seq<byte>)
    requires |f.payload| < 0x1_0000_0000 && kind == if f.stream.Stdout? then FRAME_STDOUT else FRAME_STDERR
    ensures EncodeFrame(f) + rest == Header(kind, |f.payload|) + (f.payload + rest)
  {
    hide Header;
  }

  lemma FedJoins(f: Frame, more: seq<byte>, tail: seq<Frame>, fed: seq<Frame>, last: seq<Frame>)
    requires Payloads(fed) == Payloads(tail + last)
    ensures Payloads(Pieces(f.stream, f.payload + more, |f.payload|) + fed) == Payloads([f] + tail + last)
  {
    PiecesAreThePayload(f.stream, f.payload, more);
    PayloadsConcat(Pieces(f.stream, f.payload + more, |f.payload|), fed);
    PayloadsConcat([f], tail + last);
    assert [f] + tail + last == [f] + (tail + last);
  }

  /** Reading what was encoded, whatever follows it: each stream is fed exactly
      its payloads, then whatever the rest feeds, and the rest alone decides how
      it ends. */
  lemma {:induction false} ParseInvertsEncode(frames: seq<Frame>, rest: seq<byte>, broken: bool)
    requires Encodable(frames)
    ensures Parse(Encode(frames) + rest, broken).ending == Parse(rest, broken).ending
    ensures Payloads(Parse(Encode(frames) + rest, broken).fed) == Payloads(frames + Parse(rest, broken).fed)
    decreases |frames|
  {
    hide Parse, Payloads, Pieces;
    var fed := Parse(rest, broken).fed;
    if frames == [] {
      assert Encode(frames) + rest == rest;
      assert frames + fed == fed;
    } else {
      var f, more := frames[0], Encode(frames[1..]) + rest;
      assert Encode(frames) + rest == EncodeFrame(f) + more;
      ParseFrame(f, more, broken);
      ParseInvertsEncode(frames[1..], rest, broken);
      FedJoins(f, more, frames[1..], Parse(more, broken).fed, fed);
      assert frames == [f] + frames[1..];
    }
  }

  /** Whole frames and then the end of the connection. */
  lemma WholeStream(frames: seq<Frame>)
    requires Encodable(frames)
    ensures Parse(Encode(frames), false).ending == Closed
    ensures Payloads(Parse(Encode(frames), false).fed) == Payloads(frames)
  {
    ParseInvertsEncode(frames, [], false);
    assert Encode(frames) + [] == Encode(frames);
    assert frames + [] == frames;
  }

  /** A stream that stops inside a header ends as the connection did: with its error,
      or cut short, or, between two frames, closed. */
  lemma StopsInHeader(frames: seq<Frame>, part: seq<byte>, broken: bool)
    requires Encodable(frames) && |part| < 8
    ensures Payloads(Parse(Encode(frames) + part, broken).fed) == Payloads(frames)
    ensures Parse(Encode(frames) + part, broken).ending ==
            if broken then Broken else if part == [] then Closed else CutShort
  {
    ParseInvertsEncode(frames, part, broken);
    assert frames + [] == frames;
  }

  /** A system error or an unknown header ends the stream where it stands: nothing
      from it or after it is delivered. */
  lemma StopsAtForeignHeader(frames: seq<Frame>, kind: byte, size: nat, rest: seq<byte>)
    requires Encodable(frames) && size < 0x1_0000_0000
    requires kind != FRAME_STDOUT && kind != FRAME_STDERR
    ensures var p := Parse(Encode(frames) + (Header(kind, size) + rest), false);
            && Payloads(p.fed) == Payloads(frames)
            && (kind != FRAME_SYSTEMERR ==> p.ending == BadHeader(kind))
            && (kind == FRAME_SYSTEMERR ==> p.ending == ErrorText(rest, size, [], false))
  {
    HeaderFields(kind, size, rest);
    ParseInvertsEncode(frames, Header(kind, size) + rest, false);
    assert frames + [] == frames;
  }

  /** A system error whose message fits the cap is reported in full, short of the
      white space around it. */
  lemma {:induction false} ShortErrorIsWhole(text: seq<byte>, done: seq<byte>, rest: seq<byte>)
    requires |done + text| <= MAX_LOG_LINE
    ensures ErrorText(text + rest, |text|, done, false) == DaemonError(Trim(done + text))
    decreases |text|
  {
    hide Trim;
    if text == [] {
      assert done + text == done;
    } else {
      var n := Min(|text|, LOG_CHUNK);
      assert (text + rest)[n..] == text[n..] + rest && (text + rest)[..n] == text[..n];
      assert done + text[..n] + text[n..] == done + text;
      ShortErrorIsWhole(text[n..], done + text[..n], rest);
    }
  }

  // --- the reader ---

  /** A connection: its bytes, handed over in whatever pieces it likes, and then
      its end or an error. */
  class Connection {
    const data: seq<byte>
    const broken: bool
    var pos: nat
    /** How many of its reads took as long as a stall takes. */
    ghost var stalls: nat

    ghost predicate Valid()
      reads this`pos
    {
      pos <= |data|
    }

    function Left(): seq<byte>
      requires Valid()
      reads this`pos
    {
      data[pos..]
    }

    constructor (data: seq<byte>, broken: bool)
      ensures Valid() && Left() == data && this.data == data && this.broken == broken
    {
      this.data, this.broken, pos, stalls := data, broken, 0, 0;
    }

    /** Between one byte and n of them, or none at the end, soon or after a while. */
    method Read(n: nat) returns (p: seq<byte>, slow: bool)
      requires Valid() && n > 0
      modifies this`pos, this`stalls
      ensures stalls == old(stalls) + if slow then 1 else 0
      ensures Valid()
      ensures |p| <= n && (p == [] <==> old(Left()) == []) && pos == old(pos) + |p|
      ensures old(Left()) == p + Left()
    {
      var k: int := *;
      var most := Min(n, |data| - pos);
      var take := if most == 0 then 0 else if 1 <= k <= most then k else most;
      p := data[pos..pos + take];
      pos := pos + take;
      slow := *;
      if slow { stalls := stalls + 1; }
    }

  }

  /** The connection as the readers see it. The first read that stalls tells the
      sink that the backlog is over. */
  class TimedReader {
    const conn: Connection
    const sink: LogSink
    var stalled: bool

    ghost predicate Valid()
      reads conn`pos
    {
      conn.Valid()
    }

    function Left(): seq<byte>
      requires Valid()
      reads conn`pos
    {
      conn.Left()
    }

    constructor (conn: Connection, sink: LogSink)
      ensures this.conn == conn && this.sink == sink && !stalled
    {
      this.conn, this.sink, stalled := conn, sink, false;
    }

    /** A read, which may stall. */
    method Read(n: nat) returns (p: seq<byte>)
      requires Valid() && sink.Valid() && n > 0
      modifies this, conn`pos, conn`stalls, sink.outlet
      ensures Valid() && sink.Valid()
      ensures |p| <= n && (p == [] <==> old(Left()) == []) && conn.pos == old(conn.pos) + |p|
      ensures old(Left()) == p + Left()
      ensures stalled <==> old(stalled) || conn.stalls > old(conn.stalls)
      ensures stalled && !old(stalled) ==> sink.outlet.backlog == 0
      ensures sink.outlet.log == old(sink.outlet.log)
      ensures stalled == old(stalled) ==> sink.outlet.backlog == old(sink.outlet.backlog)
    {
      hide LogSink.Valid;
      var slow;
      p, slow := conn.Read(n);
      if !stalled && slow {
        stalled := true;
        sink.CaughtUp();
      }
    }

    /** io.ReadFull: n bytes, or all there are. */
    method ReadFull(n: nat) returns (p: seq<byte>)
      requires Valid() && sink.Valid()
      modifies this, conn`pos, conn`stalls, sink.outlet
      ensures Valid() && sink.Valid()
      ensures |p| == Min(n, |old(Left())|) && conn.pos == old(conn.pos) + |p|
      ensures p == old(Left())[..|p|] && Left() == old(Left())[|p|..]
      ensures sink.outlet.log == old(sink.outlet.log)
    {
      hide LogSink.Valid;
      ghost var all := Left();
      p := [];
      while |p| < n
        invariant Valid() && sink.Valid() && |p| <= n && conn.pos == old(conn.pos) + |p|
        invariant all == p + Left()
        invariant sink.outlet.log == old(sink.outlet.log)
        decreases n - |p|
      {
        var got := Read(n - |p|);
        if got == [] { return; }
        Associates(p, got, Left());
        p := p + got;
      }
    }
  }

  function Plus(a: Bytes, b: Bytes): Bytes {
    Bytes(a.out + b.out, a.err + b.err)
  }

  lemma Associates(a: seq<byte>, b: seq<byte>, c: seq<byte>)
    ensures (a + b) + c == a + (b + c)
  {
  }

  lemma PlusPieces(b: Bytes, fed: seq<Frame>, more: seq<Frame>)
    ensures Plus(Plus(b, Payloads(fed)), Payloads(more)) == Plus(b, Payloads(fed + more))
  {
    PayloadsConcat(fed, more);
    hide Payloads;
    var x, y := Payloads(fed), Payloads(more);
    Associates(b.out, x.out, y.out);
    Associates(b.err, x.err, y.err);
  }

  lemma PlusPiece(b: Bytes, stream: Stream, p: seq<byte>)
    ensures b.Add(stream, p) == Plus(b, Payloads([Frame(stream, p)]))
  {
    var one := [Frame(stream, p)];
    assert one[1..] == [];
    assert p + [] == p;
    assert b.out + [] == b.out && b.err + [] == b.err;
  }

  lemma PlusNothing(b: Bytes)
    ensures Plus(b, Payloads([])) == b
  {
  }

  /** One chunk of a payload taken off the front, after fed already was. */
  lemma NextPiece(fed: seq<Frame>, stream: Stream, rest: seq<byte>, size: nat)
    requires size > 0 && |rest| >= Min(size, LOG_CHUNK)
    ensures var n := Min(size, LOG_CHUNK);
            && fed + Pieces(stream, rest, size) == fed + [Frame(stream, rest[..n])] + Pieces(stream, rest[n..], size - n)
            && Leftover(rest, size) == Leftover(rest[n..], size - n)
  {
  }

  lemma NoMorePieces(fed: seq<Frame>, stream: Stream, rest: seq<byte>, size: nat)
    requires size == 0 || |rest| < Min(size, LOG_CHUNK)
    ensures fed + Pieces(stream, rest, size) == fed && Leftover(rest, size) == |rest|
  {
  }

  /** Reads one piece of a payload with `left` bytes to go and, when the piece is
      whole, writes it after fed. */
  method ReadPiece(r: TimedReader, sink: LogSink, stream: Stream, left: nat, ghost start: Bytes, ghost fed: seq<Frame>)
    returns (p: seq<byte>, ghost now: seq<Frame>)
    requires r.Valid() && r.sink == sink && sink.Valid() && left > 0 && sink.fed == Plus(start, Payloads(fed))
    modifies r, r.conn`pos, r.conn`stalls, sink, sink.outlet
    ensures r.Valid() && sink.Valid() && sink.fed == Plus(start, Payloads(now))
    ensures |p| == Min(Min(left, LOG_CHUNK), |old(r.Left())|) && r.conn.pos == old(r.conn.pos) + |p|
    ensures |p| < Min(left, LOG_CHUNK) ==>
              fed + Pieces(stream, old(r.Left()), left) == now && Leftover(old(r.Left()), left) == |p|
    ensures |p| == Min(left, LOG_CHUNK) ==>
              fed + Pieces(stream, old(r.Left()), left) == now + Pieces(stream, r.Left(), left - |p|) &&
              Leftover(old(r.Left()), left) == Leftover(r.Left(), left - |p|)
  {
    hide Payloads, Plus, LogSink.Valid, Pieces, Leftover;
    var n := Min(left, LOG_CHUNK);
    now := fed;
    ghost var rest := r.Left();
    p := r.ReadFull(n);
    if |p| < n {
      NoMorePieces(fed, stream, rest, left);
      return;
    }
    PlusPiece(sink.fed, stream, p);
    PlusPieces(start, fed, [Frame(stream, p)]);
    NextPiece(fed, stream, rest, left);
    sink.Write(stream, p);
    now := fed + [Frame(stream, p)];
  }

  lemma DropTwice(rest: seq<byte>, a: nat, b: nat)
    requires a + b <= |rest|
    ensures rest[a..][b..] == rest[a + b..]
  {
  }

  /** Reads a payload into the sink chunk by chunk. */
  method ReadPayload(r: TimedReader, sink: LogSink, stream: Stream, size: nat) returns (failed: bool, end: Ending)
    requires r.Valid() && r.sink == sink && sink.Valid()
    modifies r, r.conn`pos, r.conn`stalls, sink, sink.outlet
    ensures r.Valid() && sink.Valid()
    ensures failed <==> |old(r.Left())| < size
    ensures sink.fed == Plus(old(sink.fed), Payloads(Pieces(stream, old(r.Left()), size)))
    ensures failed ==> end == Short(Leftover(old(r.Left()), size), r.conn.broken)
    ensures !failed ==> r.Left() == old(r.Left())[size..]
  {
    hide Payloads, Plus, Pieces, Leftover, LogSink.Valid, Short;
    PlusNothing(sink.fed);
    var left: nat := size;
    ghost var fed: seq<Frame> := [];
    ghost var rest := r.Left();
    ghost var start, at := sink.fed, r.conn.pos;
    end := Closed;
    assert fed + Pieces(stream, rest, size) == Pieces(stream, rest, size);
    while left > 0
      invariant r.Valid() && sink.Valid() && left <= size
      invariant r.conn.pos == at + size - left
      invariant Pieces(stream, rest, size) == fed + Pieces(stream, r.Left(), left)
      invariant Leftover(rest, size) == Leftover(r.Left(), left)
      invariant sink.fed == Plus(start, Payloads(fed))
    {
      var p;
      p, fed := ReadPiece(r, sink, stream, left, start, fed);
      if |p| < Min(left, LOG_CHUNK) { return true, Short(|p|, r.conn.broken); }
      left := left - |p|;
    }
    NoMorePieces(fed, stream, r.Left(), left);
    DropTwice(r.conn.data, at, size);
    failed := false;
  }

  /** Reads a system-error frame's message. */
  method ReadError(r: TimedReader, size: nat) returns (end: Ending)
    requires r.Valid() && r.sink.Valid()
    modifies r, r.conn`pos, r.conn`stalls, r.sink.outlet
    ensures r.Valid() && r.sink.Valid()
    ensures r.sink.outlet.log == old(r.sink.outlet.log)
    ensures end == ErrorText(old(r.Left()), size, [], r.conn.broken)
  {
    hide Trim;
    var text, left := [], size;
    while left > 0
      invariant r.Valid() && r.sink.Valid()
      invariant r.sink.outlet.log == old(r.sink.outlet.log)
      invariant ErrorText(old(r.Left()), size, [], r.conn.broken) == ErrorText(r.Left(), left, text, r.conn.broken)
    {
      ghost var now := r.Left();
      var n := Min(left, LOG_CHUNK);
      var p := r.ReadFull(n);
      if |p| < n {
        return Short(|p|, r.conn.broken);
      }
      if |text| < MAX_LOG_LINE {
        text := text + p;
      }
      left := left - n;
    }
    end := DaemonError(Trim(text));
  }

  /** Reads one frame: what its bytes mean, and whether the stream ends there. */
  method ReadFrame(r: TimedReader, sink: LogSink) returns (done: bool, end: Ending, ghost fed: seq<Frame>)
    requires r.Valid() && r.sink == sink && sink.Valid()
    modifies r, r.conn`pos, r.conn`stalls, sink, sink.outlet
    ensures r.Valid() && sink.Valid()
    ensures sink.fed == Plus(old(sink.fed), Payloads(fed))
    ensures done ==> Parse(old(r.Left()), r.conn.broken) == Parsed(fed, end)
    ensures !done ==> |r.Left()| < |old(r.Left())|
    ensures !done ==> Parse(old(r.Left()), r.conn.broken).ending == Parse(r.Left(), r.conn.broken).ending
    ensures !done ==> Parse(old(r.Left()), r.conn.broken).fed == fed + Parse(r.Left(), r.conn.broken).fed
  {
    hide Parse, Payloads, Pieces, Leftover, ErrorText, Decode32, Plus, LogSink.Valid;
    ghost var now := r.Left();
    ParseSteps(now, r.conn.broken);
    PlusNothing(sink.fed);
    fed := [];
    var header := r.ReadFull(HEADER);
    if |header| < HEADER { return true, Short(|header|, r.conn.broken), []; }
    assert header[0] == now[0] && header[4..8] == now[4..8] && r.Left() == now[HEADER..];
    var size := Decode32(header[4..8]);
    if header[0] == FRAME_SYSTEMERR {
      end := ReadError(r, size);
      return true, end, [];
    }
    if header[0] != FRAME_STDOUT && header[0] != FRAME_STDERR { return true, BadHeader(header[0]), []; }
    var stream := if header[0] == FRAME_STDOUT then Stdout else Stderr;
    fed := Pieces(stream, r.Left(), size);
    done, end := ReadPayload(r, sink, stream, size);
  }

  /** Reads frames until the connection ends or a header ends it. However the
      connection hands its bytes over, the sink is fed what the bytes mean and
      the reading ends as they say. */
  method ReadFramedLog(r: TimedReader, sink: LogSink) returns (end: Ending)
    requires r.Valid() && r.sink == sink && sink.Valid()
    modifies r, r.conn`pos, r.conn`stalls, sink, sink.outlet
    ensures r.Valid() && sink.Valid()
    ensures end == Parse(old(r.Left()), r.conn.broken).ending
    ensures sink.fed == Plus(old(sink.fed), Payloads(Parse(old(r.Left()), r.conn.broken).fed))
  {
    hide Parse, Payloads, Pieces, Leftover, ErrorText, Decode32, Plus, LogSink.Valid;
    ghost var fed: seq<Frame> := [];
    ghost var start := r.Left();
    PlusNothing(sink.fed);
    assert [] + Parse(start, r.conn.broken).fed == Parse(start, r.conn.broken).fed;
    while true
      invariant r.Valid() && sink.Valid()
      invariant Parse(start, r.conn.broken).ending == Parse(r.Left(), r.conn.broken).ending
      invariant Parse(start, r.conn.broken).fed == fed + Parse(r.Left(), r.conn.broken).fed
      invariant sink.fed == Plus(old(sink.fed), Payloads(fed))
      decreases |r.Left()|
    {
      var done;
      ghost var more;
      done, end, more := ReadFrame(r, sink);
      PlusPieces(old(sink.fed), fed, more);
      if done { return; }
      assert fed + (more + Parse(r.Left(), r.conn.broken).fed) == (fed + more) + Parse(r.Left(), r.conn.broken).fed;
      fed := fed + more;
    }
  }

  /** A terminal's stream is unframed: every byte is stdout's. */
  method ReadRawLog(r: TimedReader, sink: LogSink) returns (end: Ending)
    requires r.Valid() && r.sink == sink && sink.Valid()
    modifies r, r.conn`pos, r.conn`stalls, sink, sink.outlet
    ensures r.Valid() && sink.Valid()
    ensures end == Short(0, r.conn.broken)
    ensures sink.fed == old(sink.fed).Add(Stdout, old(r.Left()))
  {
    hide LogSink.Valid, Bytes.Add;
    ghost var read: seq<byte> := [];
    ghost var rest, start := r.Left(), sink.fed;
    AddSteps(start, Stdout, read, []);
    while true
      invariant r.Valid() && sink.Valid()
      invariant rest == read + r.Left()
      invariant sink.fed == start.Add(Stdout, read)
      decreases |r.Left()|
    {
      var p := r.Read(LOG_CHUNK);
      if p == [] {
        assert read + [] == read;
        return Short(0, r.conn.broken);
      }
      sink.Write(Stdout, p);
      AddSteps(start, Stdout, read, p);
      read := read + p;
    }
  }

  lemma AddSteps(b: Bytes, s: Stream, p: seq<byte>, q: seq<byte>)
    ensures b.Add(s, p).Add(s, q) == b.Add(s, p + q)
    ensures b.Add(s, []) == b
  {
  }

  lemma NothingExpected()
    ensures Expected([]) == []
  {
  }

  /** One log stream from opening to close. However the bytes arrive and however
      slow the client is, what each stream is offered is what its own bytes
      amount to, and what the client gets of that is in order with every gap
      counted (LogOutlet). */
  method PumpLogs(conn: Connection, tty: bool, tail: int) returns (sink: LogSink, end: Ending)
    requires conn.Valid()
    modifies conn`pos, conn`stalls
    ensures fresh(sink) && sink.Traced()
    ensures !tty ==> end == Parse(old(conn.Left()), conn.broken).ending
    ensures !tty ==> Of(Stdout, sink.trace) == Expected(Payloads(Parse(old(conn.Left()), conn.broken).fed).out)
    ensures !tty ==> Of(Stderr, sink.trace) == Expected(Payloads(Parse(old(conn.Left()), conn.broken).fed).err)
    ensures tty ==> Of(Stdout, sink.trace) == Expected(old(conn.Left())) && Of(Stderr, sink.trace) == []
  {
    hide LogSink.Valid, Expected, Parse, Payloads, LogSink.Traced, Of;
    sink := new LogSink(tail);
    var timed := new TimedReader(conn, sink);
    if tty {
      end := ReadRawLog(timed, sink);
      assert [] + old(conn.Left()) == old(conn.Left());
    } else {
      end := ReadFramedLog(timed, sink);
      ghost var fed := Payloads(Parse(old(conn.Left()), conn.broken).fed);
      assert [] + fed.out == fed.out && [] + fed.err == fed.err;
    }
    NothingExpected();
    sink.Flush();
  }
}
