/** The frame decoder in comet/server.go: a read loop that may be cut short at
    any byte by a deadline and has to pick up where it stopped. */
module Decoder {
  import opened Message
  import opened Sequences

  /** What the bytes of a connection say, frame by frame. */
  datatype Event =
    | Heartbeat                               // one zero byte
    | Empty(header: Header)                   // a frame without a body
    | Frame(header: Header, body: seq<byte>)

  /** Events read, the bytes of the unfinished frame, and whether its header
      announces a body that is too long. */
  datatype Parse = Parse(events: seq<Event>, rest: seq<byte>, refused: bool)

  ghost predicate WellFormed(e: Event, maxBody: uint32) {
    match e
    case Heartbeat => true
    case Empty(h) => h.msgType != 0 && h.bodyLen == 0
    case Frame(h, body) => h.msgType != 0 && 0 < h.bodyLen <= maxBody && |body| == h.bodyLen
  }

  function Encode(e: Event): (b: seq<byte>) {
    match e
    case Heartbeat => [0]
    case Empty(h) => Serialize(h)
    case Frame(h, body) => Serialize(h) + body
  }

  function EncodeAll(events: seq<Event>): (b: seq<byte>) {
    if events == [] then [] else Encode(events[0]) + EncodeAll(events[1..])
  }

  /** The first frame of the stream, if it is complete and admissible, and the
      bytes behind it. */
  function First(s: seq<byte>, maxBody: uint32): (e: Option<Event>)
    ensures e.Some? ==> 0 < |Encode(e.value)| <= |s|
  {
    if s == [] then None
    else if s[0] == 0 then Some(Heartbeat)
    else if |s| < HEADER_SIZE then None
    else
      var h := Deserialize(s).value;
      if h.bodyLen > maxBody then None
      else if h.bodyLen == 0 then Some(Empty(h))
      else if |s| < HEADER_SIZE + h.bodyLen then None
      else Some(Frame(h, s[HEADER_SIZE..][..h.bodyLen]))
  }

  /** The one-shot decoder: the whole stream is at hand. */
  function Decode(s: seq<byte>, maxBody: uint32): (p: Parse)
    decreases |s|
  {
    match First(s, maxBody)
    case Some(e) => After([e], Decode(s[|Encode(e)|..], maxBody))
    case None => Parse([], s, |s| >= HEADER_SIZE && s[0] != 0 && Deserialize(s).value.bodyLen > maxBody)
  }

  function After(events: seq<Event>, p: Parse): Parse {
    Parse(events + p.events, p.rest, p.refused)
  }

  lemma FirstIsExact(s: seq<byte>, maxBody: uint32)
    requires First(s, maxBody).Some?
    ensures var e := First(s, maxBody).value;
            && WellFormed(e, maxBody)
            && 0 < |Encode(e)| <= |s| && s == Encode(e) + s[|Encode(e)|..]
  {
    hide Serialize, Deserialize;
    if s[0] != 0 {
      var h := Deserialize(s).value;
      FrontIsHeader(s);
      assert s == s[..HEADER_SIZE] + s[HEADER_SIZE..];
      if h.bodyLen > 0 {
        var tail := s[HEADER_SIZE + h.bodyLen..];
        assert s == s[..HEADER_SIZE] + s[HEADER_SIZE..][..h.bodyLen] + tail;
      }
    }
  }

  lemma FrontIsHeader(s: seq<byte>)
    requires |s| >= HEADER_SIZE
    ensures Deserialize(s).Some?
    ensures var h := Deserialize(s).value; Serialize(h) == s[..HEADER_SIZE] && h.msgType == s[0]
  {
    var front := s[..HEADER_SIZE];
    assert Deserialize(front) == Deserialize(s) by {
      assert front[2..6] == s[2..6];
      assert front[6..10] == s[6..10];
    }
    SerializeDeserialize(front);
  }

  /** Nothing is lost or invented: the events and the unfinished frame spell
      the stream out again, byte for byte. */
  lemma {:induction false} DecodeIsExact(s: seq<byte>, maxBody: uint32)
    ensures var p := Decode(s, maxBody);
            && s == EncodeAll(p.events) + p.rest
            && forall i :: 0 <= i < |p.events| ==> WellFormed(p.events[i], maxBody)
    decreases |s|, 1
  {
    if First(s, maxBody) == None {
      assert Decode(s, maxBody).events == [] && Decode(s, maxBody).rest == s;
    } else {
      MoreIsExact(s, maxBody);
    }
  }

  lemma {:induction false} MoreIsExact(s: seq<byte>, maxBody: uint32)
    requires First(s, maxBody).Some?
    ensures var p := Decode(s, maxBody);
            && s == EncodeAll(p.events) + p.rest
            && forall i :: 0 <= i < |p.events| ==> WellFormed(p.events[i], maxBody)
    decreases |s|, 0
  {
    hide First, Encode, EncodeAll, WellFormed;
    var e := First(s, maxBody).value;
    FirstIsExact(s, maxBody);
    var tail := s[|Encode(e)|..];
    DecodeIsExact(tail, maxBody);
    EncodeHead(e, Decode(tail, maxBody));
  }

  lemma EncodeHead(e: Event, p: Parse)
    ensures EncodeAll([e] + p.events) + p.rest == Encode(e) + (EncodeAll(p.events) + p.rest)
  {
    assert ([e] + p.events)[1..] == p.events;
  }

  /** One complete frame in front of any bytes is read first and alone. */
  lemma DecodeFrame(e: Event, tail: seq<byte>, maxBody: uint32)
    requires WellFormed(e, maxBody)
    ensures Decode(Encode(e) + tail, maxBody) == After([e], Decode(tail, maxBody))
  {
    var s := Encode(e) + tail;
    match e
    case Heartbeat =>
      assert s[1..] == tail;
    case Empty(h) =>
      DeserializeSerialize(h, tail);
      assert s[HEADER_SIZE..] == tail;
    case Frame(h, body) =>
      assert s == Serialize(h) + (body + tail);
      DecodeBody(h, body, tail, maxBody);
  }

  lemma DecodeBody(h: Header, body: seq<byte>, tail: seq<byte>, maxBody: uint32)
    requires WellFormed(Frame(h, body), maxBody)
    ensures Decode(Serialize(h) + (body + tail), maxBody) == After([Frame(h, body)], Decode(tail, maxBody))
  {
    var s := Serialize(h) + (body + tail);
    DeserializeSerialize(h, body + tail);
    hide Deserialize;
    assert s[HEADER_SIZE..] == body + tail;
    assert s[HEADER_SIZE + h.bodyLen..] == tail;
  }

  lemma {:induction false} DecodeAfterFrames(events: seq<Event>, tail: seq<byte>, maxBody: uint32)
    requires forall i :: 0 <= i < |events| ==> WellFormed(events[i], maxBody)
    ensures Decode(EncodeAll(events) + tail, maxBody) == After(events, Decode(tail, maxBody))
  {
    hide Decode, Encode;
    if events == [] {
      assert EncodeAll(events) + tail == tail;
    } else {
      var more := EncodeAll(events[1..]) + tail;
      assert EncodeAll(events) + tail == Encode(events[0]) + more;
      DecodeFrame(events[0], more, maxBody);
      DecodeAfterFrames(events[1..], tail, maxBody);
      assert events == [events[0]] + events[1..];
    }
  }

  /** Every well-formed frame list survives encoding and decoding. */
  lemma DecodeEncode(events: seq<Event>, maxBody: uint32)
    requires forall i :: 0 <= i < |events| ==> WellFormed(events[i], maxBody)
    ensures Decode(EncodeAll(events), maxBody) == Parse(events, [], false)
  {
    DecodeAfterFrames(events, [], maxBody);
    assert EncodeAll(events) + [] == EncodeAll(events);
  }

  /** Where the stream is cut does not matter: decoding the first part and then
      the held bytes followed by the second part decodes the whole. */
  lemma DecodeSplit(a: seq<byte>, b: seq<byte>, maxBody: uint32)
    ensures var p := Decode(a, maxBody);
            Decode(a + b, maxBody) == After(p.events, Decode(p.rest + b, maxBody))
  {
    hide Decode, EncodeAll;
    var p := Decode(a, maxBody);
    DecodeIsExact(a, maxBody);
    assert a + b == EncodeAll(p.events) + (p.rest + b);
    DecodeAfterFrames(p.events, p.rest + b, maxBody);
  }

  /** How one read ends: some bytes arrived before the deadline, or it failed. */
  datatype ReadOutcome = Arrived(n: nat) | Broken

  function Least(a: nat, b: nat): nat {
    if a < b then a else b
  }

  class Conn {
    const stream: seq<byte>      // every byte the peer will ever send
    var pos: nat                 // bytes handed out so far
    var script: seq<ReadOutcome> // how the coming reads end; the connection dies after the last

    ghost predicate Valid()
      reads this
    {
      pos <= |stream|
    }

    function Consumed(): seq<byte>
      requires Valid()
      reads this
    {
      stream[..pos]
    }

    /** Fills buf[lo..hi] as far as bytes arrive before the deadline; -1 is an error. */
    method MyRead(buf: array<byte>, lo: nat, hi: nat) returns (n: int, ghost got: seq<byte>)
      requires Valid() && lo <= hi <= buf.Length
      modifies this, buf
      ensures Valid()
      ensures old(script) == [] ==> n == -1 && script == []
      ensures old(script) != [] ==> script == old(script)[1..]
      ensures n == if old(script) == [] || old(script)[0].Broken? then -1
                   else Least(old(script)[0].n, Least(hi - lo, |stream| - old(pos)))
      ensures n == -1 ==> pos == old(pos)
      ensures n >= 0 ==> old(script) != [] && pos == old(pos) + n && Consumed() == old(Consumed()) + got
      ensures n >= 0 ==> buf[..lo + n] == old(buf[..lo]) + got
    {
      got := [];
      if script == [] {
        return -1, [];
      }
      var outcome := script[0];
      script := script[1..];
      match outcome
      case Broken =>
        n := -1;
      case Arrived(k) =>
        n := if k < hi - lo then k else hi - lo;
        n := if n < |stream| - pos then n else |stream| - pos;
        Fill(buf, lo, stream[pos..pos + n]);
        got := stream[pos..pos + n];
        assert stream[..pos + n] == stream[..pos] + got;
        pos := pos + n;
    }
  }

  method Fill(buf: array<byte>, lo: nat, bytes: seq<byte>)
    requires lo + |bytes| <= buf.Length
    modifies buf
    ensures buf[..lo + |bytes|] == old(buf[..lo]) + bytes
  {
    forall i | 0 <= i < |bytes| {
      buf[lo + i] := bytes[i];
    }
  }

  /** The calls made through the handler table: frames with a body whose type
      has a handler. */
  function Dispatched(events: seq<Event>, table: set<byte>): (calls: seq<(Header, seq<byte>)>) {
    if events == [] then []
    else
      var last := events[|events| - 1];
      Dispatched(events[..|events| - 1], table) +
      if last.Frame? && last.header.msgType in table then [(last.header, last.body)] else []
  }

  function Heartbeats(events: seq<Event>): (beats: seq<Event>) {
    if events == [] then []
    else
      var last := events[|events| - 1];
      Heartbeats(events[..|events| - 1]) + if last.Heartbeat? then [last] else []
  }

  /** What the read loop has to show for the bytes it consumed. */
  datatype Progress = Progress(held: seq<byte>, calls: seq<(Header, seq<byte>)>, heartbeats: nat, refused: bool)

  ghost function Reference(consumed: seq<byte>, maxBody: uint32, table: set<byte>): Progress {
    var p := Decode(consumed, maxBody);
    Progress(p.rest, Dispatched(p.events, table), |Heartbeats(p.events)|, p.refused)
  }

  lemma NothingRead(maxBody: uint32, table: set<byte>)
    ensures Reference([], maxBody, table) == Progress([], [], 0, false)
  {
  }

  /** Bytes that leave the header incomplete are only held. */
  lemma HoldHeader(consumed: seq<byte>, got: seq<byte>, maxBody: uint32, table: set<byte>)
    requires var whole := Reference(consumed, maxBody, table).held + got;
             0 < |whole| < HEADER_SIZE && whole[0] != 0
    ensures var p := Reference(consumed, maxBody, table);
            Reference(consumed + got, maxBody, table) == p.(held := p.held + got, refused := false)
  {
    var p := Decode(consumed, maxBody);
    DecodeSplit(consumed, got, maxBody);
    assert p.events + [] == p.events;
  }

  /** So are bytes that complete an admissible header but not its body. */
  lemma HoldBody(consumed: seq<byte>, got: seq<byte>, h: Header, body: seq<byte>, maxBody: uint32, table: set<byte>)
    requires Reference(consumed, maxBody, table).held + got == Serialize(h) + body
    requires h.msgType != 0 && |body| < h.bodyLen <= maxBody
    ensures var p := Reference(consumed, maxBody, table);
            Reference(consumed + got, maxBody, table) == p.(held := p.held + got, refused := false)
  {
    var p := Decode(consumed, maxBody);
    DecodeSplit(consumed, got, maxBody);
    DeserializeSerialize(h, body);
    assert p.events + [] == p.events;
  }

  /** A header that announces too long a body is where decoding stops. */
  lemma RefuseFrame(consumed: seq<byte>, got: seq<byte>, h: Header, maxBody: uint32, table: set<byte>)
    requires Reference(consumed, maxBody, table).held + got == Serialize(h)
    requires h.msgType != 0 && h.bodyLen > maxBody
    ensures var p := Reference(consumed, maxBody, table);
            Reference(consumed + got, maxBody, table) == p.(held := p.held + got, refused := true)
  {
    var p := Decode(consumed, maxBody);
    DecodeSplit(consumed, got, maxBody);
    DeserializeSerialize(h, []);
    assert Serialize(h) + [] == Serialize(h);
    assert p.events + [] == p.events;
  }

  /** Bytes that complete the frame add it to the events, and to the handler
      calls if its type has a handler. */
  lemma FinishFrame(consumed: seq<byte>, got: seq<byte>, e: Event, maxBody: uint32, table: set<byte>)
    requires WellFormed(e, maxBody) && Reference(consumed, maxBody, table).held + got == Encode(e)
    ensures var p := Reference(consumed, maxBody, table);
            Reference(consumed + got, maxBody, table) ==
            Progress([],
                     p.calls + if e.Frame? && e.header.msgType in table then [(e.header, e.body)] else [],
                     p.heartbeats + if e.Heartbeat? then 1 else 0,
                     false)
  {
    hide Decode, Encode, WellFormed, Dispatched, Heartbeats;
    var p := Decode(consumed, maxBody);
    DecodeSplit(consumed, got, maxBody);
    DecodeEncode([e], maxBody);
    assert EncodeAll([e]) == Encode(e) + [] == Encode(e);
    CallsStep(p.events, e, table);
  }

  lemma CallsStep(events: seq<Event>, e: Event, table: set<byte>)
    ensures Dispatched(events + [e], table) ==
            Dispatched(events, table) + if e.Frame? && e.header.msgType in table then [(e.header, e.body)] else []
    ensures |Heartbeats(events + [e])| == |Heartbeats(events)| + if e.Heartbeat? then 1 else 0
  {
    assert (events + [e])[..|events|] == events;
  }

  lemma HeaderRead(b: seq<byte>)
    requires |b| == HEADER_SIZE
    ensures var h := Deserialize(b).value; Serialize(h) == b && h.msgType == b[0]
  {
    SerializeDeserialize(b);
  }

  /** How one step of the read loop ends: leave the loop, start it over, or go
      on to the next step. */
  datatype Outcome = Break | Continue | Proceed

  /** What one read does to the script, and when it ends the loop: exactly if it
      breaks, is one too many, or completes a header that is refused. */
  predicate Ended(before: seq<ReadOutcome>, after: seq<ReadOutcome>, ends: bool, refused: bool) {
    if before == [] then after == [] && ends && !refused
    else after == before[1..] && (ends <==> before[0].Broken? || refused) && (refused ==> before[0].Arrived?)
  }

  /** Reading has not ended: all reads so far arrived. */
  predicate Reading(all: seq<ReadOutcome>, left: seq<ReadOutcome>) {
    |left| <= |all| && left == all[|all| - |left|..] && forall i :: 0 <= i < |all| - |left| ==> all[i].Arrived?
  }

  /** Reading ended at a header that was refused, at the first broken read, or
      when no read was left. */
  predicate Finished(all: seq<ReadOutcome>, left: seq<ReadOutcome>, refused: bool) {
    var last := |all| - |left| - 1;
    && |left| <= |all| && left == all[last + 1..]
    && (forall i :: 0 <= i < last ==> all[i].Arrived?)
    && (refused ==> 0 <= last && all[last].Arrived?)
    && (!refused ==> left == [] || (0 <= last && all[last].Broken?))
  }

  lemma AtFirst(all: seq<ReadOutcome>)
    ensures Reading(all, all)
  {
  }

  lemma OneMoreRead(all: seq<ReadOutcome>, before: seq<ReadOutcome>, after: seq<ReadOutcome>, ends: bool, refused: bool)
    requires Reading(all, before) && Ended(before, after, ends, refused)
    ensures ends ==> Finished(all, after, refused)
    ensures !ends ==> Reading(all, after) && |after| < |before|
  {
    if before != [] {
      assert all[|all| - |before|..][1..] == all[|all| - |before| + 1..];
      assert before[0] == all[|all| - |before|];
    }
  }

  /** The variables of handleConnection's read loop. */
  class FrameReader {
    const conn: Conn
    const maxBodyLen: uint32
    const funcMap: set<byte>

    var readStep: int // 0: first byte, 1: header, 2: body
    var nRead: nat
    const headBuf: array<byte>
    var dataBuf: array<byte>
    var header: Header

    var calls: seq<(Header, seq<byte>)>
    var heartbeats: nat
    var refused: bool
    ghost var held: seq<byte>

    /** Everything read so far is accounted for by the one-shot decoder. */
    ghost predicate Synced()
      reads this, conn
    {
      && conn.Valid()
      && Reference(conn.Consumed(), maxBodyLen, funcMap) == Progress(held, calls, heartbeats, refused)
    }

    /** The two buffers hold the unfinished frame. */
    ghost predicate Valid()
      reads this, conn, headBuf, dataBuf
    {
      && headBuf != dataBuf && headBuf.Length == HEADER_SIZE
      && dataBuf.Length <= maxBodyLen
      && Synced()
      && !refused
      && 0 <= readStep <= 2
      && (readStep == 0 ==> nRead == 0 && held == [])
      && (readStep == 1 ==> 0 < nRead < HEADER_SIZE && held == headBuf[..nRead] && held[0] != 0)
      && (readStep == 2 ==>
            && headBuf[..] == Serialize(header) && header.msgType != 0
            && nRead < header.bodyLen == dataBuf.Length
            && held == headBuf[..] + dataBuf[..nRead])
    }

    constructor (conn: Conn, maxBodyLen: uint32, funcMap: set<byte>)
      requires conn.Valid() && conn.pos == 0
      ensures Valid() && fresh(headBuf) && fresh(dataBuf)
      ensures this.conn == conn && this.maxBodyLen == maxBodyLen && this.funcMap == funcMap
    {
      this.conn, this.maxBodyLen, this.funcMap := conn, maxBodyLen, funcMap;
      readStep, nRead := 0, 0;
      headBuf := new byte[HEADER_SIZE];
      dataBuf := new byte[0];
      header := Header(0, 0, 0, 0);
      calls, heartbeats, refused, held := [], 0, false, [];
      new;
      NothingRead(maxBodyLen, funcMap);
      assert conn.Consumed() == [];
    }

    method ReadFirstByte() returns (r: Outcome)
      requires Valid() && readStep == 0
      modifies this, conn, headBuf
      ensures Valid() && dataBuf == old(dataBuf)
      ensures r.Proceed? ==> readStep == 1
      ensures Ended(old(conn.script), conn.script, r.Break?, refused)
    {
      hide Reference, Serialize;
      ghost var consumed := conn.Consumed();
      var n, got := conn.MyRead(headBuf, 0, 1);
      if n < 0 {
        return Break;
      }
      if n == 0 {
        return Continue;
      }
      assert headBuf[..1] == [headBuf[0]];
      assert held + got == [headBuf[0]];
      if headBuf[0] == 0 {
        heartbeats := heartbeats + 1;
        FinishFrame(consumed, got, Heartbeat, maxBodyLen, funcMap);
        return Continue;
      }
      HoldHeader(consumed, got, maxBodyLen, funcMap);
      held := held + got;
      nRead := nRead + n;
      readStep := 1;
      return Proceed;
    }

    method ReadHeader() returns (r: Outcome)
      requires Valid() && readStep == 1
      modifies this, conn, headBuf
      ensures Synced() && headBuf != dataBuf
      ensures dataBuf == old(dataBuf) || fresh(dataBuf)
      ensures !r.Break? ==> Valid()
      ensures Ended(old(conn.script), conn.script, r.Break?, refused)
      ensures r.Proceed? ==> readStep == 2
    {
      hide Reference, Serialize, Deserialize;
      ghost var consumed := conn.Consumed();
      var n, got := conn.MyRead(headBuf, nRead, headBuf.Length);
      if n < 0 {
        return Break;
      }
      if n == 0 {
        assert held == headBuf[..nRead];
        return Continue;
      }
      nRead := nRead + n;
      assert held + got == headBuf[..nRead];
      if nRead < HEADER_SIZE {
        HoldHeader(consumed, got, maxBodyLen, funcMap);
        held := held + got;
        return Continue;
      }
      assert headBuf[..nRead] == headBuf[..];
      header := Deserialize(headBuf[..]).value;
      HeaderRead(headBuf[..]);
      if header.bodyLen > maxBodyLen {
        RefuseFrame(consumed, got, header, maxBodyLen, funcMap);
        held, refused := held + got, true;
        return Break;
      }
      if header.bodyLen > 0 {
        assert headBuf[..] == Serialize(header) + [];
        HoldBody(consumed, got, header, [], maxBodyLen, funcMap);
        held := held + got;
        dataBuf := new byte[header.bodyLen];
        readStep := 2;
        nRead := 0;
        return Proceed;
      } else {
        FinishFrame(consumed, got, Empty(header), maxBodyLen, funcMap);
        held := [];
        readStep := 0;
        nRead := 0;
        return Continue;
      }
    }

    /** Also makes the handler call when the body is complete. */
    method ReadBody() returns (r: Outcome)
      requires Valid() && readStep == 2
      modifies this, conn, dataBuf
      ensures Synced() && dataBuf == old(dataBuf)
      ensures !r.Break? ==> Valid()
      ensures Ended(old(conn.script), conn.script, r.Break?, refused)
    {
      hide Reference, Serialize;
      ghost var consumed := conn.Consumed();
      var n, got := conn.MyRead(dataBuf, nRead, dataBuf.Length);
      if n < 0 {
        return Break;
      }
      if n == 0 {
        assert dataBuf[..nRead + 0] == dataBuf[..nRead];
        return Continue;
      }
      nRead := nRead + n;
      assert held + got == headBuf[..] + dataBuf[..nRead];
      if nRead < header.bodyLen {
        HoldBody(consumed, got, header, dataBuf[..nRead], maxBodyLen, funcMap);
        held := held + got;
        return Continue;
      }
      assert dataBuf[..nRead] == dataBuf[..];
      FinishFrame(consumed, got, Frame(header, dataBuf[..]), maxBodyLen, funcMap);
      if header.msgType in funcMap {
        calls := calls + [(header, dataBuf[..])];
      }
      held := [];
      readStep := 0;
      nRead := 0;
      return Continue;
    }
  }

  /** The main loop of handleConnection. However the reads are cut, the handler
      calls made, the heartbeats counted and the bytes still held are those of
      the one-shot decoder on the bytes consumed; and reading ends only at a
      broken read, when none is left, or at a header that is refused. */
  method HandleConnection(conn: Conn, maxBodyLen: uint32, funcMap: set<byte>)
    returns (calls: seq<(Header, seq<byte>)>, heartbeats: nat, refused: bool, ghost held: seq<byte>)
    requires conn.Valid() && conn.pos == 0
    modifies conn
    ensures conn.Valid()
    ensures Reference(conn.Consumed(), maxBodyLen, funcMap) == Progress(held, calls, heartbeats, refused)
    ensures Finished(old(conn.script), conn.script, refused)
  {
    hide Reference, Reading, Finished, Ended;
    AtFirst(conn.script);
    var r := new FrameReader(conn, maxBodyLen, funcMap);
    while true
      invariant fresh(r) && fresh(r.headBuf) && fresh(r.dataBuf)
      invariant r.conn == conn && r.maxBodyLen == maxBodyLen && r.funcMap == funcMap
      invariant r.Valid()
      invariant Reading(old(conn.script), conn.script)
      decreases |conn.script|
    {
      if r.readStep == 0 {
        ghost var before := conn.script;
        var outcome := r.ReadFirstByte();
        OneMoreRead(old(conn.script), before, conn.script, outcome.Break?, r.refused);
        if outcome == Break { break; }
        if outcome == Continue { continue; }
      }
      if r.readStep == 1 {
        ghost var before := conn.script;
        var outcome := r.ReadHeader();
        OneMoreRead(old(conn.script), before, conn.script, outcome.Break?, r.refused);
        if outcome == Break { break; }
        if outcome == Continue { continue; }
      }
      ghost var before := conn.script;
      var outcome := r.ReadBody();
      OneMoreRead(old(conn.script), before, conn.script, outcome.Break?, r.refused);
      if outcome == Break { break; }
    }
    return r.calls, r.heartbeats, r.refused, r.held;
  }
}
