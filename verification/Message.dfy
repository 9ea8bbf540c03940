/** The frame header of comet/message.go: ten bytes, big-endian. */
module Message {
  import opened Sequences

  type byte = b: int | 0 <= b < 0x100
  type uint32 = n: int | 0 <= n < 0x1_0000_0000

  const HEADER_SIZE: int := 10

  datatype Header = Header(msgType: byte, ver: byte, seqNo: uint32, bodyLen: uint32)

  function BigEndian32(n: uint32): (b: seq<byte>)
    ensures |b| == 4
  {
    [n / 0x100_0000, n / 0x1_0000 % 0x100, n / 0x100 % 0x100, n % 0x100]
  }

  function FromBigEndian32(b: seq<byte>): (n: uint32)
    requires |b| == 4
  {
    (b[0] as int) * 0x100_0000 + (b[1] as int) * 0x1_0000 + (b[2] as int) * 0x100 + b[3]
  }

  lemma BigEndianRoundTrip(n: uint32)
    ensures FromBigEndian32(BigEndian32(n)) == n
  {
    assert n / 0x1_0000 == n / 0x100_0000 * 0x100 + n / 0x1_0000 % 0x100;
    assert n / 0x100 == n / 0x1_0000 * 0x100 + n / 0x100 % 0x100;
  }

  lemma BigEndianUnique(b: seq<byte>)
    requires |b| == 4
    ensures BigEndian32(FromBigEndian32(b)) == b
  {
    var n := FromBigEndian32(b);
    assert n / 0x100_0000 == b[0];
    assert n / 0x1_0000 == (b[0] as int) * 0x100 + b[1];
    assert n / 0x100 == ((b[0] as int) * 0x100 + b[1]) * 0x100 + b[2];
  }

  function Serialize(h: Header): (b: seq<byte>)
    ensures |b| == HEADER_SIZE
  {
    [h.msgType, h.ver] + BigEndian32(h.seqNo) + BigEndian32(h.bodyLen)
  }

  /** A short buffer is an error; bytes after the tenth are ignored. */
  function Deserialize(b: seq<byte>): (h: Option<Header>)
    ensures h.Some? <==> |b| >= HEADER_SIZE
  {
    if |b| < HEADER_SIZE then None
    else Some(Header(b[0], b[1], FromBigEndian32(b[2..6]), FromBigEndian32(b[6..10])))
  }

  lemma DeserializeSerialize(h: Header, tail: seq<byte>)
    ensures Deserialize(Serialize(h) + tail) == Some(h)
  {
    var b := Serialize(h) + tail;
    assert b[2..6] == BigEndian32(h.seqNo);
    assert b[6..10] == BigEndian32(h.bodyLen);
    BigEndianRoundTrip(h.seqNo);
    BigEndianRoundTrip(h.bodyLen);
  }

  lemma SerializeDeserialize(b: seq<byte>)
    requires |b| == HEADER_SIZE
    ensures Serialize(Deserialize(b).value) == b
  {
    BigEndianUnique(b[2..6]);
    BigEndianUnique(b[6..10]);
  }

  /** Lexicographic order. */
  predicate Below(a: seq<int>, b: seq<int>)
    requires |a| == |b|
  {
    a != [] && (a[0] < b[0] || (a[0] == b[0] && Below(a[1..], b[1..])))
  }

  lemma {:induction false} BelowConcat(a: seq<int>, b: seq<int>, x: seq<int>, y: seq<int>)
    requires |a| == |b| && |x| == |y|
    ensures Below(a + x, b + y) <==> Below(a, b) || (a == b && Below(x, y))
    decreases |a|
  {
    if a == [] {
      assert a + x == x && b + y == y;
    } else {
      BelowConcat(a[1..], b[1..], x, y);
      assert (a + x)[1..] == a[1..] + x && (b + y)[1..] == b[1..] + y;
      assert a == b <==> a[0] == b[0] && a[1..] == b[1..];
    }
  }

  lemma BelowPair(a: int, b: int, x: int, y: int)
    ensures Below([a], [b]) <==> a < b
    ensures Below([a, x], [b, y]) <==> a < b || (a == b && x < y)
  {
    BelowConcat([a], [b], [x], [y]);
    assert [a, x] == [a] + [x] && [b, y] == [b] + [y];
  }

  /** Numbers are ordered as their bytes are: the first byte is the highest. */
  lemma BigEndianOrder(m: uint32, n: uint32)
    ensures m < n <==> Below(BigEndian32(m), BigEndian32(n))
  {
    var a, b := BigEndian32(m), BigEndian32(n);
    BigEndianRoundTrip(m);
    BigEndianRoundTrip(n);
    assert a == [a[0], a[1]] + [a[2], a[3]] && b == [b[0], b[1]] + [b[2], b[3]];
    BelowPair(a[0], b[0], a[1], b[1]);
    BelowPair(a[2], b[2], a[3], b[3]);
    BelowConcat([a[0], a[1]], [b[0], b[1]], [a[2], a[3]], [b[2], b[3]]);
  }

  /** What comes first in a header counts most: type, version, number, length. */
  predicate HeaderBelow(g: Header, h: Header) {
    || g.msgType < h.msgType
    || (g.msgType == h.msgType &&
        (g.ver < h.ver || (g.ver == h.ver &&
                           (g.seqNo < h.seqNo || (g.seqNo == h.seqNo && g.bodyLen < h.bodyLen)))))
  }

  /** The format: serialized headers are ordered as the headers are. As every ten
      bytes are the serialization of a header, no other format does this. */
  lemma SerializeOrder(g: Header, h: Header)
    ensures HeaderBelow(g, h) <==> Below(Serialize(g), Serialize(h))
  {
    hide BigEndian32;
    var a, b := [g.msgType, g.ver], [h.msgType, h.ver];
    BelowPair(g.msgType, h.msgType, g.ver, h.ver);
    BigEndianOrder(g.seqNo, h.seqNo);
    BigEndianOrder(g.bodyLen, h.bodyLen);
    BigEndianRoundTrip(g.seqNo);
    BigEndianRoundTrip(h.seqNo);
    BelowConcat(a, b, BigEndian32(g.seqNo), BigEndian32(h.seqNo));
    BelowConcat(a + BigEndian32(g.seqNo), b + BigEndian32(h.seqNo), BigEndian32(g.bodyLen), BigEndian32(h.bodyLen));
    assert a == b <==> g.msgType == h.msgType && g.ver == h.ver;
    assert a + BigEndian32(g.seqNo) == b + BigEndian32(h.seqNo) <==> a == b && g.seqNo == h.seqNo by {
      SameParts(a, b, BigEndian32(g.seqNo), BigEndian32(h.seqNo));
    }
  }

  lemma SameParts(a: seq<int>, b: seq<int>, x: seq<int>, y: seq<int>)
    requires |a| == |b|
    ensures a + x == b + y <==> a == b && x == y
  {
    if a + x == b + y {
      assert a == (a + x)[..|a|] && b == (b + y)[..|b|];
      assert x == (a + x)[|a|..] && y == (b + y)[|b|..];
    }
  }

  /** Where the fields are. */
  lemma Positions(h: Header, ver: byte, seqNo: uint32, bodyLen: uint32)
    ensures var b := Serialize(h);
            && b[0] == h.msgType && b[1] == h.ver
            && (h.seqNo < 0x100 ==> b[2..6] == [0, 0, 0, h.seqNo])
            && (h.bodyLen < 0x100 ==> b[6..10] == [0, 0, 0, h.bodyLen])
            && Serialize(h.(ver := ver)) == b[1 := ver]
            && Serialize(h.(seqNo := seqNo))[..2] == b[..2] && Serialize(h.(seqNo := seqNo))[6..] == b[6..]
            && Serialize(h.(bodyLen := bodyLen))[..6] == b[..6]
  {
  }

  /** A header that several jobs may point to; Deserialize writes into it. */
  class HeaderRef {
    var value: Header

    constructor (h: Header)
      ensures value == h
    {
      value := h;
    }

    /** A buffer of fewer than ten bytes leaves the receiver as it was. */
    method Read(b: seq<byte>) returns (ok: bool)
      modifies this
      ensures ok <==> |b| >= HEADER_SIZE
      ensures value == if ok then Deserialize(b).value else old(value)
    {
      match Deserialize(b)
      case None => ok := false;
      case Some(h) =>
        value := h;
        ok := true;
    }
  }
}
