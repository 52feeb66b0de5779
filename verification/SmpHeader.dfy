/** The SMP message header in CBOR (RFC 8949): an indefinite array of context, version, message type,
  * client identifier and message counter (wosMsgSmp.c). */
module SmpHeader {
  import opened Bytes

  const ARRAY: byte := 0x9F
  const BREAK: byte := 0xFF
  const MAX_CLIENT_ID := 32

  const UINT := 0  // major types
  const TEXT := 3

  /** The head of an item: its major type and an argument below 2 to the 32nd. */
  function Head(major: int, n: nat): (s: seq<byte>)
    requires 0 <= major < 8 && n < 0x1_0000_0000
    ensures s != []
  {
    if n < 24 then [major * 32 + n]
    else if n < 0x100 then [major * 32 + 24, n]
    else if n < 0x1_0000 then [major * 32 + 25, n / 0x100, n % 0x100]
    else [major * 32 + 26, n / 0x100_0000, n / 0x1_0000 % 0x100, n / 0x100 % 0x100, n % 0x100]
  }

  datatype Item = Item(major: int, value: nat, next: nat)

  /** Reading the head at `pos`, non-minimal encodings included. */
  function HeadAt(s: seq<byte>, pos: nat): (r: Option<Item>)
    ensures r.Some? ==> pos < r.value.next <= |s|
  {
    if pos >= |s| then None
    else
      var major, info := s[pos] / 32, s[pos] % 32;
      var size := if info < 24 then 0 else if info == 24 then 1 else if info == 25 then 2
        else if info == 26 then 4 else 8;
      if info > 27 || pos + 1 + size > |s| then None
      else Some(Item(major, if info < 24 then info else BigEndian(s[pos + 1..pos + 1 + size]), pos + 1 + size))
  }

  function BigEndian(s: seq<byte>): nat {
    if s == [] then 0 else BigEndian(s[..|s| - 1]) * 0x100 + s[|s| - 1]
  }

  datatype Header = Header(context: int, version: int, messageType: int, clientId: seq<byte>, messageId: int)

  predicate Packable(h: Header) {
    && 0 <= h.context < 0x100 && 0 <= h.version < 0x100 && 0 <= h.messageType < 0x100
    && 0 <= h.messageId < 0x1_0000_0000 && |h.clientId| <= MAX_CLIENT_ID && 0 !in h.clientId
  }

  /** wosMsgPackSmpHeader. */
  function Pack(h: Header): (s: seq<byte>)
    requires Packable(h)
    ensures s != [] && s[|s| - 1] == BREAK
  {
    [ARRAY] + Head(UINT, h.context) + Head(UINT, h.version) + Head(UINT, h.messageType)
    + (Head(TEXT, |h.clientId|) + h.clientId) + Head(UINT, h.messageId) + [BREAK]
  }

  function UintAt(s: seq<byte>, pos: nat): (r: Option<Item>)
    ensures r.Some? ==> pos < r.value.next <= |s|
  {
    var r := HeadAt(s, pos);
    if r.Some? && r.value.major == UINT then r else None
  }

  /** A header and the position behind what was read for it. */
  datatype Unpacked = Unpacked(header: Header, end: nat)

  /** wosMsgUnpackSmpHeaderFromSmpMsg on the header's own bytes; the numbers are cut to the width of
    * the fields that take them, and what follows the message counter is not looked at. */
  function Unpack(s: seq<byte>): (r: Option<Unpacked>)
    ensures r.Some? ==> r.value.end <= |s|
  {
    if s == [] || s[0] != ARRAY then None
    else
      match UintAt(s, 1)
      case None => None
      case Some(context) =>
        match UintAt(s, context.next)
        case None => None
        case Some(version) =>
          match UintAt(s, version.next)
          case None => None
          case Some(kind) => UnpackRest(s, context.value, version.value, kind.value, kind.next)
  }

  function UnpackRest(s: seq<byte>, context: nat, version: nat, kind: nat, pos: nat): (r: Option<Unpacked>)
    ensures r.Some? ==> r.value.end <= |s|
  {
    match HeadAt(s, pos)
    case None => None
    case Some(text) =>
      if text.major != TEXT || text.value > MAX_CLIENT_ID || text.next + text.value > |s| then None
      else
        match UintAt(s, text.next + text.value)
        case None => None
        case Some(id) =>
          Some(Unpacked(Header(context % 0x100, version % 0x100, kind % 0x100, s[text.next..text.next + text.value],
                               id.value % 0x1_0000_0000),
                        id.next))
  }

  /** The argument of a head that does not fit its first octet. */
  lemma ArgumentOfHead(major: int, n: nat)
    requires 0 <= major < 8 && 24 <= n < 0x1_0000_0000
    ensures var h := Head(major, n);
            && h[0] / 32 == major && h[0] % 32 == (if n < 0x100 then 24 else if n < 0x1_0000 then 25 else 26)
            && |h| == (if n < 0x100 then 2 else if n < 0x1_0000 then 3 else 5) && BigEndian(h[1..]) == n
  {
    hide BigEndian;
    var h := Head(major, n);
    if n < 0x100 {
      assert h[1..] == [n];
      BigEndianOne(n);
    } else if n < 0x1_0000 {
      assert h[1..] == [n / 0x100, n % 0x100];
      BigEndianTwo(n / 0x100, n % 0x100);
    } else {
      assert h[1..] == [n / 0x100_0000, n / 0x1_0000 % 0x100, n / 0x100 % 0x100, n % 0x100];
      BigEndianFour(n / 0x100_0000, n / 0x1_0000 % 0x100, n / 0x100 % 0x100, n % 0x100);
      Digits(n);
    }
  }

  lemma Digits(n: nat)
    ensures ((n / 0x100_0000 * 0x100 + n / 0x1_0000 % 0x100) * 0x100 + n / 0x100 % 0x100) * 0x100 + n % 0x100 == n
  {
    assert n / 0x1_0000 == n / 0x100 / 0x100 && n / 0x100_0000 == n / 0x1_0000 / 0x100;
  }

  /** A head is read back wherever it stands. */
  lemma HeadReads(front: seq<byte>, major: int, n: nat, rest: seq<byte>)
    requires 0 <= major < 8 && n < 0x1_0000_0000
    ensures HeadAt(front + Head(major, n) + rest, |front|) == Some(Item(major, n, |front| + |Head(major, n)|))
  {
    hide BigEndian;
    var s, h := front + Head(major, n) + rest, Head(major, n);
    assert s[|front|] == h[0];
    if n >= 24 {
      hide Head;
      ArgumentOfHead(major, n);
      assert s[|front| + 1..|front| + |h|] == h[1..];
    }
  }

  lemma BigEndianOne(a: byte)
    ensures BigEndian([a]) == a
  {
    assert [a][..0] == [];
  }

  lemma BigEndianTwo(a: byte, b: byte)
    ensures BigEndian([a, b]) == a as int * 0x100 + b
  {
    BigEndianOne(a);
    assert [a, b][..1] == [a];
  }

  lemma BigEndianFour(a: byte, b: byte, c: byte, d: byte)
    ensures BigEndian([a, b, c, d]) == ((a as int * 0x100 + b) * 0x100 + c) * 0x100 + d
  {
    BigEndianTwo(a, b);
    assert [a, b, c, d][..3] == [a, b, c] && [a, b, c][..2] == [a, b];
  }

  lemma UintReads(front: seq<byte>, n: nat, rest: seq<byte>)
    requires n < 0x1_0000_0000
    ensures UintAt(front + Head(UINT, n) + rest, |front|) == Some(Item(UINT, n, |front + Head(UINT, n)|))
  {
    hide Head;
    HeadReads(front, UINT, n, rest);
  }

  /** The receiver reads back the header that was packed. */
  lemma UnpackInvertsPack(h: Header)
    requires Packable(h)
    ensures Unpack(Pack(h)) == Some(Unpacked(h, |Pack(h)| - 1))
  {
    hide Head, HeadAt, UintAt, UnpackRest;
    var s := Pack(h);
    var c, v, k := Head(UINT, h.context), Head(UINT, h.version), Head(UINT, h.messageType);
    var rest := Head(TEXT, |h.clientId|) + h.clientId + Head(UINT, h.messageId) + [BREAK];
    var p1, p2, p3 := [ARRAY] + c, [ARRAY] + c + v, [ARRAY] + c + v + k;
    assert s == [ARRAY] + c + (v + k + rest);
    UintReads([ARRAY], h.context, v + k + rest);
    assert s == p1 + v + (k + rest);
    UintReads(p1, h.version, k + rest);
    assert s == p2 + k + rest;
    UintReads(p2, h.messageType, rest);
    assert s == p3 + rest;
    RestReads(p3, h);
  }

  /** The identifier and the counter are read back behind the three numbers. */
  lemma RestReads(front: seq<byte>, h: Header)
    requires Packable(h)
    ensures var s := front + (Head(TEXT, |h.clientId|) + h.clientId + Head(UINT, h.messageId) + [BREAK]);
            UnpackRest(s, h.context, h.version, h.messageType, |front|) == Some(Unpacked(h, |s| - 1))
  {
    hide Head, HeadAt, UintAt;
    var t, i := Head(TEXT, |h.clientId|), Head(UINT, h.messageId);
    var s := front + (t + h.clientId + i + [BREAK]);
    assert s == front + t + (h.clientId + i + [BREAK]);
    HeadReads(front, TEXT, |h.clientId|, h.clientId + i + [BREAK]);
    assert s == (front + t + h.clientId) + i + [BREAK];
    UintReads(front + t + h.clientId, h.messageId, [BREAK]);
    assert s[|front + t|..|front + t| + |h.clientId|] == h.clientId;
  }

  lemma HeadMore(s: seq<byte>, x: seq<byte>, pos: nat)
    requires HeadAt(s, pos).Some?
    ensures HeadAt(s + x, pos) == HeadAt(s, pos)
  {
    var next := HeadAt(s, pos).value.next;
    assert (s + x)[pos + 1..next] == s[pos + 1..next];
  }

  /** What follows a header does not matter. */
  lemma UnpackMore(s: seq<byte>, x: seq<byte>)
    requires Unpack(s).Some?
    ensures Unpack(s + x) == Unpack(s)
  {
    hide HeadAt;
    HeadMore(s, x, 1);
    var context := UintAt(s, 1).value;
    HeadMore(s, x, context.next);
    var version := UintAt(s, context.next).value;
    HeadMore(s, x, version.next);
    var kind := UintAt(s, version.next).value;
    HeadMore(s, x, kind.next);
    var text := HeadAt(s, kind.next).value;
    HeadMore(s, x, text.next + text.value);
    assert (s + x)[text.next..text.next + text.value] == s[text.next..text.next + text.value];
  }

  /** Of two byte strings of which one is the front of the other, one a packed header: the other one is no
    * header unless only the closing byte is missing. */
  lemma FrontOfHeader(h: Header, n: nat)
    requires Packable(h) && n <= |Pack(h)| && Unpack(Pack(h)[..n]).Some?
    ensures n >= |Pack(h)| - 1
  {
    hide Pack, Unpack;
    UnpackInvertsPack(h);
    UnpackMore(Pack(h)[..n], Pack(h)[n..]);
    assert Pack(h)[..n] + Pack(h)[n..] == Pack(h);
  }
}
