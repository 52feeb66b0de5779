/** The PUBLISH packet (section 3.3 of MQTT 3.1.1): send__real_publish writes it, handle__publish reads it. */
module PublishPacket {
  import opened Bytes
  import opened Packets
  import RemainingLength
  import opened Framing
  import opened Streams

  const PUBLISH: byte := 0x30

  datatype Publish = Publish(
    dup: bool, qos: int, retain: bool, topic: seq<byte>, mid: int, payload: seq<byte>)

  /** What send__real_publish may be given: its callers have checked the topic length and the QoS. */
  predicate Sendable(p: Publish) {
    0 <= p.qos <= 2 && |p.topic| < 0x1_0000 && 0 <= p.mid < 0x1_0000
  }

  function Header(p: Publish): byte
    requires Sendable(p)
  {
    PUBLISH + Bit(p.dup) * 8 + p.qos * 2 + Bit(p.retain)
  }

  function Body(p: Publish): seq<byte>
    requires Sendable(p)
  {
    Str(p.topic) + (if p.qos > 0 then U16(p.mid) else []) + p.payload
  }

  /** send__real_publish up to packet__queue: refused exactly if the body does not fit a Remaining
    * Length field, otherwise the packet is filled to its last byte. */
  method SendRealPublish(p: Publish) returns (rc: Rc, packet: Packet)
    requires Sendable(p) && |p.payload| <= 268435455
    ensures rc == if |Body(p)| < RemainingLength.LIMIT then Success else PayloadSize
    ensures rc == Success ==>
              packet.Valid() && packet.pos == packet.packetLength
                && packet.Written() == Wire(true, Frame(Header(p), Body(p)))
  {
    hide U16, Str, Header, RemainingLength.Encode, Packet.Written;
    StrLength(p.topic);
    var packetlen := 2 + |p.topic| + |p.payload|;
    if p.qos > 0 {
      packetlen := packetlen + 2;
    }
    packet := new Packet(Header(p), packetlen);
    rc := packet.Alloc();
    if rc != Success {
      return;
    }
    ghost var front := packet.Written();
    packet.WriteString(p.topic);
    if p.qos > 0 {
      packet.WriteUint16(p.mid);
    }
    if |p.payload| > 0 {
      packet.WriteBytes(p.payload);
    }
    assert packet.Written() == front + Body(p);
  }

  /** What handle__publish makes of a packet; the identifier is 0 for QoS 0. */
  function Parse(command: byte, body: seq<byte>): Option<Publish> {
    var qos := command / 2 % 4;
    match StringAt(body, 0)
    case None => None
    case Some(topic) =>
      if topic == [] || qos == 3 then None
      else
        var pos := 2 + |topic|;
        if qos == 0 then
          Some(Publish(command / 8 % 2 == 1, 0, command % 2 == 1, topic, 0, body[pos..]))
        else
          match Uint16At(body, pos)
          case None => None
          case Some(mid) => Some(Publish(command / 8 % 2 == 1, qos, command % 2 == 1, topic, mid, body[pos + 2..]))
  }

  /** The parser of handle__publish. */
  method HandlePublish(in_packet: InPacket) returns (rc: Rc, p: Publish)
    requires in_packet.pos == 0
    modifies in_packet`pos
    ensures match Parse(in_packet.command, in_packet.payload)
            case None => rc == Protocol
            case Some(q) => rc == Success && p == q && in_packet.pos == |in_packet.payload|
  {
    hide StringAt, Uint16At;
    var header := in_packet.command;
    var dup, qos, retain := header / 8 % 2 == 1, header / 2 % 4, header % 2 == 1;
    p := Publish(dup, qos, retain, [], 0, []);
    var topic;
    rc, topic := in_packet.ReadString();
    if rc != Success {
      return;
    }
    if topic == [] {
      return Protocol, p;
    }
    p := p.(topic := topic);
    if qos > 0 {
      var mid;
      rc, mid := in_packet.ReadUint16();
      if rc != Success {
        return;
      }
      p := p.(mid := mid);
    }
    var payloadlen := |in_packet.payload| - in_packet.pos;
    if payloadlen > 0 {
      var bytes;
      rc, bytes := in_packet.ReadBytes(payloadlen);
      p := p.(payload := bytes);
    }
    if qos == 3 {
      return Protocol, p;
    }
  }

  lemma HeaderBits(p: Publish)
    requires Sendable(p)
    ensures var h := Header(p);
            (h / 8 % 2 == 1) == p.dup && h / 2 % 4 == p.qos && (h % 2 == 1) == p.retain
  {
  }

  /** The receiver recovers a sent packet exactly if its topic is not empty; QoS 0 has no identifier. */
  lemma RoundTripIff(p: Publish)
    requires Sendable(p)
    ensures Parse(Header(p), Body(p)) ==
            if p.topic == [] then None else Some(if p.qos == 0 then p.(mid := 0) else p)
  {
    hide Str, U16, StringAt, Uint16At;
    HeaderBits(p);
    var id := if p.qos > 0 then U16(p.mid) else [];
    StrLength(p.topic);
    assert Body(p) == [] + Str(p.topic) + (id + p.payload);
    StringReads([], p.topic, id + p.payload);
    if p.qos > 0 {
      Uint16Reads(Str(p.topic), p.mid, p.payload);
    }
    assert Body(p)[2 + |p.topic| + |id|..] == p.payload;
  }

  /** Conversely, whatever the receiver accepts is what send__real_publish prints for the fields that are
    * recovered, octet for octet. */
  lemma AcceptedIsPrinted(command: byte, body: seq<byte>)
    requires Parse(command, body).Some?
    ensures var p := Parse(command, body).value;
            && Sendable(p) && p.topic != [] && body == Body(p)
            && command % 16 == Header(p) % 16 && (command / 16 == PUBLISH / 16 ==> command == Header(p))
  {
    hide Str, U16, StringAt, Uint16At;
    var p := Parse(command, body).value;
    var pos := 2 + |p.topic|;
    CommandBits(command);
    StringIsThere(body, 0);
    if p.qos > 0 {
      Uint16IsThere(body, pos);
      assert body == body[0..pos] + body[pos..pos + 2] + body[pos + 2..];
    } else {
      assert body == body[0..pos] + body[pos..];
    }
  }

  lemma CommandBits(n: int)
    requires 0 <= n < 256
    ensures n % 16 == n / 8 % 2 * 8 + n / 2 % 4 * 2 + n % 2
  {
    assert n % 16 == n - n / 16 * 16 && n / 8 / 2 == n / 16 && n / 2 / 4 == n / 8;
  }

  /** The receiver accepts exactly the packets that are printed for a topic that is not empty. */
  lemma AcceptedIff(command: byte, body: seq<byte>)
    requires command / 16 == PUBLISH / 16
    ensures Parse(command, body).Some? <==>
            exists p :: Sendable(p) && p.topic != [] && command == Header(p) && body == Body(p)
  {
    hide Parse, Header, Body;
    if Parse(command, body).Some? {
      AcceptedIsPrinted(command, body);
    }
    if p :| Sendable(p) && p.topic != [] && command == Header(p) && body == Body(p) {
      RoundTripIff(p);
    }
  }

  // ----- a stream of packets -----

  function Frames(ps: seq<Publish>): (frames: seq<Frame>)
    requires forall i :: 0 <= i < |ps| ==> Sendable(ps[i])
  {
    seq(|ps|, i requires 0 <= i < |ps| => Frame(Header(ps[i]), Body(ps[i])))
  }

  /** From end to end: however writer and socket cut the bytes of any sequence of sent packets, the
    * receiver parses exactly those packets, in order. */
  lemma PublishesThroughSocket(ps: seq<Publish>, pieces: seq<seq<byte>>)
    requires forall i :: 0 <= i < |ps| ==>
               Sendable(ps[i]) && ps[i].topic != [] && |Body(ps[i])| < RemainingLength.LIMIT
    requires Concat(pieces) == Stream(true, Frames(ps))
    ensures var r := Calls(Start(true, []), pieces);
            && !r.failed && |r.frames| == |ps|
            && forall i :: 0 <= i < |ps| ==>
                 Parse(r.frames[i].command, r.frames[i].body) ==
                 Some(if ps[i].qos == 0 then ps[i].(mid := 0) else ps[i])
  {
    hide Parse, Body;
    StreamThroughSocket(true, Frames(ps), [], pieces);
    forall i | 0 <= i < |ps|
      ensures Parse(Header(ps[i]), Body(ps[i])) == Some(if ps[i].qos == 0 then ps[i].(mid := 0) else ps[i])
    {
      RoundTripIff(ps[i]);
    }
  }
}
