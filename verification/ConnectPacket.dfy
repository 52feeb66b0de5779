/** The CONNECT packet (section 3.1 of MQTT 3.1.1): the client's send__connect writes it, the
  * broker's handle__connect reads it. */
module ConnectPacket {
  import opened Bytes
  import opened Packets
  import opened Framing
  import opened Streams
  import RemainingLength
  import Topics
  import Utf8

  const CONNECT: byte := 0x10

  const NAME31: seq<byte> := [0x4D, 0x51, 0x49, 0x73, 0x64, 0x70]  // "MQIsdp"
  const NAME311: seq<byte> := [0x4D, 0x51, 0x54, 0x54]              // "MQTT"

  const REFUSED_PROTOCOL_VERSION := 1
  const REFUSED_IDENTIFIER_REJECTED := 2
  const REFUSED_NOT_AUTHORIZED := 5

  datatype Version = V31 | V311 | OtherVersion

  datatype Will = Will(topic: seq<byte>, payload: seq<byte>, qos: int, retain: bool)

  datatype Connect = Connect(
    version: Version, cleanSession: bool, keepalive: nat, clientId: seq<byte>, will: Option<Will>,
    username: Option<seq<byte>>, password: Option<seq<byte>>)

  // ----- the sender -----

  /** The Remaining Length that send__connect computes. */
  function Length(c: Connect): nat {
    (if c.version == V31 then 12 else 10) + 2 + |c.clientId|
    + (match c.will case None => 0 case Some(w) => 2 + |w.topic| + 2 + |w.payload|)
    + (if c.username.None? then 0
       else 2 + |c.username.value| + (if c.password.None? then 0 else 2 + |c.password.value|))
  }

  function WillFlags(will: Option<Will>): int {
    if will.None? then 0 else Bit(will.value.retain) * 32 + will.value.qos % 4 * 8 + 4
  }

  function Flags(c: Connect): byte {
    Bit(c.cleanSession) * 2 + WillFlags(c.will)
    + (if c.username.None? then 0 else 128 + (if c.password.None? then 0 else 64))
  }

  function Header(c: Connect): seq<byte>
    requires c.keepalive < 0x1_0000
  {
    (if c.version == V31 then Str(NAME31) + [3] else Str(NAME311) + [4]) + [Flags(c)] + U16(c.keepalive)
  }

  function WillPart(will: Option<Will>): seq<byte> {
    if will.None? then [] else Str(Cut(will.value.topic)) + Str(Cut(will.value.payload))
  }

  function LoginPart(c: Connect): seq<byte> {
    if c.username.None? then []
    else if c.password.None? then Str(Cut(c.username.value))
    else Str(Cut(c.username.value)) + Str(Cut(c.password.value))
  }

  /** What send__connect writes behind the fixed header. */
  function Body(c: Connect): seq<byte>
    requires c.keepalive < 0x1_0000
  {
    Header(c) + Str(Cut(c.clientId)) + WillPart(c.will) + LoginPart(c)
  }

  /** All fields fit their 16-bit lengths. */
  predicate FieldsFit(c: Connect) {
    && |c.clientId| < 0x1_0000
    && (c.will.Some? ==> |c.will.value.topic| < 0x1_0000 && |c.will.value.payload| < 0x1_0000)
    && (c.username.Some? ==> |c.username.value| < 0x1_0000 && (c.password.Some? ==> |c.password.value| < 0x1_0000))
  }

  lemma HeaderLength(c: Connect)
    requires c.keepalive < 0x1_0000
    ensures |Header(c)| == if c.version == V31 then 12 else 10
  {
  }

  /** What is written is never longer than the computed length, and fills it exactly if every field
    * fits its 16-bit length. */
  lemma FilledIff(c: Connect)
    requires c.keepalive < 0x1_0000
    ensures |Body(c)| <= Length(c) && (|Body(c)| == Length(c) <==> FieldsFit(c))
  {
    hide Str, Cut, Header;
    HeaderLength(c);
    StrLength(Cut(c.clientId));
    if c.will.Some? {
      StrLength(Cut(c.will.value.topic));
      StrLength(Cut(c.will.value.payload));
    }
    if c.username.Some? {
      StrLength(Cut(c.username.value));
      if c.password.Some? {
        StrLength(Cut(c.password.value));
      }
    }
  }

  method RemainingLengthOf(c: Connect) returns (length: nat)
    ensures length == Length(c)
  {
    var headerlen := if c.version == V31 then 12 else 10;
    var payloadlen := 2 + |c.clientId|;
    if c.will.Some? {
      payloadlen := payloadlen + 2 + |c.will.value.topic| + 2 + |c.will.value.payload|;
    }
    if c.username.Some? {
      payloadlen := payloadlen + 2 + |c.username.value|;
      if c.password.Some? {
        payloadlen := payloadlen + 2 + |c.password.value|;
      }
    }
    return headerlen + payloadlen;
  }

  /** send__connect up to packet__queue. */
  method SendConnect(c: Connect) returns (rc: Rc, packet: Packet)
    requires c.keepalive < 0x1_0000 && Length(c) < 0x8000_0000
    ensures rc == if c.version == OtherVersion then Inval
                  else if Length(c) < RemainingLength.LIMIT then Success else PayloadSize
    ensures rc == Success ==> packet.Valid()
    ensures rc == Success ==> packet.Written() == [CONNECT] + RemainingLength.Encode(Length(c)) + Body(c)
    ensures rc == Success ==> (packet.pos == packet.packetLength <==> FieldsFit(c))
  {
    hide Str, U16, Cut, Length, Header, FieldsFit, Packet.Written, RemainingLength.Encode;
    packet := new Packet(CONNECT, 0);
    if c.version == OtherVersion {
      return Inval, packet;
    }
    var length := RemainingLengthOf(c);
    packet := new Packet(CONNECT, length);
    rc := packet.Alloc();
    if rc != Success {
      return;
    }
    FilledIff(c);
    ghost var front := packet.Written();
    WriteHeader(c, packet);
    WritePayload(c, packet);
    assert packet.Written() == front + Body(c);
  }

  /** The variable header. */
  method WriteHeader(c: Connect, packet: Packet)
    requires c.keepalive < 0x1_0000 && c.version != OtherVersion
    requires packet.Valid() && packet.pos + |Header(c)| <= packet.packetLength
    modifies packet`pos, packet.payload
    ensures packet.Valid() && packet.Written() == old(packet.Written()) + Header(c)
  {
    hide Str, U16, Cut, Packet.Written;
    HeaderLength(c);
    ghost var front := packet.Written();
    if c.version == V31 {
      packet.WriteString(NAME31);
      packet.WriteByte(3);
    } else {
      packet.WriteString(NAME311);
      packet.WriteByte(4);
    }
    var flags: int := Bit(c.cleanSession) * 2;
    if c.will.Some? {
      flags := flags + Bit(c.will.value.retain) * 32 + c.will.value.qos % 4 * 8 + 4;
    }
    if c.username.Some? {
      flags := flags + 128;
      if c.password.Some? {
        flags := flags + 64;
      }
    }
    packet.WriteByte(flags);
    packet.WriteUint16(c.keepalive);
    assert packet.Written() == front + Header(c);
  }

  method WritePayload(c: Connect, packet: Packet)
    requires packet.Valid()
    requires packet.pos + |Str(Cut(c.clientId))| + |WillPart(c.will)| + |LoginPart(c)| <= packet.packetLength
    modifies packet`pos, packet.payload
    ensures packet.Valid()
    ensures packet.Written() == old(packet.Written()) + Str(Cut(c.clientId)) + WillPart(c.will) + LoginPart(c)
  {
    hide Str, U16, Cut, Packet.Written;
    StrLength(Cut(c.clientId));
    packet.WriteString(c.clientId);
    ghost var s := packet.Written();
    if c.will.Some? {
      StrLength(Cut(c.will.value.topic));
      StrLength(Cut(c.will.value.payload));
      packet.WriteString(c.will.value.topic);
      packet.WriteString(c.will.value.payload);
    }
    assert packet.Written() == s + WillPart(c.will);
    s := packet.Written();
    if c.username.Some? {
      StrLength(Cut(c.username.value));
      packet.WriteString(c.username.value);
      if c.password.Some? {
        StrLength(Cut(c.password.value));
        packet.WriteString(c.password.value);
      }
    }
    assert packet.Written() == s + LoginPart(c);
  }

  // ----- the receiver -----

  /** Listener settings that the parser looks at, and the identifier that client_id_gen would give. */
  datatype Server = Server(allowZeroLength: bool, generatedId: seq<byte>, prefix: seq<byte>)

  /** The outcome of reading one part of the packet: its value and the position behind it, or the
    * error with the return code of a CONNACK sent before. */
  datatype Part<T> = Go(value: T, pos: nat) | Stop(rc: Rc, connack: Option<int>)

  /** A C string in a buffer ends at its first NUL. */
  function CString(s: seq<byte>): seq<byte> {
    if s == [] || s[0] == 0 then [] else [s[0]] + CString(s[1..])
  }

  /** Protocol name and version. */
  function VersionAt(command: byte, body: seq<byte>): (part: Part<Version>)
    ensures part.Go? ==> part.value != OtherVersion
  {
    match Uint16At(body, 0)
    case None => Stop(NoMem, None)
    case Some(n) =>
      if (n != 4 && n != 6) || 2 + n > |body| then Stop(Protocol, None)
      else if 2 + n + 1 > |body| then Stop(NoMem, None)
      else
        var name, version := CString(body[2..2 + n]), body[2 + n] % 128;
        if name == NAME31 then
          if version != 3 then Stop(Protocol, Some(REFUSED_PROTOCOL_VERSION)) else Go(V31, 2 + n + 1)
        else if name == NAME311 then
          if version != 4 then Stop(Protocol, Some(REFUSED_PROTOCOL_VERSION))
          else if command % 16 != 0 then Stop(Protocol, None)
          else Go(V311, 2 + n + 1)
        else Stop(Protocol, None)
  }

  /** The connect flags. */
  function FlagsAt(v: Version, body: seq<byte>, pos: nat): Part<byte> {
    if pos + 1 > |body| then Stop(NoMem, None)
    else if v == V311 && body[pos] % 2 == 1 then Stop(Protocol, None)
    else if body[pos] / 8 % 4 == 3 then Stop(Protocol, None)
    else Go(body[pos], pos + 1)
  }

  function KeepaliveAt(body: seq<byte>, pos: nat): Part<nat> {
    match Uint16At(body, pos)
    case None => Stop(NoMem, None)
    case Some(n) => Go(n, pos + 2)
  }

  /** strncmp over the length of the prefix. */
  predicate HasPrefix(prefix: seq<byte>, s: seq<byte>) {
    |prefix| <= |s| && s[..|prefix|] == prefix
  }

  /** The client identifier that takes effect. */
  ghost function ClientIdAt(v: Version, cleanSession: bool, server: Server,
      body: seq<byte>, pos: nat): Part<seq<byte>> {
    match StringAt(body, pos)
    case None => Stop(NoMem, None)
    case Some(id) =>
      if id == [] && (v == V31 || !cleanSession || !server.allowZeroLength) then
        Stop(Protocol, Some(REFUSED_IDENTIFIER_REJECTED))
      else
        var used := if id == [] then server.generatedId else id;
        if !HasPrefix(server.prefix, used) then Stop(NoMem, Some(REFUSED_NOT_AUTHORIZED))
        else if !Utf8.WellFormed(used) then Stop(NoMem, None)
        else Go(used, pos + 2 + |id|)
  }

  /** The will, if the flags announce one. */
  ghost function WillAt(v: Version, flags: byte, body: seq<byte>, pos: nat): Part<Option<Will>> {
    var present, qos, retain := flags / 4 % 2 == 1, flags / 8 % 4, flags / 32 % 2 == 1;
    if !present then
      if v == V311 && (qos != 0 || retain) then Stop(Protocol, None) else Go(None, pos)
    else
      match StringAt(body, pos)
      case None => Stop(NoMem, None)
      case Some(topic) =>
        if topic == [] || !Utf8.WellFormed(topic) || !Topics.NoWildcard(topic) then Stop(NoMem, None)
        else
          match StringAt(body, pos + 2 + |topic|)
          case None => Stop(NoMem, None)
          case Some(payload) => Go(Some(Will(topic, payload, qos, retain)), pos + 2 + |topic| + 2 + |payload|)
  }

  datatype Login = Login(username: Option<seq<byte>>, password: Option<seq<byte>>)

  /** User name and password; version 3.1 forgives a flag without its string.  If the string's length
    * can be read but the string is not there, the position stays behind the length. */
  ghost function LoginAt(v: Version, flags: byte, body: seq<byte>, pos: nat): Part<Login> {
    var name, secret := flags / 128 % 2 == 1, flags / 64 % 2 == 1;
    if !name then
      if v == V311 && secret then Stop(Protocol, None) else Go(Login(None, None), pos)
    else
      match StringAt(body, pos)
      case None => if v == V31 then Go(Login(None, None), Missing(body, pos)) else Stop(Protocol, None)
      case Some(username) =>
        if !Utf8.WellFormed(username) then Stop(Protocol, None)
        else
          var next := pos + 2 + |username|;
          if !secret then Go(Login(Some(username), None), next)
          else
            match StringAt(body, next)
            case None => if v == V31 then Go(Login(Some(username), None), Missing(body, next)) else Stop(Protocol, None)
            case Some(password) => Go(Login(Some(username), Some(password)), next + 2 + |password|)
  }

  /** What handle__connect makes of a packet before it turns to authentication. */
  ghost function Parse(command: byte, server: Server, body: seq<byte>): Part<Connect> {
    match VersionAt(command, body)
    case Stop(rc, code) => Stop(rc, code)
    case Go(v, p) => ParseFlags(v, server, body, p)
  }

  ghost function ParseFlags(v: Version, server: Server, body: seq<byte>, pos: nat): Part<Connect> {
    match FlagsAt(v, body, pos)
    case Stop(rc, code) => Stop(rc, code)
    case Go(flags, p) =>
      match KeepaliveAt(body, p)
      case Stop(rc, code) => Stop(rc, code)
      case Go(keepalive, q) => ParsePayload(v, flags, keepalive, server, body, q)
  }

  ghost function ParsePayload(v: Version, flags: byte, keepalive: nat, server: Server,
      body: seq<byte>, pos: nat): Part<Connect> {
    var clean := flags / 2 % 2 == 1;
    match ClientIdAt(v, clean, server, body, pos)
    case Stop(rc, code) => Stop(rc, code)
    case Go(id, p) =>
      match WillAt(v, flags, body, p)
      case Stop(rc, code) => Stop(rc, code)
      case Go(will, q) =>
        match LoginAt(v, flags, body, q)
        case Stop(rc, code) => Stop(rc, code)
        case Go(login, r) =>
          if r != |body| then Stop(Protocol, None)
          else Go(Connect(v, clean, keepalive, id, will, login.username, login.password), r)
  }

  /** mosquitto_validate_utf8 on a NUL-terminated copy. */
  method Utf8Ok(str: seq<byte>) returns (ok: bool)
    requires |str| <= 65536
    ensures ok == Utf8.WellFormed(str)
  {
    assert (str + [0])[..|str|] == str;
    var rc := Utf8.ValidateUtf8(str + [0], |str|);
    return rc == Success;
  }

  method ReadVersion(in_packet: InPacket) returns (part: Part<Version>)
    requires in_packet.pos == 0
    modifies in_packet`pos
    ensures part == VersionAt(in_packet.command, in_packet.payload)
    ensures part.Go? ==> part.pos == in_packet.pos
  {
    var rc, slen := in_packet.ReadUint16();
    if rc != Success {
      return Stop(NoMem, None);
    }
    if slen != 4 && slen != 6 {
      return Stop(Protocol, None);
    }
    var bytes, version;
    rc, bytes := in_packet.ReadBytes(slen);
    if rc != Success {
      return Stop(Protocol, None);
    }
    rc, version := in_packet.ReadByte();
    if rc != Success {
      return Stop(NoMem, None);
    }
    var name := CString(bytes);
    if name == NAME31 {
      if version % 128 != 3 {
        return Stop(Protocol, Some(REFUSED_PROTOCOL_VERSION));
      }
      return Go(V31, in_packet.pos);
    } else if name == NAME311 {
      if version % 128 != 4 {
        return Stop(Protocol, Some(REFUSED_PROTOCOL_VERSION));
      }
      if in_packet.command % 16 != 0 {
        return Stop(Protocol, None);
      }
      return Go(V311, in_packet.pos);
    } else {
      return Stop(Protocol, None);
    }
  }

  method ReadFlags(v: Version, in_packet: InPacket) returns (part: Part<byte>)
    modifies in_packet`pos
    ensures part == FlagsAt(v, in_packet.payload, old(in_packet.pos))
    ensures part.Go? ==> part.pos == in_packet.pos
  {
    var rc, flags := in_packet.ReadByte();
    if rc != Success {
      return Stop(NoMem, None);
    }
    if v == V311 && flags % 2 == 1 {
      return Stop(Protocol, None);
    }
    if flags / 8 % 4 == 3 {
      return Stop(Protocol, None);
    }
    return Go(flags, in_packet.pos);
  }

  method ReadClientId(v: Version, cleanSession: bool, server: Server, in_packet: InPacket)
    returns (part: Part<seq<byte>>)
    requires |server.generatedId| <= 65536
    modifies in_packet`pos
    ensures part == ClientIdAt(v, cleanSession, server, in_packet.payload, old(in_packet.pos))
    ensures part.Go? ==> part.pos == in_packet.pos
  {
    var rc, id := in_packet.ReadString();
    if rc != Success {
      return Stop(NoMem, None);
    }
    if id == [] {
      if v == V31 || !cleanSession || !server.allowZeroLength {
        return Stop(Protocol, Some(REFUSED_IDENTIFIER_REJECTED));
      }
      id := server.generatedId;
    }
    if !HasPrefix(server.prefix, id) {
      return Stop(NoMem, Some(REFUSED_NOT_AUTHORIZED));
    }
    var ok := Utf8Ok(id);
    return if ok then Go(id, in_packet.pos) else Stop(NoMem, None);
  }

  /** The length of the will payload and, if there are any, its bytes. */
  method ReadWillPayload(in_packet: InPacket) returns (rc: Rc, payload: seq<byte>)
    modifies in_packet`pos
    ensures rc == Success <==> StringAt(in_packet.payload, old(in_packet.pos)) == Some(payload)
    ensures rc != Success ==> StringAt(in_packet.payload, old(in_packet.pos)).None?
    ensures rc == Success ==> in_packet.pos == old(in_packet.pos) + 2 + |payload|
  {
    var length;
    payload := [];
    rc, length := in_packet.ReadUint16();
    if rc == Success && length > 0 {
      rc, payload := in_packet.ReadBytes(length);
    }
  }

  method ReadWill(v: Version, flags: byte, in_packet: InPacket) returns (part: Part<Option<Will>>)
    modifies in_packet`pos
    ensures part == WillAt(v, flags, in_packet.payload, old(in_packet.pos))
    ensures part.Go? ==> part.pos == in_packet.pos
  {
    hide StringAt, Utf8.WellFormed, Topics.NoWildcard;
    var qos, retain := flags / 8 % 4, flags / 32 % 2 == 1;
    if flags / 4 % 2 == 0 {
      if v == V311 && (qos != 0 || retain) {
        return Stop(Protocol, None);
      }
      return Go(None, in_packet.pos);
    }
    var rc, topic := in_packet.ReadString();
    if rc != Success || topic == [] {
      return Stop(NoMem, None);
    }
    var ok := Utf8Ok(topic);
    if !ok {
      return Stop(NoMem, None);
    }
    rc := Topics.PubTopicCheck(topic);
    if rc != Success {
      return Stop(NoMem, None);
    }
    var payload;
    rc, payload := ReadWillPayload(in_packet);
    if rc != Success {
      return Stop(NoMem, None);
    }
    return Go(Some(Will(topic, payload, qos, retain)), in_packet.pos);
  }

  method ReadLogin(v: Version, flags: byte, in_packet: InPacket) returns (part: Part<Login>)
    requires v != OtherVersion
    modifies in_packet`pos
    ensures part == LoginAt(v, flags, in_packet.payload, old(in_packet.pos))
    ensures part.Go? ==> part.pos == in_packet.pos
  {
    hide StringAt, Missing, Utf8.WellFormed;
    var secret := flags / 64 % 2 == 1;
    if flags / 128 % 2 == 0 {
      if v == V311 && secret {
        return Stop(Protocol, None);
      }
      return Go(Login(None, None), in_packet.pos);
    }
    var rc, username := in_packet.ReadString();
    if rc != Success {
      if v == V31 {
        return Go(Login(None, None), in_packet.pos);
      }
      return Stop(Protocol, None);
    }
    var ok := Utf8Ok(username);
    if !ok {
      return Stop(Protocol, None);
    }
    if !secret {
      return Go(Login(Some(username), None), in_packet.pos);
    }
    var password;
    rc, password := in_packet.ReadString();
    if rc != Success {
      if v == V31 {
        return Go(Login(Some(username), None), in_packet.pos);
      }
      return Stop(Protocol, None);
    }
    return Go(Login(Some(username), Some(password)), in_packet.pos);
  }

  /** The field parser of handle__connect. */
  method HandleConnect(server: Server, in_packet: InPacket) returns (part: Part<Connect>)
    requires in_packet.pos == 0 && |server.generatedId| <= 65536
    modifies in_packet`pos
    ensures part == Parse(in_packet.command, server, in_packet.payload)
  {
    hide VersionAt, FlagsAt, Uint16At, ParsePayload;
    var version := ReadVersion(in_packet);
    if version.Stop? {
      return Stop(version.rc, version.connack);
    }
    var v := version.value;
    var flags := ReadFlags(v, in_packet);
    if flags.Stop? {
      return Stop(flags.rc, flags.connack);
    }
    var rc, keepalive := in_packet.ReadUint16();
    if rc != Success {
      return Stop(NoMem, None);
    }
    part := ReadPayload(v, flags.value, keepalive, server, in_packet);
  }

  method ReadPayload(v: Version, flags: byte, keepalive: nat, server: Server, in_packet: InPacket)
    returns (part: Part<Connect>)
    requires v != OtherVersion && |server.generatedId| <= 65536
    modifies in_packet`pos
    ensures part == ParsePayload(v, flags, keepalive, server, in_packet.payload, old(in_packet.pos))
  {
    hide ClientIdAt, WillAt, LoginAt;
    var clean := flags / 2 % 2 == 1;
    var id := ReadClientId(v, clean, server, in_packet);
    if id.Stop? {
      return Stop(id.rc, id.connack);
    }
    var will := ReadWill(v, flags, in_packet);
    if will.Stop? {
      return Stop(will.rc, will.connack);
    }
    var login := ReadLogin(v, flags, in_packet);
    if login.Stop? {
      return Stop(login.rc, login.connack);
    }
    if in_packet.pos != |in_packet.payload| {
      return Stop(Protocol, None);
    }
    return Go(Connect(v, clean, keepalive, id.value, will.value, login.value.username, login.value.password),
              in_packet.pos);
  }

  // ----- round trip -----

  function UsedId(c: Connect, server: Server): seq<byte> {
    if c.clientId == [] then server.generatedId else c.clientId
  }

  predicate IdRefused(c: Connect, server: Server) {
    c.clientId == [] && (c.version == V31 || !c.cleanSession || !server.allowZeroLength)
  }

  ghost predicate WillAdmissible(w: Will) {
    w.qos % 4 != 3 && w.topic != [] && Utf8.WellFormed(w.topic) && Topics.NoWildcard(w.topic)
  }

  /** The configurations that the broker lets through. */
  ghost predicate Admissible(c: Connect, server: Server) {
    && !IdRefused(c, server) && HasPrefix(server.prefix, UsedId(c, server)) && Utf8.WellFormed(UsedId(c, server))
    && (c.will.Some? ==> WillAdmissible(c.will.value))
    && (c.username.Some? ==> Utf8.WellFormed(c.username.value))
  }

  /** What the broker can know of a configuration: a password needs a user name, the QoS has two bits. */
  function Known(c: Connect, server: Server): Connect {
    c.(clientId := UsedId(c, server),
       will := if c.will.None? then None else Some(c.will.value.(qos := c.will.value.qos % 4)),
       password := if c.username.None? then None else c.password)
  }

  lemma FlagBits(c: Connect)
    ensures var f := Flags(c);
            && f % 2 == 0 && (f / 2 % 2 == 1 <==> c.cleanSession)
            && (f / 4 % 2 == 1 <==> c.will.Some?)
            && f / 8 % 4 == (if c.will.None? then 0 else c.will.value.qos % 4)
            && (f / 32 % 2 == 1 <==> c.will.Some? && c.will.value.retain)
            && (f / 64 % 2 == 1 <==> c.username.Some? && c.password.Some?)
            && (f / 128 % 2 == 1 <==> c.username.Some?)
  {
    var a, w := Bit(c.cleanSession), Bit(c.will.Some?);
    var q := if c.will.None? then 0 else c.will.value.qos % 4;
    var r := Bit(c.will.Some? && c.will.value.retain);
    var p, u := Bit(c.username.Some? && c.password.Some?), Bit(c.username.Some?);
    assert Flags(c) == 2 * a + 4 * w + 8 * q + 32 * r + 64 * p + 128 * u;
    BitsOf(a, w, q, r, p, u);
  }

  lemma BitsOf(a: int, w: int, q: int, r: int, p: int, u: int)
    requires 0 <= a <= 1 && 0 <= w <= 1 && 0 <= q <= 3 && 0 <= r <= 1 && 0 <= p <= 1 && 0 <= u <= 1
    ensures var f := 2 * a + 4 * w + 8 * q + 32 * r + 64 * p + 128 * u;
            && f % 2 == 0 && f / 2 % 2 == a && f / 4 % 2 == w && f / 8 % 4 == q
            && f / 32 % 2 == r && f / 64 % 2 == p && f / 128 % 2 == u
  {
    var f := 2 * a + 4 * w + 8 * q + 32 * r + 64 * p + 128 * u;
    assert f / 2 == a + 2 * w + 4 * q + 16 * r + 32 * p + 64 * u;
    assert f / 4 == w + 2 * q + 8 * r + 16 * p + 32 * u;
    assert f / 8 == q + 4 * r + 8 * p + 16 * u;
    assert f / 32 == r + 2 * p + 4 * u;
    assert f / 64 == p + 2 * u;
    assert f / 128 == u;
  }

  lemma VersionReads(c: Connect, rest: seq<byte>)
    requires c.keepalive < 0x1_0000 && c.version != OtherVersion
    ensures var n := if c.version == V31 then 9 else 7;
            VersionAt(CONNECT, Header(c) + rest) == Go(c.version, n) && Header(c)[n] == Flags(c)
  {
    hide Flags, U16, Uint16At, CString;
    var name, v: byte := if c.version == V31 then NAME31 else NAME311, if c.version == V31 then 3 else 4;
    var more := [v] + [Flags(c)] + U16(c.keepalive) + rest;
    var s := Header(c) + rest;
    assert s == [] + U16(|name|) + (name + more);
    Uint16Reads([], |name|, name + more);
    assert s[2..2 + |name|] == name;
    CStringOf(name);
    assert s[2 + |name|] == v;
  }

  lemma {:induction false} CStringOf(s: seq<byte>)
    requires forall i :: 0 <= i < |s| ==> s[i] != 0
    ensures CString(s) == s
  {
    if s != [] {
      CStringOf(s[1..]);
    }
  }

  lemma HeaderReads(c: Connect, server: Server, rest: seq<byte>)
    requires c.keepalive < 0x1_0000 && c.version != OtherVersion
    ensures var body := Header(c) + rest;
            Parse(CONNECT, server, body) ==
            if c.will.Some? && c.will.value.qos % 4 == 3 then Stop(Protocol, None)
            else ParsePayload(c.version, Flags(c), c.keepalive, server, body, |Header(c)|)
  {
    hide Str, Flags, U16, Uint16At, VersionAt, ParsePayload;
    var body, n := Header(c) + rest, if c.version == V31 then 9 else 7;
    VersionReads(c, rest);
    FlagBits(c);
    HeaderLength(c);
    assert body[n] == Flags(c);
    KeepaliveReads(c, rest);
  }

  lemma KeepaliveReads(c: Connect, rest: seq<byte>)
    requires c.keepalive < 0x1_0000 && c.version != OtherVersion
    ensures var n := if c.version == V31 then 10 else 8;
            KeepaliveAt(Header(c) + rest, n) == Go(c.keepalive, n + 2)
  {
    hide Flags;
    var front := (if c.version == V31 then Str(NAME31) + [3] else Str(NAME311) + [4]) + [Flags(c)];
    assert Header(c) == front + U16(c.keepalive);
    Uint16Reads(front, c.keepalive, rest);
  }

  lemma IdReads(c: Connect, server: Server, front: seq<byte>, rest: seq<byte>)
    requires |c.clientId| < 0x1_0000 && c.version != OtherVersion
    ensures var part := ClientIdAt(c.version, c.cleanSession, server, front + Str(c.clientId) + rest, |front|);
            if !IdRefused(c, server) && HasPrefix(server.prefix, UsedId(c, server))
              && Utf8.WellFormed(UsedId(c, server))
            then part == Go(UsedId(c, server), |front + Str(c.clientId)|)
            else
              part == if IdRefused(c, server) then Stop(Protocol, Some(2))
                      else Stop(NoMem, if HasPrefix(server.prefix, UsedId(c, server)) then None else Some(5))
  {
    hide Str, Utf8.WellFormed;
    StrLength(c.clientId);
    StringReads(front, c.clientId, rest);
  }

  lemma WillReads(c: Connect, server: Server, front: seq<byte>, rest: seq<byte>)
    requires FieldsFit(c) && (c.will.Some? ==> c.will.value.qos % 4 != 3)
    ensures var part := WillAt(c.version, Flags(c), front + WillPart(c.will) + rest, |front|);
            if c.will.Some? ==> WillAdmissible(c.will.value)
            then part == Go(Known(c, server).will, |front + WillPart(c.will)|) else part == Stop(NoMem, None)
  {
    hide Str, Flags, Utf8.WellFormed, Topics.NoWildcard, StringAt;
    FlagBits(c);
    if c.will.Some? {
      var topic, payload := c.will.value.topic, c.will.value.payload;
      var s := front + WillPart(c.will) + rest;
      StrLength(topic);
      StrLength(payload);
      assert s == front + Str(topic) + (Str(payload) + rest);
      StringReads(front, topic, Str(payload) + rest);
      assert s == (front + Str(topic)) + Str(payload) + rest;
      StringReads(front + Str(topic), payload, rest);
    }
  }

  lemma LoginReads(c: Connect, server: Server, front: seq<byte>)
    requires FieldsFit(c)
    ensures var part := LoginAt(c.version, Flags(c), front + LoginPart(c), |front|);
            if c.username.Some? ==> Utf8.WellFormed(c.username.value)
            then part == Go(Login(c.username, Known(c, server).password), |front + LoginPart(c)|)
            else part == Stop(Protocol, None)
  {
    hide Str, Flags, Utf8.WellFormed, StringAt;
    FlagBits(c);
    if c.username.Some? {
      var name := c.username.value;
      var s := front + LoginPart(c);
      StrLength(name);
      if c.password.None? {
        assert s == front + Str(name) + [];
        StringReads(front, name, []);
      } else {
        var secret := c.password.value;
        StrLength(secret);
        assert s == front + Str(name) + Str(secret);
        StringReads(front, name, Str(secret));
        assert s == (front + Str(name)) + Str(secret) + [];
        StringReads(front + Str(name), secret, []);
      }
    }
  }

  /** The first check that a configuration fails, with the return code of the CONNACK (section 3.2.2.3):
    * 2 for a rejected identifier, 5 for a client that is not authorized.  Others get no CONNACK. */
  ghost function Refusal(c: Connect, server: Server): (Rc, Option<int>) {
    if c.will.Some? && c.will.value.qos % 4 == 3 then (Protocol, None)
    else if IdRefused(c, server) then (Protocol, Some(2))
    else if !HasPrefix(server.prefix, UsedId(c, server)) then (NoMem, Some(5))
    else if !Utf8.WellFormed(UsedId(c, server)) || (c.will.Some? && !WillAdmissible(c.will.value)) then (NoMem, None)
    else (Protocol, None)
  }

  /** The broker's parser recovers every field of what send__connect wrote and ends exactly at the
    * end of the packet, or it refuses the packet; it does the latter exactly for configurations
    * that are not admissible, with the error and the CONNACK of the first check that fails. */
  lemma RoundTripIff(c: Connect, server: Server)
    requires c.keepalive < 0x1_0000 && c.version != OtherVersion && FieldsFit(c)
    ensures var part := Parse(CONNECT, server, Body(c));
            if Admissible(c, server) then part == Go(Known(c, server), |Body(c)|)
            else part == Stop(Refusal(c, server).0, Refusal(c, server).1)
  {
    hide Parse, Header, Str, Flags, WillPart, LoginPart, ClientIdAt, WillAt, LoginAt, Utf8.WellFormed;
    var id := Header(c) + Str(c.clientId);
    var will := id + WillPart(c.will);
    var body := Body(c);
    FlagBits(c);
    assert body == Header(c) + (Str(c.clientId) + WillPart(c.will) + LoginPart(c));
    HeaderReads(c, server, Str(c.clientId) + WillPart(c.will) + LoginPart(c));
    assert body == id + (WillPart(c.will) + LoginPart(c));
    IdReads(c, server, Header(c), WillPart(c.will) + LoginPart(c));
    if c.will.Some? ==> c.will.value.qos % 4 != 3 {
      assert body == id + WillPart(c.will) + LoginPart(c);
      WillReads(c, server, id, LoginPart(c));
      assert body == will + LoginPart(c);
      LoginReads(c, server, will);
    }
  }

  // ----- protocol versions -----

  /** A known protocol name with another version is refused with return code 1. */
  lemma OtherVersionRefused(command: byte, server: Server, v: byte, rest: seq<byte>)
    ensures v % 128 != 3 ==> Parse(command, server, Str(NAME31) + [v] + rest) == Stop(Protocol, Some(1))
    ensures v % 128 != 4 ==> Parse(command, server, Str(NAME311) + [v] + rest) == Stop(Protocol, Some(1))
  {
    hide ParseFlags, VersionAt;
    NameReads(command, NAME31, v, rest);
    NameReads(command, NAME311, v, rest);
  }

  lemma NameReads(command: byte, name: seq<byte>, v: byte, rest: seq<byte>)
    requires name == NAME31 || name == NAME311
    ensures var s, right := Str(name) + [v] + rest, v % 128 == if name == NAME31 then 3 else 4;
            VersionAt(command, s) ==
            if !right then Stop(Protocol, Some(1))
            else if name == NAME311 && command % 16 != 0 then Stop(Protocol, None)
            else Go(if name == NAME31 then V31 else V311, 3 + |name|)
  {
    hide U16, Uint16At, CString;
    var s := Str(name) + [v] + rest;
    assert s == [] + U16(|name|) + (name + [v] + rest);
    Uint16Reads([], |name|, name + [v] + rest);
    assert s[2..2 + |name|] == name && s[2 + |name|] == v;
    CStringOf(name);
  }

  /** The same bytes from `p` on. */
  predicate SameFrom(a: seq<byte>, b: seq<byte>, p: nat) {
    |a| == |b| && p <= |a| && a[p..] == b[p..]
  }

  lemma SameReads(a: seq<byte>, b: seq<byte>, p: nat, q: nat)
    requires SameFrom(a, b, p) && p <= q
    ensures Uint16At(a, q) == Uint16At(b, q) && StringAt(a, q) == StringAt(b, q) && Missing(a, q) == Missing(b, q)
    ensures q < |a| ==> a[q] == b[q]
    ensures |a| == |b|
  {
    forall i | p <= i < |a| ensures a[i] == b[i] {
      assert a[p..][i - p] == b[p..][i - p];
    }
    if q + 2 <= |a| {
      var n := Uint16At(a, q).value;
      assert q + 2 + n <= |a| ==> a[q + 2..q + 2 + n] == b[q + 2..q + 2 + n];
    }
  }

  lemma SameId(v: Version, clean: bool, server: Server, a: seq<byte>, b: seq<byte>, p: nat, q: nat)
    requires SameFrom(a, b, p) && p <= q
    ensures ClientIdAt(v, clean, server, a, q) == ClientIdAt(v, clean, server, b, q)
    ensures ClientIdAt(v, clean, server, a, q).Go? ==> q <= ClientIdAt(v, clean, server, a, q).pos
  {
    hide Utf8.WellFormed, StringAt, SameFrom;
    SameReads(a, b, p, q);
  }

  lemma SameWill(v: Version, flags: byte, a: seq<byte>, b: seq<byte>, p: nat, q: nat)
    requires SameFrom(a, b, p) && p <= q
    ensures WillAt(v, flags, a, q) == WillAt(v, flags, b, q)
    ensures WillAt(v, flags, a, q).Go? ==> q <= WillAt(v, flags, a, q).pos
  {
    hide Utf8.WellFormed, Topics.NoWildcard, StringAt, SameFrom;
    SameReads(a, b, p, q);
    if StringAt(a, q).Some? {
      SameReads(a, b, p, q + 2 + |StringAt(a, q).value|);
    }
  }

  lemma SameLogin(v: Version, flags: byte, a: seq<byte>, b: seq<byte>, p: nat, q: nat)
    requires SameFrom(a, b, p) && p <= q
    ensures LoginAt(v, flags, a, q) == LoginAt(v, flags, b, q)
  {
    hide Utf8.WellFormed, StringAt, Missing, SameFrom;
    SameReads(a, b, p, q);
    if StringAt(a, q).Some? {
      SameReads(a, b, p, q + 2 + |StringAt(a, q).value|);
    }
  }

  /** What is behind a position decides what is read from there. */
  lemma SameBehind(a: seq<byte>, b: seq<byte>, p: nat, v: Version, server: Server)
    requires SameFrom(a, b, p)
    ensures ParseFlags(v, server, a, p) == ParseFlags(v, server, b, p)
  {
    hide StringAt, Uint16At, ClientIdAt, WillAt, LoginAt, SameFrom;
    SameReads(a, b, p, p);
    if p < |a| {
      var flags := a[p];
      SameReads(a, b, p, p + 1);
      SameId(v, flags / 2 % 2 == 1, server, a, b, p, p + 3);
      var id := ClientIdAt(v, flags / 2 % 2 == 1, server, a, p + 3);
      if id.Go? {
        SameWill(v, flags, a, b, p, id.pos);
        var will := WillAt(v, flags, a, id.pos);
        if will.Go? {
          SameLogin(v, flags, a, b, p, will.pos);
        }
      }
    }
  }

  /** The top bit of the version, which bridges set, is ignored. */
  lemma TopBitIgnored(command: byte, server: Server, name: seq<byte>, v: byte, rest: seq<byte>)
    requires (name == NAME31 || name == NAME311) && v < 128
    ensures var top: byte := v + 128;
            Parse(command, server, Str(name) + [top] + rest) == Parse(command, server, Str(name) + [v] + rest)
  {
    hide ParseFlags, VersionAt;
    var top: byte := v + 128;
    var a, b := Str(name) + [top] + rest, Str(name) + [v] + rest;
    NameReads(command, name, top, rest);
    NameReads(command, name, v, rest);
    var p := 3 + |name|;
    assert a[p..] == rest == b[p..];
    SameBehind(a, b, p, V31, server);
    SameBehind(a, b, p, V311, server);
  }

  // ----- every accepted packet is one that send__connect prints -----

  /** A byte is the sum of its bits. */
  lemma SumOfBits(f: byte)
    ensures f == f % 2 + f / 2 % 2 * 2 + f / 4 % 2 * 4 + f / 8 % 4 * 8 + f / 32 % 2 * 32
        + f / 64 % 2 * 64 + f / 128 % 2 * 128
  {
    LowBits(f);
    HighBits(f);
  }

  lemma LowBits(n: nat)
    ensures n == n % 2 + n / 2 % 2 * 2 + n / 4 % 2 * 4 + n / 8 * 8
  {
    assert n / 4 == n / 2 / 2 && n / 8 == n / 4 / 2;
  }

  lemma HighBits(n: nat)
    requires n < 256
    ensures n / 8 * 8 == n / 8 % 4 * 8 + n / 32 % 2 * 32 + n / 64 % 2 * 64 + n / 128 % 2 * 128
  {
    var h := n / 8;
    assert h / 4 == n / 32 && h / 8 == n / 64 && h / 16 == n / 128;
    assert h / 8 == h / 4 / 2 && h / 16 == h / 8 / 2 && h / 16 < 2;
  }

  lemma FlagsAreThere(c: Connect, f: byte)
    requires f % 2 == 0 && c.cleanSession == (f / 2 % 2 == 1)
    requires c.will.Some? == (f / 4 % 2 == 1)
    requires if c.will.None? then f / 8 % 4 == 0 && f / 32 % 2 == 0
             else c.will.value.qos == f / 8 % 4 && c.will.value.retain == (f / 32 % 2 == 1)
    requires c.username.Some? == (f / 128 % 2 == 1)
    requires (c.username.Some? && c.password.Some?) == (f / 64 % 2 == 1)
    ensures Flags(c) == f
  {
    SumOfBits(f);
  }

  lemma WillIsThere(v: Version, flags: byte, body: seq<byte>, pos: nat)
    requires pos <= |body| && WillAt(v, flags, body, pos).Go?
    ensures var part := WillAt(v, flags, body, pos);
            pos <= part.pos <= |body| && body[pos..part.pos] == WillPart(part.value)
  {
    hide Str, StringAt, Utf8.WellFormed;
    var part := WillAt(v, flags, body, pos);
    if part.value.Some? {
      var w := part.value.value;
      var mid := pos + 2 + |w.topic|;
      StringIsThere(body, pos);
      StringIsThere(body, mid);
      assert body[pos..part.pos] == body[pos..mid] + body[mid..part.pos];
    }
  }

  lemma LoginIsThere(flags: byte, body: seq<byte>, pos: nat, c: Connect)
    requires pos <= |body| && LoginAt(V311, flags, body, pos).Go?
    requires LoginAt(V311, flags, body, pos).value == Login(c.username, c.password)
    ensures var part := LoginAt(V311, flags, body, pos);
            pos <= part.pos <= |body| && body[pos..part.pos] == LoginPart(c)
  {
    hide Str, StringAt, Utf8.WellFormed;
    var part := LoginAt(V311, flags, body, pos);
    if c.username.Some? {
      var mid := pos + 2 + |c.username.value|;
      StringIsThere(body, pos);
      if c.password.Some? {
        StringIsThere(body, mid);
        assert body[pos..part.pos] == body[pos..mid] + body[mid..part.pos];
      }
    }
  }

  /** Packets that name the protocol "MQTT" and its version 4 without further bits: 3.1.1 as printed. */
  predicate Plain311(body: seq<byte>) {
    |body| >= 7 && body[..7] == Str(NAME311) + [4]
  }

  lemma PlainVersion(server: Server, body: seq<byte>)
    requires Plain311(body)
    ensures VersionAt(CONNECT, body) == Go(V311, 7)
  {
    assert forall i :: 0 <= i < 7 ==> body[i] == (Str(NAME311) + [4])[i];
    assert body[2..6] == NAME311;
    CStringOf(NAME311);
  }

  /** Nothing that the broker accepts under version 3.1.1 carries hidden bytes or bits: it is exactly
    * what send__connect prints for the recovered configuration, the identifier aside, which is empty
    * in the packet if the broker made one up. */
  lemma AcceptedIsPrinted(server: Server, body: seq<byte>) returns (id: seq<byte>)
    requires Plain311(body) && Parse(CONNECT, server, body).Go?
    ensures var c := Parse(CONNECT, server, body).value;
            c.keepalive < 0x1_0000 && (id == [] || id == c.clientId) && body == Body(c.(clientId := id))
  {
    hide Str, Flags, U16, StringAt, Uint16At, WillPart, LoginPart, WillAt, LoginAt, VersionAt, Utf8.WellFormed;
    PlainVersion(server, body);
    var c, flags := Parse(CONNECT, server, body).value, body[7];
    var clean := flags / 2 % 2 == 1;
    id := StringAt(body, 10).value;
    var p := 10 + 2 + |id|;
    var q := WillAt(V311, flags, body, p).pos;
    WillIsThere(V311, flags, body, p);
    var d := c.(clientId := id);
    LoginIsThere(flags, body, q, d);
    WillBits(flags, body, p);
    LoginBits(flags, body, q);
    FlagsAreThere(d, flags);
    Uint16IsThere(body, 8);
    StringIsThere(body, 10);
    assert Header(d) == body[..10] by {
      assert body[..10] == body[..7] + [body[7]] + body[8..10];
    }
    assert body == body[..10] + body[10..p] + body[p..q] + body[q..];
    assert Str(Cut(id)) == body[10..p];
  }

  lemma WillBits(flags: byte, body: seq<byte>, pos: nat)
    requires WillAt(V311, flags, body, pos).Go?
    ensures var w := WillAt(V311, flags, body, pos).value;
            && w.Some? == (flags / 4 % 2 == 1)
            && if w.None? then flags / 8 % 4 == 0 && flags / 32 % 2 == 0
               else w.value.qos == flags / 8 % 4 && w.value.retain == (flags / 32 % 2 == 1)
  {
  }

  lemma LoginBits(flags: byte, body: seq<byte>, pos: nat)
    requires LoginAt(V311, flags, body, pos).Go?
    ensures var l := LoginAt(V311, flags, body, pos).value;
            && l.username.Some? == (flags / 128 % 2 == 1)
            && (l.username.Some? && l.password.Some?) == (flags / 64 % 2 == 1)
  {
  }

  /** From end to end: however the socket cuts the bytes of a CONNECT, the broker's reader hands on
    * one packet, and the parser recovers the configuration exactly if it is admissible. */
  lemma ConnectThroughSocket(c: Connect, server: Server, pieces: seq<seq<byte>>)
    requires c.keepalive < 0x1_0000 && c.version != OtherVersion && FieldsFit(c)
    requires Length(c) < RemainingLength.LIMIT
    requires Concat(pieces) == [CONNECT] + RemainingLength.Encode(Length(c)) + Body(c)
    ensures var r := Calls(Start(true, []), pieces);
            && !r.failed && |r.frames| == 1
            && var part := Parse(r.frames[0].command, server, r.frames[0].body);
               if Admissible(c, server) then part == Go(Known(c, server), |Body(c)|)
            else part == Stop(Refusal(c, server).0, Refusal(c, server).1)
  {
    hide Parse, Body, Admissible;
    FilledIff(c);
    var f := Frame(CONNECT, Body(c));
    assert Stream(true, [f]) == Wire(true, f) + Stream(true, [f][1..]);
    assert Concat(pieces) == Stream(true, [f]) + [];
    StreamThroughSocket(true, [f], [], pieces);
    RoundTripIff(c, server);
  }
}
