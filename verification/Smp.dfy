/** The SMP session protocol of smpInternal.c between a client and a broker, with ideal signatures, key
  * agreement and authenticated encryption, over a network that may drop, repeat, reorder and turn back
  * frames. */
module Smp {
  import opened Bytes
  import opened SmpHeader

  datatype Role = Client | Broker {
    function Peer(): Role { if this == Client then Broker else Client }
  }

  const CONNECT := 1
  const CONNACK := 2
  const PUBLISH := 3
  const PUBACK := 4
  const PUBREC := 5
  const PUBREL := 6
  const PUBCOMP := 7
  const SUBSCRIBE := 8
  const SUBACK := 9
  const UNSUBSCRIBE := 10
  const UNSUBACK := 11
  const PINGREQ := 12
  const PINGRESP := 13
  const DISCONNECT := 14

  const SMP_MQTTS := 0x00   // message context
  const SCHEME: byte := 0x00
  const WIDTH := 0x1_0000_0000  // message counters are uint32_t

  // ----- message types -----

  /** The message that establishes the session, by its sender. */
  function Opening(sender: Role): int { if sender == Client then CONNECT else CONNACK }

  /** The types that wclSmpGetMessage hands to smpSecureMessage. */
  predicate Securable(sender: Role, t: int) {
    PUBLISH <= t <= PUBCOMP || t == PINGREQ || t == PINGRESP ||
    if sender == Client then t == SUBSCRIBE || t == UNSUBSCRIBE || t == DISCONNECT else t == SUBACK || t == UNSUBACK
  }

  /** The types that lSmpValidateSmpHeader lets pass. */
  predicate Admits(receiver: Role, t: int) {
    PUBLISH <= t <= PUBCOMP ||
    if receiver == Client then t == CONNACK || t == SUBACK || t == UNSUBACK || t == PINGRESP
    else t == CONNECT || t == SUBSCRIBE || t == UNSUBSCRIBE || t == PINGREQ || t == DISCONNECT
  }

  /** The sender's rule for encrypting the packet rather than only authenticating it. */
  predicate Encrypts(t: int) {
    t == PUBLISH || t == SUBSCRIBE || t == SUBACK || t == UNSUBSCRIBE
  }

  /** The receiver's rule for decrypting. */
  predicate Decrypts(receiver: Role, t: int) {
    if receiver == Client then t == PUBLISH || t == SUBACK
    else t == PUBLISH || t == SUBSCRIBE || t == UNSUBSCRIBE
  }

  /** Both sides make the same choice for every type that the receiver admits. */
  lemma SameChoice(receiver: Role, t: int)
    requires Admits(receiver, t)
    ensures Encrypts(t) <==> Decrypts(receiver, t)
  {
  }

  /** The directions of flow of table 2.1 of MQTT 3.1.1, the message types being those of MQTT packets. */
  const TO_SERVER: set<int> := {1, 3, 4, 5, 6, 7, 8, 10, 12, 14}
  const TO_CLIENT: set<int> := {2, 3, 4, 5, 6, 7, 9, 11, 13}

  /** A side admits exactly the packets that MQTT lets its peer send, and the peer can make all of them. */
  lemma AdmitsByDirection(receiver: Role, t: int)
    ensures Admits(receiver, t) <==> t in if receiver == Client then TO_CLIENT else TO_SERVER
    ensures Admits(receiver, t) ==> t == Opening(receiver.Peer()) || Securable(receiver.Peer(), t)
  {
  }

  const LABELS: seq<string> := [
    "", "", "PUBLIS", "PUBACK", "PUBREC", "PUBREL", "PUBCOM", "SUBSCR", "SUBACK", "USUBSC", "USUBAC",
    "PINGRQ", "PINGRS", "DISCON"]

  function Octets(s: string): (r: seq<byte>)
    requires forall i :: 0 <= i < |s| ==> s[i] < 128 as char
    ensures |r| == |s| && forall i :: 0 <= i < |s| ==> r[i] == s[i] as int
  {
    seq(|s|, i requires 0 <= i < |s| => s[i] as int)
  }

  /** The label tables are indexed by the message type although their first entry is meant for type 1:
    * each type uses the label of the next, and type 14 is behind the end. */
  function Label(sender: Role, t: int): (r: seq<byte>)
    requires CONNACK <= t < DISCONNECT
    ensures |r| == 10 && r[0] == if sender == Client then 0x43 else 0x42  // 'C' or 'B'
  {
    Octets(if sender == Client then "C2B_" else "B2C_") + Octets(LABELS[t])
  }

  // ----- ideal cryptography -----

  /** A shared key is that of two public keys. */
  type Key = set<seq<byte>>

  const KEY_LENGTH := 65
  const UNCOMPRESSED: byte := 0x04

  /** The form in which public keys are exported and imported: an uncompressed curve point. */
  predicate IsPublicKey(k: seq<byte>) {
    |k| == KEY_LENGTH && k[0] == UNCOMPRESSED
  }

  /** The outcome of authenticated encryption: it opens with the same key and associated data only. */
  datatype Box = Box(key: Key, aad: seq<byte>, plain: Option<seq<byte>>)

  function Open(b: Box, key: Key, aad: seq<byte>): Option<Option<seq<byte>>> {
    if b.key == key && b.aad == aad then Some(b.plain) else None
  }

  /** A signature by a certified device verifies for the octets that were signed only. */
  predicate Verifies(signed: seq<byte>, octets: seq<byte>) {
    signed == octets
  }

  // ----- frames -----

  datatype Frame =
    | Establishment(header: seq<byte>, scheme: Option<byte>, dhPublic: seq<byte>, packet: seq<byte>, signed: seq<byte>)
    | Control(header: seq<byte>, clear: Option<seq<byte>>, box: Box)  // `clear` is None if encrypted

  function SignedOctets(header: seq<byte>, scheme: Option<byte>, dhPublic: seq<byte>, packet: seq<byte>): seq<byte> {
    header + (if scheme.Some? then [scheme.value] else []) + dhPublic + packet
  }

  /** SMP header, label, and the packet if it is not encrypted. */
  function Aad(header: seq<byte>, sender: Role, t: int, clear: Option<seq<byte>>): seq<byte>
    requires CONNACK <= t < DISCONNECT
  {
    header + Label(sender, t) + (if clear.Some? then clear.value else [])
  }

  // ----- one side -----

  datatype Error = BadParams | BadSession | InvalidMessage | Serialization | CryptoOperation | OtherError

  /** SmpSessionContext_t; `sends` counts the frames made, of which the C struct keeps the low 32 bits;
    * `hasPrivate` and `hasPublic` say whether the storage still holds the pair made for the key exchange. */
  datatype Party = Party(
    role: Role, clientId: seq<byte>, sends: nat, toBeSent: int, lastReceived: int,
    established: bool, hasPrivate: bool, hasPublic: bool, dhPublic: seq<byte>, key: Option<Key>)

  predicate ValidParty(p: Party) {
    && 0 <= p.toBeSent < WIDTH && p.toBeSent == p.sends % WIDTH
    && |p.clientId| <= MAX_CLIENT_ID && 0 !in p.clientId
    && (p.established <==> p.key.Some?)
  }

  function NewParty(role: Role, clientId: seq<byte>, dhPublic: seq<byte>): Party {
    Party(role, clientId, 0, 0, 0, false, true, true, dhPublic, None)
  }

  function HeaderOf(p: Party, t: int): seq<byte>
    requires ValidParty(p) && 0 <= t < 0x100
  {
    Pack(Header(SMP_MQTTS, 0, t, p.clientId, p.toBeSent))
  }

  datatype Result<T> = Ok(value: T) | Err(error: Error)

  function Count(p: Party): (c: Party)
    requires ValidParty(p)
    ensures ValidParty(c)
  {
    NextCount(p.sends);
    p.(sends := p.sends + 1, toBeSent := (p.toBeSent + 1) % WIDTH)
  }

  lemma NextCount(n: nat)
    ensures (n + 1) % WIDTH == (n % WIDTH + 1) % WIDTH
  {
  }

  /** smpExportSessionEstablishmentParams, given the public key. */
  function Export(p: Party, packet: seq<byte>): Frame
    requires ValidParty(p)
  {
    var header := HeaderOf(p, Opening(p.role));
    var scheme := if p.role == Client then Some(SCHEME) else None;
    Establishment(header, scheme, p.dhPublic, packet, SignedOctets(header, scheme, p.dhPublic, packet))
  }

  /** smpSecureMessage. */
  function Secure(p: Party, t: int, packet: seq<byte>): Frame
    requires ValidParty(p) && CONNACK < t < DISCONNECT && p.key.Some?
  {
    var header := HeaderOf(p, t);
    var clear := if Encrypts(t) then None else Some(packet);
    Control(header, clear, Box(p.key.value, Aad(header, p.role, t, clear), if Encrypts(t) then Some(packet) else None))
  }

  /** wclSmpGetMessage.  Type 14 is left out: its label would be read from behind the table. */
  function GetMessage(p: Party, t: int, packet: seq<byte>): (r: (Party, Result<Frame>))
    requires ValidParty(p) && t != DISCONNECT
    ensures ValidParty(r.0)
  {
    if t < CONNECT || t > DISCONNECT || packet == [] then (p, Err(BadParams))
    else if t == Opening(p.role) then
      if !p.hasPublic then (p, Err(CryptoOperation)) else (Count(p), Ok(Export(p, packet)))
    else if !Securable(p.role, t) then (p, Err(OtherError))
    else if !p.established then (p, Err(BadSession))
    else (Count(p), Ok(Secure(p, t, packet)))
  }

  datatype Message = Message(t: int, packet: seq<byte>)

  /** lSmpValidateSmpHeader; the message counter may also stay the same. */
  predicate HeaderOk(p: Party, h: Header) {
    h.context == SMP_MQTTS && Admits(p.role, h.messageType) && h.messageId >= p.lastReceived
  }

  /** The session key takes the place of the private key; the client deletes its public key too. */
  function Establish(p: Party, peer: seq<byte>): Party {
    p.(established := true, hasPrivate := false, hasPublic := p.hasPublic && p.role == Broker,
       key := Some({p.dhPublic, peer}))
  }

  /** lSmpProcessSeMessage. */
  function ProcessEstablishment(p: Party, f: Frame): (Party, Result<seq<byte>>) {
    if !f.Establishment? || (p.role == Client && f.scheme.Some?) || (p.role == Broker && f.scheme.None?) then
      (p, Err(Serialization))
    else if f.header == [] || f.dhPublic == [] || f.packet == [] || (p.role == Broker && f.scheme != Some(SCHEME))
            || !Verifies(f.signed, SignedOctets(f.header, f.scheme, f.dhPublic, f.packet)) then
      (p, Err(InvalidMessage))
    else if !p.hasPrivate || !IsPublicKey(f.dhPublic) then (p, Err(CryptoOperation))
    else (Establish(p, f.dhPublic), Ok(f.packet))
  }

  /** lSmpProcessControlMessage. */
  function ProcessControl(p: Party, t: int, f: Frame): Result<seq<byte>>
    requires p.established ==> p.key.Some?
    requires CONNACK < t < DISCONNECT
  {
    if !p.established then Err(BadSession)
    else if !f.Control? then Err(Serialization)
    else if f.clear == Some([]) then Err(InvalidMessage)
    else if Decrypts(p.role, t) then
      match Open(f.box, p.key.value, Aad(f.header, p.role.Peer(), t, None))
      case None => Err(CryptoOperation)
      case Some(plain) =>  // a clear packet is not the ciphertext
        if plain.None? || f.clear.Some? then Err(CryptoOperation) else Ok(plain.value)
    else if f.clear.None? then Err(CryptoOperation)  // a ciphertext is not what was authenticated
    else
      match Open(f.box, p.key.value, Aad(f.header, p.role.Peer(), t, f.clear))
      case None => Err(CryptoOperation)
      case Some(_) => Ok(f.clear.value)
  }

  /** smpProcessMessage. */
  function Process(p: Party, f: Frame): (r: (Party, Result<Message>))
    requires ValidParty(p)
    ensures ValidParty(r.0)
  {
    match Unpack(f.header)
    case None => (p, Err(OtherError))
    case Some(Unpacked(h, _)) =>
      if !HeaderOk(p, h) then (p, Err(InvalidMessage))
      else if h.messageType == Opening(p.role.Peer()) then
        var r := ProcessEstablishment(p, f);
        match r.1
        case Err(e) => (r.0, Err(e))
        case Ok(packet) => (r.0.(lastReceived := h.messageId), Ok(Message(h.messageType, packet)))
      else if h.messageType == DISCONNECT then (p, Err(OtherError))  // not modelled
      else
        match ProcessControl(p, h.messageType, f)
        case Err(e) => (p, Err(e))
        case Ok(packet) => (p.(lastReceived := h.messageId), Ok(Message(h.messageType, packet)))
  }

  // ----- a frame meets a receiver -----

  predicate Sendable(p: Party, t: int, packet: seq<byte>) {
    packet != [] && t != DISCONNECT && (if t == Opening(p.role) then p.hasPublic
      else Securable(p.role, t) && p.established)
  }

  lemma HeaderReads(p: Party, t: int)
    requires ValidParty(p) && 0 <= t < 0x100
    ensures var h := Header(SMP_MQTTS, 0, t, p.clientId, p.toBeSent);
            Unpack(HeaderOf(p, t)) == Some(Unpacked(h, |HeaderOf(p, t)| - 1))
    ensures HeaderOf(p, t) != []
  {
    hide Pack, Unpack;
    UnpackInvertsPack(Header(SMP_MQTTS, 0, t, p.clientId, p.toBeSent));
  }

  /** The receiver accepts a frame of its peer exactly if it admits the type, the counter has not gone
    * back, and its own side is ready for it: for the opening message its private key is still there, for
    * all others the session key is established and the same.  What it delivers is what was secured. */
  lemma PeerFrameIff(p: Party, s: Party, t: int, packet: seq<byte>)
    requires ValidParty(p) && ValidParty(s) && s.role == p.role.Peer() && Sendable(s, t, packet)
    requires IsPublicKey(p.dhPublic) && IsPublicKey(s.dhPublic)
    ensures var f := GetMessage(s, t, packet).1.value;
            var ready := if t == Opening(s.role) then p.hasPrivate else p.established && p.key == s.key;
            if Admits(p.role, t) && s.toBeSent >= p.lastReceived && ready then
              && Process(p, f).1 == Ok(Message(t, packet))
              && Process(p, f).0 ==
                 (if t == Opening(s.role) then Establish(p, s.dhPublic) else p).(lastReceived := s.toBeSent)
            else Process(p, f).1.Err? && Process(p, f).0 == p
  {
    hide Pack, Unpack, Label;
    HeaderReads(s, t);
    if Admits(p.role, t) {
      SameChoice(p.role, t);
    }
  }

  /** A frame that is turned back to its sender is refused: its type is not admitted or its label is
    * for the other direction. */
  lemma OwnFrameRefused(p: Party, s: Party, t: int, packet: seq<byte>)
    requires ValidParty(p) && ValidParty(s) && s.role == p.role && Sendable(s, t, packet)
    ensures var r := Process(p, GetMessage(s, t, packet).1.value); r.1.Err? && r.0 == p
  {
    hide Pack, Unpack, Label;
    HeaderReads(s, t);
    if t != Opening(s.role) {
      var h := HeaderOf(s, t);
      var clear := if Encrypts(t) then None else Some(packet);
      OtherLabel(h, s.role, t, clear, None);
      OtherLabel(h, s.role, t, clear, clear);
    }
  }

  /** Associated data for one direction never equals that for the other. */
  lemma OtherLabel(header: seq<byte>, sender: Role, t: int, c1: Option<seq<byte>>, c2: Option<seq<byte>>)
    requires CONNACK <= t < DISCONNECT
    ensures Aad(header, sender, t, c1) != Aad(header, sender.Peer(), t, c2)
  {
    assert Aad(header, sender, t, c1)[|header|] == Label(sender, t)[0];
    assert Aad(header, sender.Peer(), t, c2)[|header|] == Label(sender.Peer(), t)[0];
  }

  /** No two types share a label. */
  lemma LabelsDiffer(sender: Role, t: int, u: int)
    requires CONNACK <= t < DISCONNECT && CONNACK <= u < DISCONNECT && t != u
    ensures Label(sender, t) != Label(sender, u)
  {
    hide Label;
    LabelTail(sender, t);
    LabelTail(sender, u);
    NamesDiffer(t, u);
    var i :| 0 <= i < 6 && LABELS[t][i] != LABELS[u][i];
    assert Label(sender, t)[4 + i] != Label(sender, u)[4 + i];
  }

  lemma NamesDiffer(t: int, u: int)
    requires CONNACK <= t < DISCONNECT && CONNACK <= u < DISCONNECT && t != u
    ensures |LABELS[t]| == |LABELS[u]| == 6 && exists i :: 0 <= i < 6 && LABELS[t][i] != LABELS[u][i]
  {
    assert t in {2, 3, 4, 5, 6, 7, 8, 9, 10, 11, 12, 13} && u in {2, 3, 4, 5, 6, 7, 8, 9, 10, 11, 12, 13};
    assert |LABELS[t]| == |LABELS[u]| == 6;
    var a, b := LABELS[t], LABELS[u];
    assert a[0] != b[0] || a[1] != b[1] || a[2] != b[2] || a[3] != b[3] || a[4] != b[4] || a[5] != b[5];
  }

  lemma LabelTail(sender: Role, t: int)
    requires CONNACK <= t < DISCONNECT
    ensures |LABELS[t]| == 6 && forall i :: 0 <= i < 6 ==> Label(sender, t)[4 + i] == LABELS[t][i] as int
  {
    assert t in {2, 3, 4, 5, 6, 7, 8, 9, 10, 11, 12, 13};
  }
}
