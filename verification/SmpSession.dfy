/** The SMP session context as the C code keeps it, changed in place by smpInternal.c. */
module SmpSession {
  import opened Bytes
  import opened SmpHeader
  import opened Smp

  class Session {
    const role: Role
    const clientId: seq<byte>
    const dhPublic: seq<byte>
    var toBeSentMessageId: int
    var lastReceivedMessageId: int
    var isSessionKeyEstablished: bool
    var hasPrivateKey: bool          // the storage still holds the private key
    var hasPublicKey: bool           // and the public key
    var sharedKey: Option<Key>       // the session key in the storage
    ghost var sends: nat

    ghost function Abs(): Party
      reads this
    {
      Party(role, clientId, sends, toBeSentMessageId, lastReceivedMessageId, isSessionKeyEstablished, hasPrivateKey,
            hasPublicKey, dhPublic, sharedKey)
    }

    ghost predicate Valid()
      reads this
    {
      ValidParty(Abs()) && IsPublicKey(dhPublic)
    }

    /** smpInitialiseSessionParams, with the key pair that the storage generates. */
    constructor (role: Role, clientId: seq<byte>, dhPublic: seq<byte>)
      requires |clientId| <= MAX_CLIENT_ID && 0 !in clientId && IsPublicKey(dhPublic)
      ensures Valid() && Abs() == NewParty(role, clientId, dhPublic)
    {
      this.role, this.clientId, this.dhPublic := role, clientId, dhPublic;
      toBeSentMessageId, lastReceivedMessageId, isSessionKeyEstablished := 0, 0, false;
      hasPrivateKey, hasPublicKey, sharedKey, sends := true, true, None, 0;
    }

    /** lSmpPackHeader. */
    method PackHeader(t: int) returns (header: seq<byte>)
      requires Valid() && 0 <= t < 0x100
      ensures header == HeaderOf(Abs(), t)
    {
      header := Pack(Header(SMP_MQTTS, 0, t, clientId, toBeSentMessageId));
    }

    /** Count a frame; the counter is a uint32_t. */
    method CountUp()
      requires Valid()
      modifies this`toBeSentMessageId, this`sends
      ensures Valid() && Abs() == Count(old(Abs()))
    {
      toBeSentMessageId := (toBeSentMessageId + 1) % WIDTH;
      sends := sends + 1;
    }

    /** smpExportSessionEstablishmentParams. */
    method ExportParams(packet: seq<byte>) returns (r: Result<Frame>)
      requires Valid()
      modifies this`toBeSentMessageId, this`sends
      ensures Valid()
      ensures if hasPublicKey then Abs() == Count(old(Abs())) && r == Ok(Export(old(Abs()), packet))
              else Abs() == old(Abs()) && r == Err(CryptoOperation)
    {
      var header := PackHeader(Opening(role));
      if !hasPublicKey {
        return Err(CryptoOperation);
      }
      var scheme := if role == Client then Some(SCHEME) else None;
      var octets := CopySigned(header, scheme, dhPublic, packet);
      r := Ok(Establishment(header, scheme, dhPublic, packet, octets));
      CountUp();
    }

    /** smpSecureMessage. */
    method SecureMessage(t: int, packet: seq<byte>) returns (r: Result<Frame>)
      requires Valid() && CONNACK < t < DISCONNECT
      modifies this`toBeSentMessageId, this`sends
      ensures Valid()
      ensures if old(isSessionKeyEstablished) then Abs() == Count(old(Abs())) && r == Ok(Secure(old(Abs()), t, packet))
              else Abs() == old(Abs()) && r == Err(BadSession)
    {
      if !isSessionKeyEstablished {
        return Err(BadSession);
      }
      var header := PackHeader(t);
      var encrypt := t == PUBLISH || t == SUBSCRIBE || t == SUBACK || t == UNSUBSCRIBE;
      var clear := if encrypt then None else Some(packet);
      var aad := CopyAad(header, role, t, clear);
      var box := Box(sharedKey.value, aad, if encrypt then Some(packet) else None);
      r := Ok(Control(header, clear, box));
      CountUp();
    }

    /** wclSmpGetMessage. */
    method Get(t: int, packet: seq<byte>) returns (r: Result<Frame>)
      requires Valid() && t != DISCONNECT
      modifies this`toBeSentMessageId, this`sends
      ensures Valid() && (Abs(), r) == GetMessage(old(Abs()), t, packet)
    {
      hide Export, Secure, Pack;
      if t < CONNECT || t > DISCONNECT || packet == [] {
        return Err(BadParams);
      }
      if t == Opening(role) {
        r := ExportParams(packet);
        return;
      }
      if !Securable(role, t) {
        return Err(OtherError);
      }
      r := SecureMessage(t, packet);
    }

    /** lSmpValidateSmpHeader. */
    method ValidateHeader(h: Header) returns (ok: bool)
      ensures ok == HeaderOk(Abs(), h)
    {
      if h.context != SMP_MQTTS {
        return false;
      }
      if !Admits(role, h.messageType) {
        return false;
      }
      if h.messageId < lastReceivedMessageId {
        return false;
      }
      return true;
    }

    /** lSmpVerifySeParams and lSmpProcessSeMessage. */
    method ProcessSe(f: Frame) returns (r: Result<seq<byte>>)
      requires Valid()
      modifies this`isSessionKeyEstablished, this`hasPrivateKey, this`hasPublicKey, this`sharedKey
      ensures Valid() && (Abs(), r) == ProcessEstablishment(old(Abs()), f)
    {
      if !f.Establishment? || (role == Client && f.scheme.Some?) || (role == Broker && f.scheme.None?) {
        return Err(Serialization);
      }
      if f.header == [] || f.dhPublic == [] || f.packet == [] || (role == Broker && f.scheme != Some(SCHEME)) {
        return Err(InvalidMessage);
      }
      var octets := CopySigned(f.header, f.scheme, f.dhPublic, f.packet);
      if !Verifies(f.signed, octets) {
        return Err(InvalidMessage);
      }
      if !hasPrivateKey || !IsPublicKey(f.dhPublic) {
        return Err(CryptoOperation);
      }
      sharedKey := Some({dhPublic, f.dhPublic});
      isSessionKeyEstablished := true;
      hasPrivateKey := false;
      if role == Client {
        hasPublicKey := false;
      }
      return Ok(f.packet);
    }

    /** lSmpProcessControlMessage. */
    method ProcessControlMessage(t: int, f: Frame) returns (r: Result<seq<byte>>)
      requires Valid() && CONNACK < t < DISCONNECT
      ensures r == ProcessControl(Abs(), t, f)
    {
      if !isSessionKeyEstablished {
        return Err(BadSession);
      }
      if !f.Control? {
        return Err(Serialization);
      }
      if f.clear == Some([]) {
        return Err(InvalidMessage);
      }
      var hasClear := !Decrypts(role, t);
      if hasClear && f.clear.None? {
        return Err(CryptoOperation);
      }
      var aad := CopyAad(f.header, role.Peer(), t, if hasClear then f.clear else None);
      var plain := Open(f.box, sharedKey.value, aad);
      if plain.None? {
        return Err(CryptoOperation);
      }
      if hasClear {
        return Ok(f.clear.value);
      }
      if plain.value.None? || f.clear.Some? {
        return Err(CryptoOperation);
      }
      return Ok(plain.value.value);
    }

    /** smpProcessMessage. */
    method ProcessMessage(f: Frame) returns (r: Result<Message>)
      requires Valid()
      modifies this
      ensures Valid() && (Abs(), r) == Process(old(Abs()), f)
    {
      hide ProcessEstablishment, ProcessControl, Unpack;
      var header := Unpack(f.header);
      if header.None? {
        return Err(OtherError);
      }
      var h := header.value.header;
      var ok := ValidateHeader(h);
      if !ok {
        return Err(InvalidMessage);
      }
      var packet;
      if h.messageType == Opening(role.Peer()) {
        packet := ProcessSe(f);
      } else if h.messageType == DISCONNECT {
        return Err(OtherError);
      } else {
        packet := ProcessControlMessage(h.messageType, f);
      }
      if packet.Err? {
        return Err(packet.error);
      }
      lastReceivedMessageId := h.messageId;
      return Ok(Message(h.messageType, packet.value));
    }
  }

  /** wosMemCopy of `part` to offset `offset` of a buffer. */
  method CopyTo(buffer: array<byte>, offset: nat, part: seq<byte>)
    requires offset + |part| <= buffer.Length
    modifies buffer
    ensures buffer[..] == old(buffer[..offset]) + part + old(buffer[offset + |part|..])
  {
    forall i | 0 <= i < |part| {
      buffer[offset + i] := part[i];
    }
  }

  /** The buffer that is authenticated: header, label, and the packet if it is clear. */
  method CopyAad(header: seq<byte>, sender: Role, t: int, clear: Option<seq<byte>>) returns (aad: seq<byte>)
    requires CONNACK <= t < DISCONNECT
    ensures aad == Aad(header, sender, t, clear)
  {
    hide Label;
    var tag := Label(sender, t);
    var length := |header| + |tag| + if clear.Some? then |clear.value| else 0;
    var buffer := new byte[length];
    CopyTo(buffer, 0, header);
    var offset := |header|;
    assert buffer[..offset] == header;
    CopyTo(buffer, offset, tag);
    assert buffer[..offset + |tag|] == header + tag;
    if clear.Some? {
      offset := offset + |tag|;
      CopyTo(buffer, offset, clear.value);
      assert buffer[..] == header + tag + clear.value;
    }
    aad := buffer[..];
  }

  /** The buffer that is signed: header, cipher scheme if there is one, public key, and packet. */
  method CopySigned(header: seq<byte>, scheme: Option<byte>, dhPublic: seq<byte>, packet: seq<byte>)
    returns (octets: seq<byte>)
    ensures octets == SignedOctets(header, scheme, dhPublic, packet)
  {
    var front := header + if scheme.Some? then [scheme.value] else [];
    var buffer := new byte[|front| + |dhPublic| + |packet|];
    CopyTo(buffer, 0, header);
    var offset := |header|;
    if scheme.Some? {
      CopyTo(buffer, offset, [scheme.value]);
      offset := offset + 1;
    }
    assert buffer[..offset] == front;
    CopyTo(buffer, offset, dhPublic);
    assert buffer[..offset + |dhPublic|] == front + dhPublic;
    offset := offset + |dhPublic|;
    CopyTo(buffer, offset, packet);
    octets := buffer[..];
  }
}
