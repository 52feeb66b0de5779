/** Building outgoing packets field by field (packet__alloc, packet__write_*) and reading incoming
  * ones (packet__read_*). */
module Packets {
  import opened Bytes
  import RemainingLength

  function U16(n: nat): (s: seq<byte>)
    requires n < 0x1_0000
    ensures |s| == 2
  {
    [n / 256, n % 256]
  }

  /** A length-prefixed string (section 1.5.3). */
  function Str(s: seq<byte>): seq<byte>
    requires |s| < 0x1_0000
  {
    U16(|s|) + s
  }

  lemma StrLength(s: seq<byte>)
    requires |s| < 0x1_0000
    ensures |Str(s)| == 2 + |s|
  {
  }

  /** A flag as a bit. */
  function Bit(b: bool): int { if b then 1 else 0 }

  /** What is left of a string whose length is taken modulo 2 to the 16th. */
  function Cut(s: seq<byte>): (r: seq<byte>)
    ensures |r| < 0x1_0000 && |r| <= |s|
    ensures |s| < 0x1_0000 <==> r == s
  {
    s[..|s| % 0x1_0000]
  }

  class Packet {
    var command: byte
    var remainingLength: nat
    var packetLength: nat
    var pos: nat
    var payload: array<byte>

    ghost predicate Valid()
      reads this
    {
      pos <= packetLength == payload.Length
    }

    /** What has been written so far. */
    ghost function Written(): (s: seq<byte>)
      reads this, payload
      requires Valid()
      ensures |s| == pos
    {
      payload[..pos]
    }

    constructor (command: byte, remainingLength: nat)
      ensures this.command == command && this.remainingLength == remainingLength
    {
      this.command, this.remainingLength := command, remainingLength;
      packetLength, pos, payload := 0, 0, new byte[0];
    }

    /** packet__alloc: refused exactly from 2 to the 28th on, otherwise room for the whole packet
      * with the fixed header in place. */
    method Alloc() returns (rc: Rc)
      requires remainingLength < 0x1_0000_0000
      modifies this`packetLength, this`pos, this`payload
      ensures rc == if remainingLength < RemainingLength.LIMIT then Success else PayloadSize
      ensures rc == Success ==>
                && Valid() && fresh(payload)
                && Written() == [command] + RemainingLength.Encode(remainingLength)
                && packetLength - pos == remainingLength
    {
      var digits := RemainingLength.EncodeLoop(remainingLength);
      if |digits| == 5 {
        return PayloadSize;
      }
      packetLength := remainingLength + 1 + |digits|;
      payload := new byte[packetLength];
      payload[0] := command;
      forall i | 0 <= i < |digits| {
        payload[i + 1] := digits[i];
      }
      pos := 1 + |digits|;
      assert payload[..pos] == [command] + digits;
      return Success;
    }

    /** packet__write_byte; the C code asserts that there is room. */
    method WriteByte(b: byte)
      requires Valid() && pos + 1 <= packetLength
      modifies this`pos, payload
      ensures Valid() && Written() == old(Written()) + [b]
    {
      payload[pos] := b;
      pos := pos + 1;
    }

    /** packet__write_bytes. */
    method WriteBytes(bytes: seq<byte>)
      requires Valid() && pos + |bytes| <= packetLength
      modifies this`pos, payload
      ensures Valid() && Written() == old(Written()) + bytes
    {
      ghost var before := Written();
      forall i | 0 <= i < |bytes| {
        payload[pos + i] := bytes[i];
      }
      pos := pos + |bytes|;
      assert payload[..pos] == before + bytes;
    }

    /** packet__write_uint16. */
    method WriteUint16(word: nat)
      requires word < 0x1_0000 && Valid() && pos + 2 <= packetLength
      modifies this`pos, payload
      ensures Valid() && Written() == old(Written()) + U16(word)
    {
      WriteByte(word / 256);
      WriteByte(word % 256);
    }

    /** packet__write_string; its length parameter is a uint16_t. */
    method WriteString(str: seq<byte>)
      requires Valid() && pos + 2 + |Cut(str)| <= packetLength
      modifies this`pos, payload
      ensures Valid() && Written() == old(Written()) + Str(Cut(str))
    {
      var length := |str| % 0x1_0000;
      WriteUint16(length);
      WriteBytes(str[..length]);
    }
  }

  // ----- reading -----

  /** The 16-bit number at `pos`, if it is within the packet. */
  function Uint16At(s: seq<byte>, pos: nat): (r: Option<nat>)
    ensures r.Some? <==> pos + 2 <= |s|
    ensures r.Some? ==> r.value < 0x1_0000
  {
    if pos + 2 > |s| then None else Some(s[pos] as int * 256 + s[pos + 1])
  }

  /** The string at `pos`, if it is within the packet. */
  function StringAt(s: seq<byte>, pos: nat): (r: Option<seq<byte>>)
    ensures r.Some? ==> |r.value| < 0x1_0000 && pos + 2 + |r.value| <= |s|
  {
    match Uint16At(s, pos)
    case None => None
    case Some(n) => if pos + 2 + n > |s| then None else Some(s[pos + 2..pos + 2 + n])
  }

  /** What is read as a number or a string is what would be written for it. */
  lemma Uint16IsThere(s: seq<byte>, pos: nat)
    requires Uint16At(s, pos).Some?
    ensures s[pos..pos + 2] == U16(Uint16At(s, pos).value)
  {
  }

  lemma StringIsThere(s: seq<byte>, pos: nat)
    requires StringAt(s, pos).Some?
    ensures var str := StringAt(s, pos).value; s[pos..pos + 2 + |str|] == Str(str)
  {
  }

  /** Where a failed packet__read_string leaves the position: behind the length, if there is one. */
  function Missing(s: seq<byte>, pos: nat): nat {
    if pos + 2 > |s| then pos else pos + 2
  }

  lemma Uint16Reads(front: seq<byte>, n: nat, rest: seq<byte>)
    requires n < 0x1_0000
    ensures Uint16At(front + U16(n) + rest, |front|) == Some(n)
  {
    var s := front + U16(n) + rest;
    assert s[|front|] == n / 256 && s[|front| + 1] == n % 256;
  }

  lemma StringReads(front: seq<byte>, str: seq<byte>, rest: seq<byte>)
    requires |str| < 0x1_0000
    ensures StringAt(front + Str(str) + rest, |front|) == Some(str)
  {
    assert front + Str(str) + rest == front + U16(|str|) + (str + rest);
    Uint16Reads(front, |str|, str + rest);
    var s := front + Str(str) + rest;
    assert s[|front| + 2..|front| + 2 + |str|] == str;
  }

  class InPacket {
    var command: byte
    var payload: seq<byte>   // remaining_length octets
    var pos: nat

    constructor (command: byte, payload: seq<byte>)
      ensures this.command == command && this.payload == payload && pos == 0
    {
      this.command, this.payload, pos := command, payload, 0;
    }

    /** packet__read_byte. */
    method ReadByte() returns (rc: Rc, b: byte)
      modifies this`pos
      ensures rc == if old(pos) + 1 > |payload| then Protocol else Success
      ensures rc == Success ==> pos == old(pos) + 1 && b == payload[old(pos)]
      ensures rc != Success ==> pos == old(pos)
    {
      if pos + 1 > |payload| {
        return Protocol, 0;
      }
      rc, b := Success, payload[pos];
      pos := pos + 1;
    }

    /** packet__read_bytes. */
    method ReadBytes(count: nat) returns (rc: Rc, bytes: seq<byte>)
      modifies this`pos
      ensures rc == if old(pos) + count > |payload| then Protocol else Success
      ensures rc == Success ==> pos == old(pos) + count && bytes == payload[old(pos)..pos]
      ensures rc != Success ==> pos == old(pos)
    {
      if pos + count > |payload| {
        return Protocol, [];
      }
      rc, bytes := Success, payload[pos..pos + count];
      pos := pos + count;
    }

    /** packet__read_uint16. */
    method ReadUint16() returns (rc: Rc, word: nat)
      modifies this`pos
      ensures word < 0x1_0000
      ensures match Uint16At(payload, old(pos))
              case None => rc == Protocol && pos == old(pos)
              case Some(n) => rc == Success && word == n && pos == old(pos) + 2
    {
      if pos + 2 > |payload| {
        return Protocol, 0;
      }
      var msb: int, lsb: int := payload[pos], payload[pos + 1];
      pos := pos + 2;
      return Success, msb * 256 + lsb;
    }

    /** packet__read_string. */
    method ReadString() returns (rc: Rc, str: seq<byte>)
      modifies this`pos
      ensures |str| < 0x1_0000
      ensures match StringAt(payload, old(pos))
              case None => rc == Protocol && pos == Missing(payload, old(pos))
              case Some(s) => rc == Success && str == s && pos == old(pos) + 2 + |s|
    {
      var slen;
      rc, slen := ReadUint16();
      if rc != Success {
        return rc, [];
      }
      if pos + slen > |payload| {
        return Protocol, [];
      }
      str := payload[pos..pos + slen];
      pos := pos + slen;
    }
  }
}
