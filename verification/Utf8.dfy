/** The UTF-8 validator of utf8_mosq.c against sections 3 and 4 of RFC 3629,
  * with U+0000 excluded by section 1.5.3 of MQTT 3.1.1.  The C code's masks and shifts
  * on octets are written as divisions and remainders by powers of two. */
module Utf8 {
  import opened Bytes

  // ----- the encoding -----

  predicate Scalar(cp: int) {
    1 <= cp <= 0x10_FFFF && !(0xD800 <= cp <= 0xDFFF)
  }

  /** The low six bits of a code point, and the bits above them. */
  function Low(cp: nat): (n: int) ensures 0 <= n < 64 { cp % 64 }
  function High(cp: nat): nat { cp / 64 }

  /** Section 3 of RFC 3629. */
  function Encode(cp: int): (s: seq<byte>)
    requires Scalar(cp)
    ensures 1 <= |s| <= 4
  {
    if cp < 0x80 then [cp]
    else if cp < 0x800 then [0xC0 + High(cp), 0x80 + Low(cp)]
    else if cp < 0x1_0000 then [0xE0 + High(High(cp)), 0x80 + Low(High(cp)), 0x80 + Low(cp)]
    else [0xF0 + High(High(High(cp))), 0x80 + Low(High(High(cp))), 0x80 + Low(High(cp)), 0x80 + Low(cp)]
  }

  predicate Scalars(cps: seq<int>) {
    forall i :: 0 <= i < |cps| ==> Scalar(cps[i])
  }

  function EncodeAll(cps: seq<int>): seq<byte>
    requires Scalars(cps)
  {
    if cps == [] then [] else Encode(cps[0]) + EncodeAll(cps[1..])
  }

  // ----- decoding one sequence, as the validator does -----

  /** Length of the sequence a lead octet announces; 0 for an octet that cannot lead. */
  function LeadLength(b: byte): (n: nat)
    ensures n <= 4
  {
    if 1 <= b <= 0x7F then 1
    else if 0xC2 <= b <= 0xDF then 2
    else if 0xE0 <= b <= 0xEF then 3
    else if 0xF0 <= b <= 0xF4 then 4
    else 0
  }

  function LeadBits(b: byte): int {
    match LeadLength(b)
    case 2 => b - 0xC0
    case 3 => b - 0xE0
    case 4 => b - 0xF0
    case _ => b
  }

  predicate Continuation(b: byte) { 0x80 <= b <= 0xBF }

  /** The six payload bits of a continuation octet. */
  function LowBits(b: byte): int { Low(b) }

  /** The lead bits of `s` followed by the low six bits of its next `n` octets. */
  function CodePoint(s: seq<byte>, n: nat): int
    requires n < |s|
  {
    if n == 0 then LeadBits(s[0]) else CodePoint(s, n - 1) * 64 + LowBits(s[n])
  }

  /** The checks made on a reassembled code point. */
  predicate InRange(codelen: int, cp: int) {
    && !(0xD800 <= cp <= 0xDFFF)
    && !(codelen == 2 && cp < 0x80)
    && !(codelen == 3 && cp < 0x800)
    && !(codelen == 4 && (cp < 0x1_0000 || cp > 0x10_FFFF))
  }

  predicate StartsWell(s: seq<byte>) {
    && s != []
    && var n := LeadLength(s[0]);
    && 0 < n <= |s|
    && (forall k :: 1 <= k < n ==> Continuation(s[k]))
    && InRange(n, CodePoint(s, n - 1))
  }

  function Decode(s: seq<byte>): Option<seq<int>> {
    if s == [] then Some([])
    else if !StartsWell(s) then None
    else
      var n := LeadLength(s[0]);
      match Decode(s[n..])
      case None => None
      case Some(cps) => Some([CodePoint(s, n - 1)] + cps)
  }

  lemma HighLow(q: nat, r: nat)
    requires r < 64
    ensures High(q * 64 + r) == q && Low(q * 64 + r) == r
  {
  }

  lemma Reassemble(cp: nat)
    ensures High(cp) * 64 + Low(cp) == cp
  {
  }

  lemma ContinuationBits(b: byte)
    requires Continuation(b)
    ensures LowBits(b) == b - 0x80
  {
  }

  /** What the validator accepts as one sequence is the encoding of a scalar value. */
  lemma StartsWellSound(s: seq<byte>)
    requires StartsWell(s)
    ensures Scalar(CodePoint(s, LeadLength(s[0]) - 1))
    ensures s[..LeadLength(s[0])] == Encode(CodePoint(s, LeadLength(s[0]) - 1))
  {
    match LeadLength(s[0])
    case 1 =>
    case 2 => Sound2(s);
    case 3 => Sound3(s);
    case _ => Sound4(s);
  }

  lemma Sound2(s: seq<byte>)
    requires StartsWell(s) && LeadLength(s[0]) == 2
    ensures Scalar(CodePoint(s, 1)) && s[..2] == Encode(CodePoint(s, 1))
  {
    hide High, Low, LowBits;
    ContinuationBits(s[1]);
    HighLow(CodePoint(s, 0), LowBits(s[1]));
    assert CodePoint(s, 1) == CodePoint(s, 0) * 64 + LowBits(s[1]);
    assert s[..2] == [s[0], s[1]];
  }

  lemma Sound3(s: seq<byte>)
    requires StartsWell(s) && LeadLength(s[0]) == 3
    ensures Scalar(CodePoint(s, 2)) && s[..3] == Encode(CodePoint(s, 2))
  {
    hide High, Low, LowBits;
    ContinuationBits(s[1]);
    ContinuationBits(s[2]);
    assert CodePoint(s, 1) == CodePoint(s, 0) * 64 + LowBits(s[1]);
    assert CodePoint(s, 2) == CodePoint(s, 1) * 64 + LowBits(s[2]);
    HighLow(CodePoint(s, 0), LowBits(s[1]));
    HighLow(CodePoint(s, 1), LowBits(s[2]));
    assert s[..3] == [s[0], s[1], s[2]];
  }

  lemma Sound4(s: seq<byte>)
    requires StartsWell(s) && LeadLength(s[0]) == 4
    ensures Scalar(CodePoint(s, 3)) && s[..4] == Encode(CodePoint(s, 3))
  {
    hide High, Low, LowBits;
    ContinuationBits(s[1]);
    ContinuationBits(s[2]);
    ContinuationBits(s[3]);
    assert CodePoint(s, 1) == CodePoint(s, 0) * 64 + LowBits(s[1]);
    assert CodePoint(s, 2) == CodePoint(s, 1) * 64 + LowBits(s[2]);
    assert CodePoint(s, 3) == CodePoint(s, 2) * 64 + LowBits(s[3]);
    HighLow(CodePoint(s, 0), LowBits(s[1]));
    HighLow(CodePoint(s, 1), LowBits(s[2]));
    HighLow(CodePoint(s, 2), LowBits(s[3]));
    assert s[..4] == [s[0], s[1], s[2], s[3]];
  }

  lemma LeadOfEncoding(cp: int)
    requires Scalar(cp)
    ensures LeadLength(Encode(cp)[0]) == |Encode(cp)|
    ensures forall k :: 1 <= k < |Encode(cp)| ==> Continuation(Encode(cp)[k])
    ensures CodePoint(Encode(cp), |Encode(cp)| - 1) == cp
  {
    hide High, Low, LowBits;
    var e := Encode(cp);
    Reassemble(cp);
    Reassemble(High(cp));
    Reassemble(High(High(cp)));
    if |e| > 1 {
      ContinuationBits(e[1]);
      assert CodePoint(e, 1) == CodePoint(e, 0) * 64 + LowBits(e[1]);
    }
    if |e| > 2 {
      ContinuationBits(e[2]);
      assert CodePoint(e, 2) == CodePoint(e, 1) * 64 + LowBits(e[2]);
    }
    if |e| > 3 {
      ContinuationBits(e[3]);
      assert CodePoint(e, 3) == CodePoint(e, 2) * 64 + LowBits(e[3]);
    }
  }

  lemma CodePointPrefix(e: seq<byte>, rest: seq<byte>, n: nat)
    requires n < |e|
    ensures CodePoint(e + rest, n) == CodePoint(e, n)
  {
  }

  /** The encoding of every scalar value is accepted and decoded to it. */
  lemma StartsWellComplete(cp: int, rest: seq<byte>)
    requires Scalar(cp)
    ensures var s := Encode(cp) + rest;
            StartsWell(s) && LeadLength(s[0]) == |Encode(cp)| && CodePoint(s, |Encode(cp)| - 1) == cp
  {
    LeadOfEncoding(cp);
    CodePointPrefix(Encode(cp), rest, |Encode(cp)| - 1);
  }

  /** Decoding inverts encoding. */
  lemma {:induction false} DecodeOfEncoding(cps: seq<int>)
    requires Scalars(cps)
    ensures Decode(EncodeAll(cps)) == Some(cps)
  {
    if cps != [] {
      var e, rest := Encode(cps[0]), EncodeAll(cps[1..]);
      StartsWellComplete(cps[0], rest);
      DecodeOfEncoding(cps[1..]);
      assert (e + rest)[|e|..] == rest;
      assert cps == [cps[0]] + cps[1..];
    }
  }

  /** Whatever decodes is the encoding of what it decodes to. */
  lemma {:induction false} EncodingOfDecode(s: seq<byte>)
    requires Decode(s).Some?
    ensures Scalars(Decode(s).value) && EncodeAll(Decode(s).value) == s
    decreases |s|
  {
    hide Encode;
    if s != [] {
      StartsWellSound(s);
      var n := LeadLength(s[0]);
      var cp, cps := CodePoint(s, n - 1), Decode(s[n..]).value;
      EncodingOfDecode(s[n..]);
      assert Decode(s).value == [cp] + cps;
      EncodeFirst(cp, cps);
      assert s == s[..n] + s[n..];
    }
  }

  lemma EncodeFirst(cp: int, cps: seq<int>)
    requires Scalar(cp) && Scalars(cps)
    ensures Scalars([cp] + cps) && EncodeAll([cp] + cps) == Encode(cp) + EncodeAll(cps)
  {
    hide Encode;
    assert ([cp] + cps)[1..] == cps;
  }

  /** RFC 3629: `s` is the encoding of a sequence of scalar values. */
  ghost predicate WellFormed(s: seq<byte>) {
    exists cps :: Scalars(cps) && s == EncodeAll(cps)
  }

  lemma WellFormedDecodes(s: seq<byte>)
    ensures WellFormed(s) <==> Decode(s).Some?
  {
    if WellFormed(s) {
      var cps :| Scalars(cps) && s == EncodeAll(cps);
      DecodeOfEncoding(cps);
    } else if Decode(s).Some? {
      EncodingOfDecode(s);
    }
  }

  /** No octet sequence encodes two different texts. */
  lemma EncodingUnique(a: seq<int>, b: seq<int>)
    requires Scalars(a) && Scalars(b) && EncodeAll(a) == EncodeAll(b)
    ensures a == b
  {
    DecodeOfEncoding(a);
    DecodeOfEncoding(b);
  }

  // ----- mosquitto_validate_utf8 -----

  /** The inner loop: read the continuation octets after position `from` and rebuild the code
    * point.  It stops at the first octet that is no continuation, the terminator included. */
  method Reconstruct(ustr: seq<byte>, len: nat, from: nat, codelen: nat, lead: int)
    returns (whole: bool, i: nat, codepoint: int)
    requires from < len < |ustr| && ustr[len] == 0
    requires codelen == LeadLength(ustr[from]) > 0 && lead == LeadBits(ustr[from])
    ensures var rest := ustr[from..len];
            whole <==> codelen <= |rest| && forall k :: 1 <= k < codelen ==> Continuation(rest[k])
    ensures whole ==> i == from + codelen - 1 < len && codepoint == CodePoint(ustr[from..len], codelen - 1)
  {
    hide Low;
    ghost var rest := ustr[from..len];
    i, codepoint := from, lead;
    var j := 0;
    while j < codelen - 1
      invariant 0 <= j <= codelen - 1 && i == from + j < len
      invariant forall k :: 1 <= k <= j ==> Continuation(rest[k])
      invariant codepoint == CodePoint(rest, j)
    {
      i := i + 1;
      assert i < len ==> rest[j + 1] == ustr[i];
      if ustr[i] / 0x40 != 2 {
        return false, i, codepoint;
      }
      codepoint := codepoint * 64 + LowBits(ustr[i]);
      j := j + 1;
    }
    return true, i, codepoint;
  }

  /** The validator on a buffer of `len` octets followed by the terminator. */
  method ValidateUtf8(ustr: seq<byte>, len: int) returns (rc: Rc)
    requires len >= 0 ==> len < |ustr| && ustr[len] == 0
    ensures rc == if len < 0 || len > 65536 then Inval else if WellFormed(ustr[..len]) then Success else Malformed
  {
    hide WellFormed, High, Low;
    if len < 0 || len > 65536 {
      return Inval;
    }
    ghost var s := ustr[..len];
    WellFormedDecodes(s);
    var i := 0;
    assert s[0..] == s;
    while i < len
      invariant 0 <= i <= len
      invariant Decode(s).Some? == Decode(s[i..]).Some?
    {
      ghost var from, rest := i, s[i..];
      assert rest[0] == ustr[i];
      var codelen, codepoint: int;
      if ustr[i] == 0 {
        return Malformed;
      } else if ustr[i] <= 0x7F {
        codelen, codepoint := 1, ustr[i];
      } else if ustr[i] / 0x20 == 6 {
        if ustr[i] == 0xC0 || ustr[i] == 0xC1 {
          return Malformed;
        }
        codelen, codepoint := 2, ustr[i] % 0x20;
      } else if ustr[i] / 0x10 == 14 {
        codelen, codepoint := 3, ustr[i] % 0x10;
      } else if ustr[i] / 0x08 == 30 {
        if ustr[i] > 0xF4 {
          return Malformed;
        }
        codelen, codepoint := 4, ustr[i] % 0x08;
      } else {
        return Malformed;
      }
      assert codelen == LeadLength(rest[0]) && codepoint == LeadBits(rest[0]);

      if i == len - codelen + 1 {
        return Malformed;
      }
      var whole;
      whole, i, codepoint := Reconstruct(ustr, len, i, codelen, codepoint);
      if !whole {
        return Malformed;
      }

      if codepoint >= 0xD800 && codepoint <= 0xDFFF {
        return Malformed;
      }
      if codelen == 2 && codepoint < 0x0080 {
        return Malformed;
      } else if codelen == 3 && codepoint < 0x0800 {
        return Malformed;
      } else if codelen == 4 && (codepoint < 0x1_0000 || codepoint > 0x10_FFFF) {
        return Malformed;
      }
      assert rest[codelen..] == s[i + 1..];
      assert StartsWell(rest);
      i := i + 1;
    }
    assert s[i..] == [];
    return Success;
  }
}
