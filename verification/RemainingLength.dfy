/** The Remaining Length field (section 2.2.3 of MQTT 3.1.1): base-128 digits, least significant
  * first, the top bit set on all but the last. */
module RemainingLength {
  import opened Bytes

  const LIMIT := 0x1000_0000  // 128 to the fourth

  function Encode(n: nat): (s: seq<byte>)
    ensures s != []
  {
    if n < 128 then [n] else [n % 128 + 128] + Encode(n / 128)
  }

  /** A digit string: continuation bits on all but the last digit. */
  predicate Digits(s: seq<byte>) {
    s != [] && if |s| == 1 then s[0] < 128 else s[0] >= 128 && Digits(s[1..])
  }

  function Value(s: seq<byte>): nat {
    if s == [] then 0 else s[0] % 128 + 128 * Value(s[1..])
  }

  /** The encoding is a digit string for the number. */
  lemma {:induction false} EncodeValue(n: nat)
    ensures Digits(Encode(n)) && Value(Encode(n)) == n
  {
    if n >= 128 {
      EncodeValue(n / 128);
      assert Encode(n)[1..] == Encode(n / 128);
    }
  }

  /** No digit string for the number is shorter. */
  lemma {:induction false} EncodeMinimal(s: seq<byte>)
    requires Digits(s)
    ensures |Encode(Value(s))| <= |s|
  {
    if |s| > 1 {
      EncodeMinimal(s[1..]);
      var n := Value(s);
      assert n / 128 == Value(s[1..]);
      if n >= 128 {
        assert |Encode(n)| == 1 + |Encode(n / 128)|;
      }
    }
  }

  /** Four digits are enough exactly below 2 to the 28th. */
  lemma FourDigitsIff(n: nat)
    ensures |Encode(n)| <= 4 <==> n < LIMIT
  {
    LongerBy(n);
    LongerBy(n / 128);
    LongerBy(n / 128 / 128);
    LongerBy(n / 128 / 128 / 128);
  }

  lemma LongerBy(n: nat)
    ensures |Encode(n)| == if n < 128 then 1 else 1 + |Encode(n / 128)|
  {
  }

  /** The outcome of reading digits from the front of `s`. */
  datatype Read = Incomplete | TooLong | Complete(value: nat, count: nat)

  function Decode(s: seq<byte>): Read {
    DecodeAt(s, 0, 0, 1)
  }

  /** Reading on at digit `i`, with the value so far and the next multiplier. */
  function DecodeAt(s: seq<byte>, i: nat, value: nat, mult: nat): Read
    requires i <= |s|
    decreases |s| - i
  {
    if i == |s| then Incomplete
    else if i == 4 then TooLong
    else if s[i] < 128 then Complete(value + s[i] % 128 * mult, i + 1)
    else DecodeAt(s, i + 1, value + s[i] % 128 * mult, mult * 128)
  }

  /** Decoding the digits of `d` one by one gives their value, whatever follows. */
  lemma {:induction false} DecodeDigits(front: seq<byte>, d: seq<byte>, rest: seq<byte>, value: nat, mult: nat)
    requires Digits(d) && |front| + |d| <= 4
    ensures DecodeAt(front + d + rest, |front|, value, mult) == Complete(value + Value(d) * mult, |front| + |d|)
    decreases |d|
  {
    var s := front + d + rest;
    assert s[|front|] == d[0];
    if |d| == 1 {
      assert d[1..] == [];
      assert Value(d) == d[0] % 128;
    } else {
      assert s == (front + [d[0]]) + d[1..] + rest;
      DecodeDigits(front + [d[0]], d[1..], rest, value + d[0] % 128 * mult, mult * 128);
      Horner(d[0] % 128, Value(d[1..]), mult);
    }
  }

  lemma Horner(a: nat, b: nat, mult: nat)
    ensures a * mult + b * (mult * 128) == (a + 128 * b) * mult
  {
  }

  /** The receiver reads back every length the sender can encode. */
  lemma DecodeInvertsEncode(n: nat, rest: seq<byte>)
    requires n < LIMIT
    ensures Decode(Encode(n) + rest) == Complete(n, |Encode(n)|)
  {
    EncodeValue(n);
    FourDigitsIff(n);
    DecodeDigits([], Encode(n), rest, 0, 1);
    assert [] + Encode(n) + rest == Encode(n) + rest;
  }

  /** Before its last digit a length is incomplete. */
  lemma DecodeFront(n: nat, k: nat)
    requires n < LIMIT && k < |Encode(n)|
    ensures Decode(Encode(n)[..k]) == Incomplete
  {
    EncodeValue(n);
    FourDigitsIff(n);
    FrontOfDigits(Encode(n), 0, k, 0, 1);
  }

  lemma {:induction false} FrontOfDigits(d: seq<byte>, i: nat, k: nat, value: nat, mult: nat)
    requires i <= k < |d| <= 4 && Digits(d[i..])
    ensures DecodeAt(d[..k], i, value, mult) == Incomplete
    decreases k - i
  {
    if i < k {
      assert d[i..][1..] == d[i + 1..];
      FrontOfDigits(d, i + 1, k, value + d[i] % 128 * mult, mult * 128);
    }
  }

  /** The digit loop of packet__alloc and mosq_wclSmpGetMessage: it stops after five digits,
    * which stand for a length that does not fit. */
  method EncodeLoop(length: nat) returns (digits: seq<byte>)
    requires length < 0x1_0000_0000
    ensures |digits| == 5 <==> length >= LIMIT
    ensures length < LIMIT ==> digits == Encode(length)
  {
    digits := [];
    var remaining := length;
    FourDigitsIff(length);
    var more := true;
    while more
      invariant |digits| <= 5
      invariant more ==> |digits| < 5 && Encode(length) == digits + Encode(remaining)
      invariant !more ==> (Encode(length) == digits && |digits| <= 5) || (|digits| == 5 < |Encode(length)|)
      decreases if more then 5 - |digits| else -1
    {
      LongerBy(remaining);
      var digit: int := remaining % 128;
      remaining := remaining / 128;
      if remaining > 0 {
        digit := digit + 128;
      }
      digits := digits + [digit];
      more := remaining > 0 && |digits| < 5;
    }
  }
}
