/** Packet identifiers drawn by mosquitto__mid_generate: a 16-bit counter that skips 0. */
module PacketIds {

  const MIDS := 65535  // the usable identifiers are 1..65535

  predicate IsU16(n: int) { 0 <= n < 0x1_0000 }

  /** The identifier drawn when the previous one was `last`. */
  function NextMid(last: int): (mid: int)
    requires IsU16(last)
    ensures 1 <= mid <= MIDS
    ensures mid == if last == MIDS then 1 else last + 1
  {
    var mid := (last + 1) % 0x1_0000;
    if mid == 0 then (mid + 1) % 0x1_0000 else mid
  }

  /** The `n`th identifier drawn from a counter that stood at `first`; the 0th is `first` itself. */
  function MidAfter(first: int, n: nat): (mid: int)
    requires IsU16(first)
    ensures IsU16(mid)
    ensures n > 0 ==> mid != 0
  {
    if n == 0 then first else NextMid(MidAfter(first, n - 1))
  }

  /** The draws walk round the cycle 1..65535. */
  lemma {:induction false} MidCycle(first: int, n: nat)
    requires IsU16(first) && n > 0
    ensures MidAfter(first, n) == (first + n - 1) % MIDS + 1
  {
    hide NextMid;
    if n > 1 {
      MidCycle(first, n - 1);
      SuccResidue(first + n - 2);
    } else {
      assert MidAfter(first, 0) == first;
    }
  }

  lemma SuccResidue(k: nat)
    ensures (k + 1) % 65535 == if k % 65535 == 65534 then 0 else k % 65535 + 1
  {
    var q, r := k / 65535, k % 65535;
    assert k == 65535 * q + r;
    if r == 65534 {
      assert k + 1 == 65535 * (q + 1);
    }
  }

  /** Two draws give the same identifier exactly when a multiple of 65535 draws lies between them. */
  lemma MidsRepeat(first: int, i: nat, j: nat)
    requires IsU16(first) && 0 < i <= j
    ensures MidAfter(first, i) == MidAfter(first, j) <==> (j - i) % MIDS == 0
  {
    MidCycle(first, i);
    MidCycle(first, j);
    var a, d: int := first + i - 1, j - i;
    assert first + j - 1 == a + d;
    SameResidue(a, d);
  }

  lemma SameResidue(a: nat, d: nat)
    ensures (a + d) % 65535 == a % 65535 <==> d % 65535 == 0
  {
    var q, r := a / 65535, a % 65535;
    var s, t := d / 65535, d % 65535;
    var u, v := (a + d) / 65535, (a + d) % 65535;
    assert a == 65535 * q + r && d == 65535 * s + t && a + d == 65535 * u + v;
    assert 65535 * (u - q - s) == r + t - v;
    assert u - q - s == 0 || u - q - s == 1;
  }
}
