/** Bytes, as Python's `bytes` holds them, and the bitwise `^` on them. */
module Bytes {
  newtype byte = x: int | 0 <= x < 0x100

  function Pow2(k: nat): (p: nat)
    ensures p >= 1
  {
    if k == 0 then 1 else 2 * Pow2(k - 1)
  }

  /** Bitwise exclusive or of two naturals, lowest bit first. */
  function XorBits(a: nat, b: nat): nat
    decreases a + b
  {
    if a == 0 && b == 0 then 0 else 2 * XorBits(a / 2, b / 2) + (if a % 2 == b % 2 then 0 else 1)
  }

  lemma {:induction false} XorBitsBound(a: nat, b: nat, k: nat)
    requires a < Pow2(k) && b < Pow2(k)
    ensures XorBits(a, b) < Pow2(k)
    decreases k
  {
    if !(a == 0 && b == 0) {
      XorBitsBound(a / 2, b / 2, k - 1);
    }
  }

  /** `x ^ k ^ k == x`. */
  lemma {:induction false} XorBitsInvolutive(a: nat, b: nat)
    ensures XorBits(XorBits(a, b), b) == a
    decreases a + b
  {
    if !(a == 0 && b == 0) {
      var ha, ra, hb, rb := a / 2, a % 2, b / 2, b % 2;
      var h := XorBits(ha, hb);
      var r := if ra == rb then 0 else 1;
      var x := 2 * h + r;
      XorBitsStep(a, b, ha, ra, hb, rb);
      XorBitsInvolutive(ha, hb);
      if x != 0 || b != 0 {
        XorBitsStep(x, b, h, r, hb, rb);
      }
    }
  }

  /** One step of the bit recursion, the halves and low bits being named. */
  lemma XorBitsStep(a: nat, b: nat, ha: nat, ra: nat, hb: nat, rb: nat)
    requires a == 2 * ha + ra && ra < 2 && b == 2 * hb + rb && rb < 2
    requires !(a == 0 && b == 0)
    ensures XorBits(a, b) == 2 * XorBits(ha, hb) + (if ra == rb then 0 else 1)
  {
    assert a / 2 == ha && a % 2 == ra && b / 2 == hb && b % 2 == rb;
  }

  /** `a ^ b` on two bytes. */
  function Xor(a: byte, b: byte): byte {
    XorBitsBound(a as nat, b as nat, 8);
    XorBits(a as nat, b as nat) as byte
  }

  /** XOR with the same byte twice gives the byte back. */
  lemma XorInvolutive(a: byte, b: byte)
    ensures Xor(Xor(a, b), b) == a
  {
    XorBitsInvolutive(a as nat, b as nat);
  }
}
