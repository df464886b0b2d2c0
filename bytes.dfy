/** Bytes, 32-byte digests and the big-endian reading of a byte string as a
    natural number (what `big.Int.SetBytes` does). */
module Bytes {

  newtype byte = x: int | 0 <= x < 256

  /** A SHA-256 digest: always exactly 32 bytes. */
  type Hash = s: seq<byte> | |s| == 32 witness seq(32, _ => 0 as byte)

  /** SHA-256 itself is not modelled: callers pass it in as a total function. */
  type Sha256 = seq<byte> -> Hash

  function Pow(b: nat, e: nat): (r: nat)
    ensures b > 0 ==> r > 0
  {
    if e == 0 then 1 else b * Pow(b, e - 1)
  }

  lemma {:induction false} PowAdd(b: nat, x: nat, y: nat)
    ensures Pow(b, x + y) == Pow(b, x) * Pow(b, y)
  {
    if y > 0 {
      PowAdd(b, x, y - 1);
      calc {
        Pow(b, x + y);
        b * Pow(b, x + y - 1);
        b * (Pow(b, x) * Pow(b, y - 1));
        Pow(b, x) * (b * Pow(b, y - 1));
        Pow(b, x) * Pow(b, y);
      }
    }
  }

  /** Eight bits make a byte: 2^(8k) == 256^k. */
  lemma {:induction false} PowTwoBytes(k: nat)
    ensures Pow(2, 8 * k) == Pow(256, k)
  {
    if k > 0 {
      PowTwoBytes(k - 1);
      PowAdd(2, 8 * (k - 1), 8);
      assert Pow(2, 8) == 256;
    }
  }

  /** Big-endian: the first byte is the most significant one. */
  function BytesToNat(s: seq<byte>): nat
  {
    if s == [] then 0 else s[0] as nat * Pow(256, |s| - 1) + BytesToNat(s[1..])
  }

  lemma MulMonotone(a: nat, b: nat, p: nat)
    requires a <= b
    ensures a * p <= b * p
  {
  }

  lemma {:induction false} BytesToNatBound(s: seq<byte>)
    ensures BytesToNat(s) < Pow(256, |s|)
  {
    if s != [] {
      var p, d, rest := Pow(256, |s| - 1), s[0] as nat, BytesToNat(s[1..]);
      BytesToNatBound(s[1..]);
      assert rest < p;
      MulMonotone(d + 1, 256, p);
      assert (d + 1) * p == d * p + p;
      assert BytesToNat(s) == d * p + rest;
    }
  }

  /** A non-empty byte string reads below 256^(n-1) exactly when its leading
      byte is zero. */
  lemma LeadingByteZero(s: seq<byte>)
    requires s != []
    ensures BytesToNat(s) < Pow(256, |s| - 1) <==> s[0] == 0
  {
    var p, d := Pow(256, |s| - 1), s[0] as nat;
    BytesToNatBound(s[1..]);
    assert BytesToNat(s) == d * p + BytesToNat(s[1..]);
    if d != 0 {
      MulMonotone(1, d, p);
    }
  }
}
