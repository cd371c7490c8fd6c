/** Bytes, numbers in network order, and the exclusive or of bytes. */
module Bytes {
  type Byte = x: int | 0 <= x < 256

  function Number(s: seq<Byte>): nat
  {
    if s == [] then 0 else 256 * Number(s[..|s| - 1]) + s[|s| - 1]
  }

  function Digits(n: nat, k: nat): (s: seq<Byte>)
    ensures |s| == k
  {
    if k == 0 then [] else Digits(n / 256, k - 1) + [n % 256]
  }

  function Pow256(k: nat): nat { if k == 0 then 1 else 256 * Pow256(k - 1) }

  lemma {:induction false} NumberOfDigits(n: nat, k: nat)
    ensures Number(Digits(n, k)) == n <==> n < Pow256(k)
  {
    if k > 0 {
      NumberOfDigits(n / 256, k - 1);
      assert Digits(n, k)[..k - 1] == Digits(n / 256, k - 1);
    }
  }

  lemma {:induction false} DigitsOfNumber(s: seq<Byte>)
    ensures Number(s) < Pow256(|s|) && Digits(Number(s), |s|) == s
  {
    if s != [] {
      DigitsOfNumber(s[..|s| - 1]);
    }
  }

  /** Bit by bit. */
  function Xor(a: nat, b: nat): nat
  {
    if a == 0 && b == 0 then 0
    else 2 * Xor(a / 2, b / 2) + if a % 2 == b % 2 then 0 else 1
  }

  lemma {:induction false} XorTwice(a: nat, b: nat)
    ensures Xor(Xor(a, b), b) == a
  {
    if a != 0 || b != 0 {
      XorTwice(a / 2, b / 2);
      assert Xor(a, b) / 2 == Xor(a / 2, b / 2);
    }
  }

  lemma {:induction false} XorIsByte(a: nat, b: nat, k: nat)
    requires a < Pow2(k) && b < Pow2(k)
    ensures Xor(a, b) < Pow2(k)
  {
    if k > 0 {
      XorIsByte(a / 2, b / 2, k - 1);
    }
  }

  function Pow2(k: nat): nat { if k == 0 then 1 else 2 * Pow2(k - 1) }

  function XorByte(a: Byte, b: Byte): Byte
  {
    assert Pow2(8) == 256;
    XorIsByte(a, b, 8);
    Xor(a, b)
  }

  /** The binary digit of weight `2^k`. */
  function Bit(n: nat, k: nat): nat { if k == 0 then n % 2 else Bit(n / 2, k - 1) }

  /** Each bit of the exclusive or is set exactly when the two bits differ. */
  lemma {:induction false} XorBits(a: nat, b: nat, k: nat)
    ensures Bit(Xor(a, b), k) == if Bit(a, k) != Bit(b, k) then 1 else 0
    decreases k
  {
    if a == 0 && b == 0 {
      ZeroBits(k);
    } else if k > 0 {
      assert Xor(a, b) / 2 == Xor(a / 2, b / 2);
      XorBits(a / 2, b / 2, k - 1);
    }
  }

  lemma {:induction false} ZeroBits(k: nat)
    ensures Bit(0, k) == 0
  {
    if k > 0 {
      ZeroBits(k - 1);
    }
  }

  /** The first byte is the most significant one. */
  lemma {:induction false} NumberFirst(s: seq<Byte>)
    requires s != []
    ensures Number(s) == s[0] as int * Pow256(|s| - 1) + Number(s[1..])
  {
    var n := |s| - 1;
    if n > 0 {
      NumberFirst(s[..n]);
      assert s[..n][1..] == s[1..][..n - 1] && s[1..][n - 1] == s[n];
      Shift(s[0], Pow256(n - 1));
    }
  }

  lemma Shift(a: nat, p: nat)
    ensures a * (256 * p) == 256 * (a * p)
  {
  }
}
