/**
 Machine words as bit strings of their exact width, most significant bit first, with the
 operators of the source language: shifts that drop what leaves the word, bitwise or, and, xor,
 zero extension and narrowing casts.
 */
module Words {

  type Word = seq<bool>
  type U8 = b: seq<bool> | |b| == 8 witness seq(8, _ => false)
  type U16 = b: seq<bool> | |b| == 16 witness seq(16, _ => false)

  function Zeros(n: nat): (z: Word)
    ensures |z| == n && forall i :: 0 <= i < n ==> !z[i]
  {
    seq(n, _ => false)
  }

  function Shl(x: Word, k: nat): (y: Word)
    requires k <= |x|
    ensures |y| == |x|
  {
    x[k..] + Zeros(k)
  }

  function Shr(x: Word, k: nat): (y: Word)
    requires k <= |x|
    ensures |y| == |x|
  {
    Zeros(k) + x[..|x| - k]
  }

  function Or(x: Word, y: Word): (z: Word)
    requires |x| == |y|
    ensures |z| == |x| && forall i :: 0 <= i < |z| ==> z[i] == (x[i] || y[i])
  {
    seq(|x|, i requires 0 <= i < |x| => x[i] || y[i])
  }

  function And(x: Word, y: Word): (z: Word)
    requires |x| == |y|
    ensures |z| == |x| && forall i :: 0 <= i < |z| ==> z[i] == (x[i] && y[i])
  {
    seq(|x|, i requires 0 <= i < |x| => x[i] && y[i])
  }

  function Xor(x: Word, y: Word): (z: Word)
    requires |x| == |y|
    ensures |z| == |x| && forall i :: 0 <= i < |z| ==> z[i] == (x[i] != y[i])
  {
    seq(|x|, i requires 0 <= i < |x| => x[i] != y[i])
  }

  /** The word of width n whose k low bits are set: `(1 << k) - 1`. */
  function LowMask(n: nat, k: nat): (m: Word)
    requires k <= n
    ensures |m| == n && forall i :: 0 <= i < n ==> m[i] == (n - k <= i)
  {
    seq(n, i => n - k <= i)
  }

  /** Zero extension to width n. */
  function Widen(x: Word, n: nat): (y: Word)
    requires |x| <= n
    ensures |y| == n
  {
    Zeros(n - |x|) + x
  }

  /** The cast that keeps the n low bits. */
  function Narrow(x: Word, n: nat): (y: Word)
    requires n <= |x|
    ensures |y| == n
  {
    x[|x| - n..]
  }

  /** The n-bit binary form of a number. */
  function Bits(n: nat, v: nat): (x: Word)
    ensures |x| == n
  {
    if n == 0 then [] else Bits(n - 1, v / 2) + [v % 2 == 1]
  }

  /** The number a bit string denotes. */
  function Value(x: Word): nat {
    if x == [] then 0 else 2 * Value(x[..|x| - 1]) + (if x[|x| - 1] then 1 else 0)
  }

  lemma {:induction false} BitsOfValue(x: Word)
    ensures Bits(|x|, Value(x)) == x
  {
    if x != [] {
      BitsOfValue(x[..|x| - 1]);
    }
  }

  function Pow2(n: nat): nat { if n == 0 then 1 else 2 * Pow2(n - 1) }

  lemma {:induction false} ValueOfBits(n: nat, v: nat)
    requires v < Pow2(n)
    ensures Value(Bits(n, v)) == v
  {
    if n != 0 {
      ValueOfBits(n - 1, v / 2);
      assert Bits(n, v)[..n - 1] == Bits(n - 1, v / 2);
    }
  }

  lemma {:induction false} ValueBound(x: Word)
    ensures Value(x) < Pow2(|x|)
  {
    if x != [] {
      ValueBound(x[..|x| - 1]);
    }
  }

  /** The concatenation of a sequence of bytes. */
  function Flat(bytes: seq<U8>): (x: Word)
    ensures |x| == 8 * |bytes|
  {
    if bytes == [] then [] else Flat(bytes[..|bytes| - 1]) + bytes[|bytes| - 1]
  }

  lemma {:induction false} FlatAt(bytes: seq<U8>, i: nat)
    requires i < |bytes|
    ensures Flat(bytes)[8 * i..8 * i + 8] == bytes[i]
  {
    var init := bytes[..|bytes| - 1];
    if i < |init| {
      FlatAt(init, i);
      assert Flat(bytes)[8 * i..8 * i + 8] == Flat(init)[8 * i..8 * i + 8];
    }
  }

  lemma FlatBit(bytes: seq<U8>, i: nat, r: nat)
    requires i < |bytes| && r < 8
    ensures Flat(bytes)[8 * i + r] == bytes[i][r]
  {
    FlatAt(bytes, i);
    assert Flat(bytes)[8 * i..8 * i + 8][r] == Flat(bytes)[8 * i + r];
  }

  /** The bytes of a bit string. */
  function Octets(x: Word): (bytes: seq<U8>)
    requires |x| % 8 == 0
    ensures 8 * |bytes| == |x|
  {
    seq(|x| / 8, i requires 0 <= i < |x| / 8 => x[8 * i..8 * i + 8])
  }

  lemma OctetsOfFlat(bytes: seq<U8>)
    ensures Octets(Flat(bytes)) == bytes
  {
    forall i | 0 <= i < |bytes|
      ensures Octets(Flat(bytes))[i] == bytes[i]
    {
      FlatAt(bytes, i);
    }
  }

  lemma OctetsSnoc(x: Word, byte: U8)
    requires |x| % 8 == 0
    ensures Octets(x + byte) == Octets(x) + [byte]
  {
    var n, y := |x| / 8, x + byte;
    forall i | 0 <= i < n
      ensures Octets(y)[i] == Octets(x)[i]
    {
      assert y[8 * i..8 * i + 8] == x[8 * i..8 * i + 8];
    }
    assert y[8 * n..8 * n + 8] == byte;
  }

  lemma {:induction false} FlatOfOctets(x: Word)
    requires |x| % 8 == 0
    ensures Flat(Octets(x)) == x
  {
    if x != [] {
      var init, last := x[..|x| - 8], x[|x| - 8..];
      FlatOfOctets(init);
      assert x == init + last;
      OctetsSnoc(init, last);
    }
  }
}
