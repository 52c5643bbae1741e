/**
 CRC-16/XMODEM as the registry contract computes it (contracts/payroll_registry/src/lib.rs:381-394),
 its meaning as a polynomial remainder, and the error patterns it detects.
 */
module Crc16 {
  import opened Words

  /** The generator polynomial x^16 + x^12 + x^5 + 1 without its leading term: 0x1021. */
  const POLY: U16 := [false, false, false, true, false, false, false, false,
                      false, false, true, false, false, false, false, true]

  /** One turn of the inner loop. */
  function Round(c: U16): U16 {
    if c[0] then Xor(Shl(c, 1), POLY) else Shl(c, 1)
  }

  function Rounds(c: U16, k: nat): U16
    decreases k
  {
    if k == 0 then c else Rounds(Round(c), k - 1)
  }

  /** The register with one message bit added at its top. */
  function Flip(c: U16, bit: bool): U16 { [c[0] != bit] + c[1..] }

  /** The checksum register after one message bit at a time. */
  function Feed(c: U16, bits: Word): U16
    decreases bits
  {
    if bits == [] then c else Feed(Round(Flip(c, bits[0])), bits[1..])
  }

  function Crc(bytes: seq<U8>): U16 { Feed(Zeros(16), Flat(bytes)) }

  /** `crc16_xmodem`: the outer loop. */
  method Crc16Xmodem(bytes: seq<U8>) returns (crc: U16)
    ensures crc == Crc(bytes)
  {
    crc := Zeros(16);
    for i := 0 to |bytes|
      invariant crc == Crc(bytes[..i])
    {
      CrcSnoc(bytes, i);
      crc := AddByte(crc, bytes[i]);
    }
    assert bytes[..|bytes|] == bytes;
  }

  /** Its body: the byte is added at the top of the register, then the inner loop runs. */
  method AddByte(crc: U16, byte: U8) returns (crc': U16)
    ensures crc' == Feed(crc, byte)
  {
    ByteRounds(crc, byte);
    crc' := InnerLoop(Xor(crc, Shl(Widen(byte, 16), 8)), 8);
  }

  /** The inner loop, for any number of turns. */
  method InnerLoop(crc: U16, turns: nat) returns (crc': U16)
    ensures crc' == Rounds(crc, turns)
  {
    crc' := crc;
    for k := 0 to turns
      invariant Rounds(crc', turns - k) == Rounds(crc, turns)
    {
      ghost var before := crc';
      if crc'[0] {
        crc' := Xor(Shl(crc', 1), POLY);
      } else {
        crc' := Shl(crc', 1);
      }
      assert crc' == Round(before);
    }
  }

  lemma ByteRounds(c: U16, byte: U8)
    ensures Rounds(Xor(c, Shl(Widen(byte, 16), 8)), 8) == Feed(c, byte)
  {
    assert Shl(Widen(byte, 16), 8) == byte + Zeros(8);
    RoundsFeed(c, byte);
  }

  lemma CrcSnoc(bytes: seq<U8>, i: nat)
    requires i < |bytes|
    ensures Feed(Crc(bytes[..i]), bytes[i]) == Crc(bytes[..i + 1])
  {
    FeedConcat(Zeros(16), Flat(bytes[..i]), bytes[i]);
    assert bytes[..i + 1][..i] == bytes[..i];
  }

  lemma {:induction false} FeedConcat(c: U16, a: Word, b: Word)
    ensures Feed(c, a + b) == Feed(Feed(c, a), b)
    decreases a
  {
    if a == [] {
      assert a + b == b;
    } else {
      assert (a + b)[1..] == a[1..] + b;
      FeedConcat(Round(Flip(c, a[0])), a[1..], b);
    }
  }

  lemma RoundLinear(a: U16, b: U16)
    ensures Round(Xor(a, b)) == Xor(Round(a), Round(b))
  {}

  lemma FirstBit(c: U16, w: Word)
    requires 0 < |w| <= 16
    ensures Xor(c, w + Zeros(16 - |w|)) == Xor(Flip(c, w[0]), [false] + w[1..] + Zeros(16 - |w|))
    ensures Round([false] + w[1..] + Zeros(16 - |w|)) == w[1..] + Zeros(17 - |w|)
  {}

  /** Adding a whole word at the top and turning |w| times equals feeding its bits one by one. */
  lemma {:induction false} RoundsFeed(c: U16, w: Word)
    requires |w| <= 16
    ensures Rounds(Xor(c, w + Zeros(16 - |w|)), |w|) == Feed(c, w)
    decreases w
  {
    if w == [] {
      assert Xor(c, w + Zeros(16)) == c;
    } else {
      FirstBit(c, w);
      RoundLinear(Flip(c, w[0]), [false] + w[1..] + Zeros(16 - |w|));
      RoundsFeed(Round(Flip(c, w[0])), w[1..]);
    }
  }

  // ------------------------------------------------------------------ what the checksum means

  /** A polynomial over GF(2) is its coefficients, highest power first: here f * x^n * g + p. */
  function AddTerm(f: bool, g: Word, p: Word): (r: Word)
    requires 0 < |g| <= |p| + 1
    ensures |r| == |p| + 1
  {
    Xor(if f then g + Zeros(|p| + 1 - |g|) else Zeros(|p| + 1), [false] + p)
  }

  /** The product of two polynomials. */
  function Product(q: Word, g: Word): (p: Word)
    requires g != []
    ensures |p| == |q| + |g| - 1
    decreases q
  {
    if q == [] then Zeros(|g| - 1) else AddTerm(q[0], g, Product(q[1..], g))
  }

  /** x^16 + x^12 + x^5 + 1. */
  const GENERATOR: Word := [true] + POLY

  lemma AddTermXor(f: bool, g: Word, a: Word, b: Word)
    requires 0 < |g| <= |a| + 1 && |a| == |b|
    ensures AddTerm(f, g, Xor(a, b)) == Xor(AddTerm(f, g, a), [false] + b)
  {}

  lemma XorCancel(m: Word, a: Word, b: Word)
    requires |m| == |a| == |b|
    ensures Xor(Xor(m, a), Xor(m, b)) == Xor(a, b)
    ensures Xor(Xor(a, b), b) == a
  {}

  /** The register and the message bits still to come, as one polynomial. */
  function Ahead(c: U16, w: Word): (p: Word)
    ensures |p| == |w| + 16
  {
    Xor(c + Zeros(|w|), w + Zeros(16))
  }

  lemma AheadStep(c: U16, w: Word)
    requires w != []
    ensures Ahead(c, w) == AddTerm(c[0] != w[0], GENERATOR, Ahead(Round(Flip(c, w[0])), w[1..]))
  {
    var f, next := c[0] != w[0], Round(Flip(c, w[0]));
    forall i | 0 <= i < 16
      ensures next[i] == ((i < 15 && c[i + 1]) != (f && POLY[i]))
    {
      NextBit(c, w[0], i);
    }
    var head := if f then GENERATOR + Zeros(|w| - 1) else Zeros(|w| + 16);
    var tail := [false] + Ahead(next, w[1..]);
    forall i | 0 <= i < |w| + 16
      ensures Ahead(c, w)[i] == (head[i] != tail[i])
    {
      if i > 0 {
        assert tail[i] == ((i <= 16 && next[i - 1]) != (i < |w| && w[i]));
        assert head[i] == (f && i <= 16 && POLY[i - 1]);
      }
    }
    assert Ahead(c, w) == Xor(head, tail);
  }

  /** One bit of the register after one turn, and after one message bit. */
  lemma RoundBit(c: U16, i: nat)
    requires i < 16
    ensures Round(c)[i] == ((i < 15 && c[i + 1]) != (c[0] && POLY[i]))
  {
    assert Shl(c, 1)[i] == (i < 15 && c[i + 1]);
  }

  lemma NextBit(c: U16, bit: bool, i: nat)
    requires i < 16
    ensures Round(Flip(c, bit))[i] == ((i < 15 && c[i + 1]) != ((c[0] != bit) && POLY[i]))
  {
    RoundBit(Flip(c, bit), i);
  }

  /** Feeding is division: what is ahead is a multiple of the generator and the register at the end. */
  lemma {:induction false} FeedDivides(c: U16, w: Word) returns (q: Word)
    ensures |q| == |w| && Ahead(c, w) == Xor(Product(q, GENERATOR), Zeros(|w|) + Feed(c, w))
    decreases w
  {
    if w == [] {
      q := [];
    } else {
      var rest := FeedDivides(Round(Flip(c, w[0])), w[1..]);
      q := [c[0] != w[0]] + rest;
      AheadStep(c, w);
      AddTermXor(q[0], GENERATOR, Product(rest, GENERATOR), Zeros(|rest|) + Feed(c, w));
      Padding(|rest|, Feed(c, w));
      assert q[1..] == rest;
    }
  }

  lemma Padding(n: nat, r: Word)
    ensures [false] + (Zeros(n) + r) == Zeros(n + 1) + r
    ensures (Zeros(n) + r)[..n] == Zeros(n) && (Zeros(n) + r)[n..] == r
  {}

  lemma XorPadded(n: nat, r: Word, t: Word)
    requires |r| == |t|
    ensures Xor(Zeros(n) + r, Zeros(n) + t) == Zeros(n) + Xor(r, t)
  {}

  lemma AddTermLinear(f: bool, h: bool, g: Word, a: Word, b: Word)
    requires 0 < |g| <= |a| + 1 && |a| == |b|
    ensures AddTerm(f != h, g, Xor(a, b)) == Xor(AddTerm(f, g, a), AddTerm(h, g, b))
  {}

  lemma {:induction false} ProductLinear(p: Word, q: Word, g: Word)
    requires |p| == |q| && g != []
    ensures Product(Xor(p, q), g) == Xor(Product(p, g), Product(q, g))
    decreases p
  {
    if p != [] {
      ProductLinear(p[1..], q[1..], g);
      AddTermLinear(p[0], q[0], g, Product(p[1..], g), Product(q[1..], g));
      assert Xor(p, q)[1..] == Xor(p[1..], q[1..]);
    }
  }

  lemma LeadingTerm(q: Word)
    requires q != []
    ensures Product(q, GENERATOR)[0] == q[0]
    ensures !q[0] ==> Product(q, GENERATOR) == [false] + Product(q[1..], GENERATOR)
  {}

  /** A multiple of the generator of degree below sixteen is zero. */
  lemma {:induction false} SmallMultiple(q: Word)
    requires Product(q, GENERATOR)[..|q|] == Zeros(|q|)
    ensures Product(q, GENERATOR) == Zeros(|q| + 16)
    decreases q
  {
    if q != [] {
      LeadingTerm(q);
      assert Product(q, GENERATOR)[..|q|][0] == Zeros(|q|)[0];
      var rest := Product(q[1..], GENERATOR);
      assert [false] + rest[..|q| - 1] == ([false] + rest)[..|q|];
      assert rest[..|q| - 1] == Zeros(|q|)[1..];
      assert Zeros(|q|)[1..] == Zeros(|q| - 1);
      SmallMultiple(q[1..]);
    }
  }

  /** r is what remains of the polynomial m on division by the generator. */
  ghost predicate IsRemainder(m: Word, r: U16)
    requires |m| >= 16
  {
    exists q: Word :: |q| == |m| - 16 && Xor(m, Zeros(|m| - 16) + r) == Product(q, GENERATOR)
  }

  lemma RemainderUnique(m: Word, r: U16, t: U16)
    requires |m| >= 16 && IsRemainder(m, r) && IsRemainder(m, t)
    ensures r == t
  {
    var n := |m| - 16;
    var p: Word :| |p| == n && Xor(m, Zeros(n) + r) == Product(p, GENERATOR);
    var q: Word :| |q| == n && Xor(m, Zeros(n) + t) == Product(q, GENERATOR);
    ProductLinear(p, q, GENERATOR);
    XorCancel(m, Zeros(n) + r, Zeros(n) + t);
    DifferenceSmall(Xor(p, q), r, t);
  }

  lemma DifferenceSmall(q: Word, r: U16, t: U16)
    requires Product(q, GENERATOR) == Xor(Zeros(|q|) + r, Zeros(|q|) + t)
    ensures r == t
  {
    XorPadded(|q|, r, t);
    Padding(|q|, Xor(r, t));
    SmallMultiple(q);
    Padding(|q|, Zeros(16));
    assert Zeros(|q| + 16) == Zeros(|q|) + Zeros(16);
    SameWords(r, t);
  }

  lemma SameWords(x: Word, y: Word)
    requires |x| == |y| && Xor(x, y) == Zeros(|x|)
    ensures x == y
  {
    assert forall i :: 0 <= i < |x| ==> !Xor(x, y)[i];
  }

  lemma AheadFresh(w: Word)
    ensures Ahead(Zeros(16), w) == w + Zeros(16)
  {}

  lemma FeedRemains(w: Word)
    ensures IsRemainder(w + Zeros(16), Feed(Zeros(16), w))
  {
    var m := w + Zeros(16);
    var q := FeedDivides(Zeros(16), w);
    AheadFresh(w);
    XorCancel(m, Product(q, GENERATOR), Zeros(|w|) + Feed(Zeros(16), w));
  }

  /** The generator is x^16 + x^12 + x^5 + 1: the coefficients at distances 0, 4, 11 and 16 from the top. */
  lemma GeneratorIs(i: nat)
    requires i < 17
    ensures |GENERATOR| == 17 && (GENERATOR[i] <==> i == 0 || i == 4 || i == 11 || i == 16)
  {}

  /** The checksum is the remainder, and the only one, of the message times x^16 by the generator. */
  lemma CrcIsRemainder(bytes: seq<U8>, r: U16)
    ensures r == Crc(bytes) <==> IsRemainder(Flat(bytes) + Zeros(16), r)
  {
    var m := Flat(bytes) + Zeros(16);
    FeedRemains(Flat(bytes));
    if IsRemainder(m, r) {
      RemainderUnique(m, r, Crc(bytes));
    }
  }

  // ------------------------------------------------------------------ the errors it detects

  lemma {:induction false} FeedLinear(c: U16, d: U16, p: Word, q: Word)
    requires |p| == |q|
    ensures Feed(Xor(c, d), Xor(p, q)) == Xor(Feed(c, p), Feed(d, q))
    decreases p
  {
    if p != [] {
      assert Flip(Xor(c, d), Xor(p, q)[0]) == Xor(Flip(c, p[0]), Flip(d, q[0]));
      RoundLinear(Flip(c, p[0]), Flip(d, q[0]));
      assert Xor(p, q)[1..] == Xor(p[1..], q[1..]);
      FeedLinear(Round(Flip(c, p[0])), Round(Flip(d, q[0])), p[1..], q[1..]);
    }
  }

  /** A register is cleared by at most sixteen bits exactly when it holds those bits at its top. */
  lemma {:induction false} FeedClears(d: U16, w: Word)
    requires |w| <= 16
    ensures Feed(d, w) == Zeros(16) <==> d == w + Zeros(16 - |w|)
    decreases w
  {
    if w == [] {
      assert w + Zeros(16) == Zeros(16);
    } else {
      var a := Flip(d, w[0]);
      FeedClears(Round(a), w[1..]);
      RoundClears(a, w[1..]);
      assert d == w + Zeros(16 - |w|) <==> a == [false] + w[1..] + Zeros(16 - |w|) by {
        if d == w + Zeros(16 - |w|) {
          assert a == [false] + w[1..] + Zeros(16 - |w|);
        }
        if a == [false] + w[1..] + Zeros(16 - |w|) {
          assert d == [w[0]] + a[1..];
          assert d == w + Zeros(16 - |w|);
        }
      }
    }
  }

  /** The generator ends in a one, so a turn that leaves a zero at the end subtracted nothing. */
  lemma RoundClears(a: U16, w: Word)
    requires |w| <= 15
    ensures Round(a) == w + Zeros(16 - |w|) <==> a == [false] + w + Zeros(15 - |w|)
  {
    if Round(a) == w + Zeros(16 - |w|) {
      assert Round(a)[15] == a[0];
      assert !a[0];
      assert a[1..] == (a[1..] + Zeros(1))[..15];
      assert (w + Zeros(16 - |w|))[..15] == w + Zeros(15 - |w|);
      assert a == [a[0]] + a[1..];
    }
    if a == [false] + w + Zeros(15 - |w|) {
      assert Round(a) == w + Zeros(16 - |w|);
    }
  }

  lemma {:induction false} ZerosFeedNothing(n: nat)
    ensures Feed(Zeros(16), Zeros(n)) == Zeros(16)
  {
    if n != 0 {
      assert Zeros(n)[1..] == Zeros(n - 1);
      assert Round(Flip(Zeros(16), false)) == Zeros(16);
      ZerosFeedNothing(n - 1);
    }
  }

  lemma {:induction false} ZerosClearNothing(d: U16, n: nat)
    requires Feed(d, Zeros(n)) == Zeros(16)
    ensures d == Zeros(16)
    decreases n
  {
    if n != 0 {
      assert Zeros(n)[1..] == Zeros(n - 1);
      assert Flip(d, false) == d;
      ZerosClearNothing(Round(d), n - 1);
      RoundClears(d, []);
      assert [] + Zeros(16) == Zeros(16) && [false] + [] + Zeros(15) == Zeros(16);
    }
  }

  /** Zeros around an error pattern do not matter. */
  lemma Trim(a: nat, w: Word, b: nat)
    requires Feed(Zeros(16), Zeros(a) + w + Zeros(b)) == Zeros(16)
    ensures Feed(Zeros(16), w) == Zeros(16)
  {
    FeedConcat(Zeros(16), Zeros(a) + w, Zeros(b));
    ZerosClearNothing(Feed(Zeros(16), Zeros(a) + w), b);
    FeedConcat(Zeros(16), Zeros(a), w);
    ZerosFeedNothing(a);
  }

  /** No error pattern of at most sixteen bits goes unnoticed. */
  lemma BurstDetected(w: Word)
    requires |w| <= 16 && Feed(Zeros(16), w) == Zeros(16)
    ensures w == Zeros(|w|)
  {
    FeedClears(Zeros(16), w);
    ZerosOnly(Zeros(16), w, Zeros(16 - |w|));
  }

  lemma ZerosOnly(z: Word, w: Word, rest: Word)
    requires z == w + rest && z == Zeros(|z|)
    ensures w == Zeros(|w|)
  {
    assert forall i :: 0 <= i < |w| ==> w[i] == z[i];
  }

  /** After two bits a cleared register holds one copy of the generator for each of them. */
  lemma TwoBitsAt(w0: bool, w1: bool, i: nat)
    requires i < 14
    ensures Feed(Zeros(16), [w0, w1])[i] == ((w0 && POLY[i + 1]) != (w1 && POLY[i]))
  {
    var c := Feed(Zeros(16), [w0]);
    assert [w0, w1] == [w0] + [w1];
    FeedConcat(Zeros(16), [w0], [w1]);
    FeedOne(Zeros(16), w0);
    FeedOne(c, w1);
    NextBit(Zeros(16), w0, i + 1);
    NextBit(Zeros(16), w0, 0);
    NextBit(c, w1, i);
  }

  lemma TwoBits(w0: bool, w1: bool)
    ensures var d := Feed(Zeros(16), [w0, w1]);
      d[2] == d[9] == w0 && d[3] == d[10] == w1 && (!w0 && !w1 ==> d == Zeros(16))
  {
    TwoBitsAt(w0, w1, 2);
    TwoBitsAt(w0, w1, 3);
    TwoBitsAt(w0, w1, 9);
    TwoBitsAt(w0, w1, 10);
    assert [false, false] == Zeros(2);
    ZerosFeedNothing(2);
  }

  lemma FeedOne(c: U16, bit: bool)
    ensures Feed(c, [bit]) == Round(Flip(c, bit))
  {
    var one := [bit];
    assert one[1..] == [];
    assert Feed(c, one) == Feed(Round(Flip(c, bit)), one[1..]);
  }

  /** One turn of the inner loop undone. */
  function Unround(c: U16): U16 {
    if c[15] then [true] + Xor(c, POLY)[..15] else [false] + c[..15]
  }

  /** So a turn is a bijection on 16-bit words. */
  lemma RoundBijective(c: U16)
    ensures Round(Unround(c)) == c && Unround(Round(c)) == c
  {
    assert Round(c)[15] == c[0];
    if c[15] {
      assert Shl(Unround(c), 1) == Xor(c, POLY)[..15] + [false];
    } else {
      assert Shl(Unround(c), 1) == c[..15] + [false];
    }
    if c[0] {
      assert Xor(Round(c), POLY) == Shl(c, 1);
    }
  }

  /** Two payloads of one length that differ only within two neighbouring bytes have different checksums. */
  lemma NeighbouringBytesDetermined(x: seq<U8>, y: seq<U8>, k: nat)
    requires |x| == |y| && k + 2 <= |x| && Crc(x) == Crc(y)
    requires forall i :: 0 <= i < |x| && i != k && i != k + 1 ==> x[i] == y[i]
    ensures x == y
  {
    var e := Xor(Flat(x), Flat(y));
    assert Xor(Zeros(16), Zeros(16)) == Zeros(16) && Xor(Crc(x), Crc(y)) == Zeros(16);
    FeedLinear(Zeros(16), Zeros(16), Flat(x), Flat(y));
    OutsideAgrees(x, y, k);
    WindowDetected(e, 8 * k);
    SameBytes(x, y, e);
  }

  lemma WindowWord(e: Word, a: nat)
    requires a + 16 <= |e| && forall p :: 0 <= p < |e| && !(a <= p < a + 16) ==> !e[p]
    ensures e == Zeros(a) + e[a..a + 16] + Zeros(|e| - a - 16)
  {}

  lemma WindowClear(e: Word, a: nat, w: Word)
    requires a + 16 <= |e| && forall p :: 0 <= p < |e| && !(a <= p < a + 16) ==> !e[p]
    requires w == e[a..a + 16] && w == Zeros(16)
    ensures forall p :: 0 <= p < |e| ==> !e[p]
  {
    assert forall p :: a <= p < a + 16 ==> e[p] == w[p - a];
  }

  /** An error pattern confined to sixteen neighbouring bits is noticed wherever they are. */
  lemma WindowDetected(e: Word, a: nat)
    requires a + 16 <= |e| && Feed(Zeros(16), e) == Zeros(16)
    requires forall p :: 0 <= p < |e| && !(a <= p < a + 16) ==> !e[p]
    ensures forall p :: 0 <= p < |e| ==> !e[p]
  {
    WindowWord(e, a);
    Trim(a, e[a..a + 16], |e| - a - 16);
    BurstDetected(e[a..a + 16]);
    WindowClear(e, a, e[a..a + 16]);
  }

  lemma OutsideAgrees(x: seq<U8>, y: seq<U8>, k: nat)
    requires |x| == |y| && forall i :: 0 <= i < |x| && i != k && i != k + 1 ==> x[i] == y[i]
    ensures forall p :: 0 <= p < 8 * |x| && !(8 * k <= p < 8 * k + 16) ==> Flat(x)[p] == Flat(y)[p]
  {
    forall p | 0 <= p < 8 * |x| && !(8 * k <= p < 8 * k + 16)
      ensures Flat(x)[p] == Flat(y)[p]
    {
      var i, r := p / 8, p % 8;
      FlatBit(x, i, r);
      FlatBit(y, i, r);
    }
  }

  lemma SameBytes(x: seq<U8>, y: seq<U8>, e: Word)
    requires |x| == |y| && e == Xor(Flat(x), Flat(y)) && forall p :: 0 <= p < |e| ==> !e[p]
    ensures x == y
  {
    assert Flat(x) == Flat(y);
    forall i | 0 <= i < |x|
      ensures x[i] == y[i]
    {
      FlatAt(x, i);
      FlatAt(y, i);
    }
  }

  /** An eighteen-bit pattern with a gap where the generator has none is noticed as well. */
  lemma GappedBurstDetected(w: Word)
    requires |w| == 18 && Feed(Zeros(16), w) == Zeros(16)
    requires (!w[4] && !w[5]) || (!w[11] && !w[12])
    ensures w == Zeros(18)
  {
    var head, tail := w[..2], w[2..];
    assert w == head + tail && head == [w[0], w[1]];
    FeedConcat(Zeros(16), head, tail);
    FeedClears(Feed(Zeros(16), head), tail);
    assert tail + Zeros(0) == tail;
    TwoBits(w[0], w[1]);
  }

  /** A message followed by its checksum leaves nothing. */
  lemma CrcCloses(bytes: seq<U8>)
    ensures Feed(Zeros(16), Flat(bytes) + Crc(bytes)) == Zeros(16)
  {
    FeedConcat(Zeros(16), Flat(bytes), Crc(bytes));
    FeedSelf(Crc(bytes));
  }

  lemma FeedSelf(crc: U16)
    ensures Feed(crc, crc) == Zeros(16)
  {
    FeedClears(crc, crc);
    assert crc + Zeros(0) == crc;
  }
}
