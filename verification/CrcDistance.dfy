/** How far apart two strings with the same checksum are, counted in bits. */
module CrcDistance {
  import opened Words
  import opened Crc16

  /** How many bits are set. */
  function Weight(w: Word): nat { if w == [] then 0 else (if w[0] then 1 else 0) + Weight(w[1..]) }

  lemma {:induction false} WeightConcat(x: Word, y: Word)
    ensures Weight(x + y) == Weight(x) + Weight(y)
    decreases x
  {
    if x == [] {
      assert x + y == y;
    } else {
      assert (x + y)[1..] == x[1..] + y;
      WeightConcat(x[1..], y);
    }
  }

  lemma {:induction false} WeightZeros(n: nat)
    ensures Weight(Zeros(n)) == 0
  {
    if n > 0 {
      assert Zeros(n)[1..] == Zeros(n - 1);
      WeightZeros(n - 1);
    }
  }

  // ------------------------------------------------------------------ an odd number of bits

  predicate Odd(w: Word) { w != [] && w[0] != Odd(w[1..]) }

  lemma {:induction false} OddWeight(w: Word)
    ensures Odd(w) <==> Weight(w) % 2 == 1
  {
    if w != [] {
      OddWeight(w[1..]);
    }
  }

  lemma {:induction false} OddConcat(x: Word, y: Word)
    ensures Odd(x + y) == (Odd(x) != Odd(y))
    decreases x
  {
    if x == [] {
      assert x + y == y;
    } else {
      assert (x + y)[1..] == x[1..] + y;
      OddConcat(x[1..], y);
    }
  }

  lemma {:induction false} OddXor(x: Word, y: Word)
    requires |x| == |y|
    ensures Odd(Xor(x, y)) == (Odd(x) != Odd(y))
    decreases x
  {
    if x != [] {
      assert Xor(x, y)[1..] == Xor(x[1..], y[1..]);
      OddXor(x[1..], y[1..]);
    }
  }

  lemma {:induction false} OddZeros(n: nat)
    ensures !Odd(Zeros(n))
  {
    if n > 0 {
      assert Zeros(n)[1..] == Zeros(n - 1);
      OddZeros(n - 1);
    }
  }

  /** A word with one bit set. */
  lemma OddUnit(a: nat, b: nat)
    ensures Odd(Zeros(a) + [true] + Zeros(b))
  {
    OddConcat(Zeros(a) + [true], Zeros(b));
    OddConcat(Zeros(a), [true]);
    OddZeros(a);
    OddZeros(b);
    assert [true][1..] == [];
  }

  /** The generator has four terms: its leading one and the three of POLY. */
  lemma PolyOdd()
    ensures Odd(POLY)
  {
    OddUnit(3, 12);
    OddUnit(10, 5);
    OddUnit(15, 0);
    var x, y, z := Zeros(3) + [true] + Zeros(12), Zeros(10) + [true] + Zeros(5), Zeros(15) + [true] + Zeros(0);
    assert POLY == Xor(Xor(x, y), z);
    OddXor(Xor(x, y), z);
    OddXor(x, y);
  }

  lemma ShlOdd(c: U16)
    ensures Odd(Shl(c, 1)) == (c[0] != Odd(c))
  {
    OddConcat(c[1..], Zeros(1));
    OddZeros(1);
  }

  /** So a turn that shifts a bit out flips three others. */
  lemma RoundOdd(c: U16)
    ensures Odd(Round(c)) == Odd(c)
  {
    ShlOdd(c);
    OddXor(Shl(c, 1), POLY);
    PolyOdd();
  }

  lemma FlipOdd(c: U16, bit: bool)
    ensures Odd(Flip(c, bit)) == (Odd(c) != bit)
  {
    assert Flip(c, bit)[1..] == c[1..];
  }

  lemma {:induction false} FeedOdd(c: U16, w: Word)
    ensures Odd(Feed(c, w)) == (Odd(c) != Odd(w))
    decreases w
  {
    if w != [] {
      FlipOdd(c, w[0]);
      RoundOdd(Flip(c, w[0]));
      FeedOdd(Round(Flip(c, w[0])), w[1..]);
    }
  }

  /** The generator has an even number of terms, so every error of an odd number of bits is noticed. */
  lemma OddNoticed(w: Word)
    requires Weight(w) % 2 == 1
    ensures Feed(Zeros(16), w) != Zeros(16)
  {
    OddWeight(w);
    OddZeros(16);
    FeedOdd(Zeros(16), w);
  }

  // ------------------------------------------------------------------ two bits

  /** The register as sixteen named bits, for reckoning with particular values. */
  datatype Register = Register(
    a: bool, b: bool, c: bool, d: bool, e: bool, f: bool, g: bool, h: bool,
    i: bool, j: bool, k: bool, l: bool, m: bool, n: bool, o: bool, p: bool)

  predicate Holds(r: Register, x: U16) {
    && r.a == x[0] && r.b == x[1] && r.c == x[2] && r.d == x[3] && r.e == x[4] && r.f == x[5] && r.g == x[6]
    && r.h == x[7] && r.i == x[8] && r.j == x[9] && r.k == x[10] && r.l == x[11] && r.m == x[12] && r.n == x[13]
    && r.o == x[14] && r.p == x[15]
  }

  function Turn(r: Register): Register {
    Register(r.b, r.c, r.d, r.e != r.a, r.f, r.g, r.h, r.i, r.j, r.k, r.l != r.a, r.m, r.n, r.o, r.p, r.a)
  }

  /** Bit i of y is what one turn of x leaves there. */
  predicate Follows(x: Word, y: Word, i: nat)
    requires |x| == |y| == 16 && i < 16
  {
    y[i] == if i == 15 then x[0] else if i == 3 || i == 10 then x[i + 1] != x[0] else x[i + 1]
  }

  lemma FollowsAt(x: U16, i: nat)
    requires i < 16
    ensures Follows(x, Round(x), i)
  {
    RoundBit(x, i);
    PolyBit(i);
  }

  lemma PolyBit(i: nat)
    requires i < 16
    ensures POLY[i] <==> i == 3 || i == 10 || i == 15
  {}

  lemma TurnBits(r: Register, x: Word, y: Word)
    requires |x| == |y| == 16 && Holds(r, x) && forall i :: 0 <= i < 16 ==> Follows(x, y, i)
    ensures Holds(Turn(r), y)
  {
    assert Follows(x, y, 0) && Follows(x, y, 1) && Follows(x, y, 2) && Follows(x, y, 3);
    assert Follows(x, y, 4) && Follows(x, y, 5) && Follows(x, y, 6) && Follows(x, y, 7);
    assert Follows(x, y, 8) && Follows(x, y, 9) && Follows(x, y, 10) && Follows(x, y, 11);
    assert Follows(x, y, 12) && Follows(x, y, 13) && Follows(x, y, 14) && Follows(x, y, 15);
  }

  lemma TurnIsRound(r: Register, x: U16)
    requires Holds(r, x)
    ensures Holds(Turn(r), Round(x))
  {
    forall i | 0 <= i < 16
      ensures Follows(x, Round(x), i)
    {
      FollowsAt(x, i);
    }
    TurnBits(r, x, Round(x));
  }

  const TOP := Register(true, false, false, false, false, false, false, false,
                        false, false, false, false, false, false, false, false)

  /** Whether k further turns keep clear of the top bit alone. */
  predicate Avoids(r: Register, k: nat)
    decreases k
  {
    r != TOP && (k == 0 || Avoids(Turn(r), k - 1))
  }

  function Turns(r: Register, k: nat): Register
    decreases k
  {
    if k == 0 then r else Turns(Turn(r), k - 1)
  }

  /** k turns lead from one register to the other and keep clear of the top bit alone. */
  predicate Leg(r: Register, k: nat, t: Register) { Avoids(r, k) && Turns(r, k) == t }

  /** At least n turns keep clear of the top bit alone. */
  ghost predicate Lasts(r: Register, n: nat) { exists k: nat :: k >= n && Avoids(r, k) }

  lemma {:induction false} AvoidsOn(r: Register, j: nat, k: nat)
    requires Avoids(r, j) && Avoids(Turns(r, j), k)
    ensures Avoids(r, j + k)
    decreases j
  {
    if j > 0 {
      AvoidsOn(Turn(r), j - 1, k);
    }
  }

  lemma Longer(r: Register, j: nat, t: Register, n: nat)
    requires Leg(r, j, t) && Lasts(t, n)
    ensures Lasts(r, n + j)
  {
    var k: nat :| k >= n && Avoids(t, k);
    AvoidsOn(r, j, k);
  }

  /** The registers met at every fourteenth turn from the generator, and how long each lasts. */
  const S0 := Register(false, false, false, true, false, false, false, false, false, false, true, false, false, false, false, true)
  const S1 := Register(false, false, false, false, true, true, false, true, true, true, false, false, true, true, false, false)
  const S2 := Register(false, false, false, true, true, false, true, true, true, false, true, false, false, true, true, true)
  const S3 := Register(false, false, false, false, false, true, true, false, true, false, true, false, false, false, false, true)
  const S4 := Register(false, true, false, false, false, true, true, true, true, true, false, true, false, false, true, true)
  const S5 := Register(false, true, false, true, true, true, true, true, true, true, false, true, true, false, false, true)
  const S6 := Register(false, true, false, true, false, true, false, true, false, false, true, true, true, true, false, true)
  const S7 := Register(false, false, false, false, false, true, false, true, true, false, true, false, true, true, false, true)
  const S8 := Register(true, false, true, false, true, true, true, false, true, true, true, true, true, true, false, false)
  const S9 := Register(true, false, false, false, true, true, false, false, false, false, true, false, true, false, false, false)
  const S10 := Register(true, true, true, true, false, false, true, false, true, true, true, true, true, true, true, true)
  const S11 := Register(true, true, false, true, false, true, true, false, true, true, false, false, true, true, false, false)
  const S12 := Register(false, true, true, false, true, true, false, true, true, true, false, true, true, false, false, false)
  const S13 := Register(true, true, false, false, false, false, false, true, true, true, false, true, true, false, false, false)
  const S14 := Register(false, false, false, true, true, false, true, true, true, true, false, false, false, true, false, false)
  const S15 := Register(false, true, false, true, false, true, false, true, true, false, false, true, true, false, false, false)
  const S16 := Register(true, true, true, true, false, false, false, false, true, true, true, false, false, true, true, false)
  const S17 := Register(false, true, true, false, false, true, true, true, true, false, false, false, false, false, true, false)
  const S18 := Register(true, true, false, false, false, true, false, false, true, true, false, false, false, true, false, true)
  const S19 := Register(false, true, false, true, false, false, false, false, true, true, false, true, false, true, true, false)

  lemma From19() ensures Lasts(S19, 14) { assert Avoids(S19, 14); }
  lemma From18() ensures Lasts(S18, 28) { From19(); Longer(S18, 14, S19, 14); }
  lemma From17() ensures Lasts(S17, 42) { From18(); Longer(S17, 14, S18, 28); }
  lemma From16() ensures Lasts(S16, 56) { From17(); Longer(S16, 14, S17, 42); }
  lemma From15() ensures Lasts(S15, 70) { From16(); Longer(S15, 14, S16, 56); }
  lemma From14() ensures Lasts(S14, 84) { From15(); Longer(S14, 14, S15, 70); }
  lemma From13() ensures Lasts(S13, 98) { From14(); Longer(S13, 14, S14, 84); }
  lemma From12() ensures Lasts(S12, 112) { From13(); Longer(S12, 14, S13, 98); }
  lemma From11() ensures Lasts(S11, 126) { From12(); Longer(S11, 14, S12, 112); }
  lemma From10() ensures Lasts(S10, 140) { From11(); Longer(S10, 14, S11, 126); }
  lemma From9() ensures Lasts(S9, 154) { From10(); Longer(S9, 14, S10, 140); }
  lemma From8() ensures Lasts(S8, 168) { From9(); Longer(S8, 14, S9, 154); }
  lemma From7() ensures Lasts(S7, 182) { From8(); Longer(S7, 14, S8, 168); }
  lemma From6() ensures Lasts(S6, 196) { From7(); Longer(S6, 14, S7, 182); }
  lemma From5() ensures Lasts(S5, 210) { From6(); Longer(S5, 14, S6, 196); }
  lemma From4() ensures Lasts(S4, 224) { From5(); Longer(S4, 14, S5, 210); }
  lemma From3() ensures Lasts(S3, 238) { From4(); Longer(S3, 14, S4, 224); }
  lemma From2() ensures Lasts(S2, 252) { From3(); Longer(S2, 14, S3, 238); }
  lemma From1() ensures Lasts(S1, 266) { From2(); Longer(S1, 14, S2, 252); }
  lemma From0() ensures Lasts(S0, 280) { From1(); Longer(S0, 14, S1, 266); }

  lemma {:induction false} AvoidsEach(r: Register, x: U16, k: nat, j: nat)
    requires Holds(r, x) && Avoids(r, k) && j <= k
    ensures Rounds(x, j) != [true] + Zeros(15)
    decreases k
  {
    if j == 0 {
      assert x == [true] + Zeros(15) ==> r == TOP;
    } else {
      TurnIsRound(r, x);
      AvoidsEach(Turn(r), Round(x), k - 1, j - 1);
    }
  }

  lemma {:induction false} ZerosTurn(c: U16, k: nat)
    ensures Feed(c, Zeros(k)) == Rounds(c, k)
    decreases k
  {
    if k > 0 {
      assert Zeros(k)[1..] == Zeros(k - 1) && Flip(c, false) == c;
      ZerosTurn(Round(c), k - 1);
    }
  }

  /** Two set bits at most 280 places apart are noticed. */
  lemma PairDetected(k: nat)
    requires k <= 280
    ensures Feed(Zeros(16), [true] + Zeros(k) + [true]) != Zeros(16)
  {
    From0();
    var n: nat :| n >= 280 && Avoids(S0, n);
    HoldsPoly();
    AvoidsEach(S0, POLY, n, k);
    FirstBitIn();
    ZerosTurn(POLY, k);
    FeedConcat(Zeros(16), [true], Zeros(k));
    FeedConcat(Zeros(16), [true] + Zeros(k), [true]);
    FeedClears(Rounds(POLY, k), [true]);
  }

  lemma HoldsPoly()
    ensures Holds(S0, POLY)
  {}

  lemma FirstBitIn()
    ensures Feed(Zeros(16), [true]) == POLY
  {
    FeedOne(Zeros(16), true);
    forall i | 0 <= i < 16
      ensures Round(Flip(Zeros(16), true))[i] == POLY[i]
    {
      NextBit(Zeros(16), true, i);
    }
  }

  // ------------------------------------------------------------------ the least distance

  lemma {:induction false} NoBits(w: Word)
    requires Weight(w) == 0
    ensures w == Zeros(|w|)
  {
    if w != [] {
      NoBits(w[1..]);
      assert w == [false] + w[1..];
    }
  }

  lemma {:induction false} OneBit(w: Word) returns (a: nat)
    requires Weight(w) == 1
    ensures a < |w| && w == Zeros(a) + [true] + Zeros(|w| - a - 1)
    decreases w
  {
    assert w == [w[0]] + w[1..];
    if w[0] {
      NoBits(w[1..]);
      return 0;
    }
    var n := OneBit(w[1..]);
    assert [false] + Zeros(n) == Zeros(n + 1);
    return n + 1;
  }

  lemma {:induction false} TwoBitsSet(w: Word) returns (a: nat, k: nat)
    requires Weight(w) == 2
    ensures a + k + 2 <= |w| && w == Zeros(a) + ([true] + Zeros(k) + [true]) + Zeros(|w| - a - k - 2)
    decreases w
  {
    assert w == [w[0]] + w[1..];
    if w[0] {
      k := OneBit(w[1..]);
      a := 0;
    } else {
      a, k := TwoBitsSet(w[1..]);
      assert [false] + Zeros(a) == Zeros(a + 1);
      a := a + 1;
    }
  }

  lemma PairAnywhere(a: nat, k: nat, b: nat)
    requires k <= 280
    ensures Feed(Zeros(16), Zeros(a) + ([true] + Zeros(k) + [true]) + Zeros(b)) != Zeros(16)
  {
    if Feed(Zeros(16), Zeros(a) + ([true] + Zeros(k) + [true]) + Zeros(b)) == Zeros(16) {
      Trim(a, [true] + Zeros(k) + [true], b);
      PairDetected(k);
    }
  }

  lemma PairNoticed(w: Word)
    requires |w| <= 282 && Weight(w) == 2
    ensures Feed(Zeros(16), w) != Zeros(16)
  {
    var a, k := TwoBitsSet(w);
    PairAnywhere(a, k, |w| - a - k - 2);
  }

  lemma OneOrThree(n: nat)
    requires n == 1 || n == 3
    ensures n % 2 == 1
  {}

  /** Within 282 bits every error of one, two or three bits is noticed. */
  lemma LightNoticed(w: Word, n: nat)
    requires |w| <= 282 && Weight(w) == n && 0 < n < 4
    ensures Feed(Zeros(16), w) != Zeros(16)
  {
    if n == 2 {
      PairNoticed(w);
    } else {
      OneOrThree(n);
      OddNoticed(w);
    }
  }
}
