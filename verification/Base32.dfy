/**
 Base32 as the registry contract decodes it (contracts/payroll_registry/src/lib.rs:339-379)
 and as section 6 of RFC 4648 defines it.
 */
module Base32 {
  import opened Common
  import opened Words

  /** `decode_base32_char`. */
  function DecodeChar(ch: char): Option<nat> {
    if 'A' <= ch <= 'Z' then Some((ch - 'A') as nat)
    else if '2' <= ch <= '7' then Some((ch - '2') as nat + 26)
    else None
  }

  /** Table 3 of RFC 4648. */
  function CharAt(v: nat): char
    requires v < 32
  {
    if v < 26 then 'A' + v as char else '2' + (v - 26) as char
  }

  predicate InAlphabet(ch: char) { DecodeChar(ch).Some? }

  predicate AllInAlphabet(s: string) { forall i :: 0 <= i < |s| ==> InAlphabet(s[i]) }

  lemma DecodeCharInverts(ch: char, v: nat)
    ensures DecodeChar(ch) == Some(v) <==> v < 32 && CharAt(v) == ch
  {}

  /** The five-bit groups of a string over the alphabet, in order. */
  function BitsOf(s: string): (x: Word)
    requires AllInAlphabet(s)
    ensures |x| == 5 * |s|
  {
    if s == [] then [] else BitsOf(s[..|s| - 1]) + Bits(5, DecodeChar(s[|s| - 1]).value)
  }

  /** A five-bit value shifted into the buffer appends its group to the waiting bits. */
  lemma ShiftIn(wait: Word, v: nat)
    requires |wait| < 8 && v < 32
    ensures Or(Shl(Widen(wait, 16), 5), Widen(Bits(8, v), 16)) == Widen(wait + Bits(5, v), 16)
  {
    assert Bits(8, v) == Zeros(3) + Bits(5, v) by { TopBitsClear(v); }
  }

  function Halved(v: nat, n: nat): nat { if n == 0 then v else Halved(v / 2, n - 1) }

  lemma {:induction false} BitsSplit(m: nat, n: nat, v: nat)
    ensures Bits(m + n, v) == Bits(m, Halved(v, n)) + Bits(n, v)
  {
    if n != 0 {
      BitsSplit(m, n - 1, v / 2);
    }
  }

  lemma {:induction false} HalvedOut(v: nat, n: nat)
    requires v < Pow2(n)
    ensures Halved(v, n) == 0
  {
    if n != 0 {
      HalvedOut(v / 2, n - 1);
    }
  }

  lemma TopBitsClear(v: nat)
    requires v < 32
    ensures Bits(8, v) == Zeros(3) + Bits(5, v)
  {
    BitsSplit(3, 5, v);
    HalvedOut(v, 5);
    assert Bits(3, 0) == [false, false, false];
  }

  /** Taking the top eight of the waiting bits leaves exactly the others in the buffer. */
  lemma ShiftOut(wait: Word, n: nat)
    requires |wait| == n + 8 <= 16
    ensures Narrow(Shr(Widen(wait, 16), n), 8) == wait[..8]
    ensures And(Widen(wait, 16), LowMask(16, n)) == Widen(wait[8..], 16)
    ensures n == 0 ==> Zeros(16) == Widen(wait[8..], 16)
  {}

  /**
   `decode_stellar_base32`. It succeeds exactly on strings over the alphabet, and then it writes
   the octets of the concatenated five-bit groups. The source also returns false when the output
   index passes the end of the buffer; the bound on the array write shows that this never happens.
   */
  method DecodeStellarBase32(encoded: string, decoded: array<U8>) returns (ok: bool)
    requires |encoded| == 56 && decoded.Length == 35
    modifies decoded
    ensures ok <==> AllInAlphabet(encoded)
    ensures ok ==> decoded[..] == Octets(BitsOf(encoded))
  {
    var buffer: U16 := Zeros(16);
    var bitsLeft, outIndex := 0, 0;
    ghost var wait: Word := [];
    for i := 0 to |encoded|
      invariant 0 <= outIndex <= 35 && 5 * i == 8 * outIndex + bitsLeft
      invariant Waiting(buffer, bitsLeft, wait)
      invariant Decoded(encoded, i, decoded[..], outIndex, wait)
    {
      var value := DecodeChar(encoded[i]);
      if value.None? {
        assert !InAlphabet(encoded[i]);
        return false;
      }
      var byte: Option<U8>;
      ghost var former := wait;
      buffer, bitsLeft, byte, wait := ShiftBuffer(buffer, bitsLeft, value.value, wait);
      OneMore(encoded, i, decoded[..], outIndex, former, byte, wait);
      ghost var next := WithByte(decoded[..], outIndex, byte);
      if byte.Some? {
        decoded[outIndex] := byte.value;
        outIndex := outIndex + 1;
      }
      assert decoded[..] == next;
    }
    Complete(encoded, decoded[..], wait);
    ok := outIndex == decoded.Length && bitsLeft == 0;
  }

  /** The first i characters are k bytes written and the bits still waiting. */
  ghost predicate Decoded(s: string, i: nat, bytes: seq<U8>, k: nat, wait: Word) {
    && i <= |s| && k <= |bytes| && AllInAlphabet(s[..i])
    && BitsOf(s[..i]) == Flat(bytes[..k]) + wait
  }

  function WithByte(bytes: seq<U8>, k: nat, byte: Option<U8>): (r: seq<U8>)
    requires byte.Some? ==> k < |bytes|
    ensures |r| == |bytes|
  {
    if byte.Some? then bytes[k := byte.value] else bytes
  }

  /** One character more. */
  lemma OneMore(s: string, i: nat, bytes: seq<U8>, k: nat, wait: Word, byte: Option<U8>, wait': Word)
    requires i < |s| && InAlphabet(s[i]) && Decoded(s, i, bytes, k, wait) && (byte.Some? ==> k < |bytes|)
    requires wait + Bits(5, DecodeChar(s[i]).value) == (if byte.Some? then byte.value else []) + wait'
    ensures Decoded(s, i + 1, WithByte(bytes, k, byte), if byte.Some? then k + 1 else k, wait')
  {
    var group := Bits(5, DecodeChar(s[i]).value);
    BitsOfSnoc(s, i);
    Regroup(Flat(bytes[..k]), wait, group);
    if byte.Some? {
      Regroup(Flat(bytes[..k]), byte.value, wait');
      FlatSnoc(bytes, k, byte.value);
    } else {
      assert [] + wait' == wait';
    }
  }

  lemma Complete(s: string, bytes: seq<U8>, wait: Word)
    requires |s| == 56 && |bytes| == 35 && wait == [] && Decoded(s, 56, bytes, 35, wait)
    ensures AllInAlphabet(s) && bytes == Octets(BitsOf(s))
  {
    assert s[..56] == s && bytes[..35] == bytes && Flat(bytes) + [] == Flat(bytes);
    OctetsOfFlat(bytes);
  }

  /** The buffer holds the waiting bits and nothing else; fewer than eight bits wait. */
  ghost predicate Waiting(buffer: U16, bitsLeft: int, wait: Word) {
    0 <= bitsLeft == |wait| < 8 && buffer == Widen(wait, 16)
  }

  /** The loop's work on the buffer: five bits in, and eight bits out when as many wait. */
  method ShiftBuffer(buffer: U16, bitsLeft: nat, value: nat, ghost wait: Word)
    returns (buffer': U16, bitsLeft': nat, byte: Option<U8>, ghost wait': Word)
    requires Waiting(buffer, bitsLeft, wait) && value < 32
    ensures bitsLeft' == bitsLeft + 5 - if byte.Some? then 8 else 0
    ensures Waiting(buffer', bitsLeft', wait')
    ensures wait + Bits(5, value) == (if byte.Some? then byte.value else []) + wait'
  {
    ShiftIn(wait, value);
    buffer' := Or(Shl(buffer, 5), Widen(Bits(8, value), 16));
    bitsLeft' := bitsLeft + 5;
    byte, wait' := None, wait + Bits(5, value);
    if bitsLeft' >= 8 {
      bitsLeft' := bitsLeft' - 8;
      ShiftOut(wait', bitsLeft');
      byte := Some(Narrow(Shr(buffer', bitsLeft'), 8));
      buffer' := if bitsLeft' > 0 then And(buffer', LowMask(16, bitsLeft')) else Zeros(16);
      wait' := wait'[8..];
    }
  }

  lemma BitsOfSnoc(s: string, i: nat)
    requires i < |s| && AllInAlphabet(s[..i]) && InAlphabet(s[i])
    ensures AllInAlphabet(s[..i + 1])
    ensures BitsOf(s[..i + 1]) == BitsOf(s[..i]) + Bits(5, DecodeChar(s[i]).value)
  {
    assert s[..i + 1][..i] == s[..i];
  }

  lemma FlatSnoc(bytes: seq<U8>, k: nat, byte: U8)
    requires k < |bytes|
    ensures Flat(bytes[k := byte][..k + 1]) == Flat(bytes[..k]) + byte
  {
    assert bytes[k := byte][..k + 1][..k] == bytes[..k];
  }

  lemma Regroup(a: Word, b: Word, c: Word)
    ensures a + b + c == a + (b + c)
  {}

  // ------------------------------------------------------------------ the encoder

  /** Cuts a bit string into five-bit groups and writes each as a character. */
  function CharsOf(x: Word): (s: string)
    requires |x| % 5 == 0
    ensures 5 * |s| == |x|
  {
    seq(|x| / 5, i requires 0 <= i < |x| / 5 => CharOf(x[5 * i..5 * i + 5]))
  }

  function CharOf(group: Word): char
    requires |group| == 5
  {
    ValueBound(group);
    assert Pow2(5) == 32;
    CharAt(Value(group))
  }

  /** The encoder of section 6 of RFC 4648, for inputs that need no padding. */
  function Encode(bytes: seq<U8>): (s: string)
    requires |bytes| % 5 == 0
    ensures 5 * |s| == 8 * |bytes| && |s| % 8 == 0
  {
    WholeGroups(|bytes|);
    Eights(|bytes| / 5);
    CharsOf(Flat(bytes))
  }

  lemma Eights(n: nat)
    ensures 8 * n % 8 == 0
  {}

  lemma Fives(n: nat)
    ensures 5 * n % 5 == 0
  {}

  /** Eight characters stand for five bytes. */
  lemma WholeBytes(chars: nat)
    requires chars % 8 == 0
    ensures 5 * chars == 8 * (5 * (chars / 8)) && 5 * chars % 8 == 0
  {
    var n := chars / 8;
    assert chars == 8 * n;
    Eights(5 * n);
  }

  lemma WholeGroups(bytes: nat)
    requires bytes % 5 == 0
    ensures 8 * bytes == 5 * (8 * (bytes / 5)) && 8 * bytes % 5 == 0
  {
    var n := bytes / 5;
    assert bytes == 5 * n;
    Fives(8 * n);
  }

  /** The reference decoder: the octets of the five-bit groups. */
  function Decode(s: string): (bytes: seq<U8>)
    requires |s| % 8 == 0 && AllInAlphabet(s)
    ensures 8 * |bytes| == 5 * |s| && |bytes| % 5 == 0
  {
    WholeBytes(|s|);
    Fives(|s| / 8);
    Octets(BitsOf(s))
  }

  lemma CharOfInverts(group: Word, v: nat)
    requires |group| == 5
    ensures DecodeChar(CharOf(group)) == Some(Value(group)) && Bits(5, Value(group)) == group
    ensures v < 32 ==> CharOf(Bits(5, v)) == CharAt(v)
  {
    ValueBound(group);
    assert Pow2(5) == 32;
    DecodeCharInverts(CharOf(group), Value(group));
    BitsOfValue(group);
    if v < 32 {
      ValueOfBits(5, v);
    }
  }

  lemma {:induction false} BitsOfAt(s: string, i: nat)
    requires AllInAlphabet(s) && i < |s|
    ensures BitsOf(s)[5 * i..5 * i + 5] == Bits(5, DecodeChar(s[i]).value)
  {
    var init := s[..|s| - 1];
    if i < |init| {
      BitsOfAt(init, i);
      assert BitsOf(s)[5 * i..5 * i + 5] == BitsOf(init)[5 * i..5 * i + 5];
    }
  }

  lemma GroupsDetermine(x: Word, y: Word)
    requires |x| == |y| && |x| % 5 == 0
    requires forall i :: 0 <= i < |x| / 5 ==> x[5 * i..5 * i + 5] == y[5 * i..5 * i + 5]
    ensures x == y
  {
    forall p | 0 <= p < |x|
      ensures x[p] == y[p]
    {
      var i := p / 5;
      assert x[5 * i..5 * i + 5][p - 5 * i] == y[5 * i..5 * i + 5][p - 5 * i];
    }
  }

  lemma BitsOfChars(x: Word)
    requires |x| % 5 == 0
    ensures AllInAlphabet(CharsOf(x)) && BitsOf(CharsOf(x)) == x
  {
    var s := CharsOf(x);
    forall i | 0 <= i < |s|
      ensures DecodeChar(s[i]).Some? && Bits(5, DecodeChar(s[i]).value) == x[5 * i..5 * i + 5]
    {
      CharOfInverts(x[5 * i..5 * i + 5], 0);
    }
    assert AllInAlphabet(s);
    forall i | 0 <= i < |s|
      ensures BitsOf(s)[5 * i..5 * i + 5] == x[5 * i..5 * i + 5]
    {
      BitsOfAt(s, i);
    }
    GroupsDetermine(BitsOf(s), x);
  }

  lemma CharsOfBits(s: string)
    requires AllInAlphabet(s)
    ensures CharsOf(BitsOf(s)) == s
  {
    forall i | 0 <= i < |s|
      ensures CharOf(BitsOf(s)[5 * i..5 * i + 5]) == s[i]
    {
      BitsOfAt(s, i);
      CharOfBits(s[i]);
    }
  }

  lemma CharOfBits(ch: char)
    requires InAlphabet(ch)
    ensures CharOf(Bits(5, DecodeChar(ch).value)) == ch
  {
    var v := DecodeChar(ch).value;
    DecodeCharInverts(ch, v);
    CharOfInverts(Bits(5, v), v);
  }

  /** Decoding undoes encoding. */
  lemma DecodeOfEncode(bytes: seq<U8>)
    requires |bytes| % 5 == 0
    ensures AllInAlphabet(Encode(bytes)) && Decode(Encode(bytes)) == bytes
  {
    WholeGroups(|bytes|);
    BitsOfChars(Flat(bytes));
    OctetsOfFlat(bytes);
  }

  /** Encoding undoes decoding: no two strings stand for the same bytes. */
  lemma EncodeOfDecode(s: string)
    requires |s| % 8 == 0 && AllInAlphabet(s)
    ensures Encode(Decode(s)) == s
  {
    WholeBytes(|s|);
    FlatOfOctets(BitsOf(s));
    CharsOfBits(s);
  }

  // ------------------------------------------------------------------ what the numbers are

  /** The alphabet, written out. */
  lemma AlphabetIs(v: nat)
    requires v < 32
    ensures CharAt(v) == "ABCDEFGHIJKLMNOPQRSTUVWXYZ234567"[v]
  {}

  /** The number a string writes in base 32, and the number bytes write in base 256. */
  function Base32Value(s: string): nat
    requires AllInAlphabet(s)
  {
    if s == [] then 0 else 32 * Base32Value(s[..|s| - 1]) + DecodeChar(s[|s| - 1]).value
  }

  function Base256Value(bytes: seq<U8>): nat {
    if bytes == [] then 0 else 256 * Base256Value(bytes[..|bytes| - 1]) + Value(bytes[|bytes| - 1])
  }

  lemma {:induction false} ValueConcat(x: Word, y: Word)
    ensures Value(x + y) == Pow2(|y|) * Value(x) + Value(y)
    decreases y
  {
    if y == [] {
      assert x + y == x;
    } else {
      var n := |y| - 1;
      assert (x + y)[..|x + y| - 1] == x + y[..n];
      ValueConcat(x, y[..n]);
      DoubleDistributes(Pow2(n), Value(x), Value(y[..n]));
    }
  }

  lemma DoubleDistributes(p: nat, v: nat, w: nat)
    ensures 2 * (p * v + w) == 2 * p * v + 2 * w
  {}

  lemma {:induction false} ValueOfGroups(s: string)
    requires AllInAlphabet(s)
    ensures Value(BitsOf(s)) == Base32Value(s)
  {
    if s != [] {
      var n := |s| - 1;
      ValueOfGroups(s[..n]);
      var v := DecodeChar(s[n]).value;
      ValueConcat(BitsOf(s[..n]), Bits(5, v));
      assert Pow2(5) == 32;
      ValueOfBits(5, v);
    }
  }

  lemma {:induction false} ValueOfBytes(bytes: seq<U8>)
    ensures Value(Flat(bytes)) == Base256Value(bytes)
  {
    if bytes != [] {
      var n := |bytes| - 1;
      ValueOfBytes(bytes[..n]);
      ValueConcat(Flat(bytes[..n]), bytes[n]);
      assert Pow2(8) == 256;
    }
  }

  /** Decoding rewrites one number from base 32 to base 256. */
  lemma DecodeKeepsNumber(s: string)
    requires |s| % 8 == 0 && AllInAlphabet(s)
    ensures Base256Value(Decode(s)) == Base32Value(s)
  {
    WholeBytes(|s|);
    FlatOfOctets(BitsOf(s));
    ValueOfBytes(Decode(s));
    ValueOfGroups(s);
  }
}
