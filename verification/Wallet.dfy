/**
 The employee wallet validator (contracts/payroll_registry/src/lib.rs:317-337) against SEP-0023:
 an account strkey is the base32 form of a version byte, a 32-byte key and a checksum.
 */
module Wallet {
  import opened Words
  import opened Base32
  import opened Crc16
  import opened CrcDistance

  /** `6 << 3`. */
  const VERSION: U8 := [false, false, true, true, false, false, false, false]

  /** The account strkey of an ed25519 public key, checksum in little-endian order. */
  function Strkey(key: seq<U8>): string
    requires |key| == 32
  {
    Encode(Sealed([VERSION] + key))
  }

  function Sealed(payload: seq<U8>): seq<U8> {
    payload + [Crc(payload)[8..], Crc(payload)[..8]]
  }

  ghost predicate IsAccountStrkey(wallet: string) {
    exists key: seq<U8> :: |key| == 32 && wallet == Strkey(key)
  }

  /** `u16::from_le_bytes`. */
  function FromLittleEndian(low: Word, high: Word): Word { high + low }

  /** What the validator tests on the decoded bytes. */
  ghost predicate Passes(bytes: seq<U8>)
    requires |bytes| == 35
  {
    bytes[0] == VERSION && FromLittleEndian(bytes[33], bytes[34]) == Crc(bytes[..33])
  }

  /** `employee_wallet_format_is_valid` accepts exactly the account strkeys. */
  method EmployeeWalletFormatIsValid(wallet: string) returns (ok: bool)
    ensures ok <==> IsAccountStrkey(wallet)
  {
    OnlyOverAlphabet(wallet);
    if |wallet| != 56 {
      return false;
    }
    var decoded := new U8[35];
    var valid := DecodeStellarBase32(wallet, decoded);
    if !valid {
      return false;
    }
    ghost var bytes := decoded[..];
    AcceptedIff(wallet, bytes);
    if decoded[0] != VERSION {
      return false;
    }
    var expected := FromLittleEndian(decoded[33], decoded[34]);
    var actual := Crc16Xmodem(decoded[..33]);
    assert bytes[..33] == decoded[..33];
    ok := expected == actual;
  }

  lemma OnlyOverAlphabet(wallet: string)
    ensures IsAccountStrkey(wallet) ==> |wallet| == 56 && AllInAlphabet(wallet)
  {
    if IsAccountStrkey(wallet) {
      var key: seq<U8> :| |key| == 32 && wallet == Strkey(key);
      DecodeOfEncode(Sealed([VERSION] + key));
    }
  }

  lemma StrkeyPasses(key: seq<U8>)
    requires |key| == 32
    ensures |Strkey(key)| == 56 && AllInAlphabet(Strkey(key)) && Passes(Decode(Strkey(key)))
  {
    var payload := [VERSION] + key;
    DecodeOfEncode(Sealed(payload));
    assert Sealed(payload)[..33] == payload;
    var crc := Crc(payload);
    assert FromLittleEndian(crc[8..], crc[..8]) == crc;
  }

  lemma PassingIsStrkey(wallet: string)
    requires |wallet| == 56 && AllInAlphabet(wallet) && Passes(Decode(wallet))
    ensures Strkey(Decode(wallet)[1..33]) == wallet
  {
    var bytes := Decode(wallet);
    var crc := Crc(bytes[..33]);
    assert [VERSION] + bytes[1..33] == bytes[..33];
    assert crc[8..] == bytes[33] && crc[..8] == bytes[34];
    assert Sealed(bytes[..33]) == bytes;
    EncodeOfDecode(wallet);
  }

  lemma AcceptedIff(wallet: string, bytes: seq<U8>)
    requires |wallet| == 56 && AllInAlphabet(wallet) && bytes == Decode(wallet)
    ensures IsAccountStrkey(wallet) <==> Passes(bytes)
  {
    if IsAccountStrkey(wallet) {
      var key: seq<U8> :| |key| == 32 && wallet == Strkey(key);
      StrkeyPasses(key);
    }
    if Passes(bytes) {
      PassingIsStrkey(wallet);
    }
  }

  /** Every accepted wallet passes the command line tool's check (cli/src/main.rs:252-277). */
  lemma AcceptedPassesCliCheck(wallet: string)
    requires IsAccountStrkey(wallet)
    ensures |wallet| == 56 && wallet[0] == 'G'
    ensures forall i :: 0 <= i < 56 ==> 'A' <= wallet[i] <= 'Z' || '2' <= wallet[i] <= '7'
  {
    OnlyOverAlphabet(wallet);
    var key: seq<U8> :| |key| == 32 && wallet == Strkey(key);
    var bytes := Sealed([VERSION] + key);
    FlatAt(bytes, 0);
    assert Flat(bytes)[0..5] == VERSION[..5];
    assert VERSION[..5] == [false, false, true, true, false];
    SixIsG(VERSION[..5]);
    forall i | 0 <= i < 56
      ensures 'A' <= wallet[i] <= 'Z' || '2' <= wallet[i] <= '7'
    {
      assert InAlphabet(wallet[i]);
    }
  }

  lemma SixIsG(group: Word)
    requires group == [false, false, true, true, false]
    ensures CharOf(group) == 'G'
  {
    var four := [false, false, true, true];
    assert group[..4] == four && four[..3] == [false, false, true];
    assert [false, false, true][..2] == [false, false] && [false, false][..1] == [false] && [false][..0] == [];
    assert Value([false, false]) == 0;
    assert Value([false, false, true]) == 1 && Value(four) == 3 && Value(group) == 6;
  }

  // ------------------------------------------------------------------ in numbers

  lemma VersionIs()
    ensures Value(VERSION) == 48
  {
    BitsOfValue(VERSION);
    assert Bits(8, 48) == Bits(7, 24) + [false] && Bits(7, 24) == Bits(6, 12) + [false];
    assert Bits(6, 12) == Bits(5, 6) + [false] && Bits(5, 6) == Bits(4, 3) + [false];
    assert Bits(4, 3) == Bits(3, 1) + [true] && Bits(3, 1) == Bits(2, 0) + [true];
    assert Bits(2, 0) == Bits(1, 0) + [false] && Bits(1, 0) == Bits(0, 0) + [false];
    assert Bits(8, 48) == VERSION;
    assert Pow2(8) == 256;
    ValueOfBits(8, 48);
  }

  lemma SameValue(x: U8, y: U8)
    requires Value(x) == Value(y)
    ensures x == y
  {
    BitsOfValue(x);
    BitsOfValue(y);
  }

  lemma SameWordValue(x: U16, y: U16)
    requires Value(x) == Value(y)
    ensures x == y
  {
    BitsOfValue(x);
    BitsOfValue(y);
  }

  /**
   The validator in numbers: 56 characters of the alphabet whose 35 bytes are 48, a key, and the
   checksum of the first 33 with its low byte first.
   */
  lemma AcceptedInNumbers(wallet: string)
    ensures IsAccountStrkey(wallet) <==>
      && |wallet| == 56 && AllInAlphabet(wallet)
      && Value(Decode(wallet)[0]) == 48
      && Value(Decode(wallet)[33]) + 256 * Value(Decode(wallet)[34]) == Value(Crc(Decode(wallet)[..33]))
  {
    OnlyOverAlphabet(wallet);
    if |wallet| == 56 && AllInAlphabet(wallet) {
      AcceptedIff(wallet, Decode(wallet));
      PassesInNumbers(Decode(wallet));
    }
  }

  lemma PassesInNumbers(bytes: seq<U8>)
    requires |bytes| == 35
    ensures Passes(bytes) <==>
      Value(bytes[0]) == 48 && Value(bytes[33]) + 256 * Value(bytes[34]) == Value(Crc(bytes[..33]))
  {
    VersionIs();
    if Value(bytes[0]) == 48 {
      SameValue(bytes[0], VERSION);
    }
    LittleEndianIs(bytes[33], bytes[34], Crc(bytes[..33]));
  }

  lemma LittleEndianIs(low: U8, high: U8, w: U16)
    ensures FromLittleEndian(low, high) == w <==> Value(low) + 256 * Value(high) == Value(w)
  {
    var x: U16 := high + low;
    ValueConcat(high, low);
    assert Pow2(8) == 256;
    if Value(x) == Value(w) {
      SameWordValue(x, w);
    }
  }

  /** The second character of an account holds the last three bits of 48 and two bits of the key. */
  lemma SecondCharacter(wallet: string)
    requires IsAccountStrkey(wallet)
    ensures |wallet| == 56 && 'A' <= wallet[1] <= 'D'
  {
    OnlyOverAlphabet(wallet);
    var key: seq<U8> :| |key| == 32 && wallet == Strkey(key);
    var bytes := Sealed([VERSION] + key);
    FlatAt(bytes, 0);
    FlatAt(bytes, 1);
    var group := Flat(bytes)[5..10];
    assert group[..3] == Flat(bytes)[0..8][5..8];
    assert group[..3] == VERSION[5..8] && VERSION[5..8] == [false, false, false];
    TopClear(group);
    assert wallet[1] == CharOf(group);
  }

  lemma TopClear(group: Word)
    requires |group| == 5 && group[..3] == [false, false, false]
    ensures 'A' <= CharOf(group) <= 'D'
  {
    assert group == group[..3] + group[3..];
    ValueConcat(group[..3], group[3..]);
    var three := [false, false, false];
    assert three[..2] == [false, false] && [false, false][..1] == [false] && [false][..0] == [];
    assert Value([false, false]) == 0 && Value(three) == 0;
    ValueBound(group[3..]);
    assert Pow2(2) == 4;
  }

  // ------------------------------------------------------------------ error detection

  /** The bits of a strkey with the checksum bytes put in the order the division expects. */
  function Codeword(x: Word): (y: Word)
    requires |x| == 280
    ensures |y| == 280
  {
    x[..264] + x[272..] + x[264..272]
  }

  lemma StrkeyClears(key: seq<U8>)
    requires |key| == 32
    ensures |Strkey(key)| == 56 && AllInAlphabet(Strkey(key))
    ensures Feed(Zeros(16), Codeword(BitsOf(Strkey(key)))) == Zeros(16)
  {
    var payload := [VERSION] + key;
    BitsOfChars(Flat(Sealed(payload)));
    SealedBits(payload);
    CrcCloses(payload);
  }

  lemma AcceptedClears(wallet: string)
    requires IsAccountStrkey(wallet)
    ensures |wallet| == 56 && AllInAlphabet(wallet)
    ensures Feed(Zeros(16), Codeword(BitsOf(wallet))) == Zeros(16)
  {
    var key: seq<U8> :| |key| == 32 && wallet == Strkey(key);
    StrkeyClears(key);
  }

  lemma FlatTwoMore(payload: seq<U8>, x: U8, y: U8)
    ensures Flat(payload + [x, y]) == Flat(payload) + x + y
  {
    var bytes := payload + [x, y];
    assert bytes[..|bytes| - 1] == payload + [x] && (payload + [x])[..|payload|] == payload;
  }

  lemma CodewordSwaps(p: Word, low: U8, high: U8)
    requires |p| == 264
    ensures Codeword(p + low + high) == p + high + low
  {}

  lemma SealedBits(payload: seq<U8>)
    requires |payload| == 33
    ensures Codeword(Flat(Sealed(payload))) == Flat(payload) + Crc(payload)
  {
    var crc := Crc(payload);
    FlatTwoMore(payload, crc[8..], crc[..8]);
    CodewordSwaps(Flat(payload), crc[8..], crc[..8]);
    Rejoin(Flat(payload), crc);
  }

  lemma Rejoin(p: Word, crc: U16)
    ensures p + crc[..8] + crc[8..] == p + crc
  {}

  lemma CodewordLinear(x: Word, y: Word)
    requires |x| == |y| == 280
    ensures Codeword(Xor(x, y)) == Xor(Codeword(x), Codeword(y))
  {}

  /** The codewords form a linear code: the difference of two accepted wallets divides evenly. */
  lemma DifferenceClears(v: string, w: string)
    requires IsAccountStrkey(v) && IsAccountStrkey(w)
    ensures |v| == |w| == 56 && AllInAlphabet(v) && AllInAlphabet(w)
    ensures Feed(Zeros(16), Codeword(Xor(BitsOf(v), BitsOf(w)))) == Zeros(16)
  {
    AcceptedClears(v);
    AcceptedClears(w);
    CodewordLinear(BitsOf(v), BitsOf(w));
    assert Xor(Zeros(16), Zeros(16)) == Zeros(16);
    FeedLinear(Zeros(16), Zeros(16), Codeword(BitsOf(v)), Codeword(BitsOf(w)));
  }

  /** An error pattern confined to the ten bits of two neighbouring characters. */
  predicate Confined(e: Word, k: nat) {
    |e| == 280 && k <= 54 && forall i :: 0 <= i < 280 && !(5 * k <= i < 5 * k + 10) ==> !e[i]
  }

  /** Only the ten bits matter: if they are clear, so is the pattern. */
  lemma ConfinedClear(e: Word, k: nat)
    requires Confined(e, k) && forall i :: 5 * k <= i < 5 * k + 10 ==> !e[i]
    ensures e == Zeros(280)
  {}

  lemma PayloadWord(e: Word, k: nat)
    requires Confined(e, k) && k <= 50
    ensures Codeword(e) == Zeros(5 * k) + e[5 * k..5 * k + 10] + Zeros(270 - 5 * k)
  {}

  lemma PayloadErrorDetected(e: Word, k: nat)
    requires Confined(e, k) && k <= 50 && Feed(Zeros(16), Codeword(e)) == Zeros(16)
    ensures e == Zeros(280)
  {
    var w := e[5 * k..5 * k + 10];
    PayloadWord(e, k);
    Trim(5 * k, w, 270 - 5 * k);
    BurstDetected(w);
    PayloadClear(e, k, w);
  }

  lemma PayloadClear(e: Word, k: nat, w: Word)
    requires Confined(e, k) && w == e[5 * k..5 * k + 10] && w == Zeros(10)
    ensures e == Zeros(280)
  {
    assert forall i :: 5 * k <= i < 5 * k + 10 ==> e[i] == w[i - 5 * k];
    ConfinedClear(e, k);
  }

  /**
   The seam: characters 51 and 52 hold nine payload bits and one checksum bit, characters 52 and 53
   four and six. Between them the codeword has the eight bits of the other checksum byte.
   */
  function SeamWord(e: Word, k: nat): (w: Word)
    requires |e| == 280 && (k == 51 || k == 52)
    ensures |w| == 18
  {
    e[5 * k..264] + Zeros(8) + e[264..5 * k + 10]
  }

  lemma SeamCodeword(e: Word, k: nat)
    requires Confined(e, k) && (k == 51 || k == 52)
    ensures Codeword(e) == Zeros(5 * k) + SeamWord(e, k) + Zeros(262 - 5 * k)
  {}

  lemma SeamClear(e: Word, k: nat, w: Word)
    requires Confined(e, k) && (k == 51 || k == 52) && w == SeamWord(e, k) && w == Zeros(18)
    ensures e == Zeros(280)
  {
    assert forall i :: 5 * k <= i < 264 ==> e[i] == w[i - 5 * k];
    assert forall i :: 264 <= i < 5 * k + 10 ==> e[i] == w[i + 8 - 5 * k];
    ConfinedClear(e, k);
  }

  lemma SeamErrorDetected(e: Word, k: nat)
    requires Confined(e, k) && (k == 51 || k == 52) && Feed(Zeros(16), Codeword(e)) == Zeros(16)
    ensures e == Zeros(280)
  {
    var w := SeamWord(e, k);
    SeamCodeword(e, k);
    Trim(5 * k, w, 262 - 5 * k);
    GappedBurstDetected(w);
    SeamClear(e, k, w);
  }

  lemma ChecksumCodeword(e: Word, k: nat)
    requires Confined(e, k) && k >= 53
    ensures Codeword(e) == Zeros(264) + (e[272..] + e[264..272]) + Zeros(0)
  {}

  lemma ChecksumClear(e: Word, k: nat, w: Word)
    requires Confined(e, k) && k >= 53 && w == e[272..] + e[264..272] && w == Zeros(16)
    ensures e == Zeros(280)
  {
    assert forall i :: 272 <= i < 280 ==> e[i] == w[i - 272];
    assert forall i :: 264 <= i < 272 ==> e[i] == w[i - 256];
    ConfinedClear(e, k);
  }

  lemma ChecksumErrorDetected(e: Word, k: nat)
    requires Confined(e, k) && k >= 53 && Feed(Zeros(16), Codeword(e)) == Zeros(16)
    ensures e == Zeros(280)
  {
    var w := e[272..] + e[264..272];
    ChecksumCodeword(e, k);
    Trim(264, w, 0);
    BurstDetected(w);
    ChecksumClear(e, k, w);
  }

  lemma ConfinedErrorDetected(e: Word, k: nat)
    requires Confined(e, k) && Feed(Zeros(16), Codeword(e)) == Zeros(16)
    ensures e == Zeros(280)
  {
    if k <= 50 {
      PayloadErrorDetected(e, k);
    } else if k <= 52 {
      SeamErrorDetected(e, k);
    } else {
      ChecksumErrorDetected(e, k);
    }
  }

  lemma AgreementIsConfined(v: string, w: string, k: nat)
    requires |v| == |w| == 56 && AllInAlphabet(v) && AllInAlphabet(w) && k <= 54
    requires forall i :: 0 <= i < 56 && i != k && i != k + 1 ==> v[i] == w[i]
    ensures Confined(Xor(BitsOf(v), BitsOf(w)), k)
  {
    var x, y := BitsOf(v), BitsOf(w);
    forall p | 0 <= p < 280 && !(5 * k <= p < 5 * k + 10)
      ensures x[p] == y[p]
    {
      var i := p / 5;
      BitsOfAt(v, i);
      BitsOfAt(w, i);
      assert x[5 * i..5 * i + 5][p - 5 * i] == y[5 * i..5 * i + 5][p - 5 * i];
    }
  }

  /** Two accepted wallets that agree everywhere but on two neighbouring characters are equal. */
  lemma NeighboursDetermined(v: string, w: string, k: nat)
    requires IsAccountStrkey(v) && IsAccountStrkey(w) && k <= 54
    requires |v| == |w| == 56 && forall i :: 0 <= i < 56 && i != k && i != k + 1 ==> v[i] == w[i]
    ensures v == w
  {
    DifferenceClears(v, w);
    var x, y := BitsOf(v), BitsOf(w);
    AgreementIsConfined(v, w, k);
    ConfinedErrorDetected(Xor(x, y), k);
    SameWords(x, y);
    CharsOfBits(v);
    CharsOfBits(w);
  }

  /** Changing any one character of an accepted wallet, to anything else, gives a rejected string. */
  lemma SubstitutionRejected(wallet: string, k: nat, ch: char)
    requires IsAccountStrkey(wallet) && k < |wallet| && ch != wallet[k]
    ensures !IsAccountStrkey(wallet[k := ch])
  {
    OnlyOverAlphabet(wallet);
    if IsAccountStrkey(wallet[k := ch]) {
      NeighboursDetermined(wallet, wallet[k := ch], if k == 55 then 54 else k);
    }
  }

  /** Swapping two neighbouring, different characters gives a rejected string. */
  lemma TranspositionRejected(wallet: string, k: nat)
    requires IsAccountStrkey(wallet) && k + 1 < |wallet| && wallet[k] != wallet[k + 1]
    ensures !IsAccountStrkey(wallet[k := wallet[k + 1]][k + 1 := wallet[k]])
  {
    OnlyOverAlphabet(wallet);
    var swapped := wallet[k := wallet[k + 1]][k + 1 := wallet[k]];
    if IsAccountStrkey(swapped) {
      NeighboursDetermined(wallet, swapped, k);
    }
  }

  lemma CodewordKeepsWeight(x: Word)
    requires |x| == 280
    ensures Weight(Codeword(x)) == Weight(x)
  {
    var a, b, c := x[..264], x[264..272], x[272..];
    assert x == a + b + c;
    WeightConcat(a + b, c);
    WeightConcat(a, b);
    WeightConcat(a + c, b);
    WeightConcat(a, c);
  }

  /** Two different accepted wallets differ in at least four of their 280 bits. */
  lemma MinimumDistance(v: string, w: string)
    requires IsAccountStrkey(v) && IsAccountStrkey(w) && v != w
    ensures |v| == |w| == 56 && AllInAlphabet(v) && AllInAlphabet(w)
    ensures Weight(Xor(BitsOf(v), BitsOf(w))) >= 4
  {
    DifferenceClears(v, w);
    var e := Xor(BitsOf(v), BitsOf(w));
    CodewordKeepsWeight(e);
    if 0 < Weight(e) < 4 {
      LightNoticed(Codeword(e), Weight(e));
    } else if Weight(e) == 0 {
      NoBits(e);
      SameWords(BitsOf(v), BitsOf(w));
      CharsOfBits(v);
      CharsOfBits(w);
    }
  }
}
