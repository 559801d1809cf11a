/** The Base58 codec of the Solana proxy: encoding by repeated division of one big number,
    decoding by multiply-and-add on a little-endian byte array. */
module Base58 {

  type byte = x: nat | x < 256

  datatype Result<+T> = Success(value: T) | Failure(error: string)

  /** The digits and letters without 0, I, O and l. */
  const ALPHABET := "123456789" + "ABCDEFGH" + "JKLMN" + "PQRSTUVWXYZ" + "abcdefghijk" + "mnopqrstuvwxyz"

  // ----- Positional notation -----

  /** The two bases that occur. */
  type radix = b: nat | b == 58 || b == 256 witness 58

  function Low(base: radix, n: nat): (d: nat) {
    if base == 58 then n % 58 else n % 256
  }

  function High(base: radix, n: nat): (q: nat)
    ensures n > 0 ==> q < n
  {
    if base == 58 then n / 58 else n / 256
  }

  /** The number whose lowest digit is `d`, with `q` above it. */
  function Put(base: radix, d: nat, q: nat): (n: nat)
    ensures d < base ==> Low(base, n) == d && High(base, n) == q
  {
    if base == 58 then d + 58 * q else d + 256 * q
  }

  /** The number that the digits stand for, the least significant digit first. */
  function ValueLE(base: radix, ds: seq<nat>): nat {
    if ds == [] then 0 else Put(base, ds[0], ValueLE(base, ds[1..]))
  }

  /** The number that the digits stand for, the most significant digit first. */
  function ValueBE(base: radix, ds: seq<nat>): nat {
    if ds == [] then 0 else Put(base, ds[|ds| - 1], ValueBE(base, ds[..|ds| - 1]))
  }

  /** Digits below the base, the highest one not zero. */
  ghost predicate Canonical(base: radix, ds: seq<nat>) {
    && (forall i :: 0 <= i < |ds| ==> ds[i] < base)
    && (ds != [] ==> ds[|ds| - 1] > 0)
  }

  /** The digits of `n`, least significant first, without leading zeros: zero has no digits. */
  function DigitsLE(base: radix, n: nat): (ds: seq<nat>)
    ensures Canonical(base, ds)
    ensures n > 0 <==> ds != []
    decreases n
  {
    if n == 0 then [] else [Low(base, n)] + DigitsLE(base, High(base, n))
  }

  lemma {:induction false} DigitsValue(base: radix, n: nat)
    ensures ValueLE(base, DigitsLE(base, n)) == n
    decreases n
  {
    if n > 0 {
      DigitsValue(base, High(base, n));
    }
  }

  /** A number has only one notation without leading zeros. */
  lemma {:induction false} DigitsUnique(base: radix, ds: seq<nat>)
    requires Canonical(base, ds)
    ensures DigitsLE(base, ValueLE(base, ds)) == ds
  {
    if ds != [] {
      DigitsUnique(base, ds[1..]);
    }
  }

  function Reverse<T>(s: seq<T>): (r: seq<T>)
    ensures |r| == |s| && forall i :: 0 <= i < |s| ==> r[i] == s[|s| - 1 - i]
  {
    if s == [] then [] else Reverse(s[1..]) + [s[0]]
  }

  lemma {:induction false} ValueReverse(base: radix, ds: seq<nat>)
    ensures ValueBE(base, Reverse(ds)) == ValueLE(base, ds)
  {
    if ds != [] {
      var r := Reverse(ds);
      assert r[..|r| - 1] == Reverse(ds[1..]) && r[|r| - 1] == ds[0];
      ValueReverse(base, ds[1..]);
    }
  }

  lemma ReverseTwice<T>(s: seq<T>)
    ensures Reverse(Reverse(s)) == s
  {
  }

  function Repeat<T>(x: T, n: nat): (s: seq<T>)
    ensures |s| == n && forall i :: 0 <= i < n ==> s[i] == x
  {
    seq(n, _ => x)
  }

  // ----- The alphabet -----

  /** `BASE58_ALPHABET.indexOf(c)` */
  function IndexOf(c: char): (i: int)
    ensures -1 <= i < 58
    ensures 0 <= i ==> Letter(i) == c
  {
    IndexFrom(c, 0)
  }

  function IndexFrom(c: char, from: nat): (i: int)
    requires from <= 58
    ensures i == -1 || (from <= i < 58 && ALPHABET[i] == c)
    decreases 58 - from
  {
    if from == 58 then -1 else if ALPHABET[from] == c then from else IndexFrom(c, from + 1)
  }

  predicate IncreasesFrom(i: nat)
    decreases 58 - i
  {
    i >= 57 || (ALPHABET[i] < ALPHABET[i + 1] && IncreasesFrom(i + 1))
  }

  lemma LettersIncrease()
    ensures IncreasesFrom(0)
  {
    assert IncreasesFrom(45);
    assert IncreasesFrom(39);
    assert IncreasesFrom(33);
    assert IncreasesFrom(20);
    assert IncreasesFrom(9);
  }

  lemma {:induction false} Increasing(i: nat, j: nat)
    requires i < j < 58 && IncreasesFrom(i)
    ensures ALPHABET[i] < ALPHABET[j] && IncreasesFrom(j)
    decreases j - i
  {
    if i + 1 < j { Increasing(i + 1, j); }
  }

  lemma {:induction false} IndexFromFinds(from: nat, i: nat)
    requires from <= i < 58 && forall j :: from <= j < i ==> ALPHABET[j] != ALPHABET[i]
    ensures IndexFrom(ALPHABET[i], from) == i
    decreases i - from
  {
    if from < i { IndexFromFinds(from + 1, i); }
  }

  /** The letters of the alphabet are different. */
  lemma IndexOfLetter(i: nat)
    requires i < 58
    ensures IndexOf(Letter(i)) == i
  {
    LettersIncrease();
    forall j | 0 <= j < i ensures ALPHABET[j] != ALPHABET[i] {
      if j > 0 { Increasing(0, j); }
      Increasing(j, i);
    }
    IndexFromFinds(0, i);
  }

  predicate Valid(s: string) {
    forall i :: 0 <= i < |s| ==> IndexOf(s[i]) >= 0
  }

  function Indices(s: string): (ds: seq<nat>)
    requires Valid(s)
    ensures |ds| == |s| && forall i :: 0 <= i < |s| ==> ds[i] == IndexOf(s[i]) < 58
  {
    seq(|s|, i requires 0 <= i < |s| => IndexOf(s[i]))
  }

  function Letter(d: nat): char
    requires d < 58
  {
    ALPHABET[d]
  }

  function Letters(ds: seq<nat>): (s: string)
    requires forall i :: 0 <= i < |ds| ==> ds[i] < 58
    ensures |s| == |ds| && forall i :: 0 <= i < |ds| ==> s[i] == Letter(ds[i])
  {
    seq(|ds|, i requires 0 <= i < |ds| => Letter(ds[i]))
  }

  lemma LettersBack(ds: seq<nat>)
    requires forall i :: 0 <= i < |ds| ==> ds[i] < 58
    ensures Valid(Letters(ds)) && Indices(Letters(ds)) == ds
  {
    hide Letter;
    forall i | 0 <= i < |ds| ensures IndexOf(Letters(ds)[i]) == ds[i] {
      IndexOfLetter(ds[i]);
    }
  }

  // ----- Notations with leading zeros -----

  /** How many `x` a sequence starts with. */
  function Leading<T(==)>(s: seq<T>, x: T): (n: nat)
    ensures n <= |s| && (forall i :: 0 <= i < n ==> s[i] == x) && (n < |s| ==> s[n] != x)
  {
    if s != [] && s[0] == x then 1 + Leading(s[1..], x) else 0
  }

  /** `zeros` zeros and then the digits of `n`, most significant first. */
  function Notation(base: radix, zeros: nat, n: nat): (ds: seq<nat>)
    ensures forall i :: 0 <= i < |ds| ==> ds[i] < base
  {
    Repeat(0, zeros) + Reverse(DigitsLE(base, n))
  }

  lemma {:induction false} ValueOfZeros(base: radix, zeros: nat, ds: seq<nat>)
    ensures ValueBE(base, Repeat(0, zeros) + ds) == ValueBE(base, ds)
    decreases |ds|, zeros
  {
    var s := Repeat(0, zeros) + ds;
    if ds != [] {
      assert s[..|s| - 1] == Repeat(0, zeros) + ds[..|ds| - 1];
      ValueOfZeros(base, zeros, ds[..|ds| - 1]);
    } else if zeros > 0 {
      assert s[..|s| - 1] == Repeat(0, zeros - 1) + ds;
      ValueOfZeros(base, zeros - 1, ds);
    }
  }

  /** A notation determines its leading zeros and its value. */
  lemma NotationMeans(base: radix, zeros: nat, n: nat)
    ensures Leading(Notation(base, zeros, n), 0) == zeros
    ensures ValueBE(base, Notation(base, zeros, n)) == n
  {
    ValueOfZeros(base, zeros, Reverse(DigitsLE(base, n)));
    ValueReverse(base, DigitsLE(base, n));
    DigitsValue(base, n);
    LeadingIs(Notation(base, zeros, n), 0, zeros);
  }

  lemma {:induction false} LeadingIs<T>(s: seq<T>, x: T, n: nat)
    requires n <= |s| && (forall i :: 0 <= i < n ==> s[i] == x) && (n < |s| ==> s[n] != x)
    ensures Leading(s, x) == n
  {
  }

  /** And every sequence of digits is the notation of its own leading zeros and value. */
  lemma NotationOf(base: radix, ds: seq<nat>)
    requires forall i :: 0 <= i < |ds| ==> ds[i] < base
    ensures ds == Notation(base, Leading(ds, 0), ValueBE(base, ds))
  {
    hide ValueBE, ValueLE, DigitsLE, Reverse, Leading, Repeat;
    var zeros := Leading(ds, 0);
    var rest := ds[zeros..];
    SplitLeading(ds);
    ValueOfZeros(base, zeros, rest);
    CanonicalReverse(base, rest);
    ReverseTwice(rest);
    ValueReverse(base, Reverse(rest));
    DigitsUnique(base, Reverse(rest));
  }

  lemma LeadingPart(ds: seq<nat>, zeros: nat)
    requires zeros <= |ds| && forall i :: 0 <= i < zeros ==> ds[i] == 0
    ensures ds == Repeat(0, zeros) + ds[zeros..]
  {
  }

  lemma SplitLeading(ds: seq<nat>)
    ensures var zeros := Leading(ds, 0);
            ds == Repeat(0, zeros) + ds[zeros..] && (zeros < |ds| ==> ds[zeros..][0] > 0)
  {
    hide *;
    LeadingPart(ds, Leading(ds, 0));
  }

  lemma CanonicalReverse(base: radix, ds: seq<nat>)
    requires (forall i :: 0 <= i < |ds| ==> ds[i] < base) && (ds != [] ==> ds[0] > 0)
    ensures Canonical(base, Reverse(ds))
  {
    hide Reverse;
  }

  // ----- The codec, as a change of notation -----

  function Encoded(bytes: seq<byte>): string {
    Letters(Notation(58, Leading(bytes, 0), ValueBE(256, bytes)))
  }

  /** The decoder starts from one zero byte, which stays when the value is zero. */
  function Decoded(s: string): Result<seq<byte>> {
    if !Valid(s) then Failure("Invalid base58 character") else
    var n := ValueBE(58, Indices(s));
    var zeros := Leading(s, '1') + if n == 0 then 1 else 0;
    Success(Notation(256, zeros, n))
  }

  lemma OnesAreZeros(ds: seq<nat>)
    requires forall i :: 0 <= i < |ds| ==> ds[i] < 58
    ensures Leading(Letters(ds), '1') == Leading(ds, 0)
  {
    hide Letter;
    forall i | 0 <= i < |ds| ensures Letters(ds)[i] == '1' <==> ds[i] == 0 {
      IndexOfLetter(ds[i]);
      IndexOfLetter(0);
    }
    LeadingIs(Letters(ds), '1', Leading(ds, 0));
  }

  predicate AllZero(bytes: seq<byte>) { Leading(bytes, 0) == |bytes| }

  function Padded(bytes: seq<byte>): seq<byte> {
    if AllZero(bytes) then bytes + [0] else bytes
  }

  lemma ZeroExactly(base: radix, ds: seq<nat>)
    requires forall i :: 0 <= i < |ds| ==> ds[i] < base
    ensures ValueBE(base, ds) == 0 <==> Leading(ds, 0) == |ds|
  {
    hide ValueBE, Leading;
    NotationOf(base, ds);
  }

  lemma NotationPad(base: radix, zeros: nat)
    ensures Notation(base, zeros + 1, 0) == Notation(base, zeros, 0) + [0]
  {
  }

  /** Decoding undoes encoding, except that a run of zero bytes (also an empty one) comes back
      with one more zero byte. */
  lemma DecodeEncode(bytes: seq<byte>)
    ensures Decoded(Encoded(bytes)) == Success(Padded(bytes))
    ensures Decoded(Encoded(bytes)) == Success(bytes) <==> !AllZero(bytes)
  {
    hide ValueBE, Leading, Notation, Letters, Indices, Valid;
    var zeros, n := Leading(bytes, 0), ValueBE(256, bytes);
    var ds := Notation(58, zeros, n);
    NotationMeans(58, zeros, n);
    LettersBack(ds);
    OnesAreZeros(ds);
    NotationOf(256, bytes);
    ZeroExactly(256, bytes);
    if n == 0 { NotationPad(256, zeros); }
  }

  predicate AllOnes(s: string) { Leading(s, '1') == |s| }

  /** Encoding undoes decoding, except that a string of ones (also an empty one) comes back
      with one more. */
  lemma EncodeDecode(s: string)
    requires Valid(s)
    ensures Encoded(Decoded(s).value) == if AllOnes(s) then s + "1" else s
    ensures Encoded(Decoded(s).value) == s <==> !AllOnes(s)
  {
    hide ValueBE, Leading, Notation, Letters, Indices, Valid;
    var ds := Indices(s);
    LettersOfIndices(s);
    OnesAreZeros(ds);
    var ones, n := Leading(s, '1'), ValueBE(58, ds);
    NotationMeans(256, if n == 0 then ones + 1 else ones, n);
    NotationOf(58, ds);
    ZeroExactly(58, ds);
    if n == 0 {
      NotationPad(58, ones);
      LettersPad(ds);
    }
  }

  lemma LettersPad(ds: seq<nat>)
    requires forall i :: 0 <= i < |ds| ==> ds[i] < 58
    ensures Letters(ds + [0]) == Letters(ds) + "1"
  {
    FirstLetter();
    hide Letter;
  }

  lemma LettersOfIndices(s: string)
    requires Valid(s)
    ensures Letters(Indices(s)) == s
  {
    hide Letter;
  }

  lemma PaddedZero(bytes: seq<byte>)
    ensures AllZero(Padded(bytes)) <==> AllZero(bytes)
  {
    if AllZero(bytes) { LeadingIs(bytes + [0], 0, |bytes| + 1); }
  }

  lemma PaddedInjective(a: seq<byte>, b: seq<byte>)
    requires Padded(a) == Padded(b)
    ensures a == b
  {
    PaddedZero(a);
    PaddedZero(b);
    if AllZero(a) {
      assert a == (a + [0])[..|a|] && b == (b + [0])[..|b|];
    }
  }

  lemma EncodeInjective(a: seq<byte>, b: seq<byte>)
    requires Encoded(a) == Encoded(b)
    ensures a == b
  {
    DecodeEncode(a);
    DecodeEncode(b);
    PaddedInjective(a, b);
  }

  // ----- Encoding -----

  lemma {:induction false} ValueSnoc(base: radix, ds: seq<nat>, d: nat)
    ensures ValueBE(base, ds + [d]) == Put(base, d, ValueBE(base, ds))
  {
    assert (ds + [d])[..|ds|] == ds;
  }

  lemma FirstLetter()
    ensures Letter(0) == '1'
  {
  }

  lemma LettersAppend(a: seq<nat>, b: seq<nat>)
    requires forall i :: 0 <= i < |a| ==> a[i] < 58
    requires forall i :: 0 <= i < |b| ==> b[i] < 58
    ensures Letters(a + b) == Letters(a) + Letters(b)
  {
    hide Letter;
  }

  lemma LettersSnoc(ds: seq<nat>, d: nat)
    requires (forall i :: 0 <= i < |ds| ==> ds[i] < 58) && d < 58
    ensures Letters(ds + [d]) == Letters(ds) + [Letter(d)]
  {
    hide Letter;
  }

  lemma DigitsStep(ds: seq<nat>, num: nat)
    requires num > 0
    ensures ds + DigitsLE(58, num) == (ds + [num % 58]) + DigitsLE(58, num / 58)
  {
  }

  lemma LettersOfZeros(zeros: nat)
    ensures Letters(Repeat(0, zeros)) == Repeat('1', zeros)
  {
    hide Letter;
    FirstLetter();
  }

  lemma {:induction false} LettersReverse(ds: seq<nat>)
    requires forall i :: 0 <= i < |ds| ==> ds[i] < 58
    ensures Letters(Reverse(ds)) == Reverse(Letters(ds))
  {
    if ds != [] {
      LettersSnoc(Reverse(ds[1..]), ds[0]);
      LettersReverse(ds[1..]);
      LettersTail(ds);
    }
  }

  lemma LettersTail(ds: seq<nat>)
    requires ds != [] && forall i :: 0 <= i < |ds| ==> ds[i] < 58
    ensures Letters(ds)[1..] == Letters(ds[1..]) && Letters(ds)[0] == Letter(ds[0])
  {
    hide Letter;
  }

  lemma LettersParts(zeros: nat, ds: seq<nat>)
    requires forall i :: 0 <= i < |ds| ==> ds[i] < 58
    ensures Letters(Repeat(0, zeros) + Reverse(ds)) == Repeat('1', zeros) + Reverse(Letters(ds))
  {
    hide Reverse, Letters, Repeat;
    LettersAppend(Repeat(0, zeros), Reverse(ds));
    LettersOfZeros(zeros);
    LettersReverse(ds);
  }

  lemma EmptyValue()
    ensures Letters([]) == "" && DigitsLE(58, 0) == [] && ValueBE(256, []) == 0
  {
  }

  method EncodeBase58(bytes: seq<byte>) returns (s: string)
    ensures s == Encoded(bytes)
  {
    hide Leading, ValueBE, DigitsLE, Reverse, Letters, Repeat;
    var leadingZeros := 0;
    for i := 0 to |bytes|
      invariant leadingZeros == i && forall j :: 0 <= j < i ==> bytes[j] == 0
    {
      if bytes[i] != 0 {
        break;
      }
      leadingZeros := leadingZeros + 1;
    }
    LeadingIs(bytes, 0, leadingZeros);
    EmptyValue();
    assert bytes[..0] == [];
    var num: nat := 0;
    for i := 0 to |bytes|
      invariant num == ValueBE(256, bytes[..i])
    {
      ValueSnoc(256, bytes[..i], bytes[i]);
      assert bytes[..i + 1] == bytes[..i] + [bytes[i]];
      num := num * 256 + bytes[i];
    }
    assert bytes[..|bytes|] == bytes;
    var digits := "";
    ghost var n: nat, ds: seq<nat> := num, [];
    while num > 0
      invariant ds + DigitsLE(58, num) == DigitsLE(58, n)
      invariant (forall i :: 0 <= i < |ds| ==> ds[i] < 58) && digits == Letters(ds)
    {
      DigitsStep(ds, num);
      LettersSnoc(ds, num % 58);
      var remainder := num % 58;
      num := num / 58;
      ds := ds + [remainder];
      digits := digits + [Letter(remainder)];
    }
    LettersParts(leadingZeros, ds);
    s := Repeat('1', leadingZeros) + Reverse(digits);
  }

  // ----- Decoding -----

  /** The digits the decoder keeps: at least one. */
  function Minimal(n: nat): (ds: seq<nat>) {
    if n == 0 then [0] else DigitsLE(256, n)
  }

  /** One character's worth of the decoder: multiply by 58 and add, digit by digit. */
  function MulAdd(ds: seq<nat>, carry: nat): (r: seq<nat>) {
    if ds == [] then DigitsLE(256, carry) else
    var x := carry + ds[0] * 58;
    [x % 256] + MulAdd(ds[1..], x / 256)
  }

  lemma {:induction false} MulAddValue(ds: seq<nat>, carry: nat)
    requires forall i :: 0 <= i < |ds| ==> ds[i] < 256
    ensures ValueLE(256, MulAdd(ds, carry)) == 58 * ValueLE(256, ds) + carry
  {
    if ds == [] {
      DigitsValue(256, carry);
    } else {
      MulAddValue(ds[1..], (carry + ds[0] * 58) / 256);
    }
  }

  lemma {:induction false} MulAddCanonical(ds: seq<nat>, carry: nat)
    requires Canonical(256, ds)
    ensures Canonical(256, MulAdd(ds, carry))
  {
    if ds != [] {
      MulAddCanonical(ds[1..], (carry + ds[0] * 58) / 256);
    }
  }

  lemma MulAddMinimal(n: nat, d: nat)
    requires d < 58
    ensures MulAdd(Minimal(n), d) == Minimal(58 * n + d)
  {
    if n == 0 {
      assert MulAdd([0], d) == [d];
      assert d > 0 ==> DigitsLE(256, d) == [d];
    } else {
      var ds := DigitsLE(256, n);
      MulAddValue(ds, d);
      MulAddCanonical(ds, d);
      DigitsValue(256, n);
      DigitsUnique(256, MulAdd(ds, d));
    }
  }

  lemma MulAddStep(done: seq<nat>, ds: seq<nat>, carry: nat)
    requires ds != []
    ensures var x := carry + ds[0] * 58;
            done + MulAdd(ds, carry) == (done + [x % 256]) + MulAdd(ds[1..], x / 256)
  {
  }

  lemma CarryStep(done: seq<nat>, carry: nat)
    requires carry > 0
    ensures done + DigitsLE(256, carry) == (done + [carry % 256]) + DigitsLE(256, carry / 256)
  {
  }

  lemma MulAddNothing(done: seq<nat>, before: seq<nat>, carry: nat)
    requires |done| == |before|
    ensures done[..|done|] + MulAdd(before[|before|..], carry) == done + DigitsLE(256, carry)
  {
    assert done[..|done|] == done && before[|before|..] == [];
  }

  /** The inner loops of the decoder. The carry stays at most 57, so at most one byte is added,
      and no intermediate value leaves the range of the 32-bit operators. */
  method MultiplyAdd(before: seq<nat>, value: nat) returns (bytes: seq<nat>)
    requires value < 58 && forall i :: 0 <= i < |before| ==> before[i] < 256
    ensures bytes == MulAdd(before, value)
    ensures |before| <= |bytes| <= |before| + 1
  {
    hide MulAdd;
    bytes := before;
    var carry := value;
    assert bytes[..0] + MulAdd(before[0..], carry) == MulAdd(before, value) by { assert before[0..] == before; }
    for i := 0 to |bytes|
      invariant |bytes| == |before| && carry <= 57
      invariant bytes[i..] == before[i..]
      invariant bytes[..i] + MulAdd(before[i..], carry) == MulAdd(before, value)
    {
      MulAddStep(bytes[..i], before[i..], carry);
      assert before[i..][1..] == before[i + 1..] && bytes[i] == bytes[i..][0];
      carry := carry + bytes[i] * 58;
      assert carry < 0x8000_0000;
      bytes := bytes[i := carry % 256];
      assert bytes[..i + 1] == bytes[..i] + [carry % 256];
      carry := carry / 256;
    }
    MulAddNothing(bytes, before, carry);
    while carry > 0
      invariant carry <= 57 && |bytes| <= |before| + (if carry > 0 then 0 else 1)
      invariant bytes + DigitsLE(256, carry) == MulAdd(before, value)
      invariant |before| <= |bytes|
    {
      CarryStep(bytes, carry);
      bytes := bytes + [carry % 256];
      carry := carry / 256;
    }
    assert bytes + [] == bytes;
  }

  lemma NothingYet(s: string)
    ensures Valid(s[..0]) && ValueBE(58, Indices(s[..0])) == 0
  {
  }

  lemma NextCharacter(s: string, k: nat)
    requires k < |s| && Valid(s[..k])
    ensures IndexOf(s[k]) == -1 ==> !Valid(s)
    ensures IndexOf(s[k]) >= 0 ==>
      && Valid(s[..k + 1])
      && ValueBE(58, Indices(s[..k + 1])) == 58 * ValueBE(58, Indices(s[..k])) + IndexOf(s[k])
  {
    if IndexOf(s[k]) >= 0 {
      var t := s[..k + 1];
      forall i | 0 <= i < |t| ensures IndexOf(t[i]) >= 0 {
        if i < k { assert t[i] == s[..k][i]; }
      }
      assert Indices(s[..k + 1]) == Indices(s[..k]) + [IndexOf(s[k])];
      ValueSnoc(58, Indices(s[..k]), IndexOf(s[k]));
    }
  }

  lemma {:induction false} ReverseAppend<T>(a: seq<T>, b: seq<T>)
    ensures Reverse(a + b) == Reverse(b) + Reverse(a)
  {
    if a == [] {
      assert a + b == b;
    } else {
      ReverseAppend(a[1..], b);
      assert (a + b)[1..] == a[1..] + b;
    }
  }

  lemma ReverseRepeat<T>(x: T, n: nat)
    ensures Reverse(Repeat(x, n)) == Repeat(x, n)
  {
    hide Reverse;
  }

  lemma RepeatMore<T>(x: T, n: nat)
    ensures Repeat(x, n) + [x] == Repeat(x, n + 1)
  {
  }

  lemma MinimalReversed(n: nat, ones: nat)
    ensures Reverse(Minimal(n) + Repeat(0, ones)) == Notation(256, if n == 0 then ones + 1 else ones, n)
  {
    hide Reverse, DigitsLE, Repeat;
    ReverseAppend(Minimal(n), Repeat(0, ones));
    ReverseRepeat(0, ones);
    RepeatMore(0, ones);
    assert n == 0 ==> Reverse<nat>([0]) == [0] && Reverse<nat>([]) == [];
  }

  method DecodeBase58(s: string) returns (r: Result<seq<byte>>)
    ensures r == Decoded(s)
  {
    hide Leading, ValueBE, DigitsLE, Reverse, MulAdd, Put;
    var bytes: seq<nat> := [0];
    NothingYet(s);
    for k := 0 to |s|
      invariant Valid(s[..k])
      invariant bytes == Minimal(ValueBE(58, Indices(s[..k])))
      invariant |bytes| <= k + 1
    {
      NextCharacter(s, k);
      var value := IndexOf(s[k]);
      if value == -1 {
        return Failure("Invalid base58 character");
      }
      MulAddMinimal(ValueBE(58, Indices(s[..k])), value);
      bytes := MultiplyAdd(bytes, value);
    }
    assert s[..|s|] == s;
    ghost var n := ValueBE(58, Indices(s));
    var ones := 0;
    for k := 0 to |s|
      invariant ones == k && forall j :: 0 <= j < k ==> s[j] == '1'
      invariant bytes == Minimal(n) + Repeat(0, k)
    {
      if s[k] != '1' {
        break;
      }
      bytes := bytes + [0];
      ones := ones + 1;
    }
    LeadingIs(s, '1', ones);
    MinimalReversed(n, ones);
    r := Success(Reverse(bytes));
  }

  // ----- Lengths -----

  function Pow(base: radix, k: nat): (p: nat)
    ensures p > 0
  {
    if k == 0 then 1 else Put(base, 0, Pow(base, k - 1))
  }

  lemma {:induction false} ValueBound(base: radix, ds: seq<nat>)
    requires forall i :: 0 <= i < |ds| ==> ds[i] < base
    ensures ValueBE(base, ds) < Pow(base, |ds|)
    decreases |ds|
  {
    if ds != [] { ValueBound(base, ds[..|ds| - 1]); }
  }

  lemma {:induction false} DigitCount(base: radix, n: nat, k: nat)
    requires n < Pow(base, k)
    ensures |DigitsLE(base, n)| <= k
    decreases k
  {
    if n > 0 { DigitCount(base, High(base, n), k - 1); }
  }

  /** A number never has more base-256 digits than base-58 digits. */
  lemma {:induction false} FewerBytes(n: nat, m: nat)
    requires n <= m
    ensures |DigitsLE(256, n)| <= |DigitsLE(58, m)|
    decreases m
  {
    if n > 0 { FewerBytes(n / 256, m / 58); }
  }

  lemma PowTwo(k: nat)
    ensures Pow(58, k + 2) == 3364 * Pow(58, k)
    ensures Pow(256, k + 2) == 65536 * Pow(256, k)
  {
    assert Pow(58, k + 2) == 58 * Pow(58, k + 1);
    assert Pow(256, k + 2) == 256 * Pow(256, k + 1);
  }

  lemma PowEight(k: nat)
    ensures Pow(58, k + 8) == 128063081718016 * Pow(58, k)
    ensures Pow(256, k + 8) == 18446744073709551616 * Pow(256, k)
  {
    hide Pow;
    PowTwo(k);
    PowTwo(k + 2);
    PowTwo(k + 4);
    PowTwo(k + 6);
  }

  lemma PowGrows(k: nat)
    ensures Pow(58, k + 11) == 24986644000165537792 * Pow(58, k)
    ensures Pow(256, k + 8) == 18446744073709551616 * Pow(256, k)
  {
    PowEight(k);
    assert Pow(58, k + 11) == 58 * Pow(58, k + 10) by { assert k + 11 - 1 == k + 10; }
    hide Pow;
    PowTwo(k + 8);
  }

  lemma {:induction false} PowMonotone(base: radix, j: nat, k: nat)
    requires j <= k
    ensures Pow(base, j) <= Pow(base, k)
    decreases k
  {
    if j < k { PowMonotone(base, j, k - 1); }
  }

  /** Eleven base-58 digits hold eight bytes. */
  lemma {:induction false} ElevenForEight(m: nat, k: nat)
    requires 11 * m <= 8 * k
    ensures Pow(256, m) <= Pow(58, k)
    decreases m
  {
    hide Pow;
    if m >= 8 {
      ElevenForEight(m - 8, k - 11);
      PowGrows(m - 8);
      assert Pow(256, m) == 18446744073709551616 * Pow(256, m - 8);
      PowGrows(k - 11);
      assert Pow(58, k) == 24986644000165537792 * Pow(58, k - 11);
    } else {
      SmallPowers(m);
      PowMonotone(58, (11 * m + 7) / 8, k);
    }
  }

  lemma SmallPowers(m: nat)
    requires m < 8
    ensures Pow(256, m) <= Pow(58, (11 * m + 7) / 8)
  {
    assert Pow(256, 4) == 4294967296;
    assert Pow(58, 2) == 3364 && Pow(58, 3) == 195112;
    assert Pow(58, 5) == 656356768 && Pow(58, 9) == 7427658739644928;
  }

  /** The text is at least as long as the data, and at most eleven characters for eight bytes. */
  lemma EncodedLength(bytes: seq<byte>)
    ensures |bytes| <= |Encoded(bytes)|
    ensures 8 * |Encoded(bytes)| <= 11 * |bytes| + 7
  {
    hide DigitsLE, ValueBE, Pow, Reverse, Letters;
    var zeros, n := Leading(bytes, 0), ValueBE(256, bytes);
    var rest := bytes[zeros..];
    NotationOf(256, bytes);
    FewerBytes(n, n);
    assert bytes == Repeat(0, zeros) + rest;
    ValueOfZeros(256, zeros, rest);
    ValueBound(256, rest);
    ElevenForEight(|rest|, (11 * |rest| + 7) / 8);
    DigitCount(58, n, (11 * |rest| + 7) / 8);
  }
}
