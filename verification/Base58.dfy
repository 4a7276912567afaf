// src/main.ts: Base58 as in sections 3 and 4 of draft-msporny-base58.
module Base58 {
  import opened Basics

  const BASE58_ALPHABET := "123456789" + "ABCDEFGH" + "JKLMN" + "PQRSTUVWXYZ" + "abcdefghijk" + "mnopqrstuvwxyz"

  // Bytes on one side, Base58 digits on the other.
  predicate IsBase(base: int) {
    base == 58 || base == 256
  }

  // ----- Positional notation -------------------------------------------------------

  predicate Digits(ds: seq<int>, base: int) {
    forall i :: 0 <= i < |ds| ==> 0 <= ds[i] < base
  }

  // The number a digit string denotes, most significant digit first.
  function Value(ds: seq<int>, base: int): int {
    if ds == [] then 0 else Value(ds[..|ds| - 1], base) * base + ds[|ds| - 1]
  }

  // The digits of a number, without leading zeros; none for zero.
  function Representation(n: nat, base: int): seq<int>
    requires IsBase(base)
    decreases n
  {
    if n == 0 then [] else Representation(n / base, base) + [n % base]
  }

  function Zeros(k: nat): seq<int> {
    if k == 0 then [] else Zeros(k - 1) + [0]
  }

  function LeadingZeros(ds: seq<int>): nat {
    if ds == [] || ds[0] != 0 then 0 else 1 + LeadingZeros(ds[1..])
  }

  lemma {:induction false} RepresentationDenotes(n: nat, base: int)
    requires IsBase(base)
    ensures Value(Representation(n, base), base) == n && Digits(Representation(n, base), base)
    ensures LeadingZeros(Representation(n, base)) == 0
  {
    if n > 0 {
      DivideByBase(n, base);
      RepresentationDenotes(n / base, base);
      var high := Representation(n / base, base);
      assert Representation(n, base) == high + [n % base];
      AppendDigit(high, n % base, base);
      LeadingDigit(high, n % base, n / base, base);
    }
  }

  lemma DivideByBase(n: nat, base: int)
    requires IsBase(base) && n > 0
    ensures 0 <= n / base < n && 0 <= n % base < base && n / base * base + n % base == n
  {
  }

  lemma AppendDigit(ds: seq<int>, d: int, base: int)
    ensures Value(ds + [d], base) == Value(ds, base) * base + d
    ensures Digits(ds, base) && 0 <= d < base ==> Digits(ds + [d], base)
  {
    assert (ds + [d])[..|ds|] == ds;
  }

  lemma LeadingDigit(ds: seq<int>, d: int, n: int, base: int)
    requires LeadingZeros(ds) == 0 && Value(ds, base) == n && (n == 0 ==> d != 0 && ds == [])
    ensures LeadingZeros(ds + [d]) == 0
  {
  }

  lemma {:induction false} ValueNotNegative(ds: seq<int>, base: int)
    requires IsBase(base) && Digits(ds, base)
    ensures Value(ds, base) >= 0
    ensures ds != [] && ds[0] != 0 ==> Value(ds, base) > 0
  {
    if ds != [] {
      ValueNotNegative(ds[..|ds| - 1], base);
    }
  }

  // Without leading zeros, the digits are the representation of their value.
  lemma {:induction false} DigitsAreRepresentation(ds: seq<int>, base: int)
    requires IsBase(base) && Digits(ds, base) && LeadingZeros(ds) == 0
    ensures Value(ds, base) >= 0 && Representation(Value(ds, base), base) == ds
  {
    ValueNotNegative(ds, base);
    if ds != [] {
      var init, last := ds[..|ds| - 1], ds[|ds| - 1];
      DigitsAreRepresentation(init, base);
      assert Value(ds, base) / base == Value(init, base) && Value(ds, base) % base == last by {
        DivisionByBase(Value(init, base), last, base);
      }
    }
  }

  lemma DivisionByBase(q: int, d: int, base: int)
    requires IsBase(base) && 0 <= d < base
    ensures (q * base + d) / base == q && (q * base + d) % base == d
  {
  }

  lemma {:induction false} ZerosDenoteNothing(k: nat, ds: seq<int>, base: int)
    ensures |Zeros(k)| == k && Value(Zeros(k) + ds, base) == Value(ds, base)
    decreases k, |ds|
  {
    if ds != [] {
      ZerosDenoteNothing(k, ds[..|ds| - 1], base);
      assert (Zeros(k) + ds)[..|Zeros(k) + ds| - 1] == Zeros(k) + ds[..|ds| - 1];
    } else if k > 0 {
      ZerosDenoteNothing(k - 1, [], base);
      assert Zeros(k) + [] == Zeros(k) && Zeros(k - 1) + [] == Zeros(k - 1);
      assert Zeros(k)[..k - 1] == Zeros(k - 1);
    } else {
      assert Zeros(0) + ds == ds;
    }
  }

  // Every digit string is its leading zeros followed by the representation of its value.
  lemma {:induction false} Split(ds: seq<int>, base: int)
    requires IsBase(base) && Digits(ds, base)
    ensures Value(ds, base) >= 0 && ds == Zeros(LeadingZeros(ds)) + Representation(Value(ds, base), base)
  {
    var k := LeadingZeros(ds);
    LeadingZerosPrefix(ds);
    ZerosDenoteNothing(k, ds[k..], base);
    DigitsAreRepresentation(ds[k..], base);
  }

  lemma {:induction false} LeadingZerosPrefix(ds: seq<int>)
    ensures LeadingZeros(ds) <= |ds| && ds == Zeros(LeadingZeros(ds)) + ds[LeadingZeros(ds)..]
    ensures LeadingZeros(ds[LeadingZeros(ds)..]) == 0
  {
    if ds != [] && ds[0] == 0 {
      LeadingZerosPrefix(ds[1..]);
      var k := LeadingZeros(ds[1..]);
      assert ds[1..][k..] == ds[k + 1..];
      ZerosFront(k);
      assert ds == [0] + ds[1..];
    } else {
      assert ds[0..] == ds;
    }
  }

  lemma {:induction false} ZerosFront(k: nat)
    ensures [0] + Zeros(k) == Zeros(k + 1)
  {
    if k > 0 {
      ZerosFront(k - 1);
    }
  }

  lemma {:induction false} CountZeros(k: nat, ds: seq<int>)
    requires LeadingZeros(ds) == 0
    ensures LeadingZeros(Zeros(k) + ds) == k
    decreases k
  {
    if k > 0 {
      ZerosFront(k - 1);
      assert (Zeros(k) + ds)[1..] == Zeros(k - 1) + ds;
      CountZeros(k - 1, ds);
    } else {
      assert Zeros(0) + ds == ds;
    }
  }

  // ----- Encoding and decoding -----------------------------------------------------------------

  // Changing the base keeps the leading zeros and the value.
  function Rebase(ds: seq<int>, from: int, to: int): seq<int>
    requires IsBase(to) && Value(ds, from) >= 0
  {
    Zeros(LeadingZeros(ds)) + Representation(Value(ds, from), to)
  }

  lemma RebaseRoundTrip(ds: seq<int>, from: int, to: int)
    requires IsBase(from) && IsBase(to) && Digits(ds, from)
    ensures Value(ds, from) >= 0 && Digits(Rebase(ds, from, to), to)
    ensures Value(Rebase(ds, from, to), to) >= 0 && Rebase(Rebase(ds, from, to), to, from) == ds
  {
    Split(ds, from);
    var n, k := Value(ds, from), LeadingZeros(ds);
    var out := Rebase(ds, from, to);
    RepresentationDenotes(n, to);
    ZerosDenoteNothing(k, Representation(n, to), to);
    CountZeros(k, Representation(n, to));
    ZerosAreDigits(k, to);
  }

  lemma {:induction false} ZerosAreDigits(k: nat, base: int)
    requires IsBase(base)
    ensures Digits(Zeros(k), base)
  {
    if k > 0 {
      ZerosAreDigits(k - 1, base);
    }
  }

  // indexOf: the position of a character in the alphabet from position i on, or -1.
  function IndexFrom(c: char, i: nat): (r: int)
    requires i <= |BASE58_ALPHABET|
    ensures r == -1 || (i <= r < |BASE58_ALPHABET| && BASE58_ALPHABET[r] == c)
    decreases |BASE58_ALPHABET| - i
  {
    if i == |BASE58_ALPHABET| then -1
    else if BASE58_ALPHABET[i] == c then i
    else IndexFrom(c, i + 1)
  }

  function IndexOf(c: char): int {
    IndexFrom(c, 0)
  }

  // No character occurs twice in the alphabet.
  lemma AlphabetIsInjective(d: int)
    requires 0 <= d < 58
    ensures |BASE58_ALPHABET| == 58 && IndexOf(BASE58_ALPHABET[d]) == d
  {
    DistinctAlphabet();
    FirstIndex(d, 0);
  }

  // The code of the i-th character: the alphabet is six runs of consecutive codes.
  function Code(i: int): int {
    if i < 9 then 49 + i else if i < 17 then 56 + i else if i < 22 then 57 + i
    else if i < 33 then 58 + i else if i < 44 then 64 + i else 65 + i
  }

  lemma DistinctAlphabet()
    ensures |BASE58_ALPHABET| == 58 && forall i :: 0 <= i < 58 ==> BASE58_ALPHABET[i] as int == Code(i)
  {
    assert forall i :: 0 <= i < 9 ==> "123456789"[i] as int == 49 + i;
    assert forall i :: 0 <= i < 8 ==> "ABCDEFGH"[i] as int == 65 + i;
    assert forall i :: 0 <= i < 5 ==> "JKLMN"[i] as int == 74 + i;
    assert forall i :: 0 <= i < 11 ==> "PQRSTUVWXYZ"[i] as int == 80 + i;
    assert forall i :: 0 <= i < 11 ==> "abcdefghijk"[i] as int == 97 + i;
    assert forall i :: 0 <= i < 14 ==> "mnopqrstuvwxyz"[i] as int == 109 + i;
  }

  lemma {:induction false} FirstIndex(d: int, i: nat)
    requires i <= d < |BASE58_ALPHABET| == 58 && forall i :: 0 <= i < 58 ==> BASE58_ALPHABET[i] as int == Code(i)
    ensures IndexFrom(BASE58_ALPHABET[d], i) == d
    decreases d - i
  {
    if i < d {
      FirstIndex(d, i + 1);
    }
  }

  predicate Encodable(s: string) {
    forall i :: 0 <= i < |s| ==> IndexOf(s[i]) >= 0
  }

  function Spell(ds: seq<int>): string
    requires forall i :: 0 <= i < |ds| ==> 0 <= ds[i] < |BASE58_ALPHABET|
  {
    seq(|ds|, i requires 0 <= i < |ds| => BASE58_ALPHABET[ds[i]])
  }

  function Indices(s: string): seq<int> {
    seq(|s|, i requires 0 <= i < |s| => IndexOf(s[i]))
  }

  // The encoding of a byte sequence, and the decoding of a string if all its characters are in the alphabet.
  function Encode(bytes: seq<Byte>): string {
    EncodeIsSpellable(bytes);
    Spell(Rebase(bytes, 256, 58))
  }

  function AsBytes(ds: seq<int>): (bytes: seq<Byte>)
    requires Digits(ds, 256)
    ensures bytes == ds
  {
    seq(|ds|, i requires 0 <= i < |ds| => ds[i])
  }

  function Decode(s: string): Option<seq<Byte>> {
    if Encodable(s) then
      IndicesAreDigits(s);
      RebaseRoundTrip(Indices(s), 58, 256);
      Some(AsBytes(Rebase(Indices(s), 58, 256)))
    else None
  }

  lemma EncodeIsSpellable(bytes: seq<Byte>)
    ensures Digits(bytes, 256) && Value(bytes, 256) >= 0
    ensures forall i :: 0 <= i < |Rebase(bytes, 256, 58)| ==> 0 <= Rebase(bytes, 256, 58)[i] < |BASE58_ALPHABET|
  {
    RebaseRoundTrip(bytes, 256, 58);
    DistinctAlphabet();
  }

  lemma IndicesAreDigits(s: string)
    requires Encodable(s)
    ensures Digits(Indices(s), 58)
  {
  }

  lemma SpellThenIndex(ds: seq<int>)
    requires forall i :: 0 <= i < |ds| ==> 0 <= ds[i] < |BASE58_ALPHABET|
    ensures Encodable(Spell(ds)) && Indices(Spell(ds)) == ds
  {
    DistinctAlphabet();
    forall i | 0 <= i < |ds|
      ensures IndexOf(Spell(ds)[i]) == ds[i]
    {
      AlphabetIsInjective(ds[i]);
    }
  }

  // Decoding inverts encoding for every byte sequence, leading and all-zero bytes included.
  lemma DecodeEncode(bytes: seq<Byte>)
    ensures Decode(Encode(bytes)) == Some(bytes)
  {
    EncodeIsSpellable(bytes);
    SpellThenIndex(Rebase(bytes, 256, 58));
    RebaseRoundTrip(bytes, 256, 58);
  }

  // Encoding inverts decoding for every string over the alphabet; any other string fails to decode.
  lemma EncodeDecode(s: string)
    ensures Encodable(s) <==> Decode(s).Some?
    ensures Encodable(s) ==> Encode(Decode(s).value) == s
  {
    if Encodable(s) {
      IndicesAreDigits(s);
      RebaseRoundTrip(Indices(s), 58, 256);
      var bytes: seq<Byte> := Decode(s).value;
      assert Rebase(bytes, 256, 58) == Indices(s);
      forall i | 0 <= i < |s|
        ensures BASE58_ALPHABET[IndexOf(s[i])] == s[i]
      {
      }
      assert Encode(bytes) == s;
    }
  }

  // The test vector of section 5 of draft-msporny-base58 with leading zero bytes.
  lemma KnownEncoding()
    ensures Decode("11233QC4") == Some([0x00, 0x00, 0x28, 0x7f, 0xb4, 0xcd])
    ensures Encode([0x00, 0x00, 0x28, 0x7f, 0xb4, 0xcd]) == "11233QC4"
  {
    var bytes: seq<Byte> := [0x00, 0x00, 0x28, 0x7f, 0xb4, 0xcd];
    var digits := [0, 0, 1, 2, 2, 23, 11, 3];
    KnownBytes(bytes);
    KnownDigits(digits);
    assert Rebase(bytes, 256, 58) == digits by {
      Split(digits, 58);
    }
    DistinctAlphabet();
    EncodeIsSpellable(bytes);
    assert Encode(bytes) == "11233QC4";
    DecodeEncode(bytes);
  }

  lemma KnownBytes(bytes: seq<Byte>)
    requires bytes == [0x00, 0x00, 0x28, 0x7f, 0xb4, 0xcd]
    ensures Value(bytes, 256) == 679_457_997 && LeadingZeros(bytes) == 2
  {
    var four := [0x28, 0x7f, 0xb4, 0xcd];
    TwoZeros(four, 256);
    assert bytes == [0, 0] + four;
    FourDigits(0x28, 0x7f, 0xb4, 0xcd, 256);
  }

  lemma KnownDigits(digits: seq<int>)
    requires digits == [0, 0, 1, 2, 2, 23, 11, 3]
    ensures Value(digits, 58) == 679_457_997 && LeadingZeros(digits) == 2
  {
    var four := [1, 2, 2, 23];
    TwoZeros(four + [11] + [3], 58);
    assert digits == [0, 0] + (four + [11] + [3]);
    FourDigits(1, 2, 2, 23, 58);
    AppendDigit(four, 11, 58);
    AppendDigit(four + [11], 3, 58);
  }

  lemma TwoZeros(ds: seq<int>, base: int)
    requires ds != [] && ds[0] != 0
    ensures Value([0, 0] + ds, base) == Value(ds, base) && LeadingZeros([0, 0] + ds) == 2
  {
    assert Zeros(1) == [0] && Zeros(2) == [0, 0];
    ZerosDenoteNothing(2, ds, base);
    CountZeros(2, ds);
  }

  lemma FourDigits(a: int, b: int, c: int, d: int, base: int)
    ensures Value([a, b, c, d], base) == ((a * base + b) * base + c) * base + d
  {
    assert [a, b, c, d][..3] == [a, b, c] && [a, b, c][..2] == [a, b] && [a, b][..1] == [a] && [a][..0] == [];
    assert Value([a], base) == a;
    assert Value([a, b], base) == a * base + b;
    assert Value([a, b, c], base) == (a * base + b) * base + c;
  }

  // ----- The loops -----------------------------------------------------------------------------

  lemma ValueGrows(ds: seq<int>, i: nat, base: int)
    requires i < |ds|
    ensures Value(ds[..i + 1], base) == Value(ds[..i], base) * base + ds[i]
  {
    assert ds[..i + 1][..i] == ds[..i];
  }

  // Prepending one zero for every leading zero of ds.
  method PrependZeros(ds: seq<int>, digits: seq<int>) returns (out: seq<int>)
    ensures out == Zeros(LeadingZeros(ds)) + digits
  {
    out := digits;
    var i := 0;
    assert ds[0..] == ds && Zeros(0) + digits == digits;
    while i < |ds| && ds[i] == 0
      invariant i <= |ds| && out == Zeros(i) + digits && LeadingZeros(ds) == i + LeadingZeros(ds[i..])
      decreases |ds| - i
    {
      assert ds[i..][1..] == ds[i + 1..];
      ZerosFront(i);
      assert [0] + (Zeros(i) + digits) == ([0] + Zeros(i)) + digits;
      out := [0] + out;
      i := i + 1;
    }
  }

  // The digit loop: least significant digit first, each put in front.
  method DigitsOf(n: nat, base: int) returns (digits: seq<int>)
    requires IsBase(base)
    ensures digits == Representation(n, base)
  {
    var num: nat := n;
    digits := [];
    assert Representation(n, base) + [] == Representation(n, base);
    while num > 0
      invariant Representation(num, base) + digits == Representation(n, base)
    {
      assert (Representation(num / base, base) + [num % base]) + digits == Representation(num / base, base) + ([num % base] + digits);
      digits := [num % base] + digits;
      num := num / base;
    }
    assert [] + digits == digits;
  }

  method Base58Encode(bytes: seq<Byte>) returns (result: string)
    ensures result == Encode(bytes)
  {
    EncodeIsSpellable(bytes);
    var num: int := 0;
    for i := 0 to |bytes|
      invariant num == Value(bytes[..i], 256)
    {
      ValueGrows(bytes, i, 256);
      num := num * 256 + bytes[i];
    }
    assert bytes[..|bytes|] == bytes;
    var digits := DigitsOf(num, 58);
    var padded := PrependZeros(bytes, digits);
    assert padded == Rebase(bytes, 256, 58);
    result := Spell(padded);
  }

  method Base58Decode(str: string) returns (bytes: Option<seq<Byte>>)
    ensures bytes == Decode(str)
  {
    var indices := Indices(str);
    var num := 0;
    for i := 0 to |str|
      invariant Encodable(str[..i]) && num == Value(indices[..i], 58)
    {
      var idx := IndexOf(str[i]);
      if idx < 0 { return None; }
      ValueGrows(indices, i, 58);
      num := num * 58 + idx;
    }
    assert indices[..|str|] == indices && Encodable(str);
    IndicesAreDigits(str);
    ValueNotNegative(indices, 58);
    var digits := DigitsOf(num, 256);
    var padded := PrependZeros(indices, digits);
    RebaseRoundTrip(indices, 58, 256);
    return Some(AsBytes(padded));
  }
}
