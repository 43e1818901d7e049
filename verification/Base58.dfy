/** Base58btc (draft-msporny-base58, sections 3 and 4) and the did:key encoding of an
    Ed25519 public key (did:key Method, "The did:key Format"). */
module Base58 {
  import opened Wrappers
  import opened Positional

  const ALPHABET := "123456789" + "ABCDEFGHJKLMNPQRSTUVWXYZ" + "abcdefghijkmnopqrstuvwxyz"
  const MULTICODEC: seq<byte> := [0xed, 0x01]
  const PREFIX := "did:key:z"

  datatype DidError = NotADidKey | NotBase58 | NotEd25519

  // ---- Python built-ins used by the codec ----

  /** Position of a character in a string, or -1. */
  function IndexOf(s: string, c: char): (i: int)
    ensures -1 <= i < |s|
    ensures i >= 0 ==> s[i] == c
    ensures i < 0 ==> c !in s
  {
    if s == [] then -1
    else if s[0] == c then 0
    else var i := IndexOf(s[1..], c); if i < 0 then -1 else i + 1
  }

  function Reversed<T>(s: seq<T>): (r: seq<T>)
    ensures |r| == |s|
  {
    if s == [] then [] else Reversed(s[1..]) + [s[0]]
  }

  function BitLength(n: nat): nat {
    if n == 0 then 0 else 1 + BitLength(n / 2)
  }

  /** The big-endian byte string of a given length; the caller chooses a length that fits. */
  function ToBytes(n: nat, length: nat): (bytes: seq<byte>)
    ensures |bytes| == length
  {
    if length == 0 then [] else ToBytes(n / 256, length - 1) + [n % 256]
  }

  /** The expression the decoder uses for the bytes of a number. */
  function MinimalToBytes(n: nat): seq<byte> {
    if n > 0 then ToBytes(n, (BitLength(n) + 7) / 8) else []
  }

  function ZeroBytes(k: nat): seq<byte> {
    Zeros(k)
  }

  /** Length of the run of a given character a string starts with. */
  function LeadingChars(s: string, c: char): (k: nat)
    ensures k <= |s|
  {
    if s == [] || s[0] != c then 0 else 1 + LeadingChars(s[1..], c)
  }

  function Pow(base: nat, k: nat): nat {
    if k == 0 then 1 else base * Pow(base, k - 1)
  }

  // ---- specification ----

  function Letters(ds: seq<nat>): (s: string)
    requires AreDigits(ds, 58)
    ensures |s| == |ds|
  {
    seq(|ds|, i requires 0 <= i < |ds| => ALPHABET[ds[i]])
  }

  predicate IsBase58(text: string) {
    forall i :: 0 <= i < |text| ==> text[i] in ALPHABET
  }

  function Indices(text: string): (ds: seq<nat>)
    requires IsBase58(text)
    ensures |ds| == |text| && AreDigits(ds, 58)
  {
    seq(|text|, i requires 0 <= i < |text| => IndexIn(text[i]))
  }

  function IndexIn(c: char): (d: nat)
    requires c in ALPHABET
    ensures d < 58 && ALPHABET[d] == c
  {
    IndexOf(ALPHABET, c)
  }

  function Encode(data: seq<byte>): string {
    RecodeInverse(data, 256, 58);
    Letters(Recode(data, 256, 58))
  }

  function Decode(text: string): Result<seq<byte>, DidError> {
    if IsBase58(text) then
      RecodeInverse(Indices(text), 58, 256);
      Ok(Recode(Indices(text), 58, 256))
    else Err(NotBase58)
  }

  // ---- the two coders ----

  method EncodeBase58(data: seq<byte>) returns (text: string)
    ensures text == Encode(data)
  {
    var n := Value(data, 256);
    var chars: string := [];
    while n > 0
      invariant Letters(Minimal(Value(data, 256), 58)) == Letters(Minimal(n, 58)) + Reversed(chars)
    {
      EncodeStep(n, chars);
      var rem := n % 58;
      n := n / 58;
      chars := chars + [ALPHABET[rem]];
    }
    var pad := Leading(data);
    text := seq(pad, _ => ALPHABET[0]) + Reversed(chars);
    EncodePads(data);
  }

  method DecodeBase58(text: string) returns (r: Result<seq<byte>, DidError>)
    ensures r == Decode(text)
  {
    var n := 0;
    for k := 0 to |text|
      invariant IsBase58(text[..k])
      invariant n == Value(Indices(text[..k]), 58)
    {
      var idx := IndexOf(ALPHABET, text[k]);
      if idx == -1 {
        DecodeFails(text, k);
        return Err(NotBase58);
      }
      DecodeStep(text, k);
      n := n * 58 + idx;
    }
    assert text[..|text|] == text;
    var body := MinimalToBytes(n);
    var pad := LeadingChars(text, ALPHABET[0]);
    DecodePads(text, n);
    r := Ok(ZeroBytes(pad) + body);
  }

  lemma EncodeStep(n: nat, chars: string)
    requires 0 < n
    ensures Letters(Minimal(n, 58)) + Reversed(chars)
         == Letters(Minimal(n / 58, 58)) + Reversed(chars + [ALPHABET[n % 58]])
  {
    ReversedSnoc(chars, ALPHABET[n % 58]);
    DivisionShrinks(n, 58);
    LettersSnoc(Minimal(n / 58, 58), n % 58);
  }

  lemma EncodePads(data: seq<byte>)
    ensures Encode(data) == seq(Leading(data), _ => ALPHABET[0]) + Letters(Minimal(Value(data, 256), 58))
  {
    RecodeInverse(data, 256, 58);
  }

  lemma DecodeFails(text: string, k: nat)
    requires k < |text| && text[k] !in ALPHABET
    ensures Decode(text) == Err(NotBase58)
  {
  }

  lemma DecodeStep(text: string, k: nat)
    requires k < |text| && IsBase58(text[..k]) && text[k] in ALPHABET
    ensures IsBase58(text[..k + 1])
    ensures Value(Indices(text[..k + 1]), 58) == Value(Indices(text[..k]), 58) * 58 + IndexIn(text[k])
  {
    assert text[..k + 1] == text[..k] + [text[k]];
    IndicesSnoc(text[..k], text[k]);
    var ds, d := Indices(text[..k]), IndexIn(text[k]);
    assert (ds + [d])[..|ds|] == ds;
  }

  lemma IndicesSnoc(text: string, c: char)
    requires IsBase58(text) && c in ALPHABET
    ensures IsBase58(text + [c]) && Indices(text + [c]) == Indices(text) + [IndexIn(c)]
  {
  }

  lemma DecodePads(text: string, n: nat)
    requires IsBase58(text) && n == Value(Indices(text), 58)
    ensures Decode(text) == Ok(ZeroBytes(LeadingChars(text, ALPHABET[0])) + MinimalToBytes(n))
  {
    LeadingOnes(text);
    DecodeForm(text);
    BodyBytes(n);
  }

  lemma BodyBytes(n: nat)
    ensures MinimalToBytes(n) == Minimal(n, 256)
  {
    MinimalBytes(n);
  }

  lemma DecodeForm(text: string)
    requires IsBase58(text)
    ensures Decode(text) == Ok(ZeroBytes(Leading(Indices(text))) + Minimal(Value(Indices(text), 58), 256))
  {
  }

  lemma LettersSnoc(ds: seq<nat>, d: nat)
    requires AreDigits(ds, 58) && d < 58
    ensures Letters(ds + [d]) == Letters(ds) + [ALPHABET[d]]
  {
  }

  lemma {:induction false} ReversedSnoc<T>(s: seq<T>, x: T)
    ensures Reversed(s + [x]) == [x] + Reversed(s)
  {
    if s != [] {
      ReversedSnoc(s[1..], x);
      assert (s + [x])[1..] == s[1..] + [x];
    }
  }

  lemma {:induction false} BitLengthBounded(n: nat, k: nat)
    requires n < Pow(2, k)
    ensures BitLength(n) <= k
  {
    if n != 0 {
      BitLengthBounded(n / 2, k - 1);
    }
  }

  lemma BitLengthQuarter(n: nat)
    requires 4 <= n
    ensures BitLength(n) == 2 + BitLength(n / 4)
  {
    var m := n / 2;
    assert m / 2 == n / 4;
    assert BitLength(m) == 1 + BitLength(m / 2);
  }

  lemma BitLengthOfBytes(n: nat)
    requires 256 <= n
    ensures BitLength(n) == 8 + BitLength(n / 256)
  {
    BitLengthQuarter(n);
    BitLengthQuarter(n / 4);
    BitLengthQuarter(n / 4 / 4);
    BitLengthQuarter(n / 4 / 4 / 4);
    assert n / 4 / 4 / 4 / 4 == n / 256;
  }

  /** (bit_length + 7) / 8 is exactly the number of bytes needed. */
  lemma {:induction false} MinimalBytes(n: nat)
    ensures ToBytes(n, (BitLength(n) + 7) / 8) == Minimal(n, 256)
  {
    if 0 < n < 256 {
      BitLengthBounded(n, 8);
      assert Minimal(n / 256, 256) == [];
      assert ToBytes(n / 256, 0) == [];
    } else if 256 <= n {
      BitLengthOfBytes(n);
      MinimalBytes(n / 256);
    }
  }

  // ---- the alphabet is a bijection with 0..57 ----

  ghost predicate Ascending(s: string) {
    forall i :: 0 < i < |s| ==> s[i - 1] < s[i]
  }

  lemma AscendingJoin(a: string, b: string)
    requires Ascending(a) && Ascending(b) && a != [] && b != [] && a[|a| - 1] < b[0]
    ensures Ascending(a + b)
  {
  }

  lemma Segments()
    ensures Ascending("123456789") && Ascending("ABCDEFGHJKLMNPQRSTUVWXYZ") && Ascending("abcdefghijkmnopqrstuvwxyz")
  {
  }

  lemma AlphabetAscends()
    ensures |ALPHABET| == 58 && Ascending(ALPHABET)
  {
    Segments();
    AscendingJoin("123456789", "ABCDEFGHJKLMNPQRSTUVWXYZ");
    AscendingJoin("123456789" + "ABCDEFGHJKLMNPQRSTUVWXYZ", "abcdefghijkmnopqrstuvwxyz");
  }

  predicate AsciiAlphanumeric(c: char) {
    '0' <= c <= '9' || 'A' <= c <= 'Z' || 'a' <= c <= 'z'
  }

  ghost predicate Consecutive(s: string) {
    s != [] && forall i :: 0 <= i < |s| ==> s[i] as int == s[0] as int + i
  }

  lemma ConsecutiveMembers(s: string, c: char)
    requires Consecutive(s)
    ensures c in s <==> s[0] <= c <= s[|s| - 1]
  {
    if s[0] <= c <= s[|s| - 1] {
      assert s[c as int - s[0] as int] == c;
    }
  }

  lemma UpperLetters(c: char)
    ensures c in "ABCDEFGHJKLMNPQRSTUVWXYZ" <==> 'A' <= c <= 'Z' && c != 'I' && c != 'O'
  {
    assert "ABCDEFGHJKLMNPQRSTUVWXYZ" == "ABCDEFGH" + "JKLMN" + "PQRSTUVWXYZ";
    ConsecutiveMembers("ABCDEFGH", c);
    ConsecutiveMembers("JKLMN", c);
    ConsecutiveMembers("PQRSTUVWXYZ", c);
  }

  lemma LowerLetters(c: char)
    ensures c in "abcdefghijkmnopqrstuvwxyz" <==> 'a' <= c <= 'z' && c != 'l'
  {
    assert "abcdefghijkmnopqrstuvwxyz" == "abcdefghijk" + "mnopqrstuvwxyz";
    ConsecutiveMembers("abcdefghijk", c);
    ConsecutiveMembers("mnopqrstuvwxyz", c);
  }

  /** The alphabet is all ASCII digits and letters but 0, O, I and l, in ascending order. */
  lemma AlphabetLetters(c: char)
    ensures c in ALPHABET <==> AsciiAlphanumeric(c) && c !in "0OIl"
    ensures |ALPHABET| == 58 && Ascending(ALPHABET)
  {
    AlphabetAscends();
    ConsecutiveMembers("123456789", c);
    UpperLetters(c);
    LowerLetters(c);
  }

  lemma AscendingPair(s: string, i: nat, j: nat)
    requires Ascending(s) && i < j < |s|
    ensures s[i] < s[j]
    decreases j - i
  {
    if i + 1 < j {
      AscendingPair(s, i, j - 1);
    }
  }

  lemma IndexOfLetter(d: nat)
    requires d < 58
    ensures IndexIn(ALPHABET[d]) == d
  {
    var e := IndexIn(ALPHABET[d]);
    AlphabetAscends();
    if e < d {
      AscendingPair(ALPHABET, e, d);
    } else if d < e {
      AscendingPair(ALPHABET, d, e);
    }
  }

  lemma IndicesOfLetters(ds: seq<nat>)
    requires AreDigits(ds, 58)
    ensures IsBase58(Letters(ds)) && Indices(Letters(ds)) == ds
  {
    forall i | 0 <= i < |ds| ensures Indices(Letters(ds))[i] == ds[i] {
      IndexOfLetter(ds[i]);
    }
  }

  lemma LettersOfIndices(text: string)
    requires IsBase58(text)
    ensures Letters(Indices(text)) == text
  {
  }

  lemma {:induction false} LeadingOnes(text: string)
    requires IsBase58(text)
    ensures LeadingChars(text, ALPHABET[0]) == Leading(Indices(text))
  {
    if text != [] {
      IndexOfLetter(0);
      LeadingOnes(text[1..]);
      assert Indices(text)[1..] == Indices(text[1..]);
    }
  }

  // ---- main results ----

  /** Decoding an encoding returns the bytes: any length, any number of leading zero bytes. */
  lemma DecodeEncode(data: seq<byte>)
    ensures Decode(Encode(data)) == Ok(data)
  {
    RecodeInverse(data, 256, 58);
    IndicesOfLetters(Recode(data, 256, 58));
  }

  /** Encoding a decoding returns the text, and exactly the strings over the alphabet decode. */
  lemma EncodeDecode(text: string)
    ensures Decode(text).Ok? <==> IsBase58(text)
    ensures Decode(text).Ok? ==> Encode(Decode(text).value) == text
  {
    if IsBase58(text) {
      RecodeInverse(Indices(text), 58, 256);
      LettersOfIndices(text);
    }
  }

  /** An encoding is written in ASCII digits and letters without 0, O, I and l, and denotes in
      base 58 the number the bytes denote in base 256; each leading zero byte is a leading 1. */
  lemma EncodeMeans(data: seq<byte>)
    ensures var text := Encode(data);
      && (forall c <- text :: AsciiAlphanumeric(c) && c !in "0OIl")
      && IsBase58(text) && Value(Indices(text), 58) == Value(data, 256)
      && LeadingChars(text, '1') == Leading(data)
  {
    var ds := Recode(data, 256, 58);
    RecodeInverse(data, 256, 58);
    IndicesOfLetters(ds);
    forall c | c in Encode(data) ensures AsciiAlphanumeric(c) && c !in "0OIl" {
      AlphabetLetters(c);
    }
    LeadingOnes(Encode(data));
    RecodeKeeps(data, 256, 58);
  }

  /** k zero bytes, and nothing else, encode as k times the letter 1. */
  lemma ZerosAreOnes(k: nat)
    ensures Encode(ZeroBytes(k)) == seq(k, _ => '1')
    ensures Decode(seq(k, _ => '1')) == Ok(ZeroBytes(k))
  {
    ValueIgnoresZeros(k, [], 256);
    LeadingOfPadded(k, []);
    assert ZeroBytes(k) + [] == ZeroBytes(k);
    DecodeEncode(ZeroBytes(k));
  }

  /** A text is refused exactly when it holds a character that is no ASCII digit or letter, or one
      of 0, O, I and l. */
  lemma DecodeRefuses(text: string)
    ensures Decode(text).Err? <==> exists c <- text :: !AsciiAlphanumeric(c) || c in "0OIl"
  {
    forall c | c in text ensures c in ALPHABET <==> AsciiAlphanumeric(c) && c !in "0OIl" {
      AlphabetLetters(c);
    }
  }

  /** A test vector of the draft. */
  lemma EncodeExample()
    ensures Encode([0x00, 0x00, 0x28, 0x7f, 0xb4, 0xcd]) == "11233QC4"
  {
    ExampleValue();
    ExampleDigits();
    ExampleLetters();
    EncodePads([0x00, 0x00, 0x28, 0x7f, 0xb4, 0xcd]);
    LeadingOfPadded(2, [0x28, 0x7f, 0xb4, 0xcd]);
    assert Zeros(2) + [0x28, 0x7f, 0xb4, 0xcd] == [0x00, 0x00, 0x28, 0x7f, 0xb4, 0xcd];
    assert seq(2, _ => ALPHABET[0]) == "11";
  }

  lemma ExampleLetters()
    ensures Letters([1, 2, 2, 23, 11, 3]) == "233QC4"
  {
  }

  lemma ValueSnoc(ds: seq<nat>, d: nat, base: nat)
    ensures Value(ds + [d], base) == Value(ds, base) * base + d
  {
    assert (ds + [d])[..|ds|] == ds;
  }

  lemma ExampleValue()
    ensures Value([0x00, 0x00, 0x28, 0x7f, 0xb4, 0xcd], 256) == 679457997
  {
    ValueIgnoresZeros(2, [0x28, 0x7f, 0xb4, 0xcd], 256);
    assert Zeros(2) + [0x28, 0x7f, 0xb4, 0xcd] == [0x00, 0x00, 0x28, 0x7f, 0xb4, 0xcd];
    ValueSnoc([], 0x28, 256);
    ValueSnoc([0x28], 0x7f, 256);
    ValueSnoc([0x28, 0x7f], 0xb4, 256);
    ValueSnoc([0x28, 0x7f, 0xb4], 0xcd, 256);
    assert [] + [0x28] == [0x28] && [0x28] + [0x7f] == [0x28, 0x7f];
    assert [0x28, 0x7f] + [0xb4] == [0x28, 0x7f, 0xb4];
    assert [0x28, 0x7f, 0xb4] + [0xcd] == [0x28, 0x7f, 0xb4, 0xcd];
    assert Value([0x28, 0x7f], 256) == 0x287f;
  }

  lemma ExampleDigits()
    ensures Minimal(679457997, 58) == [1, 2, 2, 23, 11, 3]
  {
    assert Minimal(1, 58) == [1];
    assert Minimal(60, 58) == [1, 2];
    assert Minimal(3482, 58) == [1, 2, 2];
    assert Minimal(201979, 58) == [1, 2, 2, 23];
    assert Minimal(11714793, 58) == [1, 2, 2, 23, 11];
  }

  // ---- did:key ----

  function DidKey(pub: seq<byte>): string {
    PREFIX + Encode(MULTICODEC + pub)
  }

  function PublicKeyFromDid(did: string): Result<seq<byte>, DidError> {
    if !(PREFIX <= did) then Err(NotADidKey) else
      match Decode(did[|PREFIX|..])
      case Err(e) => Err(e)
      case Ok(decoded) =>
        if !(MULTICODEC <= decoded) then Err(NotEd25519) else Ok(decoded[|MULTICODEC|..])
  }

  /** did:key strings and public keys are in bijection: a key is recovered from its string,
      and a string that is accepted at all is the string of the key it yields. */
  lemma DidKeyBijection(pub: seq<byte>, did: string)
    ensures PublicKeyFromDid(DidKey(pub)) == Ok(pub)
    ensures PublicKeyFromDid(did) == Ok(pub) <==> did == DidKey(pub)
  {
    DecodeEncode(MULTICODEC + pub);
    assert DidKey(pub)[|PREFIX|..] == Encode(MULTICODEC + pub);
    assert (MULTICODEC + pub)[|MULTICODEC|..] == pub;
    if PublicKeyFromDid(did) == Ok(pub) {
      EncodeDecode(did[|PREFIX|..]);
      assert did == PREFIX + did[|PREFIX|..];
      var decoded := Decode(did[|PREFIX|..]).value;
      assert decoded == MULTICODEC + pub;
    }
  }

  /** What stands after the prefix denotes the bytes 0xed 0x01 and the key, and what is refused,
      in the order of the checks. */
  lemma DidKeyMeans(pub: seq<byte>, did: string)
    ensures "did:key:z" <= DidKey(pub) && Decode(DidKey(pub)[9..]) == Ok([0xed, 0x01] + pub)
    ensures PublicKeyFromDid(did) == Err(NotADidKey) <==> !("did:key:z" <= did)
    ensures PublicKeyFromDid(did) == Err(NotBase58) <==>
      "did:key:z" <= did && exists c <- did[9..] :: !AsciiAlphanumeric(c) || c in "0OIl"
    ensures PublicKeyFromDid(did) == Err(NotEd25519) <==>
      && "did:key:z" <= did
      && (forall c <- did[9..] :: AsciiAlphanumeric(c) && c !in "0OIl")
      && !([0xed, 0x01] <= Decode(did[9..]).value)
  {
    DecodeEncode(MULTICODEC + pub);
    assert DidKey(pub)[9..] == Encode(MULTICODEC + pub);
    if "did:key:z" <= did {
      DecodeRefuses(did[9..]);
    }
  }

  lemma {:induction false} PowSum(base: nat, j: nat, k: nat)
    ensures Pow(base, j + k) == Pow(base, j) * Pow(base, k)
  {
    if j != 0 {
      PowSum(base, j - 1, k);
      var p, q := Pow(base, j - 1), Pow(base, k);
      assert base * (p * q) == base * p * q;
    }
  }

  lemma DigitFits(v: nat, p: nat, base: nat, d: nat)
    requires v < p && d < base
    ensures v * base + d < base * p
  {
    TimesMonotone(v + 1, p, base);
  }

  lemma {:induction false} ValueBound(ds: seq<nat>, base: nat)
    requires AreDigits(ds, base)
    ensures Value(ds, base) < Pow(base, |ds|)
  {
    if ds != [] {
      var init, d := ds[..|ds| - 1], ds[|ds| - 1];
      ValueBound(init, base);
      DigitFits(Value(init, base), Pow(base, |init|), base, d);
    }
  }

  lemma ShiftDigits(x: nat, p: nat, y: nat, base: nat, d: nat)
    ensures (x * p + y) * base + d == x * (base * p) + (y * base + d)
  {
    assert (x * p) * base == x * (base * p);
  }

  lemma {:induction false} ValueOfConcat(a: seq<nat>, b: seq<nat>, base: nat)
    ensures Value(a + b, base) == Value(a, base) * Pow(base, |b|) + Value(b, base)
  {
    if b == [] {
      assert a + b == a;
    } else {
      var b', d := b[..|b| - 1], b[|b| - 1];
      ValueOfConcat(a, b', base);
      assert (a + b)[..|a + b| - 1] == a + b';
      ShiftDigits(Value(a, base), Pow(base, |b'|), Value(b', base), base, d);
    }
  }

  /** The number left when the last k base-58 digits are dropped. */
  function Drop(n: nat, k: nat): nat {
    if k == 0 then n else Drop(n / 58, k - 1)
  }

  lemma BlockShrinks(n: nat, h: nat, p: nat)
    requires h * (58 * p) <= n < (h + 1) * (58 * p)
    ensures h * p <= n / 58 < (h + 1) * p
  {
    ShiftDigits(h, p, 0, 58, 0);
    ShiftDigits(h + 1, p, 0, 58, 0);
  }

  lemma {:induction false} DropOfBlock(n: nat, h: nat, k: nat)
    requires h * Pow(58, k) <= n < (h + 1) * Pow(58, k)
    ensures Drop(n, k) == h
  {
    if k != 0 {
      BlockShrinks(n, h, Pow(58, k - 1));
      DropOfBlock(n / 58, h, k - 1);
    }
  }

  /** A number starts with the digits of what is left of it. */
  lemma {:induction false} DigitBlock(n: nat, k: nat)
    requires Drop(n, k) != 0
    ensures |Minimal(n, 58)| == |Minimal(Drop(n, k), 58)| + k
    ensures Minimal(Drop(n, k), 58) <= Minimal(n, 58)
  {
    if k != 0 {
      DropOfZero(k);
      DigitBlock(n / 58, k - 1);
    }
  }

  lemma {:induction false} DropOfZero(k: nat)
    ensures Drop(0, k) == 0
  {
    if k != 0 {
      DropOfZero(k - 1);
    }
  }

  lemma BlockBounds()
    ensures 18023 * Pow(58, 44) <= 0xed01 * Pow(256, 32)
    ensures 0xed02 * Pow(256, 32) <= 18024 * Pow(58, 44)
  {
    var p, q := 430804206899405824, 0x1_0000_0000_0000_0000;
    Powers58(p);
    Powers256(q);
    assert 18023 * (p * p * p * p * 11316496) <= 0xed01 * (q * q * q * q);
    assert 0xed02 * (q * q * q * q) <= 18024 * (p * p * p * p * 11316496);
  }

  lemma Powers58(p: nat)
    requires p == 430804206899405824
    ensures Pow(58, 44) == p * p * p * p * 11316496
  {
    assert Pow(58, 10) == p;
    PowSum(58, 10, 10);
    PowSum(58, 20, 20);
    PowSum(58, 40, 4);
    assert Pow(58, 4) == 11316496;
  }

  lemma Powers256(q: nat)
    requires q == 0x1_0000_0000_0000_0000
    ensures Pow(256, 32) == q * q * q * q
  {
    assert Pow(256, 8) == q;
    PowSum(256, 8, 8);
    PowSum(256, 16, 16);
  }

  /** The did:key of a 32-byte Ed25519 key always reads did:key:z6Mk... and always has 47
      base-58 characters. */
  lemma DidKeyShape(pub: seq<byte>)
    requires |pub| == 32
    ensures "did:key:z6Mk" <= DidKey(pub)
    ensures |DidKey(pub)| == |"did:key:z"| + 47
  {
    var data := MULTICODEC + pub;
    EncodePads(data);
    KeyDigits(pub);
    SixMk();
    var ds := Minimal(Value(data, 256), 58);
    assert Leading(data) == 0;
    assert Encode(data) == Letters(ds);
    assert ds[0] == 5 && ds[1] == 20 && ds[2] == 43;
    StartsSixMk(DidKey(pub), Letters(ds));
  }

  lemma StartsSixMk(did: string, text: string)
    requires did == PREFIX + text && |text| >= 3 && text[0] == '6' && text[1] == 'M' && text[2] == 'k'
    ensures "did:key:z6Mk" <= did
  {
  }

  lemma KeyDigits(pub: seq<byte>)
    requires |pub| == 32
    ensures var ds := Minimal(Value(MULTICODEC + pub, 256), 58); |ds| == 47 && [5, 20, 43] <= ds
  {
    var n := Value(MULTICODEC + pub, 256);
    KeyRange(pub);
    BlockBounds();
    DropOfBlock(n, 18023, 44);
    DigitBlock(n, 44);
    Digits18023();
  }

  lemma KeyRange(pub: seq<byte>)
    requires |pub| == 32
    ensures 0xed01 * Pow(256, 32) <= Value(MULTICODEC + pub, 256) < 0xed02 * Pow(256, 32)
  {
    ValueOfConcat(MULTICODEC, pub, 256);
    ValueBound(pub, 256);
    assert MULTICODEC[..1] == [0xed] && [0xed][..0] == [];
    assert Value([0xed], 256) == 0xed;
    assert Value(MULTICODEC, 256) == 0xed01;
  }

  lemma Digits18023()
    ensures Minimal(18023, 58) == [5, 20, 43]
  {
    assert Minimal(5, 58) == [5];
    assert Minimal(310, 58) == [5, 20];
  }

  lemma SixMk()
    ensures ALPHABET[5] == '6' && ALPHABET[20] == 'M' && ALPHABET[43] == 'k'
  {
  }
}
