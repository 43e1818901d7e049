/** The two delimiter-based byte strings of determinism.py: what a signature covers, and the
    material a signing key is derived from. */
module Encodings {
  import opened Positional

  const FIELD_SEP: byte := 0x1f
  const COLON: byte := 58

  /** Bytes covered by a signature.  The tick is given by its printed form. */
  function SigningBytes(payload: seq<byte>, kid: seq<byte>, tickText: seq<byte>): seq<byte> {
    payload + [FIELD_SEP] + kid + [FIELD_SEP] + tickText
  }

  /** Decimal digits in ASCII, as printed by "%d". */
  function Decimal(n: nat): (text: seq<byte>)
    ensures COLON !in text
  {
    if n == 0 then [48] else
      var ds := Minimal(n, 10);
      seq(|ds|, i requires 0 <= i < |ds| => 48 + ds[i])
  }

  function DigitCount(n: nat): nat {
    if n < 10 then 1 else 1 + DigitCount(n / 10)
  }

  lemma {:induction false} DigitsCounted(n: nat)
    ensures |Decimal(n)| == DigitCount(n)
  {
    if n >= 10 {
      DigitsCounted(n / 10);
    } else if n > 0 {
      assert Minimal(n / 10, 10) == [];
    }
  }

  /** Decimals of a fraction, at least one and no more than there is room for. */
  function FractionDigits(f: real, room: nat): nat
    decreases room
  {
    var rest := f * 10.0 - (f * 10.0).Floor as real;
    if room == 0 || rest == 0.0 then 1 else 1 + FractionDigits(rest, room - 1)
  }

  predicate IsWhole(x: real) {
    x == x.Floor as real
  }

  /** A number with the point moved k places. */
  function Shifted(x: real, k: nat): real
    decreases k
  {
    if k == 0 then x else Shifted(x * 10.0, k - 1)
  }

  lemma {:induction false} WholePartsDoNotMatter(f: real, n: int, k: nat)
    ensures IsWhole(Shifted(f + n as real, k)) <==> IsWhole(Shifted(f, k))
    decreases k
  {
    if k == 0 {
      assert (f + n as real).Floor == f.Floor + n;
    } else {
      WholePartsDoNotMatter(f * 10.0, 10 * n, k - 1);
      assert (f + n as real) * 10.0 == f * 10.0 + (10 * n) as real;
    }
  }

  /** A fraction has the fewest decimals, but at least one, that leave nothing over, unless there is
      no room for them. */
  lemma {:induction false} DecimalsMean(f: real, room: nat, k: nat)
    requires 1 <= k <= FractionDigits(f, room) <= room
    ensures IsWhole(Shifted(f, k)) <==> k == FractionDigits(f, room)
    decreases room
  {
    var whole := (f * 10.0).Floor;
    var rest := f * 10.0 - whole as real;
    WholePartsDoNotMatter(rest, whole, k - 1);
    assert rest + whole as real == f * 10.0;
    if rest == 0.0 {
      assert k == 1;
    } else if k == 1 {
      assert 0.0 < rest < 1.0;
    } else {
      DecimalsMean(rest, room - 1, k - 1);
    }
  }

  /** Number of characters in which a tick is printed: an optional sign, the whole part, the point
      and the decimals. */
  function PrintedLength(t: real): nat {
    var size := if t < 0.0 then -t else t;
    (if t < 0.0 then 1 else 0) + DigitCount(size.Floor) + 1 + FractionDigits(size - size.Floor as real, 16)
  }

  /** "0.0", "5.0", "-12.25" and "1000.5". */
  lemma PrintedExamples()
    ensures PrintedLength(0.0) == 3 && PrintedLength(5.0) == 3
    ensures PrintedLength(-12.25) == 6 && PrintedLength(1000.5) == 6
  {
    assert DigitCount(1000) == 4;
    assert FractionDigits(0.0, 16) == 1 && FractionDigits(0.5, 16) == 1;
    assert FractionDigits(0.25, 16) == 2;
    assert (12.25).Floor == 12 && (1000.5).Floor == 1000;
  }

  /** Hashed to obtain the private key number `count` of an agent. */
  function KeyMaterial(seed: seq<byte>, agent: seq<byte>, count: nat): seq<byte> {
    seed + [COLON] + agent + [COLON] + Decimal(count)
  }

  function LastIndex(x: seq<byte>, sep: byte): (i: int)
    ensures -1 <= i < |x|
  {
    if x == [] then -1 else if x[|x| - 1] == sep then |x| - 1 else LastIndex(x[..|x| - 1], sep)
  }

  lemma {:induction false} LastIndexOfJoin(a: seq<byte>, b: seq<byte>, sep: byte)
    requires sep !in b
    ensures LastIndex(a + [sep] + b, sep) == |a|
  {
    var x := a + [sep] + b;
    if b != [] {
      LastIndexOfJoin(a, b[..|b| - 1], sep);
      assert x[..|x| - 1] == a + [sep] + b[..|b| - 1];
    }
  }

  /** The last separator can be found again when the field after it cannot contain it. */
  lemma LastField(a: seq<byte>, b: seq<byte>, c: seq<byte>, d: seq<byte>, sep: byte)
    requires sep !in b && sep !in d
    requires a + [sep] + b == c + [sep] + d
    ensures a == c && b == d
  {
    LastIndexOfJoin(a, b, sep);
    LastIndexOfJoin(c, d, sep);
    var x, y := a + [sep] + b, c + [sep] + d;
    assert a == x[..|a|] && c == y[..|c|];
    assert b == x[|a| + 1..] && d == y[|c| + 1..];
  }

  /** Payloads are arbitrary: a separator inside the payload moves nothing across a field. */
  lemma SigningBytesInjective(p1: seq<byte>, k1: seq<byte>, t1: seq<byte>, p2: seq<byte>, k2: seq<byte>, t2: seq<byte>)
    requires FIELD_SEP !in k1 && FIELD_SEP !in t1 && FIELD_SEP !in k2 && FIELD_SEP !in t2
    ensures SigningBytes(p1, k1, t1) == SigningBytes(p2, k2, t2) <==> p1 == p2 && k1 == k2 && t1 == t2
  {
    if SigningBytes(p1, k1, t1) == SigningBytes(p2, k2, t2) {
      LastField(p1 + [FIELD_SEP] + k1, t1, p2 + [FIELD_SEP] + k2, t2, FIELD_SEP);
      LastField(p1, k1, p2, k2, FIELD_SEP);
    }
  }

  /** The three fields stand between the last two separators, bytes 0x1f, in this order. */
  lemma SigningBytesSplit(payload: seq<byte>, kid: seq<byte>, tickText: seq<byte>)
    requires 0x1f !in kid && 0x1f !in tickText
    ensures var bytes := SigningBytes(payload, kid, tickText);
      var i := LastIndex(bytes, 0x1f);
      i >= 0 && bytes[i + 1..] == tickText &&
      var j := LastIndex(bytes[..i], 0x1f);
      j >= 0 && bytes[..j] == payload && bytes[j + 1..i] == kid
  {
    var bytes := SigningBytes(payload, kid, tickText);
    LastIndexOfJoin(payload + [FIELD_SEP] + kid, tickText, FIELD_SEP);
    assert bytes[..LastIndex(bytes, 0x1f)] == payload + [FIELD_SEP] + kid;
    LastIndexOfJoin(payload, kid, FIELD_SEP);
  }

  function FromDecimal(text: seq<byte>): nat {
    Value(seq(|text|, i requires 0 <= i < |text| => if text[i] < 48 then 0 else text[i] - 48), 10)
  }

  /** The text is ASCII digits without a leading zero and denotes the number. */
  lemma DecimalRoundTrip(n: nat)
    ensures FromDecimal(Decimal(n)) == n
    ensures Decimal(n) != [] && (forall c <- Decimal(n) :: 48 <= c <= 57) && (n > 0 ==> Decimal(n)[0] != 48)
  {
    var text, ds := Decimal(n), Minimal(n, 10);
    var back := seq(|text|, i requires 0 <= i < |text| => if text[i] < 48 then 0 else text[i] - 48);
    if n == 0 {
      assert back == Zeros(1) + [];
      ValueIgnoresZeros(1, [], 10);
    } else {
      assert back == ds;
      ValueOfMinimal(n, 10);
    }
  }

  /** The count stands after the last colon; before it seed and agent, joined by a colon. */
  lemma KeyMaterialSplit(seed: seq<byte>, agent: seq<byte>, count: nat)
    ensures var bytes := KeyMaterial(seed, agent, count);
      var i := LastIndex(bytes, 58);
      && i == |seed| + 1 + |agent| && FromDecimal(bytes[i + 1..]) == count
      && bytes[..|seed|] == seed && bytes[|seed|] == 58 && bytes[|seed| + 1..i] == agent
  {
    LastIndexOfJoin(seed + [COLON] + agent, Decimal(count), COLON);
    DecimalRoundTrip(count);
    assert KeyMaterial(seed, agent, count)[|seed| + 1 + |agent| + 1..] == Decimal(count);
  }

  /** Exactly which inputs share a derived key: the rotation counts agree and the seed and
      agent id join to the same text.  Equal seeds, or seeds of equal length, therefore
      separate agents and rotation counts, whatever the agent ids contain. */
  lemma KeyMaterialCollisions(s1: seq<byte>, a1: seq<byte>, n1: nat, s2: seq<byte>, a2: seq<byte>, n2: nat)
    ensures KeyMaterial(s1, a1, n1) == KeyMaterial(s2, a2, n2)
       <==> n1 == n2 && s1 + [COLON] + a1 == s2 + [COLON] + a2
    ensures |s1| == |s2| ==>
      (KeyMaterial(s1, a1, n1) == KeyMaterial(s2, a2, n2) <==> s1 == s2 && a1 == a2 && n1 == n2)
  {
    if KeyMaterial(s1, a1, n1) == KeyMaterial(s2, a2, n2) {
      LastField(s1 + [COLON] + a1, Decimal(n1), s2 + [COLON] + a2, Decimal(n2), COLON);
      DecimalRoundTrip(n1);
      DecimalRoundTrip(n2);
    }
    var x, y := s1 + [COLON] + a1, s2 + [COLON] + a2;
    if x == y && |s1| == |s2| {
      assert s1 == x[..|s1|] && s2 == y[..|s2|];
      assert a1 == x[|s1| + 1..] && a2 == y[|s2| + 1..];
    }
  }
}
