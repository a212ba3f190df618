/** The canonical base64 form of section 4 of RFC 4648, as one direction and its strict inverse. */
module Base64 {
  import opened Basics
  import opened Octets

  const PAD: Byte := 61

  /** The sign for a six-bit value. */
  function Sign(v: int): (c: Byte)
    requires 0 <= v < 64
    ensures c != PAD && c != 10 && c != 13
    ensures v < 26 ==> c as int == 'A' as int + v
    ensures 26 <= v < 52 ==> c as int == 'a' as int + v - 26
    ensures 52 <= v < 62 ==> c as int == '0' as int + v - 52
    ensures (v == 62 ==> c as int == '+' as int) && (v == 63 ==> c as int == '/' as int)
  {
    if v < 26 then (65 + v) as Byte
    else if v < 52 then (97 + v - 26) as Byte
    else if v < 62 then (48 + v - 52) as Byte
    else if v == 62 then 43 else 47
  }

  function Value(c: Byte): (v: int)
    ensures -1 <= v < 64
    ensures v >= 0 ==> Sign(v) == c
  {
    var n := c as int;
    if 65 <= n < 91 then n - 65
    else if 97 <= n < 123 then n - 97 + 26
    else if 48 <= n < 58 then n - 48 + 52
    else if n == 43 then 62
    else if n == 47 then 63 else -1
  }

  lemma SignValue(v: int)
    requires 0 <= v < 64
    ensures Value(Sign(v)) == v
  {
  }

  /** Twenty-four bits as three bytes, and as four six-bit values. */
  datatype Triple = Triple(x: Byte, y: Byte, z: Byte)
  datatype Quad = Quad(p: int, q: int, r: int, t: int)

  ghost predicate SixBits(k: Quad) {
    0 <= k.p < 64 && 0 <= k.q < 64 && 0 <= k.r < 64 && 0 <= k.t < 64
  }

  function Split(b: Triple): (k: Quad)
    ensures SixBits(k)
    ensures (b.x as int * 256 + b.y as int) * 256 + b.z as int == ((k.p * 64 + k.q) * 64 + k.r) * 64 + k.t
  {
    var x, y, z := b.x as int, b.y as int, b.z as int;
    Quad(x / 4, x % 4 * 16 + y / 16, y % 16 * 4 + z / 64, z % 64)
  }

  function Join(k: Quad): Triple
    requires SixBits(k)
  {
    Triple((k.p * 4 + k.q / 16) as Byte, (k.q % 16 * 16 + k.r / 4) as Byte, (k.r % 4 * 64 + k.t) as Byte)
  }

  lemma JoinSplit(b: Triple)
    ensures Join(Split(b)) == b
    ensures b.z == 0 ==> Split(b).t == 0
    ensures b.y == 0 && b.z == 0 ==> Split(b).r == 0
  {
    var x, y, z := b.x as int, b.y as int, b.z as int;
    assert x / 4 * 4 + (x % 4 * 16 + y / 16) / 16 == x;
    assert (x % 4 * 16 + y / 16) % 16 * 16 + (y % 16 * 4 + z / 64) / 4 == y;
    assert (y % 16 * 4 + z / 64) % 4 * 64 + z % 64 == z;
  }

  /** Three bytes as four signs; a shorter last group is padded. */
  function Encode(b: Bytes): (s: Bytes)
    ensures |s| == (|b| + 2) / 3 * 4
  {
    if b == [] then []
    else if |b| == 1 then var k := Split(Triple(b[0], 0, 0)); [Sign(k.p), Sign(k.q), PAD, PAD]
    else if |b| == 2 then var k := Split(Triple(b[0], b[1], 0)); [Sign(k.p), Sign(k.q), Sign(k.r), PAD]
    else var k := Split(Triple(b[0], b[1], b[2])); [Sign(k.p), Sign(k.q), Sign(k.r), Sign(k.t)] + Encode(b[3..])
  }

  /** The strict decoder: four signs at a time, padding only at the very end, unused bits zero. */
  function Decode(s: Bytes): Option<Bytes> {
    if s == [] then Some([])
    else if |s| < 4 || Value(s[0]) < 0 || Value(s[1]) < 0 then None
    else if s[2] == PAD then
      var b := Join(Quad(Value(s[0]), Value(s[1]), 0, 0));
      if s[3] == PAD && |s| == 4 && b.y == 0 then Some([b.x]) else None
    else if Value(s[2]) < 0 then None
    else if s[3] == PAD then
      var b := Join(Quad(Value(s[0]), Value(s[1]), Value(s[2]), 0));
      if |s| == 4 && b.z == 0 then Some([b.x, b.y]) else None
    else if Value(s[3]) < 0 then None
    else
      var b := Join(Quad(Value(s[0]), Value(s[1]), Value(s[2]), Value(s[3])));
      var rest := Decode(s[4..]);
      if rest.None? then None else Some([b.x, b.y, b.z] + rest.value)
  }

  /** Go's decoder skips line breaks; only the comparison with the canonical form rejects them. */
  function Unbroken(s: Bytes): Bytes {
    if s == [] then [] else (if s[0] == 10 || s[0] == 13 then [] else [s[0]]) + Unbroken(s[1..])
  }

  /** What is accepted: a text that is the canonical form of the bytes it decodes to. */
  function DecodeCanonical(s: Bytes): Option<Bytes> {
    var b := Decode(Unbroken(s));
    if b.Some? && Encode(b.value) == s then b else None
  }

  /** The quad that the signs of one group stand for. */
  ghost predicate Group(s: Bytes, k: Quad) {
    |s| == 4 && SixBits(k) && s[0] == Sign(k.p) && s[1] == Sign(k.q) && s[2] == Sign(k.r) && s[3] == Sign(k.t)
  }

  /** Each three bytes are written as the four signs of the same twenty-four bits, in order. */
  lemma {:induction false} EncodedGroup(b: Bytes, i: nat)
    requires 3 * i + 3 <= |b|
    ensures exists k: Quad :: Group(Encode(b)[4 * i..4 * i + 4], k)
              && ((k.p * 64 + k.q) * 64 + k.r) * 64 + k.t
                 == (b[3 * i] as int * 256 + b[3 * i + 1] as int) * 256 + b[3 * i + 2] as int
  {
    hide Split, Sign;
    if i == 0 {
      var k := Split(Triple(b[0], b[1], b[2]));
      assert Group(Encode(b)[..4], k);
    } else {
      EncodedGroup(b[3..], i - 1);
      assert Encode(b)[4 * i..4 * i + 4] == Encode(b[3..])[4 * (i - 1)..4 * (i - 1) + 4];
    }
  }

  lemma SignsOf(k: Quad)
    requires SixBits(k)
    ensures Value(Sign(k.p)) == k.p && Value(Sign(k.q)) == k.q && Value(Sign(k.r)) == k.r && Value(Sign(k.t)) == k.t
  {
    SignValue(k.p);
    SignValue(k.q);
    SignValue(k.r);
    SignValue(k.t);
  }

  lemma {:induction false} DecodeEncode(b: Bytes)
    ensures Decode(Encode(b)) == Some(b)
  {
    hide Sign, Value, Split, Join;
    if b != [] {
      var t := Triple(b[0], if |b| > 1 then b[1] else 0, if |b| > 2 then b[2] else 0);
      JoinSplit(t);
      SignsOf(Split(t));
      if |b| >= 3 {
        DecodeEncode(b[3..]);
        assert Encode(b)[4..] == Encode(b[3..]);
        assert b == [b[0], b[1], b[2]] + b[3..];
      } else {
        assert b == if |b| == 1 then [b[0]] else [b[0], b[1]];
      }
    }
  }

  lemma {:induction false} EncodeUnbroken(b: Bytes)
    ensures forall i | 0 <= i < |Encode(b)| :: Encode(b)[i] != 10 && Encode(b)[i] != 13
  {
    if |b| >= 3 {
      EncodeUnbroken(b[3..]);
    }
  }

  lemma {:induction false} UnbrokenSame(s: Bytes)
    requires forall i | 0 <= i < |s| :: s[i] != 10 && s[i] != 13
    ensures Unbroken(s) == s
  {
    if s != [] {
      UnbrokenSame(s[1..]);
    }
  }

  /** Exactly the canonical forms are accepted, each as the bytes it stands for. */
  lemma CanonicalOnly(s: Bytes, b: Bytes)
    ensures DecodeCanonical(s) == Some(b) <==> s == Encode(b)
  {
    DecodeEncode(b);
    EncodeUnbroken(b);
    UnbrokenSame(Encode(b));
  }
}
