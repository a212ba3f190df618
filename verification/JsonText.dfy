/** The pieces of JSON text that the command payload uses: strings, integers and white space
    (sections 2, 6 and 7 of RFC 8259), written as the encoder writes them and read as the decoder reads them. */
module JsonText {
  import opened Basics
  import opened Octets
  import opened Escapes

  datatype Parsed<T> = Parsed(value: T, rest: Bytes)

  // ---------------------------------------------------------------- strings

  function HexSign(n: int): Byte
    requires 0 <= n < 16
  {
    if n < 10 then (48 + n) as Byte else (97 + n - 10) as Byte
  }

  lemma HexSignValue(n: int)
    requires 0 <= n < 16
    ensures HexValue(HexSign(n)) == n
  {
  }

  /** The letter of a short escape, or zero. */
  function ShortEscape(c: Byte): Byte {
    if c == QUOTE then QUOTE else if c == BACKSLASH then BACKSLASH
    else if c == 8 then 98 else if c == 12 then 102 else if c == 10 then 110
    else if c == 13 then 114 else if c == 9 then 116 else 0
  }

  /** Bytes that the encoder writes as they are: printing ASCII without the quote, the backslash and `<`, `>`, `&`. */
  predicate Literal(c: Byte) {
    0x20 <= c < 0x80 && c != QUOTE && c != BACKSLASH && c != 60 && c != 62 && c != 38
  }

  /** The two line separators that the encoder escapes although JSON does not require it. */
  predicate LineSeparator(r: Bytes) {
    |r| == 3 && r[0] == 0xE2 && r[1] == 0x80 && (r[2] == 0xA8 || r[2] == 0xA9)
  }

  /** One code point as the encoder writes it. */
  function EscapeRune(r: Bytes): Bytes
    requires r != []
  {
    if |r| == 1 && r[0] < 0x80 then
      if Literal(r[0]) then r
      else if ShortEscape(r[0]) != 0 then [BACKSLASH, ShortEscape(r[0])]
      else [BACKSLASH, LOWER_U, 48, 48, HexSign(r[0] as int / 16), HexSign(r[0] as int % 16)]
    else if LineSeparator(r) then [BACKSLASH, LOWER_U, 50, 48, 50, if r[2] == 0xA8 then 56 else 57]
    else r
  }

  function Escaped(s: Bytes): Bytes {
    if s == [] || RuneSize(s) == 0 then []
    else EscapeRune(s[..RuneSize(s)]) + Escaped(s[RuneSize(s)..])
  }

  function Quoted(s: Bytes): Bytes {
    [QUOTE] + Escaped(s) + [QUOTE]
  }

  /** The byte that a short escape stands for. */
  function Unescape(c: Byte): Option<Byte> {
    if c == QUOTE || c == BACKSLASH || c == 47 then Some(c)
    else if c == 98 then Some(8) else if c == 102 then Some(12) else if c == 110 then Some(10)
    else if c == 114 then Some(13) else if c == 116 then Some(9) else None
  }

  const REPLACEMENT: Bytes := [0xEF, 0xBF, 0xBD]

  /** The UTF-8 form of a code point. */
  function Utf8Of(n: int): Bytes
    requires 0 <= n < 0x11_0000
  {
    if n < 0x80 then [n as Byte]
    else if n < 0x800 then [(0xC0 + n / 64) as Byte, (0x80 + n % 64) as Byte]
    else if n < 0x1_0000 then [(0xE0 + n / 4096) as Byte, (0x80 + n / 64 % 64) as Byte, (0x80 + n % 64) as Byte]
    else [(0xF0 + n / 262144) as Byte, (0x80 + n / 4096 % 64) as Byte, (0x80 + n / 64 % 64) as Byte,
          (0x80 + n % 64) as Byte]
  }

  /** One `\u` escape at the head of the text, or a pair of them: the bytes it stands for and how much it takes. An
      unpaired surrogate would become the replacement character. */
  function UnitEscape(b: Bytes): (u: Option<Parsed<Bytes>>)
    requires |b| >= 2
    ensures u.Some? ==> |u.value.rest| < |b|
  {
    if |b| < 6 || HexQuad(b[2..]).None? then None
    else
      var n := HexQuad(b[2..]).value;
      if 0xD800 <= n <= 0xDBFF && |b| >= 12 && b[6] == BACKSLASH && b[7] == LOWER_U && HexQuad(b[8..]).Some?
         && 0xDC00 <= HexQuad(b[8..]).value <= 0xDFFF
      then Some(Parsed(Utf8Of(0x1_0000 + (n - 0xD800) * 1024 + (HexQuad(b[8..]).value - 0xDC00)), b[12..]))
      else Some(Parsed(if 0xD800 <= n <= 0xDFFF then REPLACEMENT else Utf8Of(n), b[6..]))
  }

  /** The text of a string literal up to its closing quote. */
  function ParseChars(b: Bytes): (p: Option<Parsed<Bytes>>)
    ensures p.Some? ==> |p.value.rest| < |b|
  {
    if b == [] then None
    else if b[0] == QUOTE then Some(Parsed([], b[1..]))
    else if b[0] == BACKSLASH then
      if |b| < 2 then None
      else if b[1] == LOWER_U then
        var u := UnitEscape(b);
        if u.None? then None else Prepend(u.value.value, ParseChars(u.value.rest))
      else if Unescape(b[1]).None? then None
      else Prepend([Unescape(b[1]).value], ParseChars(b[2..]))
    else if b[0] < 0x20 then None
    else Prepend([b[0]], ParseChars(b[1..]))
  }

  function Prepend(head: Bytes, p: Option<Parsed<Bytes>>): Option<Parsed<Bytes>> {
    if p.None? then None else Some(Parsed(head + p.value.value, p.value.rest))
  }

  lemma PrependTwice(a: Bytes, b: Bytes, p: Option<Parsed<Bytes>>)
    ensures Prepend(a, Prepend(b, p)) == Prepend(a + b, p) && Prepend([], p) == p
  {
    if p.Some? {
      assert a + (b + p.value.value) == a + b + p.value.value;
      assert [] + p.value.value == p.value.value;
    }
  }

  lemma ParseOne(c: Byte, tail: Bytes)
    requires c >= 0x80 || Literal(c)
    ensures ParseChars([c] + tail) == Prepend([c], ParseChars(tail))
  {
    assert ([c] + tail)[1..] == tail;
  }

  /** Bytes beyond ASCII, and literal ones, are read as they stand. */
  lemma {:induction false} ParseRaw(r: Bytes, tail: Bytes)
    requires forall i | 0 <= i < |r| :: r[i] >= 0x80 || Literal(r[i])
    ensures ParseChars(r + tail) == Prepend(r, ParseChars(tail))
  {
    hide ParseChars, Prepend;
    if r == [] {
      assert r + tail == tail;
      PrependTwice([], [], ParseChars(tail));
    } else {
      ParseRaw(r[1..], tail);
      ParseOne(r[0], r[1..] + tail);
      PrependTwice([r[0]], r[1..], ParseChars(tail));
      assert r + tail == [r[0]] + (r[1..] + tail);
      assert r == [r[0]] + r[1..];
    }
  }

  lemma UnitRead(hex: Bytes, n: int, tail: Bytes)
    requires |hex| == 4 && HexQuad(hex) == Some(n) && n < 0xD800
    ensures ParseChars([BACKSLASH, LOWER_U] + hex + tail) == Prepend(Utf8Of(n), ParseChars(tail))
  {
    var b := [BACKSLASH, LOWER_U] + hex + tail;
    assert b[2..6] == hex && b[6..] == tail;
    assert b[2..][0] == hex[0] && b[2..][1] == hex[1] && b[2..][2] == hex[2] && b[2..][3] == hex[3];
    assert HexQuad(b[2..]) == HexQuad(hex);
  }

  /** What the encoder writes for one code point is read back as that code point. */
  lemma ParseRune(r: Bytes, tail: Bytes)
    requires r != [] && RuneSize(r) == |r|
    ensures ParseChars(EscapeRune(r) + tail) == Prepend(r, ParseChars(tail))
  {
    hide UnitEscape;
    if |r| == 1 {
      var c := r[0];
      if Literal(c) {
        ParseRaw(r, tail);
      } else if ShortEscape(c) != 0 {
        var b := EscapeRune(r) + tail;
        assert b[2..] == tail;
        assert Unescape(ShortEscape(c)) == Some(c);
        assert [c] == r;
      } else {
        var hex := [48, 48, HexSign(c as int / 16), HexSign(c as int % 16)];
        HexSignValue(c as int / 16);
        HexSignValue(c as int % 16);
        UnitRead(hex, c as int, tail);
        assert [BACKSLASH, LOWER_U] + hex == EscapeRune(r);
        assert Utf8Of(c as int) == r;
      }
    } else if LineSeparator(r) {
      var hex := [50, 48, 50, if r[2] == 0xA8 then 56 else 57];
      UnitRead(hex, if r[2] == 0xA8 then 0x2028 else 0x2029, tail);
      assert [BACKSLASH, LOWER_U] + hex == EscapeRune(r);
      assert Utf8Of(0x2028) == [0xE2, 0x80, 0xA8] && Utf8Of(0x2029) == [0xE2, 0x80, 0xA9];
      assert r == [r[0], r[1], r[2]];
    } else {
      ParseRaw(r, tail);
    }
  }

  lemma EscapedStep(s: Bytes)
    requires ValidUtf8(s) && s != []
    ensures RuneSize(s) > 0 && ValidUtf8(s[RuneSize(s)..])
    ensures Escaped(s) == EscapeRune(s[..RuneSize(s)]) + Escaped(s[RuneSize(s)..])
  {
    hide EscapeRune, RuneSize;
  }

  lemma EmptyString(rest: Bytes)
    ensures ParseChars(Escaped([]) + [QUOTE] + rest) == Some(Parsed([], rest))
  {
    assert Escaped([]) + [QUOTE] + rest == [QUOTE] + rest;
    assert ([QUOTE] + rest)[1..] == rest;
  }

  /** Every valid text survives being written as a JSON string and read back. */
  lemma {:induction false} ParseEscaped(s: Bytes, rest: Bytes)
    requires ValidUtf8(s)
    ensures ParseChars(Escaped(s) + [QUOTE] + rest) == Some(Parsed(s, rest))
  {
    hide EscapeRune, RuneSize, ValidUtf8, Escaped, ParseChars;
    if s == [] {
      EmptyString(rest);
    } else {
      EscapedStep(s);
      var n := RuneSize(s);
      var r, t := s[..n], s[n..];
      RuneOfRune(s);
      ParseEscaped(t, rest);
      var tail := Escaped(t) + [QUOTE] + rest;
      ParseRune(r, tail);
      assert Escaped(s) + [QUOTE] + rest == EscapeRune(r) + tail;
      assert r + t == s;
    }
  }

  lemma RuneOfRune(s: Bytes)
    requires RuneSize(s) > 0
    ensures RuneSize(s[..RuneSize(s)]) == RuneSize(s)
  {
  }

  /** The scanner and the UTF-8 check find nothing wrong with what the encoder writes: a piece is clean when it is
      valid UTF-8 and leaves the pairing of surrogates to whatever follows it. */
  ghost predicate Clean(piece: Bytes) {
    ValidUtf8(piece) && forall tail :: Paired(Lex(piece + tail)) <==> Paired(Lex(tail))
  }

  lemma CleanAppend(a: Bytes, b: Bytes)
    requires Clean(a) && Clean(b)
    ensures Clean(a + b)
  {
    hide Paired, Lex, ValidUtf8;
    ValidAppend(a, b);
    forall tail
      ensures Paired(Lex(a + b + tail)) <==> Paired(Lex(tail))
    {
      assert a + b + tail == a + (b + tail);
    }
  }

  lemma {:induction false} PlainTail(r: Bytes, tail: Bytes)
    requires forall i | 0 <= i < |r| :: r[i] != BACKSLASH
    ensures Paired(Lex(r + tail)) <==> Paired(Lex(tail))
  {
    hide Paired;
    if r == [] {
      assert r + tail == tail;
    } else {
      PlainTail(r[1..], tail);
      assert (r + tail)[1..] == r[1..] + tail;
      PairedStep(Lex(r + tail));
      assert Lex(r + tail)[1..] == Lex(r[1..] + tail);
    }
  }

  lemma CleanPlain(r: Bytes)
    requires ValidUtf8(r) && forall i | 0 <= i < |r| :: r[i] != BACKSLASH
    ensures Clean(r)
  {
    hide Paired, Lex, ValidUtf8;
    forall tail
      ensures Paired(Lex(r + tail)) <==> Paired(Lex(tail))
    {
      PlainTail(r, tail);
    }
  }

  lemma CleanShort(c: Byte)
    requires c != LOWER_U && c < 0x80
    ensures Clean([BACKSLASH, c])
  {
    ValidAscii([BACKSLASH, c]);
    forall tail
      ensures Paired(Lex([BACKSLASH, c] + tail)) <==> Paired(Lex(tail))
    {
      var b := [BACKSLASH, c] + tail;
      assert b[2..] == tail;
      PairedStep(Lex(b));
      assert Lex(b)[1..] == Lex(tail);
    }
    hide Paired;
  }

  lemma CleanUnit(hex: Bytes, n: int)
    requires |hex| == 4 && HexQuad(hex) == Some(n) && !(0xD800 <= n <= 0xDFFF) && forall i | 0 <= i < 4 :: hex[i] < 0x80
    ensures Clean([BACKSLASH, LOWER_U] + hex)
  {
    hide Paired;
    var piece := [BACKSLASH, LOWER_U] + hex;
    ValidAscii(piece);
    forall tail
      ensures Paired(Lex(piece + tail)) <==> Paired(Lex(tail))
    {
      var b := piece + tail;
      assert b[6..] == tail;
      assert b[2..][0] == hex[0] && b[2..][1] == hex[1] && b[2..][2] == hex[2] && b[2..][3] == hex[3];
      assert HexQuad(b[2..]) == HexQuad(hex);
      PairedStep(Lex(b));
      assert Lex(b)[1..] == Lex(tail);
    }
    hide HexQuad, ValidUtf8;
  }

  lemma CleanRune(r: Bytes)
    requires r != [] && RuneSize(r) == |r|
    ensures Clean(EscapeRune(r))
  {
    if |r| == 1 {
      var c := r[0];
      if Literal(c) {
        ValidAscii(r);
        CleanPlain(r);
      } else if ShortEscape(c) != 0 {
        CleanShort(ShortEscape(c));
      } else {
        var hex := [48, 48, HexSign(c as int / 16), HexSign(c as int % 16)];
        HexSignValue(c as int / 16);
        HexSignValue(c as int % 16);
        CleanUnit(hex, c as int);
        assert [BACKSLASH, LOWER_U] + hex == EscapeRune(r);
      }
    } else if LineSeparator(r) {
      var hex := [50, 48, 50, if r[2] == 0xA8 then 56 else 57];
      CleanUnit(hex, if r[2] == 0xA8 then 0x2028 else 0x2029);
      assert [BACKSLASH, LOWER_U] + hex == EscapeRune(r);
    } else {
      assert r[RuneSize(r)..] == [];
      CleanPlain(r);
    }
    hide Clean, RuneSize;
  }

  lemma {:induction false} CleanEscaped(s: Bytes)
    requires ValidUtf8(s)
    ensures Clean(Escaped(s))
  {
    hide Clean, EscapeRune;
    if s == [] {
      CleanNothing();
    } else {
      var n := RuneSize(s);
      RuneOfRune(s);
      CleanRune(s[..n]);
      CleanEscaped(s[n..]);
      CleanAppend(EscapeRune(s[..n]), Escaped(s[n..]));
    }
  }

  lemma CleanNothing()
    ensures Clean([])
  {
    forall tail: Bytes
      ensures Paired(Lex([] + tail)) <==> Paired(Lex(tail))
    {
      assert [] + tail == tail;
    }
    hide Paired, Lex;
  }

  lemma CleanQuoted(s: Bytes)
    requires ValidUtf8(s)
    ensures Clean(Quoted(s))
  {
    hide Clean;
    ValidAscii([QUOTE]);
    CleanPlain([QUOTE]);
    CleanEscaped(s);
    CleanAppend([QUOTE], Escaped(s));
    CleanAppend([QUOTE] + Escaped(s), [QUOTE]);
  }

  /** A clean text passes both checks. */
  lemma CleanPasses(text: Bytes)
    requires Clean(text)
    ensures ValidUtf8(text) && Paired(Lex(text))
  {
    assert text + [] == text;
    NothingPaired();
  }

  // ---------------------------------------------------------------- integers and white space

  predicate Digit(c: Byte) {
    48 <= c < 58
  }

  function Decimal(n: nat): (d: Bytes)
    ensures d != [] && forall i | 0 <= i < |d| :: Digit(d[i])
    ensures d[0] == 48 ==> |d| == 1
  {
    if n < 10 then [(48 + n) as Byte] else Decimal(n / 10) + [(48 + n % 10) as Byte]
  }

  function DigitCount(b: Bytes): (n: nat)
    ensures n <= |b|
    ensures forall i | 0 <= i < n :: Digit(b[i])
    ensures n < |b| ==> !Digit(b[n])
  {
    if b == [] || !Digit(b[0]) then 0 else 1 + DigitCount(b[1..])
  }

  function DecimalValue(d: Bytes): int
    requires forall i | 0 <= i < |d| :: Digit(d[i])
  {
    if d == [] then 0 else DecimalValue(d[..|d| - 1]) * 10 + (d[|d| - 1] as int - 48)
  }

  const INT_MAX := 0x7FFF_FFFF_FFFF_FFFF

  /** A number that an integer can take: no leading zero, no fraction, no exponent, within 64 bits. */
  function ParseInt(b: Bytes): (p: Option<Parsed<int>>)
    ensures p.Some? ==> |p.value.rest| < |b|
  {
    var negative := b != [] && b[0] == 45;
    var d := if negative then b[1..] else b;
    var n := DigitCount(d);
    if n == 0 || (d[0] == 48 && n > 1) || (n < |d| && (d[n] == 46 || d[n] == 101 || d[n] == 69)) then None
    else
      var v := if negative then -DecimalValue(d[..n]) else DecimalValue(d[..n]);
      if -INT_MAX - 1 <= v <= INT_MAX then Some(Parsed(v, d[n..])) else None
  }

  lemma {:induction false} DecimalBack(n: nat)
    ensures DecimalValue(Decimal(n)) == n
  {
    if n >= 10 {
      DecimalBack(n / 10);
      assert Decimal(n)[..|Decimal(n)| - 1] == Decimal(n / 10);
    }
  }

  lemma {:induction false} CountDigits(d: Bytes, rest: Bytes)
    requires forall i | 0 <= i < |d| :: Digit(d[i])
    requires rest == [] || !Digit(rest[0])
    ensures DigitCount(d + rest) == |d|
  {
    if d == [] {
      assert d + rest == rest;
    } else {
      CountDigits(d[1..], rest);
      assert (d + rest)[1..] == d[1..] + rest;
    }
  }

  lemma ParseDecimal(n: nat, rest: Bytes)
    requires n <= INT_MAX && rest != [] && !Digit(rest[0]) && rest[0] != 46 && rest[0] != 101 && rest[0] != 69
    ensures ParseInt(Decimal(n) + rest) == Some(Parsed(n as int, rest))
  {
    var b := Decimal(n) + rest;
    CountDigits(Decimal(n), rest);
    DecimalBack(n);
    assert b[..|Decimal(n)|] == Decimal(n) && b[|Decimal(n)|..] == rest;
  }

  lemma CleanDecimal(n: nat)
    ensures Clean(Decimal(n))
  {
    ValidAscii(Decimal(n));
    CleanPlain(Decimal(n));
  }

  predicate Space(c: Byte) {
    c == 32 || c == 9 || c == 10 || c == 13
  }

  function Trim(b: Bytes): (r: Bytes)
    ensures |r| <= |b| && (r == [] || !Space(r[0]))
  {
    if b != [] && Space(b[0]) then Trim(b[1..]) else b
  }
}
