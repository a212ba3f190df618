/** The language that the payload decoder accepts, as the texts that can be written: every choice that JSON leaves to
    the writer, white space, escapes and the order of fields, is part of a layout (sections 2 to 7 of RFC 8259). */
module Grammar {
  import opened Basics
  import opened Octets
  import opened Escapes
  import opened JsonText
  import opened Payload
  import Base64

  // ---------------------------------------------------------------- strings

  /** One way to write a character of a string: itself, a short escape, a code unit, or a pair of surrogates. */
  datatype Char = Raw(c: Byte) | Short(letter: Byte) | CodeUnit(hex: Bytes) | Twin(high: Bytes, low: Bytes)

  /** The letters of the short escapes: quote, backslash, slash, b, f, n, r and t. */
  const SHORTS: map<Byte, Byte> := map[34 := 34, 92 := 92, 47 := 47, 98 := 8, 102 := 12, 110 := 10, 114 := 13, 116 := 9]

  ghost predicate HexDigit(c: Byte, v: int) {
    || (0 <= v < 10 && c as int == 48 + v)
    || (10 <= v < 16 && (c as int == 97 + v - 10 || c as int == 65 + v - 10))
  }

  /** Four hexadecimal digits of either case, and their number. */
  ghost predicate Hex(h: Bytes, n: int) {
    |h| == 4 && exists p, q, r, t ::
      HexDigit(h[0], p) && HexDigit(h[1], q) && HexDigit(h[2], r) && HexDigit(h[3], t)
      && n == ((p * 16 + q) * 16 + r) * 16 + t
  }

  lemma HexValueDigit(c: Byte)
    ensures if HexValue(c) >= 0 then HexDigit(c, HexValue(c)) else forall v :: !HexDigit(c, v)
    ensures forall v | HexDigit(c, v) :: v == HexValue(c)
  {
  }

  lemma HexExactly(h: Bytes, n: int)
    requires |h| == 4
    ensures Hex(h, n) <==> HexQuad(h) == Some(n)
  {
    HexValueDigit(h[0]);
    HexValueDigit(h[1]);
    HexValueDigit(h[2]);
    HexValueDigit(h[3]);
    hide HexDigit, HexValue;
  }

  ghost predicate IsHex(h: Bytes) {
    exists n :: Hex(h, n)
  }

  ghost function NumberOf(h: Bytes): (n: int)
    requires IsHex(h)
    ensures Hex(h, n)
  {
    var n :| Hex(h, n);
    n
  }

  lemma HexNumber(h: Bytes)
    requires |h| == 4
    ensures IsHex(h) <==> HexQuad(h).Some?
    ensures IsHex(h) ==> HexQuad(h) == Some(NumberOf(h)) && 0 <= NumberOf(h) < 0x1_0000
  {
    hide Hex, HexQuad;
    if HexQuad(h).Some? {
      HexExactly(h, HexQuad(h).value);
    }
    if IsHex(h) {
      HexExactly(h, NumberOf(h));
    }
  }

  ghost predicate Leading(h: Bytes) {
    IsHex(h) && 0xD800 <= NumberOf(h) <= 0xDBFF
  }

  ghost predicate Trailing(h: Bytes) {
    IsHex(h) && 0xDC00 <= NumberOf(h) <= 0xDFFF
  }

  ghost predicate WellFormed(c: Char) {
    match c
    case Raw(b) => b >= 0x20 && b != QUOTE && b != BACKSLASH
    case Short(letter) => letter in SHORTS
    case CodeUnit(hex) => |hex| == 4 && IsHex(hex)
    case Twin(high, low) => |high| == 4 && |low| == 4 && Leading(high) && Trailing(low)
  }

  ghost function Spelling(c: Char): Bytes {
    match c
    case Raw(b) => [b]
    case Short(letter) => [BACKSLASH, letter]
    case CodeUnit(hex) => [BACKSLASH, LOWER_U] + hex
    case Twin(high, low) => [BACKSLASH, LOWER_U] + high + ([BACKSLASH, LOWER_U] + low)
  }

  /** What a character stands for; a surrogate alone becomes the replacement character. */
  ghost function ValueOf(c: Char): Bytes
    requires WellFormed(c)
  {
    match c
    case Raw(b) => [b]
    case Short(letter) => [SHORTS[letter]]
    case CodeUnit(hex) =>
      HexNumber(hex);
      if Leading(hex) || Trailing(hex) then [0xEF, 0xBF, 0xBD] else Utf8Of(NumberOf(hex))
    case Twin(high, low) => Utf8Of(0x1_0000 + (NumberOf(high) - 0xD800) * 1024 + (NumberOf(low) - 0xDC00))
  }

  /** The content of a string. Two surrogates that belong together are a pair. */
  ghost predicate Proper(cs: seq<Char>) {
    && (forall c | c in cs :: WellFormed(c))
    && forall i | 0 <= i < |cs| - 1 :: !(Alone(cs[i]) && StrayLow(cs[i + 1]))
  }

  ghost predicate Alone(c: Char) {
    c.CodeUnit? && Leading(c.hex)
  }

  ghost predicate StrayLow(c: Char) {
    c.CodeUnit? && Trailing(c.hex)
  }

  ghost function Spellings(cs: seq<Char>): Bytes {
    if cs == [] then [] else Spelling(cs[0]) + Spellings(cs[1..])
  }

  ghost function Meaning(cs: seq<Char>): Bytes
    requires forall c | c in cs :: WellFormed(c)
  {
    if cs == [] then [] else assert cs[0] in cs; ValueOf(cs[0]) + Meaning(cs[1..])
  }

  /** A text that goes on with the escape of a low surrogate. */
  ghost predicate LowAhead(b: Bytes) {
    |b| >= 6 && b[0] == BACKSLASH && b[1] == LOWER_U && Trailing(b[2..6])
  }

  lemma ShortsAre(c: Byte)
    ensures Unescape(c).Some? <==> c in SHORTS
    ensures c in SHORTS ==> Unescape(c) == Some(SHORTS[c]) && c != LOWER_U
  {
  }

  lemma QuadAt(b: Bytes, i: nat)
    requires i + 4 <= |b|
    ensures HexQuad(b[i..]) == HexQuad(b[i..i + 4])
  {
  }

  lemma UnitAhead(hex: Bytes, tail: Bytes)
    requires |hex| == 4 && IsHex(hex) && !(Leading(hex) && LowAhead(tail))
    ensures var b := [BACKSLASH, LOWER_U] + hex + tail;
            UnitEscape(b) == Some(Parsed(ValueOf(CodeUnit(hex)), tail))
  {
    hide HexQuad, Utf8Of;
    var b := [BACKSLASH, LOWER_U] + hex + tail;
    assert b[2..6] == hex && b[6..] == tail;
    QuadAt(b, 2);
    HexNumber(hex);
    if |tail| >= 6 {
      assert b[8..12] == tail[2..6] && b[6] == tail[0] && b[7] == tail[1];
      QuadAt(b, 8);
      HexNumber(tail[2..6]);
    }
  }

  lemma TwinAhead(high: Bytes, low: Bytes, tail: Bytes)
    requires WellFormed(Twin(high, low))
    ensures var b := [BACKSLASH, LOWER_U] + high + ([BACKSLASH, LOWER_U] + low) + tail;
            UnitEscape(b) == Some(Parsed(ValueOf(Twin(high, low)), tail))
  {
    hide HexQuad, Utf8Of;
    var b := [BACKSLASH, LOWER_U] + high + ([BACKSLASH, LOWER_U] + low) + tail;
    assert b[2..6] == high && b[8..12] == low && b[12..] == tail;
    QuadAt(b, 2);
    QuadAt(b, 8);
    HexNumber(high);
    HexNumber(low);
  }

  /** A character is read as what it stands for. */
  lemma CharRead(c: Char, tail: Bytes)
    requires WellFormed(c) && !(Alone(c) && LowAhead(tail))
    ensures ParseChars(Spelling(c) + tail) == Prepend(ValueOf(c), ParseChars(tail))
  {
    hide UnitEscape, ValueOf, Leading, Trailing, IsHex;
    var b := Spelling(c) + tail;
    match c {
      case Raw(x) =>
        assert b[1..] == tail;
        RawValue(x);
      case Short(letter) =>
        assert b[2..] == tail;
        ShortsAre(letter);
        ShortValue(letter);
      case CodeUnit(hex) =>
        UnitAhead(hex, tail);
      case Twin(high, low) =>
        TwinAhead(high, low, tail);
    }
  }

  lemma RawValue(x: Byte)
    requires WellFormed(Raw(x))
    ensures ValueOf(Raw(x)) == [x]
  {
  }

  lemma ShortValue(letter: Byte)
    requires letter in SHORTS
    ensures ValueOf(Short(letter)) == [SHORTS[letter]]
  {
  }

  /** Proper content does not go on with a low surrogate, unless it begins with one. */
  lemma NoLowAhead(cs: seq<Char>, rest: Bytes)
    requires Proper(cs) && (cs == [] || !StrayLow(cs[0]))
    ensures !LowAhead(Spellings(cs) + [QUOTE] + rest)
  {
    hide IsHex;
    var b := Spellings(cs) + [QUOTE] + rest;
    if cs == [] {
      assert b[0] == QUOTE;
    } else {
      assert cs[0] in cs && WellFormed(cs[0]);
      match cs[0] {
        case Raw(x) => assert b[0] == x;
        case Short(letter) =>
          assert b[1] == letter;
          ShortsAre(letter);
        case CodeUnit(hex) => assert b[2..6] == hex;
        case Twin(high, low) => assert b[2..6] == high;
      }
    }
  }

  lemma {:induction false} CharsRead(cs: seq<Char>, rest: Bytes)
    requires Proper(cs)
    ensures ParseChars(Spellings(cs) + [QUOTE] + rest) == Some(Parsed(Meaning(cs), rest))
  {
    hide ParseChars, Spelling, ValueOf, WellFormed, Alone, StrayLow, LowAhead;
    if cs == [] {
      NoChars(rest);
    } else {
      var c, more := cs[0], cs[1..];
      assert c in cs;
      var tail := Spellings(more) + [QUOTE] + rest;
      ProperTail(cs);
      CharsRead(more, rest);
      if Alone(c) {
        NoLowAhead(more, rest);
      }
      CharRead(c, tail);
      assert Spellings(cs) + [QUOTE] + rest == Spelling(c) + tail;
    }
  }

  lemma NoChars(rest: Bytes)
    ensures ParseChars(Spellings([]) + [QUOTE] + rest) == Some(Parsed([], rest))
  {
    var b := Spellings([]) + [QUOTE] + rest;
    assert b[1..] == rest;
  }

  lemma ProperTail(cs: seq<Char>)
    requires Proper(cs) && cs != []
    ensures Proper(cs[1..]) && (Alone(cs[0]) && cs[1..] != [] ==> !StrayLow(cs[1..][0]))
  {
    hide WellFormed, Alone, StrayLow;
    var t := cs[1..];
    assert forall i | 0 <= i < |t| :: t[i] == cs[i + 1];
  }

  /** The first character of a text that is read as a string. */
  lemma FirstChar(b: Bytes) returns (c: Char, tail: Bytes)
    requires ParseChars(b).Some? && b[0] != QUOTE
    ensures WellFormed(c) && b == Spelling(c) + tail && !(Alone(c) && LowAhead(tail))
    ensures ParseChars(b) == Prepend(ValueOf(c), ParseChars(tail)) && ParseChars(tail).Some?
  {
    if b[0] != BACKSLASH {
      c, tail := Raw(b[0]), b[1..];
    } else if b[1] != LOWER_U {
      ShortsAre(b[1]);
      c, tail := Short(b[1]), b[2..];
    } else {
      c, tail := FirstUnit(b);
    }
    assert b == Spelling(c) + tail;
    hide ParseChars, ValueOf, Alone, LowAhead;
    CharRead(c, tail);
  }

  lemma FirstUnit(b: Bytes) returns (c: Char, tail: Bytes)
    requires |b| >= 2 && b[0] == BACKSLASH && b[1] == LOWER_U && UnitEscape(b).Some?
    ensures WellFormed(c) && b == Spelling(c) + tail && !(Alone(c) && LowAhead(tail))
  {
    hide HexQuad, Utf8Of;
    var hex := b[2..6];
    QuadAt(b, 2);
    HexNumber(hex);
    c, tail := CodeUnit(hex), b[6..];
    if |b| >= 12 {
      QuadAt(b, 8);
      HexNumber(b[8..12]);
      assert tail[2..6] == b[8..12] && tail[0] == b[6] && tail[1] == b[7];
      if Alone(c) && LowAhead(tail) {
        c, tail := Twin(hex, b[8..12]), b[12..];
      }
    }
  }

  /** Whatever is read as a string is the spelling of proper content. */
  lemma {:induction false} CharsFound(b: Bytes) returns (cs: seq<Char>, rest: Bytes)
    requires ParseChars(b).Some?
    ensures Proper(cs) && b == Spellings(cs) + [QUOTE] + rest && ParseChars(b) == Some(Parsed(Meaning(cs), rest))
    decreases |b|
  {
    hide Spelling, Spellings, Meaning, Prepend, Proper, ValueOf, WellFormed, Alone, StrayLow, LowAhead;
    if b[0] == QUOTE {
      cs, rest := [], b[1..];
      NothingSpelled(b);
    } else {
      var c, tail := FirstChar(b);
      SpellingSize(c);
      var more;
      more, rest := CharsFound(tail);
      cs := [c] + more;
      ProperMore(c, more, rest);
      OneMoreChar(c, more, rest);
    }
  }

  lemma NothingSpelled(b: Bytes)
    requires b != [] && b[0] == QUOTE
    ensures Proper([]) && b == Spellings([]) + [QUOTE] + b[1..] && Meaning([]) == []
  {
    assert b == [QUOTE] + b[1..];
  }

  lemma OneMoreChar(c: Char, more: seq<Char>, rest: Bytes)
    requires WellFormed(c) && Proper(more) && Proper([c] + more)
    ensures Spelling(c) + (Spellings(more) + [QUOTE] + rest) == Spellings([c] + more) + [QUOTE] + rest
    ensures Prepend(ValueOf(c), Some(Parsed(Meaning(more), rest))) == Some(Parsed(Meaning([c] + more), rest))
  {
    hide Spelling, ValueOf, WellFormed, Alone, StrayLow;
    assert ([c] + more)[1..] == more;
  }

  lemma SpellingSize(c: Char)
    ensures |Spelling(c)| > 0
  {
  }

  lemma ProperMore(c: Char, more: seq<Char>, rest: Bytes)
    requires WellFormed(c) && Proper(more) && !(Alone(c) && LowAhead(Spellings(more) + [QUOTE] + rest))
    ensures Proper([c] + more)
  {
    hide IsHex;
    var cs := [c] + more;
    if more != [] && StrayLow(more[0]) {
      assert more[0] in more;
      var b := Spellings(more) + [QUOTE] + rest;
      assert b[2..6] == more[0].hex;
    }
  }

  // ---------------------------------------------------------------- white space and numbers

  ghost predicate Blank(w: Bytes) {
    forall c | c in w :: c in {32, 9, 10, 13}
  }

  lemma {:induction false} TrimBlank(w: Bytes, t: Bytes)
    requires Blank(w) && (t == [] || t[0] !in {32, 9, 10, 13})
    ensures Trim(w + t) == t
  {
    if w == [] {
      assert w + t == t;
    } else {
      assert w[0] in w && (w + t)[1..] == w[1..] + t;
      assert forall c | c in w[1..] :: c in w;
      TrimBlank(w[1..], t);
    }
  }

  lemma {:induction false} TrimFound(b: Bytes) returns (w: Bytes)
    ensures Blank(w) && b == w + Trim(b)
  {
    if b != [] && Space(b[0]) {
      var v := TrimFound(b[1..]);
      w := [b[0]] + v;
      assert b == [b[0]] + b[1..];
    } else {
      w := [];
      assert b == w + b;
    }
  }

  /** An integer: a sign, and digits without a leading zero. */
  datatype Number = Number(negative: bool, digits: Bytes)

  ghost predicate ProperNumber(n: Number) {
    && n.digits != [] && (forall c | c in n.digits :: 48 <= c < 58) && (n.digits[0] == 48 ==> |n.digits| == 1)
    && -0x8000_0000_0000_0000 <= Integer(n) < 0x8000_0000_0000_0000
  }

  ghost function Magnitude(d: Bytes): int {
    if d == [] then 0 else 10 * Magnitude(d[..|d| - 1]) + (d[|d| - 1] as int - 48)
  }

  ghost function Integer(n: Number): int {
    if n.negative then -Magnitude(n.digits) else Magnitude(n.digits)
  }

  ghost function NumberText(n: Number): Bytes {
    (if n.negative then [45] else []) + n.digits
  }

  lemma {:induction false} MagnitudeIs(d: Bytes)
    requires forall i | 0 <= i < |d| :: Digit(d[i])
    ensures Magnitude(d) == DecimalValue(d)
  {
    if d != [] {
      MagnitudeIs(d[..|d| - 1]);
    }
  }

  /** What cannot follow the digits of an integer. */
  ghost predicate GoesOn(b: Bytes) {
    b != [] && (Digit(b[0]) || b[0] == 46 || b[0] == 101 || b[0] == 69)
  }

  lemma NumberRead(n: Number, tail: Bytes)
    requires ProperNumber(n) && !GoesOn(tail)
    ensures ParseInt(NumberText(n) + tail) == Some(Parsed(Integer(n), tail))
  {
    hide Magnitude, DecimalValue, DigitCount;
    var b := NumberText(n) + tail;
    var d := n.digits + tail;
    forall i | 0 <= i < |n.digits|
      ensures Digit(n.digits[i])
    {
      assert n.digits[i] in n.digits;
    }
    CountDigits(n.digits, tail);
    MagnitudeIs(n.digits);
    assert n.negative ==> b[1..] == d;
    assert !n.negative ==> b == d;
    assert d[..|n.digits|] == n.digits && d[|n.digits|..] == tail;
  }

  lemma DigitsAre(d: Bytes, k: nat)
    requires k <= |d| && forall i | 0 <= i < k :: Digit(d[i])
    ensures (forall c | c in d[..k] :: 48 <= c < 58) && d == d[..k] + d[k..]
    ensures Magnitude(d[..k]) == DecimalValue(d[..k])
  {
    hide Magnitude, DecimalValue;
    forall c | c in d[..k]
      ensures 48 <= c < 58
    {
      var i :| 0 <= i < k && d[..k][i] == c;
      assert Digit(d[i]);
    }
    MagnitudeIs(d[..k]);
  }

  lemma SignFirst(b: Bytes, digits: Bytes, tail: Bytes)
    requires b != [] && (if b[0] == 45 then b[1..] else b) == digits + tail
    ensures b == NumberText(Number(b[0] == 45, digits)) + tail
  {
    if b[0] == 45 {
      assert b == [45] + b[1..];
    }
  }

  lemma NumberFound(b: Bytes) returns (n: Number, tail: Bytes)
    requires ParseInt(b).Some?
    ensures ProperNumber(n) && b == NumberText(n) + tail && !GoesOn(tail)
    ensures ParseInt(b) == Some(Parsed(Integer(n), tail))
  {
    hide Magnitude, DecimalValue, DigitCount, NumberText;
    var d := if b[0] == 45 then b[1..] else b;
    var k := DigitCount(d);
    n, tail := Number(b[0] == 45, d[..k]), d[k..];
    DigitsAre(d, k);
    SignFirst(b, d[..k], tail);
  }

  // ---------------------------------------------------------------- values

  ghost function StringText(cs: seq<Char>): Bytes {
    [QUOTE] + Spellings(cs) + [QUOTE]
  }

  const NULL_TEXT: Bytes := [110, 117, 108, 108]

  ghost predicate ProperItem(x: Option<seq<Char>>) {
    x.Some? ==> Proper(x.value)
  }

  ghost function ItemText(x: Option<seq<Char>>): Bytes {
    match x
    case None => NULL_TEXT
    case Some(cs) => StringText(cs)
  }

  ghost function ItemMeaning(x: Option<seq<Char>>): Option<Bytes>
    requires ProperItem(x)
  {
    match x
    case None => None
    case Some(cs) => Some(Meaning(cs))
  }

  lemma NullStart(b: Bytes)
    ensures NullAhead(b) <==> |b| >= 4 && b[..4] == NULL_TEXT
    ensures NullAhead(b) ==> b == NULL_TEXT + b[4..]
  {
    if |b| >= 4 {
      assert b == b[..4] + b[4..];
    }
  }

  lemma ItemRead(x: Option<seq<Char>>, tail: Bytes)
    requires ProperItem(x)
    ensures ParseItem(ItemText(x) + tail) == Some(Parsed(ItemMeaning(x), tail))
  {
    hide ParseChars, Proper, Meaning, Spellings;
    var b := ItemText(x) + tail;
    match x {
      case None =>
        NullStart(b);
        assert b[..4] == NULL_TEXT && b[4..] == tail;
      case Some(cs) =>
        CharsRead(cs, tail);
        assert b[0] == QUOTE && b[1..] == Spellings(cs) + [QUOTE] + tail;
    }
  }

  lemma ItemFound(b: Bytes) returns (x: Option<seq<Char>>, tail: Bytes)
    requires ParseItem(b).Some?
    ensures ProperItem(x) && b == ItemText(x) + tail && ParseItem(b) == Some(Parsed(ItemMeaning(x), tail))
  {
    hide ParseChars, Proper, Meaning, Spellings;
    NullStart(b);
    if NullAhead(b) {
      x, tail := None, b[4..];
    } else {
      var cs;
      cs, tail := CharsFound(b[1..]);
      x := Some(cs);
      assert b == [QUOTE] + b[1..];
      assert b == ItemText(x) + tail;
    }
  }

  /** One item of an array with the white space before its comma and before itself. */
  datatype Item = Item(before: Bytes, gap: Bytes, text: Option<seq<Char>>)

  ghost predicate ProperEntry(i: Item) {
    Blank(i.before) && Blank(i.gap) && ProperItem(i.text)
  }

  ghost predicate ProperItems(items: seq<Item>) {
    forall i | i in items :: ProperEntry(i)
  }

  /** The items after the first, each behind its comma. */
  ghost function MoreText(items: seq<Item>): Bytes {
    if items == [] then []
    else items[0].before + ([COMMA] + (items[0].gap + (ItemText(items[0].text) + MoreText(items[1..]))))
  }

  ghost function ItemsText(items: seq<Item>): Bytes {
    if items == [] then [] else items[0].gap + (ItemText(items[0].text) + MoreText(items[1..]))
  }

  ghost function ItemsMeaning(items: seq<Item>): seq<Option<Bytes>>
    requires ProperItems(items)
  {
    if items == [] then []
    else assert items[0] in items; [ItemMeaning(items[0].text)] + ItemsMeaning(items[1..])
  }

  lemma ItemStart(x: Option<seq<Char>>)
    ensures ItemText(x) != [] && ItemText(x)[0] !in {32, 9, 10, 13, END_LIST, COMMA}
  {
  }

  lemma {:induction false} MoreRead(items: seq<Item>, last: Bytes, rest: Bytes)
    requires ProperItems(items) && Blank(last)
    ensures ParseItems(MoreText(items) + (last + ([END_LIST] + rest)), false) == Some(Parsed(ItemsMeaning(items), rest))
  {
    hide ParseItem, ItemText, ItemMeaning, ProperItem, Trim, Blank;
    var b := MoreText(items) + (last + ([END_LIST] + rest));
    if items == [] {
      assert b == last + ([END_LIST] + rest);
      TrimBlank(last, [END_LIST] + rest);
      assert ([END_LIST] + rest)[1..] == rest;
    } else {
      var i, more := items[0], MoreText(items[1..]) + (last + ([END_LIST] + rest));
      assert i in items && ProperEntry(i);
      var text := ItemText(i.text) + more;
      ItemStart(i.text);
      assert b == i.before + ([COMMA] + (i.gap + text));
      TrimBlank(i.before, [COMMA] + (i.gap + text));
      assert ([COMMA] + (i.gap + text))[1..] == i.gap + text;
      TrimBlank(i.gap, text);
      ItemRead(i.text, more);
      MoreRead(items[1..], last, rest);
    }
  }

  lemma ItemsRead(items: seq<Item>, last: Bytes, rest: Bytes)
    requires ProperItems(items) && Blank(last)
    ensures ParseItems(ItemsText(items) + (last + ([END_LIST] + rest)), true) == Some(Parsed(ItemsMeaning(items), rest))
  {
    hide ParseItem, ItemText, ItemMeaning, ProperItem, Trim, Blank, MoreText;
    var b := ItemsText(items) + (last + ([END_LIST] + rest));
    if items == [] {
      assert b == last + ([END_LIST] + rest);
      TrimBlank(last, [END_LIST] + rest);
      assert ([END_LIST] + rest)[1..] == rest;
    } else {
      var i, more := items[0], MoreText(items[1..]) + (last + ([END_LIST] + rest));
      assert i in items && ProperEntry(i);
      var text := ItemText(i.text) + more;
      ItemStart(i.text);
      assert b == i.gap + text;
      TrimBlank(i.gap, text);
      ItemRead(i.text, more);
      MoreRead(items[1..], last, rest);
    }
  }

  lemma {:induction false} MoreFound(b: Bytes) returns (items: seq<Item>, last: Bytes, rest: Bytes)
    requires ParseItems(b, false).Some?
    ensures ProperItems(items) && Blank(last) && b == MoreText(items) + (last + ([END_LIST] + rest))
    ensures ParseItems(b, false) == Some(Parsed(ItemsMeaning(items), rest))
    decreases |b|
  {
    hide ParseItem, ItemText, ItemMeaning, ProperItem, Trim, Blank;
    var w := TrimFound(b);
    var t := Trim(b);
    if t[0] == END_LIST {
      items, last, rest := [], w, t[1..];
      assert t == [END_LIST] + t[1..];
      assert b == MoreText(items) + (last + ([END_LIST] + rest));
    } else {
      var v := TrimFound(t[1..]);
      var x, more := ItemFound(Trim(t[1..]));
      assert t == [COMMA] + t[1..];
      var tail;
      tail, last, rest := MoreFound(more);
      items := [Item(w, v, x)] + tail;
      assert items[1..] == tail;
      assert b == w + ([COMMA] + (v + (ItemText(x) + more)));
      MoreStep(items[0], tail, last + ([END_LIST] + rest));
    }
  }

  lemma MoreStep(i: Item, tail: seq<Item>, end: Bytes)
    ensures i.before + ([COMMA] + (i.gap + (ItemText(i.text) + (MoreText(tail) + end)))) == MoreText([i] + tail) + end
    ensures i.gap + (ItemText(i.text) + (MoreText(tail) + end)) == ItemsText([i] + tail) + end
  {
    hide ItemText;
    assert ([i] + tail)[1..] == tail;
  }

  lemma ItemsFound(b: Bytes) returns (items: seq<Item>, last: Bytes, rest: Bytes)
    requires ParseItems(b, true).Some?
    ensures ProperItems(items) && Blank(last) && b == ItemsText(items) + (last + ([END_LIST] + rest))
    ensures ParseItems(b, true) == Some(Parsed(ItemsMeaning(items), rest))
  {
    hide ParseItem, ItemText, ItemMeaning, ProperItem, Trim, MoreText;
    var w := TrimFound(b);
    var t := Trim(b);
    if t[0] == END_LIST {
      items, last, rest := [], w, t[1..];
      assert t == [END_LIST] + t[1..];
      assert b == ItemsText(items) + (last + ([END_LIST] + rest));
    } else {
      var x, more := ItemFound(t);
      var tail;
      tail, last, rest := MoreFound(more);
      items := [Item([], w, x)] + tail;
      assert items[1..] == tail;
      assert b == w + (ItemText(x) + more);
      MoreStep(items[0], tail, last + ([END_LIST] + rest));
    }
  }

  /** One way to write a value. */
  datatype Value = Null | Int(number: Number) | Str(content: seq<Char>) | List(items: seq<Item>, last: Bytes)

  ghost predicate ProperValue(v: Value) {
    match v
    case Null => true
    case Int(n) => ProperNumber(n)
    case Str(cs) => Proper(cs)
    case List(items, last) => ProperItems(items) && Blank(last)
  }

  ghost function ValueText(v: Value): Bytes {
    match v
    case Null => NULL_TEXT
    case Int(n) => NumberText(n)
    case Str(cs) => StringText(cs)
    case List(items, last) => [LIST] + (ItemsText(items) + (last + [END_LIST]))
  }

  /** A field takes null or a value of its own type. */
  ghost predicate Typed(f: Field, v: Value) {
    match v
    case Null => true
    case Int(_) => f == SchemaField || f == TimeoutField
    case Str(_) => f == CwdField
    case List(_, _) => f == ArgvField
  }

  /** Null leaves a field as it is, and an array empty. */
  ghost function Assigned(f: Field, v: Value, d: Draft): Draft
    requires ProperValue(v) && Typed(f, v)
  {
    match v
    case Null => if f == ArgvField then d.(argv := []) else d
    case Int(n) => if f == SchemaField then d.(schema := Integer(n)) else d.(timeout := Integer(n))
    case Str(cs) => d.(cwd := Meaning(cs))
    case List(items, _) => d.(argv := ItemsMeaning(items))
  }

  lemma ValueStart(v: Value)
    requires ProperValue(v)
    ensures ValueText(v) != [] && ValueText(v)[0] !in {32, 9, 10, 13} && (v == Null || ValueText(v)[0] != 110)
  {
    if v.Int? {
      assert v.number.digits[0] in v.number.digits;
    }
  }

  lemma NoNull(b: Bytes)
    requires b != [] && b[0] != 110
    ensures !NullAhead(b)
  {
  }

  lemma NumberStart(n: Number, tail: Bytes)
    requires ProperNumber(n)
    ensures NumberText(n) + tail != [] && (NumberText(n) + tail)[0] != 110
  {
    assert n.digits[0] in n.digits;
  }

  lemma IntRead(f: Field, n: Number, d: Draft, tail: Bytes)
    requires ProperNumber(n) && (f == SchemaField || f == TimeoutField) && !GoesOn(tail)
    ensures ParseValue(NumberText(n) + tail, f, d) == Some(Parsed(Assigned(f, Int(n), d), tail))
  {
    hide ParseInt, NumberText, Integer, ProperNumber, GoesOn, NullAhead;
    NumberStart(n, tail);
    NoNull(NumberText(n) + tail);
    NumberRead(n, tail);
  }

  lemma ListRead(items: seq<Item>, last: Bytes, d: Draft, tail: Bytes)
    requires ProperItems(items) && Blank(last)
    ensures ParseValue(ValueText(List(items, last)) + tail, ArgvField, d)
            == Some(Parsed(Assigned(ArgvField, List(items, last), d), tail))
  {
    hide ParseItems, ItemsText, ItemsMeaning, ProperItems, NullAhead;
    var b := ValueText(List(items, last)) + tail;
    assert b[1..] == ItemsText(items) + (last + ([END_LIST] + tail));
    ItemsRead(items, last, tail);
    NoNull(b);
  }

  lemma ValueRead(f: Field, v: Value, d: Draft, tail: Bytes)
    requires ProperValue(v) && Typed(f, v) && !GoesOn(tail)
    ensures ParseValue(ValueText(v) + tail, f, d) == Some(Parsed(Assigned(f, v, d), tail))
  {
    hide ParseInt, ParseItem, ParseItems, NumberText, StringText, ItemsText, Integer, Meaning, ItemsMeaning,
         ProperItems, ProperNumber, Proper, GoesOn, NullAhead;
    var b := ValueText(v) + tail;
    match v {
      case Null =>
        NullStart(b);
        assert b[..4] == NULL_TEXT && b[4..] == tail;
      case Int(n) => IntRead(f, n, d, tail);
      case Str(cs) =>
        ValueStart(v);
        NoNull(b);
        ItemRead(Some(cs), tail);
      case List(items, last) => ListRead(items, last, d, tail);
    }
  }

  lemma IntFound(b: Bytes, f: Field, d: Draft) returns (v: Value, tail: Bytes)
    requires (f == SchemaField || f == TimeoutField) && !NullAhead(b) && ParseValue(b, f, d).Some?
    ensures ProperValue(v) && Typed(f, v) && b == ValueText(v) + tail && !GoesOn(tail)
    ensures ParseValue(b, f, d) == Some(Parsed(Assigned(f, v, d), tail))
  {
    hide ParseInt, NumberText, Integer, ProperNumber, GoesOn, NullAhead;
    var n;
    n, tail := NumberFound(b);
    v := Int(n);
  }

  lemma ListFound(b: Bytes, d: Draft) returns (v: Value, tail: Bytes)
    requires !NullAhead(b) && ParseValue(b, ArgvField, d).Some?
    ensures ProperValue(v) && Typed(ArgvField, v) && b == ValueText(v) + tail && !v.Int?
    ensures ParseValue(b, ArgvField, d) == Some(Parsed(Assigned(ArgvField, v, d), tail))
  {
    hide ParseItems, ItemsText, ItemsMeaning, ProperItems, NullAhead;
    var items, last;
    items, last, tail := ItemsFound(b[1..]);
    v := List(items, last);
    assert b == [LIST] + b[1..];
    ListJoin(items, last, tail);
  }

  lemma ListJoin(items: seq<Item>, last: Bytes, tail: Bytes)
    ensures [LIST] + (ItemsText(items) + (last + ([END_LIST] + tail))) == ValueText(List(items, last)) + tail
  {
    hide ItemsText;
  }

  lemma ValueFound(b: Bytes, f: Field, d: Draft) returns (v: Value, tail: Bytes)
    requires ParseValue(b, f, d).Some?
    ensures ProperValue(v) && Typed(f, v) && b == ValueText(v) + tail && (v.Int? ==> !GoesOn(tail))
    ensures ParseValue(b, f, d) == Some(Parsed(Assigned(f, v, d), tail))
  {
    hide ParseInt, ParseItem, ParseItems, NumberText, StringText, ItemsText, Integer, Meaning, ItemsMeaning,
         ProperItems, ProperNumber, Proper, GoesOn, NullAhead;
    NullStart(b);
    if NullAhead(b) {
      v, tail := Null, b[4..];
    } else {
      match f {
        case SchemaField | TimeoutField => v, tail := IntFound(b, f, d);
        case CwdField =>
          var x;
          x, tail := ItemFound(b);
          v := Str(x.value);
        case ArgvField => v, tail := ListFound(b, d);
      }
    }
  }

  // ---------------------------------------------------------------- the object

  /** One field as written: white space before its comma, its name, the colon and its value. */
  datatype Entry = Entry(before: Bytes, gap: Bytes, name: seq<Char>, colon: Bytes, space: Bytes, value: Value)

  ghost function FieldText(f: Field): Bytes {
    match f
    case SchemaField => Ascii("schema_version")
    case ArgvField => Ascii("argv")
    case CwdField => Ascii("cwd")
    case TimeoutField => Ascii("exec_timeout_seconds")
  }

  lemma FieldByText(name: Bytes, f: Field)
    ensures FieldNamed(name) == Some(f) <==> name == FieldText(f)
  {
    NameLengths();
    assert |FieldText(SchemaField)| == 14 && |FieldText(ArgvField)| == 4 && |FieldText(CwdField)| == 3
           && |FieldText(TimeoutField)| == 20;
    assert NameOf(f) == FieldText(f);
    hide NameOf;
  }

  ghost predicate ProperField(e: Entry, f: Field) {
    && Blank(e.before) && Blank(e.gap) && Blank(e.colon) && Blank(e.space) && Proper(e.name) && ProperValue(e.value)
    && Meaning(e.name) == FieldText(f) && Typed(f, e.value)
  }

  ghost function EntryText(e: Entry): Bytes {
    StringText(e.name) + (e.colon + ([COLON] + (e.space + ValueText(e.value))))
  }

  ghost function LaterText(es: seq<Entry>): Bytes {
    if es == [] then [] else es[0].before + ([COMMA] + (es[0].gap + (EntryText(es[0]) + LaterText(es[1..]))))
  }

  ghost function EntriesText(es: seq<Entry>): Bytes {
    if es == [] then [] else es[0].gap + (EntryText(es[0]) + LaterText(es[1..]))
  }

  /** The entries name the pending fields, each once and no other, and lead from one draft to another. */
  ghost predicate Fills(es: seq<Entry>, d: Draft, pending: set<Field>, end: Draft) {
    if es == [] then pending == {} && d == end
    else
      exists f ::
        f in pending && ProperField(es[0], f) && Fills(es[1..], Assigned(f, es[0].value, d), pending - {f}, end)
  }

  lemma LaterStart(es: seq<Entry>, last: Bytes, rest: Bytes, d: Draft, pending: set<Field>, end: Draft)
    requires Fills(es, d, pending, end) && Blank(last)
    ensures !GoesOn(LaterText(es) + (last + ([CLOSE] + rest)))
  {
    hide Fills, EntryText;
    var b := LaterText(es) + (last + ([CLOSE] + rest));
    if es == [] {
      assert b == last + ([CLOSE] + rest);
      if last != [] {
        assert last[0] in last && b[0] == last[0];
      }
    } else {
      FirstProper(es, d, pending, end);
      if es[0].before != [] {
        assert es[0].before[0] in es[0].before && b[0] == es[0].before[0];
      }
    }
  }

  lemma FirstProper(es: seq<Entry>, d: Draft, pending: set<Field>, end: Draft)
    requires Fills(es, d, pending, end) && es != []
    ensures Blank(es[0].before)
  {
    hide Blank, Proper, ProperValue, Meaning;
  }

  lemma EntryRead(e: Entry, f: Field, tail: Bytes, d: Draft, pending: set<Field>)
    requires ProperField(e, f) && f in pending && !GoesOn(tail)
    ensures ParseField(Progress(EntryText(e) + tail, d, pending))
            == Some(Progress(tail, Assigned(f, e.value, d), pending - {f}))
  {
    hide ParseChars, ParseValue, WellFormed, ProperValue, Meaning, Spellings, ValueText, Blank, Trim, FieldNamed,
         GoesOn,
         FieldText, Assigned;
    var b := EntryText(e) + tail;
    var value := ValueText(e.value) + tail;
    var colon := [COLON] + (e.space + value);
    assert b[0] == QUOTE && b[1..] == Spellings(e.name) + [QUOTE] + (e.colon + colon);
    CharsRead(e.name, e.colon + colon);
    FieldByText(Meaning(e.name), f);
    TrimBlank(e.colon, colon);
    assert colon[1..] == e.space + value;
    ValueStart(e.value);
    TrimBlank(e.space, value);
    ValueRead(f, e.value, d, tail);
  }

  lemma EntryFound(s: Progress) returns (e: Entry, f: Field, tail: Bytes)
    requires ParseField(s).Some?
    ensures ProperField(e, f) && f in s.pending && e.before == [] && e.gap == [] && s.rest == EntryText(e) + tail
    ensures e.value.Int? ==> !GoesOn(tail)
    ensures ParseField(s) == Some(Progress(tail, Assigned(f, e.value, s.draft), s.pending - {f}))
  {
    hide ParseChars, ParseValue, WellFormed, ProperValue, Meaning, Spellings, ValueText, Trim, FieldNamed, GoesOn,
         FieldText, Assigned;
    var cs, after := CharsFound(s.rest[1..]);
    f := FieldNamed(Meaning(cs)).value;
    FieldByText(Meaning(cs), f);
    var w := TrimFound(after);
    var colon := Trim(after);
    var v := TrimFound(colon[1..]);
    var value;
    value, tail := ValueFound(Trim(colon[1..]), f, s.draft);
    e := Entry([], [], cs, w, v, value);
    assert colon == [COLON] + colon[1..];
    assert s.rest == [QUOTE] + s.rest[1..];
    EntryJoin(e, tail);
  }

  lemma EntryJoin(e: Entry, tail: Bytes)
    ensures [QUOTE] + (Spellings(e.name) + [QUOTE] + (e.colon + ([COLON] + (e.space + (ValueText(e.value) + tail)))))
            == EntryText(e) + tail
  {
    hide ValueText, Spellings;
  }

  lemma EntryStart(e: Entry)
    ensures EntryText(e) != [] && EntryText(e)[0] == QUOTE
  {
  }

  lemma {:induction false} LaterRead(es: seq<Entry>, last: Bytes, rest: Bytes, d: Draft, pending: set<Field>,
                                     end: Draft)
    requires Fills(es, d, pending, end) && Blank(last)
    ensures ParseFields(Progress(LaterText(es) + (last + ([CLOSE] + rest)), d, pending), false)
            == Some(Parsed(end, rest))
  {
    hide ParseField, EntryText, Trim, Assigned, GoesOn, Proper, ProperValue, Meaning, FieldText;
    var b := LaterText(es) + (last + ([CLOSE] + rest));
    if es == [] {
      assert b == last + ([CLOSE] + rest);
      TrimBlank(last, [CLOSE] + rest);
      assert ([CLOSE] + rest)[1..] == rest;
    } else {
      var e := es[0];
      var f :| f in pending && ProperField(e, f) && Fills(es[1..], Assigned(f, e.value, d), pending - {f}, end);
      var more := LaterText(es[1..]) + (last + ([CLOSE] + rest));
      var text := EntryText(e) + more;
      EntryStart(e);
      assert b == e.before + ([COMMA] + (e.gap + text));
      TrimBlank(e.before, [COMMA] + (e.gap + text));
      assert ([COMMA] + (e.gap + text))[1..] == e.gap + text;
      TrimBlank(e.gap, text);
      LaterStart(es[1..], last, rest, Assigned(f, e.value, d), pending - {f}, end);
      EntryRead(e, f, more, d, pending);
      LaterRead(es[1..], last, rest, Assigned(f, e.value, d), pending - {f}, end);
    }
  }

  lemma FieldsRead(es: seq<Entry>, last: Bytes, rest: Bytes, d: Draft, pending: set<Field>, end: Draft)
    requires Fills(es, d, pending, end) && Blank(last)
    ensures ParseFields(Progress(EntriesText(es) + (last + ([CLOSE] + rest)), d, pending), true)
            == Some(Parsed(end, rest))
  {
    hide ParseField, EntryText, Trim, Assigned, GoesOn, Proper, ProperValue, Meaning, FieldText, LaterText;
    var b := EntriesText(es) + (last + ([CLOSE] + rest));
    if es == [] {
      assert b == last + ([CLOSE] + rest);
      TrimBlank(last, [CLOSE] + rest);
      assert ([CLOSE] + rest)[1..] == rest;
    } else {
      var e := es[0];
      var f :| f in pending && ProperField(e, f) && Fills(es[1..], Assigned(f, e.value, d), pending - {f}, end);
      var more := LaterText(es[1..]) + (last + ([CLOSE] + rest));
      var text := EntryText(e) + more;
      EntryStart(e);
      assert b == e.gap + text;
      TrimBlank(e.gap, text);
      LaterStart(es[1..], last, rest, Assigned(f, e.value, d), pending - {f}, end);
      EntryRead(e, f, more, d, pending);
      LaterRead(es[1..], last, rest, Assigned(f, e.value, d), pending - {f}, end);
    }
  }

  lemma {:induction false} LaterFound(s: Progress) returns (es: seq<Entry>, last: Bytes, rest: Bytes, end: Draft)
    requires ParseFields(s, false).Some?
    ensures Fills(es, s.draft, s.pending, end) && Blank(last)
    ensures s.rest == LaterText(es) + (last + ([CLOSE] + rest)) && ParseFields(s, false) == Some(Parsed(end, rest))
    decreases |s.rest|
  {
    hide ParseField, EntryText, Trim, Assigned, GoesOn, Proper, ProperValue, Meaning, FieldText, Blank;
    var w := TrimFound(s.rest);
    var t := Trim(s.rest);
    if t[0] == CLOSE {
      es, last, rest, end := [], w, t[1..], s.draft;
      assert t == [CLOSE] + t[1..];
      assert s.rest == LaterText(es) + (last + ([CLOSE] + rest));
    } else {
      var v := TrimFound(t[1..]);
      var at := Trim(t[1..]);
      var e, f, more := EntryFound(s.(rest := at));
      assert t == [COMMA] + t[1..];
      var tail;
      tail, last, rest, end := LaterFound(Progress(more, Assigned(f, e.value, s.draft), s.pending - {f}));
      var x := e.(before := w, gap := v);
      es := [x] + tail;
      StillProper(e, x, f);
      assert es[1..] == tail;
      assert s.rest == w + ([COMMA] + (v + (EntryText(e) + more)));
      LaterStep(x, tail, last + ([CLOSE] + rest));
    }
  }

  lemma StillProper(e: Entry, x: Entry, f: Field)
    requires ProperField(e, f) && x == e.(before := x.before, gap := x.gap) && Blank(x.before) && Blank(x.gap)
    ensures ProperField(x, f) && EntryText(x) == EntryText(e)
  {
    hide Proper, ProperValue, Meaning, Blank;
  }

  lemma LaterStep(x: Entry, tail: seq<Entry>, end: Bytes)
    ensures x.before + ([COMMA] + (x.gap + (EntryText(x) + (LaterText(tail) + end)))) == LaterText([x] + tail) + end
    ensures x.gap + (EntryText(x) + (LaterText(tail) + end)) == EntriesText([x] + tail) + end
  {
    hide EntryText;
    assert ([x] + tail)[1..] == tail;
  }

  lemma FieldsFound(s: Progress) returns (es: seq<Entry>, last: Bytes, rest: Bytes, end: Draft)
    requires ParseFields(s, true).Some?
    ensures Fills(es, s.draft, s.pending, end) && Blank(last)
    ensures s.rest == EntriesText(es) + (last + ([CLOSE] + rest)) && ParseFields(s, true) == Some(Parsed(end, rest))
  {
    hide ParseField, EntryText, Trim, Assigned, GoesOn, Proper, ProperValue, Meaning, FieldText, LaterText;
    var w := TrimFound(s.rest);
    var t := Trim(s.rest);
    if t[0] == CLOSE {
      es, last, rest, end := [], w, t[1..], s.draft;
      assert t == [CLOSE] + t[1..];
      assert s.rest == EntriesText(es) + (last + ([CLOSE] + rest));
    } else {
      var e, f, more := EntryFound(s.(rest := t));
      var tail;
      tail, last, rest, end := LaterFound(Progress(more, Assigned(f, e.value, s.draft), s.pending - {f}));
      var x := e.(gap := w);
      es := [x] + tail;
      StillProper(e, x, f);
      assert es[1..] == tail;
      assert s.rest == w + (EntryText(e) + more);
      LaterStep(x, tail, last + ([CLOSE] + rest));
    }
  }

  // ---------------------------------------------------------------- the whole payload

  /** One way to write an object: white space around it, its entries, and white space before its last brace. */
  datatype Layout = Layout(lead: Bytes, entries: seq<Entry>, last: Bytes, trail: Bytes)

  ghost function LayoutText(l: Layout): Bytes {
    l.lead + ([OPEN] + (EntriesText(l.entries) + (l.last + ([CLOSE] + l.trail))))
  }

  /** The layout is of an object with all four fields, which say this. */
  ghost predicate LaysOut(l: Layout, d: Draft) {
    && Blank(l.lead) && Blank(l.last) && Blank(l.trail)
    && Fills(l.entries, Draft(0, [], [], 0), {SchemaField, ArgvField, CwdField, TimeoutField}, d)
  }

  /** A command that may be run: a known version, an executable and at most 255 arguments, an absolute directory, all
      of them text without NUL, and at most a day. */
  ghost predicate Runnable(p: Payload) {
    && p.schema == 1 && 1 <= |p.argv| <= 256 && p.argv[0] != [] && 1 <= p.timeout <= 24 * 60 * 60
    && p.cwd != [] && p.cwd[0] == 47 && ValidUtf8(p.cwd) && 0 !in p.cwd
    && forall a | a in p.argv :: ValidUtf8(a) && 0 !in a
  }

  lemma RunnableExactly(p: Payload)
    ensures Runnable(p) <==> Valid(p)
  {
    hide ValidUtf8;
  }

  lemma {:induction false} SomesBack(argv: seq<Option<Bytes>>)
    requires None !in argv
    ensures Somes(Arguments(argv)) == argv
  {
    if argv != [] {
      assert argv[0] in argv && argv == [argv[0]] + argv[1..];
      SomesBack(argv[1..]);
      var a := Arguments(argv);
      assert a == [argv[0].value] + Arguments(argv[1..]) && a[1..] == Arguments(argv[1..]);
      assert Somes(a) == [Some(a[0])] + Somes(a[1..]);
    }
  }

  /** The text is the canonical form of one way to write this payload. */
  ghost predicate Accepted(encoded: Bytes, p: Payload) {
    && 0 < |encoded| <= 32 * 1024 && Runnable(p)
    && exists l: Layout ::
         && encoded == Base64.Encode(LayoutText(l)) && ValidUtf8(LayoutText(l)) && Paired(Lex(LayoutText(l)))
         && LaysOut(l, Draft(p.schema, Somes(p.argv), p.cwd, p.timeout))
  }

  lemma LayoutRead(l: Layout, d: Draft)
    requires LaysOut(l, d)
    ensures var t := Trim(LayoutText(l));
            && t != [] && t[0] == OPEN
            && ParseFields(Progress(t[1..], EMPTY_DRAFT, ALL_FIELDS), true) == Some(Parsed(d, l.trail))
            && Trim(l.trail) == []
  {
    hide ParseFields, Fills, EntriesText, Trim, Blank;
    var t := [OPEN] + (EntriesText(l.entries) + (l.last + ([CLOSE] + l.trail)));
    TrimBlank(l.lead, t);
    assert t[1..] == EntriesText(l.entries) + (l.last + ([CLOSE] + l.trail));
    FieldsRead(l.entries, l.last, l.trail, EMPTY_DRAFT, ALL_FIELDS, d);
    TrimBlank(l.trail, []);
    assert l.trail + [] == l.trail;
  }

  lemma LayoutFound(b: Bytes, d: Draft) returns (l: Layout)
    requires var t := Trim(b);
             && t != [] && t[0] == OPEN && ParseFields(Progress(t[1..], EMPTY_DRAFT, ALL_FIELDS), true).Some?
             && var r := ParseFields(Progress(t[1..], EMPTY_DRAFT, ALL_FIELDS), true).value;
                r.value == d && Trim(r.rest) == []
    ensures LaysOut(l, d) && b == LayoutText(l)
  {
    hide ParseFields, Fills, EntriesText, Trim, Blank;
    var lead := TrimFound(b);
    var t := Trim(b);
    var es, last, rest, end := FieldsFound(Progress(t[1..], EMPTY_DRAFT, ALL_FIELDS));
    var trail := TrimFound(rest);
    assert trail + [] == trail;
    l := Layout(lead, es, last, trail);
    assert t == [OPEN] + t[1..];
    assert b == LayoutText(l);
  }

  /** The decoder accepts exactly the canonical forms of the objects that write a runnable payload, in whatever layout:
      every field once and no other, each of its own type, no null among the arguments,
      and nothing behind the object. */
  lemma DecodedExactly(encoded: Bytes, p: Payload)
    ensures Decoded(encoded) == Some(p) <==> Accepted(encoded, p)
  {
    hide ParseFields, Lex, Paired, ValidUtf8, Valid, Base64.DecodeCanonical, Base64.Encode, Arguments, Runnable,
         LaysOut,
         LayoutText, Somes;
    RunnableExactly(p);
    var whole := Draft(p.schema, Somes(p.argv), p.cwd, p.timeout);
    if Decoded(encoded) == Some(p) {
      var b := Base64.DecodeCanonical(encoded).value;
      Base64.CanonicalOnly(encoded, b);
      var d := ParseFields(Progress(Trim(b)[1..], EMPTY_DRAFT, ALL_FIELDS), true).value.value;
      SomesBack(d.argv);
      var l := LayoutFound(b, whole);
    }
    if Accepted(encoded, p) {
      var l :| && encoded == Base64.Encode(LayoutText(l)) && ValidUtf8(LayoutText(l)) && Paired(Lex(LayoutText(l)))
               && LaysOut(l, whole);
      Base64.CanonicalOnly(encoded, LayoutText(l));
      LayoutRead(l, whole);
      ArgumentsBack(p.argv);
    }
  }

  // ---------------------------------------------------------------- text

  /** The code points that UTF-8 can carry. */
  ghost predicate Scalar(n: int) {
    0 <= n < 0xD800 || 0xE000 <= n < 0x11_0000
  }

  /** The bytes at the head of a text are the UTF-8 form of a code point exactly if the check takes them as one. */
  lemma RuneExactly(s: Bytes, k: nat)
    requires 0 < k <= |s|
    ensures RuneSize(s) == k <==> exists n :: Scalar(n) && Utf8Of(n) == s[..k]
  {
    if RuneSize(s) == k {
      var n := ScalarOf(s, k);
    }
    if n :| Scalar(n) && Utf8Of(n) == s[..k] {
      ScalarSize(n);
      RuneSizePrefix(s[..k], s[k..]);
      assert s == s[..k] + s[k..];
    }
  }

  lemma Digits64(x: int, y: int)
    requires 0 <= y < 64
    ensures (x * 64 + y) / 64 == x && (x * 64 + y) % 64 == y
  {
  }

  lemma ScalarOf(s: Bytes, k: nat) returns (n: int)
    requires 0 < k <= |s| && RuneSize(s) == k
    ensures Scalar(n) && Utf8Of(n) == s[..k]
  {
    if k == 1 {
      n := s[0] as int;
    } else if k == 2 {
      Digits64(s[0] as int - 0xC0, s[1] as int - 0x80);
      n := (s[0] as int - 0xC0) * 64 + (s[1] as int - 0x80);
    } else if k == 3 {
      n := Scalar3(s);
    } else {
      n := Scalar4(s);
    }
  }

  lemma Scalar3(s: Bytes) returns (n: int)
    requires |s| >= 3 && RuneSize(s) == 3
    ensures Scalar(n) && Utf8Of(n) == s[..3]
  {
    var a, b, c := s[0] as int - 0xE0, s[1] as int - 0x80, s[2] as int - 0x80;
    Digits64(a, b);
    Digits64(a * 64 + b, c);
    n := (a * 64 + b) * 64 + c;
    assert n / 4096 == n / 64 / 64;
  }

  lemma Scalar4(s: Bytes) returns (n: int)
    requires |s| >= 4 && RuneSize(s) == 4
    ensures Scalar(n) && Utf8Of(n) == s[..4]
  {
    var a, b, c, d := s[0] as int - 0xF0, s[1] as int - 0x80, s[2] as int - 0x80, s[3] as int - 0x80;
    Digits64(a, b);
    Digits64(a * 64 + b, c);
    Digits64((a * 64 + b) * 64 + c, d);
    n := ((a * 64 + b) * 64 + c) * 64 + d;
    assert n / 4096 == n / 64 / 64 && n / 262144 == n / 4096 / 64;
  }

  lemma ScalarSize(n: int)
    requires Scalar(n)
    ensures RuneSize(Utf8Of(n)) == |Utf8Of(n)|
  {
  }
}
