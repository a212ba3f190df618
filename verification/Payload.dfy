/** The execution payload: one canonical base64 value that holds one JSON object. Text is a byte string, as a
    string is in Go; only valid UTF-8 without NUL may travel. */
module Payload {
  import opened Basics
  import opened Octets
  import opened Escapes
  import opened JsonText
  import Base64

  const SCHEMA_VERSION := 1
  const MAX_ARGUMENTS := 256
  const MAX_ENCODED := 32768
  const MAX_SECONDS := 86400

  datatype Payload = Payload(schema: int, argv: seq<Bytes>, cwd: Bytes, timeout: int)

  predicate Text(s: Bytes) {
    ValidUtf8(s) && 0 !in s
  }

  /** `Payload.Validate`. */
  predicate Valid(p: Payload) {
    && p.schema == SCHEMA_VERSION
    && 1 <= |p.argv| <= MAX_ARGUMENTS && p.argv[0] != []
    && 1 <= p.timeout <= MAX_SECONDS
    && p.cwd != [] && p.cwd[0] == 47 && Text(p.cwd)
    && forall i | 0 <= i < |p.argv| :: Text(p.argv[i])
  }

  datatype Field = SchemaField | ArgvField | CwdField | TimeoutField

  const ALL_FIELDS: set<Field> := {SchemaField, ArgvField, CwdField, TimeoutField}

  function NameOf(f: Field): Bytes {
    match f
    case SchemaField => Ascii("schema_version")
    case ArgvField => Ascii("argv")
    case CwdField => Ascii("cwd")
    case TimeoutField => Ascii("exec_timeout_seconds")
  }

  function FieldNamed(name: Bytes): Option<Field> {
    if name == NameOf(SchemaField) then Some(SchemaField)
    else if name == NameOf(ArgvField) then Some(ArgvField)
    else if name == NameOf(CwdField) then Some(CwdField)
    else if name == NameOf(TimeoutField) then Some(TimeoutField) else None
  }

  const OPEN: Byte := 123
  const CLOSE: Byte := 125
  const LIST: Byte := 91
  const END_LIST: Byte := 93
  const COMMA: Byte := 44
  const COLON: Byte := 58

  // ---------------------------------------------------------------- writing

  function Items(argv: seq<Bytes>): Bytes {
    if argv == [] then [] else Quoted(argv[0]) + MoreItems(argv[1..])
  }

  function MoreItems(argv: seq<Bytes>): Bytes {
    if argv == [] then [] else [COMMA] + Quoted(argv[0]) + MoreItems(argv[1..])
  }

  function Pair(f: Field, value: Bytes): Bytes {
    Quoted(NameOf(f)) + [COLON] + value
  }

  /** The compact object, its fields in declaration order. */
  function Marshal(p: Payload): Bytes
    requires p.schema >= 0 && p.timeout >= 0
  {
    [OPEN] + Pair(SchemaField, Decimal(p.schema)) + [COMMA] + Pair(ArgvField, [LIST] + Items(p.argv) + [END_LIST])
    + [COMMA] + Pair(CwdField, Quoted(p.cwd)) + [COMMA] + Pair(TimeoutField, Decimal(p.timeout)) + [CLOSE]
  }

  /** `EncodePayload`: nothing for an invalid payload, nor for one whose encoded form is too long. */
  function EncodePayload(p: Payload): (e: Option<Bytes>)
    ensures e.Some? <==> Valid(p) && |Base64.Encode(Marshal(p))| <= MAX_ENCODED
  {
    if Valid(p) && |Base64.Encode(Marshal(p))| <= MAX_ENCODED then Some(Base64.Encode(Marshal(p))) else None
  }

  // ---------------------------------------------------------------- reading

  /** What has been read so far; a null argument is told apart from an empty one. */
  datatype Draft = Draft(schema: int, argv: seq<Option<Bytes>>, cwd: Bytes, timeout: int)

  const EMPTY_DRAFT := Draft(0, [], [], 0)

  predicate NullAhead(b: Bytes) {
    |b| >= 4 && b[0] == 110 && b[1] == 117 && b[2] == 108 && b[3] == 108
  }

  /** A value that is a string, or null. */
  function ParseItem(b: Bytes): (p: Option<Parsed<Option<Bytes>>>)
    ensures p.Some? ==> |p.value.rest| < |b|
  {
    if NullAhead(b) then Some(Parsed(None, b[4..]))
    else if b == [] || b[0] != QUOTE then None
    else
      var s := ParseChars(b[1..]);
      if s.None? then None else Some(Parsed(Some(s.value.value), s.value.rest))
  }

  /** The rest of an array of strings and nulls, after its opening bracket or after one of its items. */
  function ParseItems(b: Bytes, first: bool): (p: Option<Parsed<seq<Option<Bytes>>>>)
    ensures p.Some? ==> |p.value.rest| < |b|
    decreases |b|
  {
    var t := Trim(b);
    if t == [] then None
    else if t[0] == END_LIST then Some(Parsed([], t[1..]))
    else
      var at := if first then t else Trim(t[1..]);
      if !first && t[0] != COMMA then None
      else
        var item := ParseItem(at);
        if item.None? then None
        else
          var more := ParseItems(item.value.rest, false);
          if more.None? then None else Some(Parsed([item.value.value] + more.value.value, more.value.rest))
  }

  /** One value, into the field it belongs to. Null leaves a field as it is, and an array nil. */
  function ParseValue(b: Bytes, f: Field, d: Draft): (p: Option<Parsed<Draft>>)
    ensures p.Some? ==> |p.value.rest| < |b|
  {
    if NullAhead(b) then Some(Parsed(if f == ArgvField then d.(argv := []) else d, b[4..]))
    else match f
         case SchemaField => (var n := ParseInt(b); if n.None? then None
           else Some(Parsed(d.(schema := n.value.value), n.value.rest)))
         case TimeoutField => (var n := ParseInt(b); if n.None? then None
           else Some(Parsed(d.(timeout := n.value.value), n.value.rest)))
         case CwdField =>
           (var s := ParseItem(b);
            if s.None? || s.value.value.None? then None else Some(Parsed(d.(cwd := s.value.value.value), s.value.rest)))
         case ArgvField =>
           if b == [] || b[0] != LIST then None
           else
             var a := ParseItems(b[1..], true);
             if a.None? then None else Some(Parsed(d.(argv := a.value.value), a.value.rest))
  }

  /** The state of the loop over fields: the text left, what was read, and the fields still missing. */
  datatype Progress = Progress(rest: Bytes, draft: Draft, pending: set<Field>)

  /** One field: a known name that was not seen before, a colon, and its value. */
  function ParseField(s: Progress): (t: Option<Progress>)
    ensures t.Some? ==> |t.value.rest| < |s.rest|
  {
    if s.rest == [] || s.rest[0] != QUOTE then None
    else
      var name := ParseChars(s.rest[1..]);
      if name.None? || FieldNamed(name.value.value).None? || FieldNamed(name.value.value).value !in s.pending then None
      else
        var f := FieldNamed(name.value.value).value;
        var colon := Trim(name.value.rest);
        if colon == [] || colon[0] != COLON then None
        else
          var v := ParseValue(Trim(colon[1..]), f, s.draft);
          if v.None? then None else Some(Progress(v.value.rest, v.value.value, s.pending - {f}))
  }

  /** The fields up to the closing brace, separated by commas; all of them must have been there. */
  ghost function ParseFields(s: Progress, first: bool): (p: Option<Parsed<Draft>>)
    decreases |s.rest|
  {
    var t := Trim(s.rest);
    if t == [] || t[0] == END_LIST then None
    else if t[0] == CLOSE then (if s.pending == {} then Some(Parsed(s.draft, t[1..])) else None)
    else
      var at := if first then t else Trim(t[1..]);
      if !first && t[0] != COMMA then None
      else
        var next := ParseField(s.(rest := at));
        if next.None? then None else ParseFields(next.value, false)
  }

  function Arguments(argv: seq<Option<Bytes>>): seq<Bytes>
    requires None !in argv
  {
    if argv == [] then [] else assert argv[0] in argv; [argv[0].value] + Arguments(argv[1..])
  }

  /** The payload that a text stands for, if it is accepted. */
  ghost function Decoded(encoded: Bytes): Option<Payload> {
    if encoded == [] || |encoded| > MAX_ENCODED then None
    else
      var b := Base64.DecodeCanonical(encoded);
      if b.None? || !ValidUtf8(b.value) || !Paired(Lex(b.value)) then None
      else
        var t := Trim(b.value);
        if t == [] || t[0] != OPEN then None
        else
          var d := ParseFields(Progress(t[1..], EMPTY_DRAFT, ALL_FIELDS), true);
          if d.None? || Trim(d.value.rest) != [] || None in d.value.value.argv then None
          else Finish(d.value.value)
  }

  function Finish(d: Draft): Option<Payload>
    requires None !in d.argv
  {
    var p := Payload(d.schema, Arguments(d.argv), d.cwd, d.timeout);
    if Valid(p) then Some(p) else None
  }

  /** `DecodePayload`: the loop over the object's fields, on a text that passed every check before it. */
  method DecodePayload(encoded: Bytes) returns (p: Option<Payload>)
    ensures p == Decoded(encoded)
  {
    hide ValidUtf8, Lex, Paired, ParseField, Valid, Base64.DecodeCanonical;
    if |encoded| == 0 || |encoded| > MAX_ENCODED {
      return None;
    }
    var b := Base64.DecodeCanonical(encoded);
    if b.None? || !ValidUtf8(b.value) {
      return None;
    }
    var paired := ValidEscapedUnicode(b.value);
    if !paired {
      return None;
    }
    var t := Trim(b.value);
    if t == [] || t[0] != OPEN {
      return None;
    }
    var s, first := Progress(t[1..], EMPTY_DRAFT, ALL_FIELDS), true;
    ghost var whole := ParseFields(s, true);
    var at := Trim(s.rest);
    while at != [] && at[0] != CLOSE && at[0] != END_LIST
      invariant at == Trim(s.rest) && ParseFields(s, first) == whole
      decreases |s.rest|
    {
      if !first {
        if at[0] != COMMA {
          return None;
        }
        at := Trim(at[1..]);
      }
      var next := ParseField(s.(rest := at));
      if next.None? {
        return None;
      }
      s, first := next.value, false;
      at := Trim(s.rest);
    }
    if at == [] || at[0] != CLOSE || s.pending != {} {
      return None;
    }
    if Trim(at[1..]) != [] || None in s.draft.argv {
      return None;
    }
    return Finish(s.draft);
  }

  // ---------------------------------------------------------------- reading back what was written

  ghost function Somes(argv: seq<Bytes>): (r: seq<Option<Bytes>>)
    ensures None !in r
  {
    if argv == [] then [] else [Some(argv[0])] + Somes(argv[1..])
  }

  lemma {:induction false} ArgumentsBack(argv: seq<Bytes>)
    ensures Arguments(Somes(argv)) == argv
  {
    if argv != [] {
      ArgumentsBack(argv[1..]);
      assert Somes(argv)[1..] == Somes(argv[1..]);
    }
  }

  lemma ItemBack(s: Bytes, tail: Bytes)
    requires ValidUtf8(s)
    ensures ParseItem(Quoted(s) + tail) == Some(Parsed(Some(s), tail))
  {
    hide ValidUtf8, ParseChars, Escaped;
    var b := Quoted(s) + tail;
    assert b[1..] == Escaped(s) + [QUOTE] + tail;
    ParseEscaped(s, tail);
  }

  lemma {:induction false} MoreItemsBack(argv: seq<Bytes>, rest: Bytes)
    requires forall i | 0 <= i < |argv| :: ValidUtf8(argv[i])
    ensures ParseItems(MoreItems(argv) + [END_LIST] + rest, false) == Some(Parsed(Somes(argv), rest))
  {
    hide ValidUtf8, ParseItem, Escaped;
    var b := MoreItems(argv) + [END_LIST] + rest;
    if argv == [] {
      assert b == [END_LIST] + rest;
      assert b[1..] == rest;
    } else {
      var tail := MoreItems(argv[1..]) + [END_LIST] + rest;
      assert b == [COMMA] + (Quoted(argv[0]) + tail);
      assert b[1..] == Quoted(argv[0]) + tail;
      ItemBack(argv[0], tail);
      MoreItemsBack(argv[1..], rest);
    }
  }

  lemma ItemsBack(argv: seq<Bytes>, rest: Bytes)
    requires argv != [] && forall i | 0 <= i < |argv| :: ValidUtf8(argv[i])
    ensures ParseItems(Items(argv) + [END_LIST] + rest, true) == Some(Parsed(Somes(argv), rest))
  {
    hide ValidUtf8, ParseItem, Escaped;
    var tail := MoreItems(argv[1..]) + [END_LIST] + rest;
    assert Items(argv) + [END_LIST] + rest == Quoted(argv[0]) + tail;
    ItemBack(argv[0], tail);
    MoreItemsBack(argv[1..], rest);
  }

  lemma NameLengths()
    ensures |NameOf(SchemaField)| == 14 && |NameOf(ArgvField)| == 4 && |NameOf(CwdField)| == 3
            && |NameOf(TimeoutField)| == 20
  {
  }

  lemma NamesDiffer(f: Field)
    ensures FieldNamed(NameOf(f)) == Some(f) && ValidUtf8(NameOf(f))
  {
    NameBytes(f);
    ValidAscii(NameOf(f));
    NameLengths();
    hide NameOf, ValidUtf8;
  }

  lemma NameBytes(f: Field)
    ensures forall i | 0 <= i < |NameOf(f)| :: NameOf(f)[i] < 0x80
  {
  }

  /** A written field is read back as that field, whatever follows it. */
  lemma FieldBack(f: Field, value: Bytes, tail: Bytes, d: Draft, e: Draft, pending: set<Field>)
    requires value != [] && !Space(value[0]) && f in pending
    requires ParseValue(value + tail, f, d) == Some(Parsed(e, tail))
    ensures ParseField(Progress(Pair(f, value) + tail, d, pending)) == Some(Progress(tail, e, pending - {f}))
  {
    hide ParseValue, ParseChars, Escaped, NameOf, FieldNamed, ValidUtf8;
    NamesDiffer(f);
    var b := Pair(f, value) + tail;
    var after := [COLON] + value + tail;
    assert b[1..] == Escaped(NameOf(f)) + [QUOTE] + after;
    ParseEscaped(NameOf(f), after);
    assert Trim(after) == after && after[1..] == value + tail;
    assert Trim(value + tail) == value + tail;
  }

  lemma FirstField(f: Field, value: Bytes, tail: Bytes, d: Draft, e: Draft, pending: set<Field>)
    requires value != [] && !Space(value[0]) && f in pending
    requires ParseValue(value + tail, f, d) == Some(Parsed(e, tail))
    ensures ParseFields(Progress(Pair(f, value) + tail, d, pending), true)
            == ParseFields(Progress(tail, e, pending - {f}), false)
  {
    hide ParseValue, ParseField, Escaped, NameOf;
    FieldBack(f, value, tail, d, e, pending);
    assert (Pair(f, value) + tail)[0] == QUOTE;
  }

  lemma NextField(f: Field, value: Bytes, tail: Bytes, d: Draft, e: Draft, pending: set<Field>)
    requires value != [] && !Space(value[0]) && f in pending
    requires ParseValue(value + tail, f, d) == Some(Parsed(e, tail))
    ensures ParseFields(Progress([COMMA] + Pair(f, value) + tail, d, pending), false)
            == ParseFields(Progress(tail, e, pending - {f}), false)
  {
    hide ParseValue, ParseField, Escaped, NameOf;
    FieldBack(f, value, tail, d, e, pending);
    var b := [COMMA] + Pair(f, value) + tail;
    assert b[1..] == Pair(f, value) + tail;
    assert (Pair(f, value) + tail)[0] == QUOTE;
  }

  lemma IntBack(f: Field, n: nat, tail: Bytes, d: Draft)
    requires f == SchemaField || f == TimeoutField
    requires n <= INT_MAX && tail != [] && (tail[0] == COMMA || tail[0] == CLOSE)
    ensures ParseValue(Decimal(n) + tail, f, d)
            == Some(Parsed(if f == SchemaField then d.(schema := n) else d.(timeout := n), tail))
    ensures !Space(Decimal(n)[0])
  {
    hide ParseInt;
    ParseDecimal(n, tail);
  }

  lemma CwdBack(cwd: Bytes, tail: Bytes, d: Draft)
    requires ValidUtf8(cwd)
    ensures ParseValue(Quoted(cwd) + tail, CwdField, d) == Some(Parsed(d.(cwd := cwd), tail))
  {
    hide ParseItem, Escaped;
    ItemBack(cwd, tail);
  }

  lemma ArgvBack(argv: seq<Bytes>, tail: Bytes, d: Draft)
    requires argv != [] && forall i | 0 <= i < |argv| :: ValidUtf8(argv[i])
    ensures ParseValue([LIST] + Items(argv) + [END_LIST] + tail, ArgvField, d)
            == Some(Parsed(d.(argv := Somes(argv)), tail))
  {
    hide ParseItems, Items, ValidUtf8, Somes, ParseInt, ParseItem;
    ItemsBack(argv, tail);
    ListText(Items(argv), tail);
  }

  lemma ListText(items: Bytes, tail: Bytes)
    ensures var b := [LIST] + items + [END_LIST] + tail;
            b[0] == LIST && b[1..] == items + [END_LIST] + tail && !NullAhead(b)
  {
    var b := [LIST] + items + [END_LIST] + tail;
    assert b[1..] == items + [END_LIST] + tail;
  }

  /** The object that `Marshal` writes is read back field by field. */
  lemma FieldsBack(p: Payload)
    requires Valid(p)
    ensures Marshal(p) != [] && Marshal(p)[0] == OPEN
    ensures ParseFields(Progress(Marshal(p)[1..], EMPTY_DRAFT, ALL_FIELDS), true)
            == Some(Parsed(Draft(p.schema, Somes(p.argv), p.cwd, p.timeout), []))
  {
    hide ParseValue, ParseFields, ParseField, Pair, Decimal, Quoted, Items, Somes, Text, ValidUtf8;
    ValidParts(p);
    var v1, v2, v3, v4 := Decimal(p.schema), [LIST] + Items(p.argv) + [END_LIST], Quoted(p.cwd), Decimal(p.timeout);
    var t4: Bytes := [CLOSE];
    var t3 := [COMMA] + Pair(TimeoutField, v4) + t4;
    var t2 := [COMMA] + Pair(CwdField, v3) + t3;
    var t1 := [COMMA] + Pair(ArgvField, v2) + t2;
    assert Marshal(p)[1..] == Pair(SchemaField, v1) + t1;
    var d1 := EMPTY_DRAFT.(schema := p.schema);
    var d2 := d1.(argv := Somes(p.argv));
    var d3 := d2.(cwd := p.cwd);
    var d4 := d3.(timeout := p.timeout);
    IntBack(SchemaField, p.schema, t1, EMPTY_DRAFT);
    FirstField(SchemaField, v1, t1, EMPTY_DRAFT, d1, ALL_FIELDS);
    assert [LIST] + Items(p.argv) + [END_LIST] + t2 == v2 + t2;
    ArgvBack(p.argv, t2, d1);
    NextField(ArgvField, v2, t2, d1, d2, ALL_FIELDS - {SchemaField});
    CwdBack(p.cwd, t3, d2);
    QuotedStart(p.cwd);
    NextField(CwdField, v3, t3, d2, d3, ALL_FIELDS - {SchemaField} - {ArgvField});
    IntBack(TimeoutField, p.timeout, t4, d3);
    NextField(TimeoutField, v4, t4, d3, d4, ALL_FIELDS - {SchemaField} - {ArgvField} - {CwdField});
    assert ALL_FIELDS - {SchemaField} - {ArgvField} - {CwdField} - {TimeoutField} == {};
    LastBrace(d4);
  }

  lemma ValidParts(p: Payload)
    requires Valid(p)
    ensures 0 <= p.schema <= INT_MAX && 0 <= p.timeout <= INT_MAX && p.argv != [] && ValidUtf8(p.cwd)
    ensures forall i | 0 <= i < |p.argv| :: ValidUtf8(p.argv[i])
  {
    hide ValidUtf8;
    forall i | 0 <= i < |p.argv|
      ensures ValidUtf8(p.argv[i])
    {
      assert Text(p.argv[i]);
    }
  }

  lemma QuotedStart(s: Bytes)
    ensures Quoted(s) != [] && Quoted(s)[0] == QUOTE
  {
  }

  lemma LastBrace(d: Draft)
    ensures ParseFields(Progress([CLOSE], d, {}), false) == Some(Parsed(d, []))
  {
    assert Trim([CLOSE]) == [CLOSE] && [CLOSE][1..] == [];
  }

  lemma {:induction false} CleanItems(argv: seq<Bytes>)
    requires forall i | 0 <= i < |argv| :: ValidUtf8(argv[i])
    ensures Clean(MoreItems(argv)) && Clean(Items(argv))
  {
    hide Clean, ValidUtf8, Quoted;
    CleanNothing();
    if argv != [] {
      CleanSign(COMMA);
      CleanQuoted(argv[0]);
      CleanItems(argv[1..]);
      CleanAppend([COMMA], Quoted(argv[0]));
      CleanAppend([COMMA] + Quoted(argv[0]), MoreItems(argv[1..]));
      CleanAppend(Quoted(argv[0]), MoreItems(argv[1..]));
    }
  }

  lemma CleanSign(c: Byte)
    requires c < 0x80 && c != BACKSLASH
    ensures Clean([c])
  {
    ValidAscii([c]);
    CleanPlain([c]);
    hide Clean;
  }

  lemma CleanPair(f: Field, value: Bytes)
    requires Clean(value)
    ensures Clean(Pair(f, value))
  {
    hide Clean, NameOf, Quoted, ValidUtf8;
    NamesDiffer(f);
    CleanQuoted(NameOf(f));
    CleanSign(COLON);
    CleanAppend(Quoted(NameOf(f)), [COLON]);
    CleanAppend(Quoted(NameOf(f)) + [COLON], value);
  }

  /** What `Marshal` writes passes the UTF-8 check and the surrogate scanner. */
  lemma CleanMarshal(p: Payload)
    requires Valid(p)
    ensures Clean(Marshal(p))
  {
    hide Clean, Pair, Decimal, Quoted, Items, Text, ValidUtf8;
    ValidParts(p);
    var v2 := [LIST] + Items(p.argv) + [END_LIST];
    CleanDecimal(p.schema);
    CleanDecimal(p.timeout);
    CleanQuoted(p.cwd);
    CleanItems(p.argv);
    CleanSign(LIST);
    CleanSign(END_LIST);
    CleanSign(COMMA);
    CleanSign(OPEN);
    CleanSign(CLOSE);
    CleanAppend([LIST], Items(p.argv));
    CleanAppend([LIST] + Items(p.argv), [END_LIST]);
    CleanPair(SchemaField, Decimal(p.schema));
    CleanPair(ArgvField, v2);
    CleanPair(CwdField, Quoted(p.cwd));
    CleanPair(TimeoutField, Decimal(p.timeout));
    var a := [OPEN] + Pair(SchemaField, Decimal(p.schema));
    var b := a + [COMMA] + Pair(ArgvField, v2);
    var c := b + [COMMA] + Pair(CwdField, Quoted(p.cwd));
    var d := c + [COMMA] + Pair(TimeoutField, Decimal(p.timeout));
    CleanAppend([OPEN], Pair(SchemaField, Decimal(p.schema)));
    CleanAppend(a, [COMMA]);
    CleanAppend(a + [COMMA], Pair(ArgvField, v2));
    CleanAppend(b, [COMMA]);
    CleanAppend(b + [COMMA], Pair(CwdField, Quoted(p.cwd)));
    CleanAppend(c, [COMMA]);
    CleanAppend(c + [COMMA], Pair(TimeoutField, Decimal(p.timeout)));
    CleanAppend(d, [CLOSE]);
    assert Marshal(p) == d + [CLOSE];
  }

  /** `DecodePayload` undoes `EncodePayload` for every payload that is valid and fits. */
  lemma RoundTrip(p: Payload)
    requires EncodePayload(p).Some?
    ensures Decoded(EncodePayload(p).value) == Some(p)
  {
    hide ParseFields, Marshal, Lex, Paired, ValidUtf8, Clean, Base64.DecodeCanonical, Base64.Encode, Somes, Arguments,
         Text;
    var b := Marshal(p);
    Base64.CanonicalOnly(Base64.Encode(b), b);
    CleanMarshal(p);
    CleanPasses(b);
    FieldsBack(p);
    ArgumentsBack(p.argv);
    EncodedNonempty(b);
  }

  lemma EncodedNonempty(b: Bytes)
    requires b != []
    ensures Base64.Encode(b) != []
  {
  }

  /** Two payloads never share an encoded form. */
  lemma EncodeInjective(p: Payload, q: Payload)
    requires EncodePayload(p).Some? && EncodePayload(p) == EncodePayload(q)
    ensures p == q
  {
    hide EncodePayload, Decoded;
    RoundTrip(p);
    RoundTrip(q);
  }

  /** Whatever is accepted is a valid payload from a canonical text. */
  lemma DecodedValid(encoded: Bytes)
    ensures Decoded(encoded).Some? ==> Valid(Decoded(encoded).value) && |encoded| <= MAX_ENCODED
                                       && exists b :: encoded == Base64.Encode(b) && ValidUtf8(b) && Paired(Lex(b))
  {
    hide ParseFields, Lex, Paired, ValidUtf8, Valid, Base64.DecodeCanonical, Base64.Encode, Arguments;
    if Decoded(encoded).Some? {
      var b := Base64.DecodeCanonical(encoded).value;
      Base64.CanonicalOnly(encoded, b);
    }
  }
}
