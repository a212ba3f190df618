/** Bytes, and the UTF-8 form that a byte string must have to be text. */
module Octets {
  newtype Byte = b: int | 0 <= b < 256

  type Bytes = seq<Byte>

  /** The bytes of an ASCII text. */
  function Ascii(s: string): (b: Bytes)
    requires forall i | 0 <= i < |s| :: s[i] as int < 128
    ensures |b| == |s|
    ensures forall i | 0 <= i < |s| :: b[i] == s[i] as int as Byte
  {
    seq(|s|, i requires 0 <= i < |s| => s[i] as int as Byte)
  }

  predicate Continuation(b: Byte) {
    0x80 <= b < 0xC0
  }

  /** How many bytes the first code point takes; zero if the bytes start with none (RFC 3629, section 4). */
  function RuneSize(s: Bytes): (n: nat)
    ensures n <= |s| && n <= 4
    ensures n == 1 <==> |s| > 0 && s[0] < 0x80
    ensures n > 1 ==> s[0] >= 0xC2 && forall i | 1 <= i < n :: s[i] >= 0x80
  {
    if s == [] then 0
    else if s[0] < 0x80 then 1
    else if |s| < 2 || !Continuation(s[1]) then 0
    else if 0xC2 <= s[0] < 0xE0 then 2
    else if |s| < 3 || !Continuation(s[2]) then 0
    else if 0xE0 <= s[0] < 0xF0 && (s[0] == 0xE0 ==> s[1] >= 0xA0) && (s[0] == 0xED ==> s[1] < 0xA0) then 3
    else if |s| < 4 || !Continuation(s[3]) then 0
    else if 0xF0 <= s[0] < 0xF5 && (s[0] == 0xF0 ==> s[1] >= 0x90) && (s[0] == 0xF4 ==> s[1] < 0x90) then 4
    else 0
  }

  predicate ValidUtf8(s: Bytes) {
    s == [] || (RuneSize(s) > 0 && ValidUtf8(s[RuneSize(s)..]))
  }

  /** The size of the first code point depends on its own bytes only. */
  lemma RuneSizePrefix(s: Bytes, t: Bytes)
    requires RuneSize(s) > 0
    ensures RuneSize(s + t) == RuneSize(s)
  {
  }

  lemma {:induction false} ValidAppend(s: Bytes, t: Bytes)
    requires ValidUtf8(s) && ValidUtf8(t)
    ensures ValidUtf8(s + t)
  {
    hide RuneSize;
    if s == [] {
      assert s + t == t;
    } else {
      var n := RuneSize(s);
      ValidAppend(s[n..], t);
      RuneSizePrefix(s, t);
      assert (s + t)[n..] == s[n..] + t;
    }
  }

  lemma {:induction false} ValidAscii(s: Bytes)
    requires forall i | 0 <= i < |s| :: s[i] < 0x80
    ensures ValidUtf8(s)
  {
    if s != [] {
      ValidAscii(s[1..]);
    }
  }
}
