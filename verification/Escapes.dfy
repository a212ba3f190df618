/** Unicode escapes in JSON text: the scanner that rejects every unpaired surrogate before anything is decoded. */
module Escapes {
  import opened Basics
  import opened Octets

  const BACKSLASH: Byte := 92
  const QUOTE: Byte := 34
  const LOWER_U: Byte := 117

  function HexValue(c: Byte): (v: int)
    ensures -1 <= v < 16
  {
    var n := c as int;
    if 48 <= n < 58 then n - 48
    else if 97 <= n < 103 then n - 97 + 10
    else if 65 <= n < 71 then n - 65 + 10 else -1
  }

  /** The code unit that four hexadecimal digits spell. */
  function HexQuad(b: Bytes): (u: Option<int>)
    requires |b| >= 4
    ensures u.Some? ==> 0 <= u.value < 0x1_0000
  {
    var p, q, r, t := HexValue(b[0]), HexValue(b[1]), HexValue(b[2]), HexValue(b[3]);
    if p < 0 || q < 0 || r < 0 || t < 0 then None else Some(p * 4096 + q * 256 + r * 16 + t)
  }

  /** What the text consists of, read from the left. */
  datatype Token = Plain(b: Byte) | Escape(b: Byte) | Unit(n: int) | BadUnit | Dangling

  ghost function Lex(b: Bytes): seq<Token> {
    if b == [] then []
    else if b[0] != BACKSLASH then [Plain(b[0])] + Lex(b[1..])
    else if |b| == 1 then [Dangling]
    else if b[1] != LOWER_U then [Escape(b[1])] + Lex(b[2..])
    else if |b| < 6 || HexQuad(b[2..]).None? then [BadUnit] + Lex(b[2..])
    else [Unit(HexQuad(b[2..]).value)] + Lex(b[6..])
  }

  ghost predicate High(t: Token) {
    t.Unit? && 0xD800 <= t.n <= 0xDBFF
  }

  ghost predicate Low(t: Token) {
    t.Unit? && 0xDC00 <= t.n <= 0xDFFF
  }

  /** Every unit escape is well formed, every high surrogate is followed at once by a low one, and every low one
      follows a high one. */
  ghost predicate Paired(ts: seq<Token>) {
    && BadUnit !in ts
    && (forall i | 0 <= i < |ts| && High(ts[i]) :: i + 1 < |ts| && Low(ts[i + 1]))
    && (forall i | 0 <= i < |ts| && Low(ts[i]) :: i > 0 && High(ts[i - 1]))
  }

  /** One token that is no surrogate, or one pair, leaves the question to the rest. */
  lemma PairedStep(ts: seq<Token>)
    requires ts != []
    ensures !High(ts[0]) && !Low(ts[0]) && ts[0] != BadUnit ==> (Paired(ts) <==> Paired(ts[1..]))
    ensures |ts| > 1 && High(ts[0]) && Low(ts[1]) ==> (Paired(ts) <==> Paired(ts[2..]))
    ensures ts[0] == BadUnit || Low(ts[0]) || (High(ts[0]) && !(|ts| > 1 && Low(ts[1]))) ==> !Paired(ts)
  {
    if !High(ts[0]) && !Low(ts[0]) && ts[0] != BadUnit {
      SkipKeeps(ts, 1);
    } else if |ts| > 1 && High(ts[0]) && Low(ts[1]) {
      SkipKeeps(ts, 2);
    }
  }

  lemma SkipKeeps(ts: seq<Token>, n: nat)
    requires n <= |ts| && (n == 1 || n == 2)
    requires n == 1 ==> !High(ts[0]) && !Low(ts[0]) && ts[0] != BadUnit
    requires n == 2 ==> High(ts[0]) && Low(ts[1])
    ensures Paired(ts) <==> Paired(ts[n..])
  {
    var rest := ts[n..];
    assert forall i | 0 <= i < |rest| :: rest[i] == ts[n + i];
    assert BadUnit in ts <==> BadUnit in rest;
    if Paired(ts) {
      forall i | 0 <= i < |rest| && High(rest[i])
        ensures i + 1 < |rest| && Low(rest[i + 1])
      {
        assert High(ts[n + i]);
      }
      forall i | 0 <= i < |rest| && Low(rest[i])
        ensures i > 0 && High(rest[i - 1])
      {
        assert Low(ts[n + i]);
      }
    }
    if Paired(rest) {
      forall i | 0 <= i < |ts| && High(ts[i])
        ensures i + 1 < |ts| && Low(ts[i + 1])
      {
        if i >= n {
          assert High(rest[i - n]);
        }
      }
      forall i | 0 <= i < |ts| && Low(ts[i])
        ensures i > 0 && High(ts[i - 1])
      {
        if i >= n {
          assert Low(rest[i - n]);
        }
      }
    }
  }

  /** One token from the left, and where the next begins. */
  lemma LexStep(b: Bytes, i: nat)
    requires i < |b|
    ensures b[i] != BACKSLASH ==> Lex(b[i..]) == [Plain(b[i])] + Lex(b[i + 1..])
    ensures b[i] == BACKSLASH && i + 1 == |b| ==> Lex(b[i..]) == [Dangling]
    ensures b[i] == BACKSLASH && i + 1 < |b| && b[i + 1] != LOWER_U ==>
              Lex(b[i..]) == [Escape(b[i + 1])] + Lex(b[i + 2..])
    ensures b[i] == BACKSLASH && i + 1 < |b| && b[i + 1] == LOWER_U && (i + 6 > |b| || HexQuad(b[i + 2..]).None?)
            ==> Lex(b[i..]) == [BadUnit] + Lex(b[i + 2..])
    ensures b[i] == BACKSLASH && i + 6 <= |b| && b[i + 1] == LOWER_U && HexQuad(b[i + 2..]).Some?
            ==> Lex(b[i..]) == [Unit(HexQuad(b[i + 2..]).value)] + Lex(b[i + 6..])
  {
    var s := b[i..];
    assert s[1..] == b[i + 1..];
    if i + 1 < |b| {
      assert s[2..] == b[i + 2..];
    }
    if i + 6 <= |b| {
      assert s[6..] == b[i + 6..];
    }
  }

  /** The digits at one place, as the scanner reads them: four of them, or failure. */
  method ReadHex(b: Bytes, start: nat) returns (n: int, ok: bool)
    ensures ok <==> start + 4 <= |b| && HexQuad(b[start..]).Some?
    ensures ok ==> n == HexQuad(b[start..]).value
  {
    if start + 4 > |b| {
      return 0, false;
    }
    n := 0;
    var d := b[start..start + 4];
    assert forall k | 0 <= k < 4 :: b[start..][k] == d[k];
    for k := 0 to 4
      invariant forall j | 0 <= j < k :: HexValue(d[j]) >= 0
      invariant n == HexPrefix(d, k)
    {
      var v := HexValue(d[k]);
      if v < 0 {
        return 0, false;
      }
      n := n * 16 + v;
    }
    ok := true;
    assert HexPrefix(d, 2) == HexValue(d[0]) * 16 + HexValue(d[1]);
    assert HexPrefix(d, 4) == (HexPrefix(d, 2) * 16 + HexValue(d[2])) * 16 + HexValue(d[3]);
  }

  /** The value of the first `k` digits. */
  ghost function HexPrefix(d: Bytes, k: nat): int
    requires k <= |d|
  {
    if k == 0 then 0 else HexPrefix(d, k - 1) * 16 + HexValue(d[k - 1])
  }

  /** `validEscapedUnicode` accepts exactly the texts whose tokens pair every surrogate. */
  method ValidEscapedUnicode(b: Bytes) returns (valid: bool)
    ensures valid <==> Paired(Lex(b))
  {
    hide Paired, HexQuad, HexValue;
    var i := 0;
    assert b[0..] == b;
    while i < |b|
      invariant 0 <= i <= |b|
      invariant Paired(Lex(b)) <==> Paired(Lex(b[i..]))
    {
      LexStep(b, i);
      PairedStep(Lex(b[i..]));
      if b[i] != BACKSLASH {
        i := i + 1;
        continue;
      }
      if i + 1 >= |b| {
        NothingPaired();
        return true;
      }
      if b[i + 1] != LOWER_U {
        i := i + 2;
        continue;
      }
      var n, ok := ReadHex(b, i + 2);
      if !ok {
        return false;
      }
      if 0xDC00 <= n <= 0xDFFF {
        return false;
      }
      if 0xD800 <= n <= 0xDBFF {
        if i + 6 < |b| {
          LexStep(b, i + 6);
        }
        if i + 11 >= |b| || b[i + 6] != BACKSLASH || b[i + 7] != LOWER_U {
          return false;
        }
        var low;
        low, ok := ReadHex(b, i + 8);
        if !ok || low < 0xDC00 || low > 0xDFFF {
          return false;
        }
        assert Lex(b[i..])[2..] == Lex(b[i + 12..]);
        i := i + 12;
      } else {
        i := i + 6;
      }
    }
    assert b[i..] == [];
    NothingPaired();
    return true;
  }

  lemma NothingPaired()
    ensures Paired([]) && Paired([Dangling])
  {
  }
}
