/** Shared vocabulary: optional values, the element set of a sequence, and the strict text order that
    Go's `sort.Strings` uses. */
module Basics {
  datatype Option<+T> = None | Some(value: T)

  /** The distinct elements of a list. */
  function Elems<T(==)>(s: seq<T>): set<T> {
    set x | x in s
  }

  predicate NoDuplicates<T(==)>(s: seq<T>) {
    forall i, j :: 0 <= i < j < |s| ==> s[i] != s[j]
  }

  /** A list without repetitions has as many elements as positions. */
  lemma {:induction false} NoDuplicatesSize<T>(s: seq<T>)
    requires NoDuplicates(s)
    ensures |Elems(s)| == |s|
  {
    if s == [] {
      assert Elems(s) == {};
    } else {
      var init, last := s[..|s| - 1], s[|s| - 1];
      NoDuplicatesSize(init);
      assert s == init + [last];
      assert Elems(s) == Elems(init) + {last};
    }
  }

  /** A subset is no larger, and a proper subset is strictly smaller. */
  lemma {:induction false} SubsetSize<T>(a: set<T>, b: set<T>)
    requires a <= b
    ensures |a| <= |b|
    ensures a != b ==> |a| < |b|
  {
    assert b == a + (b - a);
    if a != b {
      assert b - a != {};
    }
  }

  /** Strict lexicographic order on text, the order of Go's string comparison on these ASCII identifiers. */
  predicate Before(a: string, b: string) {
    b != "" && (a == "" || a[0] < b[0] || (a[0] == b[0] && Before(a[1..], b[1..])))
  }

  lemma {:induction false} BeforeTransitive(a: string, b: string, c: string)
    requires Before(a, b) && Before(b, c)
    ensures Before(a, c)
  {
    if a != "" && a[0] == b[0] == c[0] {
      BeforeTransitive(a[1..], b[1..], c[1..]);
    }
  }

  lemma {:induction false} BeforeTotal(a: string, b: string)
    ensures a == b || Before(a, b) || Before(b, a)
    ensures !(Before(a, b) && Before(b, a))
    ensures Before(a, b) ==> a != b
  {
    if a != "" && b != "" && a[0] == b[0] {
      BeforeTotal(a[1..], b[1..]);
      assert a == [a[0]] + a[1..];
      assert b == [b[0]] + b[1..];
    }
  }

  ghost predicate Sorted(s: seq<string>) {
    forall i, j :: 0 <= i < j < |s| ==> Before(s[i], s[j])
  }

  lemma SortedNoDuplicates(s: seq<string>)
    requires Sorted(s)
    ensures NoDuplicates(s)
  {
    forall i, j | 0 <= i < j < |s|
      ensures s[i] != s[j]
    {
      BeforeTotal(s[i], s[j]);
    }
  }

  /** The last of a strictly sorted list is in no other place of it. */
  lemma SortedInit(s: seq<string>)
    requires Sorted(s) && s != []
    ensures Sorted(s[..|s| - 1]) && Elems(s[..|s| - 1]) == Elems(s) - {s[|s| - 1]}
  {
    hide Before;
    var n := |s| - 1;
    SortedNoDuplicates(s);
    assert s == s[..n] + [s[n]];
    assert forall k | 0 <= k < n :: s[k] != s[n];
  }

  lemma NoElems(s: seq<string>)
    ensures Elems(s) == {} <==> s == []
  {
    if s != [] {
      assert s[0] in Elems(s);
    }
  }

  /** No identifier of a strictly sorted list comes after its last. */
  lemma SortedLast(s: seq<string>, x: string)
    requires Sorted(s) && s != [] && x in s
    ensures x == s[|s| - 1] || Before(x, s[|s| - 1])
  {
    hide Before;
  }

  /** Two strictly sorted lists of the same identifiers are the same list: sorting a map's keys has one outcome. */
  lemma {:induction false} SortedUnique(s: seq<string>, t: seq<string>)
    requires Sorted(s) && Sorted(t) && Elems(s) == Elems(t)
    ensures s == t
  {
    hide Before, Sorted;
    NoElems(s);
    NoElems(t);
    if s != [] {
      var x, y := s[|s| - 1], t[|t| - 1];
      assert x in Elems(s) && y in Elems(t);
      SortedLast(s, y);
      SortedLast(t, x);
      BeforeTotal(x, y);
      SortedInit(s);
      SortedInit(t);
      SortedUnique(s[..|s| - 1], t[..|t| - 1]);
      assert s == s[..|s| - 1] + [x] && t == t[..|t| - 1] + [y];
    }
  }

  ghost predicate IsLast(s: set<string>, m: string) {
    m in s && forall x | x in s && x != m :: Before(x, m)
  }

  /** A finite set of identifiers has a last one. */
  lemma {:induction false} LastExists(s: set<string>) returns (m: string)
    requires s != {}
    ensures IsLast(s, m)
  {
    hide Before;
    var y :| y in s;
    var rest := s - {y};
    if rest == {} {
      m := y;
      assert s == {y};
    } else {
      m := LastExists(rest);
      BeforeTotal(m, y);
      assert forall x | x in s :: x == y || x in rest;
      if Before(m, y) {
        forall x | x in rest
          ensures Before(x, y)
        {
          if x != m {
            BeforeTransitive(x, m, y);
          }
        }
        m := y;
      }
    }
  }

  /** The one sorted list of a set of identifiers. */
  ghost function SortedOf(s: set<string>): (r: seq<string>)
    ensures Sorted(r) && Elems(r) == s
  {
    hide Before;
    if s == {} then []
    else
      assert exists m :: IsLast(s, m) by {
        var m := LastExists(s);
      }
      var m :| IsLast(s, m);
      var init := SortedOf(s - {m});
      assert forall x :: x in init <==> x in Elems(init);
      init + [m]
  }

  /** Insert one identifier into a strictly sorted list, keeping it strictly sorted and free of repetitions. */
  method SortedInsert(s: seq<string>, x: string) returns (r: seq<string>)
    requires Sorted(s)
    ensures Sorted(r) && Elems(r) == Elems(s) + {x}
  {
    var i := 0;
    while i < |s| && Before(s[i], x)
      invariant 0 <= i <= |s|
      invariant forall k :: 0 <= k < i ==> Before(s[k], x)
    {
      i := i + 1;
    }
    if i < |s| && s[i] == x {
      assert Elems(s) == Elems(s) + {x};
      return s;
    }
    r := s[..i] + [x] + s[i..];
    forall k | i <= k < |s|
      ensures Before(x, s[k])
    {
      BeforeTotal(s[i], x);
      if k > i {
        BeforeTransitive(x, s[i], s[k]);
      }
    }
    assert Elems(r) == Elems(s) + {x} by {
      assert s == s[..i] + s[i..];
    }
  }
}
