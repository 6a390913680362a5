/** Byte-wise string order, sort.Strings as the sorted permutation, and strings.Join with one separator. */
module Sorting {

  /** a < b in Go; code point order and UTF-8 byte order agree. */
  predicate Less(a: string, b: string) {
    b != "" && (a == "" || a[0] < b[0] || (a[0] == b[0] && Less(a[1..], b[1..])))
  }

  predicate AtMost(a: string, b: string) {
    !Less(b, a)
  }

  lemma {:induction false} OrderIsTotal(a: string, b: string)
    ensures AtMost(a, b) || AtMost(b, a)
    ensures AtMost(a, b) && AtMost(b, a) ==> a == b
  {
    if a != "" && b != "" && a[0] == b[0] {
      OrderIsTotal(a[1..], b[1..]);
      assert a == [a[0]] + a[1..] && b == [b[0]] + b[1..];
    }
  }

  lemma {:induction false} AtMostIsTransitive(a: string, b: string, c: string)
    requires AtMost(a, b) && AtMost(b, c)
    ensures AtMost(a, c)
  {
    if a != "" && b != "" && c != "" && a[0] == b[0] == c[0] {
      AtMostIsTransitive(a[1..], b[1..], c[1..]);
    }
  }

  ghost predicate Sorted(s: seq<string>) {
    forall i, j :: 0 <= i < j < |s| ==> AtMost(s[i], s[j])
  }

  function Insert(x: string, s: seq<string>): (r: seq<string>)
    requires Sorted(s)
    ensures Sorted(r) && multiset(r) == multiset{x} + multiset(s)
  {
    if s == [] then [x]
    else if AtMost(x, s[0]) then
      assert forall j :: 0 <= j < |s| ==> AtMost(x, s[j]) by {
        forall j | 0 < j < |s| ensures AtMost(x, s[j]) {
          AtMostIsTransitive(x, s[0], s[j]);
        }
      }
      [x] + s
    else
      var rest := Insert(x, s[1..]);
      assert s == [s[0]] + s[1..];
      assert forall t :: t in rest ==> AtMost(s[0], t) by {
        OrderIsTotal(x, s[0]);
        forall t | t in rest ensures AtMost(s[0], t) {
          assert t in multiset(rest);
          assert t == x || t in s[1..];
        }
      }
      [s[0]] + rest
  }

  /** sort.Strings. */
  function Sort(s: seq<string>): (r: seq<string>)
    ensures Sorted(r) && multiset(r) == multiset(s)
  {
    if s == [] then []
    else
      assert s == s[..|s| - 1] + [s[|s| - 1]];
      Insert(s[|s| - 1], Sort(s[..|s| - 1]))
  }

  lemma SmallestIsFirst(a: seq<string>, b: seq<string>)
    requires Sorted(a) && a != [] && b != [] && b[0] in a
    ensures AtMost(a[0], b[0])
  {
    var j :| 0 <= j < |a| && a[j] == b[0];
    if j == 0 {
      OrderIsTotal(a[0], a[0]);
    }
  }

  lemma TailOf(a: seq<string>)
    requires a != []
    ensures a == [a[0]] + a[1..] && multiset(a[1..]) == multiset(a) - multiset{a[0]}
  {
    assert a == [a[0]] + a[1..];
  }

  lemma {:induction false} SortedPermutationsAgree(a: seq<string>, b: seq<string>)
    requires Sorted(a) && Sorted(b) && multiset(a) == multiset(b)
    ensures a == b
  {
    hide AtMost;
    assert |multiset(a)| == |a| && |multiset(b)| == |b|;
    if a != [] {
      assert a[0] in multiset(b) && b[0] in multiset(a);
      SmallestIsFirst(a, b);
      SmallestIsFirst(b, a);
      OrderIsTotal(a[0], b[0]);
      TailOf(a);
      TailOf(b);
      SortedPermutationsAgree(a[1..], b[1..]);
    }
  }

  /** Two lists sort to the same list exactly when one is a permutation of the other. */
  lemma SortIsCanonical(a: seq<string>, b: seq<string>)
    ensures Sort(a) == Sort(b) <==> multiset(a) == multiset(b)
  {
    if multiset(a) == multiset(b) {
      SortedPermutationsAgree(Sort(a), Sort(b));
    }
  }

  lemma SortKeepsMembers(s: seq<string>)
    ensures |Sort(s)| == |s|
    ensures forall x :: x in Sort(s) <==> x in s
  {
    assert |multiset(s)| == |s| && |multiset(Sort(s))| == |Sort(s)|;
    forall x
      ensures x in Sort(s) <==> x in s
    {
      assert x in multiset(Sort(s)) <==> x in multiset(s);
    }
  }

  /** strings.Join with a one-character separator. */
  function Join(parts: seq<string>, sep: char): string {
    if parts == [] then ""
    else if |parts| == 1 then parts[0]
    else parts[0] + [sep] + Join(parts[1..], sep)
  }

  lemma FirstSeparator(p: string, q: string, u: string, v: string, sep: char)
    requires sep !in p && sep !in q
    requires p + [sep] + u == q + [sep] + v
    ensures p == q && u == v
  {
    var s := p + [sep] + u;
    assert s[|p|] == sep && s[|q|] == sep;
    assert forall i :: 0 <= i < |p| ==> s[i] == p[i] != sep;
    assert s == q + [sep] + v && forall i :: 0 <= i < |q| ==> s[i] == q[i] != sep;
    assert |p| == |q|;
    assert p == s[..|p|] && q == s[..|q|];
    assert u == s[|p| + 1..] && v == s[|q| + 1..];
  }

  ghost predicate FreeOf(parts: seq<string>, sep: char) {
    forall p :: p in parts ==> sep !in p
  }

  lemma {:induction false} JoinIsInjective(a: seq<string>, b: seq<string>, sep: char)
    requires a != [] && b != [] && FreeOf(a, sep) && FreeOf(b, sep)
    requires Join(a, sep) == Join(b, sep)
    ensures a == b
  {
    assert a[0] in a && b[0] in b;
    if |a| == 1 {
      if |b| > 1 {
        JoinOfSeveralHasSeparator(b, sep);
        assert false;
      }
    } else if |b| == 1 {
      JoinOfSeveralHasSeparator(a, sep);
      assert false;
    } else {
      FirstSeparator(a[0], b[0], Join(a[1..], sep), Join(b[1..], sep), sep);
      JoinIsInjective(a[1..], b[1..], sep);
      assert a == [a[0]] + a[1..] && b == [b[0]] + b[1..];
    }
  }

  lemma {:induction false} JoinOfSeveralHasSeparator(parts: seq<string>, sep: char)
    requires |parts| >= 2
    ensures sep in Join(parts, sep)
  {
    assert Join(parts, sep)[|parts[0]|] == sep;
  }
}
