/** Python's ordering of strings (code point by code point, a proper prefix
    first) and `sorted()` of a list or of a set of strings. */
module Sorting {

  /** a <= b in Python's string order. */
  predicate StrLe(a: string, b: string)
  {
    if a == [] then true
    else if b == [] then false
    else if a[0] != b[0] then a[0] < b[0]
    else StrLe(a[1..], b[1..])
  }

  lemma StrLeRefl(a: string)
    ensures StrLe(a, a)
  {
  }

  lemma StrLeAntisym(a: string, b: string)
    requires StrLe(a, b) && StrLe(b, a)
    ensures a == b
  {
  }

  lemma StrLeTotal(a: string, b: string)
    ensures StrLe(a, b) || StrLe(b, a)
  {
  }

  lemma StrLeTrans(a: string, b: string, c: string)
    requires StrLe(a, b) && StrLe(b, c)
    ensures StrLe(a, c)
  {
  }

  predicate Sorted(s: seq<string>)
  {
    forall i, j {:trigger StrLe(s[i], s[j])} :: 0 <= i < j < |s| ==> StrLe(s[i], s[j])
  }

  /** x inserted into a sorted list before the first element above it. */
  function Insert(x: string, s: seq<string>): (r: seq<string>)
    requires Sorted(s)
    ensures Sorted(r)
    ensures multiset(r) == multiset(s) + multiset{x}
  {
    if s == [] then [x]
    else if StrLe(x, s[0]) then
      assert forall j :: 0 < j < |s| ==> StrLe(s[0], s[j]);
      forall j | 0 <= j < |s| ensures StrLe(x, s[j]) {
        if j > 0 { StrLeTrans(x, s[0], s[j]); }
      }
      [x] + s
    else
      StrLeTotal(x, s[0]);
      var t := Insert(x, s[1..]);
      assert multiset(t) == multiset(s[1..]) + multiset{x};
      forall j | 0 <= j < |t| ensures StrLe(s[0], t[j]) {
        assert t[j] in multiset(t);
        if t[j] != x {
          var k :| 1 <= k < |s| && s[k] == t[j];
        }
      }
      assert s == [s[0]] + s[1..];
      [s[0]] + t
  }

  /** sorted(xs) for a list: the sorted permutation of xs. There is one
      (insertion sort builds it) and only one (SortedUnique), so the result
      does not depend on the algorithm that computes it. */
  function Sort(xs: seq<string>): (r: seq<string>)
    ensures Sorted(r)
    ensures multiset(r) == multiset(xs)
    ensures |r| == |xs|
  {
    SortExists(xs);
    SortOnly(xs);
    var r :| Sorted(r) && multiset(r) == multiset(xs);
    assert |r| == |multiset(r)|;
    r
  }

  lemma SortExists(xs: seq<string>)
    ensures exists r :: Sorted(r) && multiset(r) == multiset(xs)
  {
    var r := InsertionSort(xs);
    assert Sorted(r) && multiset(r) == multiset(xs);
  }

  lemma SortOnly(xs: seq<string>)
    ensures forall a, b :: Sorted(a) && multiset(a) == multiset(xs) && Sorted(b) && multiset(b) == multiset(xs) ==> a == b
  {
    forall a, b | Sorted(a) && multiset(a) == multiset(xs) && Sorted(b) && multiset(b) == multiset(xs)
      ensures a == b
    {
      SortedUnique(a, b);
    }
  }

  /** Insertion sort, from the back of the list. */
  function InsertionSort(xs: seq<string>): (r: seq<string>)
    ensures Sorted(r)
    ensures multiset(r) == multiset(xs)
    ensures |r| == |xs|
  {
    if xs == [] then []
    else
      assert xs == [xs[0]] + xs[1..];
      var r := Insert(xs[0], InsertionSort(xs[1..]));
      assert |r| == |multiset(r)|;
      r
  }

  predicate IsMinOf(m: string, s: set<string>)
  {
    m in s && forall y :: y in s ==> StrLe(m, y)
  }

  lemma MinUnique(s: set<string>)
    ensures forall a, b :: IsMinOf(a, s) && IsMinOf(b, s) ==> a == b
  {
    forall a, b | IsMinOf(a, s) && IsMinOf(b, s) ensures a == b {
      StrLeAntisym(a, b);
    }
  }

  lemma MinExists(s: set<string>)
    requires s != {}
    ensures exists m :: IsMinOf(m, s)
  {
    var x :| x in s;
    StrLeRefl(x);
    if s == {x} {
      assert IsMinOf(x, s);
    } else {
      MinExists(s - {x});
      var m :| IsMinOf(m, s - {x});
      if StrLe(x, m) {
        forall y | y in s ensures StrLe(x, y) {
          if y != x { StrLeTrans(x, m, y); }
        }
        assert IsMinOf(x, s);
      } else {
        StrLeTotal(x, m);
        assert IsMinOf(m, s);
      }
    }
  }

  /** sorted(s) for a set: its elements, each once, in order. */
  function SortedSet(s: set<string>): (r: seq<string>)
    ensures |r| == |s|
    ensures forall x :: x in r <==> x in s
    ensures Sorted(r)
    decreases |s|
  {
    if s == {} then []
    else
      MinExists(s);
      MinUnique(s);
      var m :| IsMinOf(m, s);
      var rest := SortedSet(s - {m});
      ConsMin(m, s, rest);
      [m] + rest
  }

  /** The least element of s followed by the rest of s, sorted, is s sorted. */
  lemma ConsMin(m: string, s: set<string>, rest: seq<string>)
    requires IsMinOf(m, s)
    requires |rest| == |s - {m}| && (forall x :: x in rest <==> x in s - {m})
    requires Sorted(rest)
    ensures var r := [m] + rest;
            && |r| == |s| && (forall x :: x in r <==> x in s) && Sorted(r)
  {
    var r := [m] + rest;
    assert |s - {m}| == |s| - 1;
    forall i, j | 0 <= i < j < |r| ensures StrLe(r[i], r[j]) {
      assert r[j] == rest[j - 1] && r[j] in rest;
      if i > 0 {
        assert r[i] == rest[i - 1];
      }
    }
  }

  /** sorted() of a set lists each element once. */
  lemma {:induction false} SortedSetDistinct(s: set<string>)
    ensures forall i, j :: 0 <= i < j < |SortedSet(s)| ==> SortedSet(s)[i] != SortedSet(s)[j]
    decreases |s|
  {
    if s != {} {
      MinExists(s);
      MinUnique(s);
      var m :| IsMinOf(m, s);
      var rest := SortedSet(s - {m});
      SortedSetDistinct(s - {m});
      var r := SortedSet(s);
      assert r == [m] + rest;
      forall i, j | 0 <= i < j < |r| ensures r[i] != r[j] {
        assert r[j] == rest[j - 1];
        if i > 0 {
          assert r[i] == rest[i - 1];
          assert rest[i - 1] != rest[j - 1];
        } else {
          assert r[i] == m;
          assert rest[j - 1] in rest;
          assert rest[j - 1] in s - {m};
        }
      }
    }
  }

  /** Two sorted lists holding the same elements are the same list, so
      sorted() does not depend on the order it was given its input in. */
  lemma {:induction false} SortedUnique(a: seq<string>, b: seq<string>)
    requires Sorted(a) && Sorted(b) && multiset(a) == multiset(b)
    ensures a == b
  {
    assert |a| == |multiset(a)| == |multiset(b)| == |b|;
    if a != [] {
      SameHead(a, b);
      SortedTail(a);
      SortedTail(b);
      TailCount(a);
      TailCount(b);
      SortedUnique(a[1..], b[1..]);
      assert a == [a[0]] + a[1..];
      assert b == [b[0]] + b[1..];
    }
  }

  /** Sorted lists with the same elements begin with the same element. */
  lemma SameHead(a: seq<string>, b: seq<string>)
    requires Sorted(a) && Sorted(b) && multiset(a) == multiset(b) && a != [] && b != []
    ensures a[0] == b[0]
  {
    assert a[0] in multiset(b) && b[0] in multiset(a);
    var j :| 0 <= j < |b| && b[j] == a[0];
    var k :| 0 <= k < |a| && a[k] == b[0];
    assert StrLe(b[0], a[0]) by { if j > 0 { assert StrLe(b[0], b[j]); } else { StrLeRefl(b[0]); } }
    assert StrLe(a[0], b[0]) by { if k > 0 { assert StrLe(a[0], a[k]); } else { StrLeRefl(a[0]); } }
    StrLeAntisym(a[0], b[0]);
  }

  lemma SortedTail(a: seq<string>)
    requires Sorted(a) && a != []
    ensures Sorted(a[1..])
  {
    forall i, j | 0 <= i < j < |a[1..]| ensures StrLe(a[1..][i], a[1..][j]) {
      assert a[1..][i] == a[i + 1] && a[1..][j] == a[j + 1];
    }
  }

  lemma TailCount(a: seq<string>)
    requires a != []
    ensures multiset(a[1..]) == multiset(a) - multiset{a[0]}
  {
    assert a == [a[0]] + a[1..];
  }

  /** In a list without repeats every element is counted once. */
  lemma {:induction false} DistinctCount(s: seq<string>, x: string)
    requires forall i, j :: 0 <= i < j < |s| ==> s[i] != s[j]
    ensures multiset(s)[x] == if x in s then 1 else 0
  {
    if s != [] {
      assert s == [s[0]] + s[1..];
      DistinctCount(s[1..], x);
      if x == s[0] {
        forall j | 0 <= j < |s[1..]| ensures s[1..][j] != x {
          assert s[1..][j] == s[j + 1];
        }
      }
    }
  }

  /** Two lists without repeats holding the same elements sort alike. */
  lemma SortDistinct(s: seq<string>, t: seq<string>)
    requires forall i, j :: 0 <= i < j < |s| ==> s[i] != s[j]
    requires forall i, j :: 0 <= i < j < |t| ==> t[i] != t[j]
    requires forall x :: x in s <==> x in t
    ensures Sort(s) == Sort(t)
  {
    forall x ensures multiset(s)[x] == multiset(t)[x] {
      DistinctCount(s, x);
      DistinctCount(t, x);
    }
    assert multiset(s) == multiset(t);
    SortedUnique(Sort(s), Sort(t));
  }

  /** sorted() keeps exactly the elements it was given. */
  lemma SortMembers(xs: seq<string>)
    ensures forall x :: x in Sort(xs) <==> x in xs
  {
    forall x ensures x in Sort(xs) <==> x in xs {
      assert x in Sort(xs) <==> x in multiset(Sort(xs));
      assert x in xs <==> x in multiset(xs);
    }
  }
}
