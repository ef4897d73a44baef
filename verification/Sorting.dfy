/** Order and sorting: strings by code points, and sequences by any total order. */
module Sorting {
  import opened Collections

  // ---------------------------------------------------------------- strings

  /** Order by code points, the order in which Python sorts keys and Go sorts label names. */
  predicate Before(a: string, b: string) {
    a == [] || (b != [] && (a[0] < b[0] || (a[0] == b[0] && Before(a[1..], b[1..]))))
  }

  lemma {:induction false} BeforeTotal(a: string, b: string)
    ensures Before(a, b) || Before(b, a)
  {
    if a != [] && b != [] && a[0] == b[0] {
      BeforeTotal(a[1..], b[1..]);
    }
  }

  lemma {:induction false} BeforeTransitive(a: string, b: string, c: string)
    requires Before(a, b) && Before(b, c)
    ensures Before(a, c)
  {
    if a != [] && c != [] && a[0] == b[0] == c[0] {
      BeforeTransitive(a[1..], b[1..], c[1..]);
    }
  }

  lemma {:induction false} BeforeAntisymmetric(a: string, b: string)
    requires Before(a, b) && Before(b, a)
    ensures a == b
  {
    if a != [] && b != [] {
      BeforeAntisymmetric(a[1..], b[1..]);
      assert a == [a[0]] + a[1..] && b == [b[0]] + b[1..];
    }
  }

  /** The least key exists and is the only one. */
  lemma {:induction false} LeastKey(ks: set<string>) returns (m: string)
    requires ks != {}
    ensures m in ks && forall j :: j in ks ==> Before(m, j)
    ensures forall k :: k in ks && (forall j :: j in ks ==> Before(k, j)) ==> k == m
    decreases |ks|
  {
    var a :| a in ks;
    BeforeTotal(a, a);
    m := a;
    if ks != {a} {
      var rest := ks - {a};
      assert ks == rest + {a};
      var b := LeastKey(rest);
      BeforeTotal(a, b);
      m := if Before(a, b) then a else b;
      forall j | j in ks ensures Before(m, j) {
        if j != a && Before(a, b) {
          BeforeTransitive(a, b, j);
        }
      }
    }
    forall k | k in ks && (forall j :: j in ks ==> Before(k, j)) ensures k == m {
      BeforeAntisymmetric(k, m);
    }
  }

  lemma LeastKeyExists(ks: set<string>)
    requires ks != {}
    ensures exists k :: k in ks && (forall j :: j in ks ==> Before(k, j))
    ensures forall k, l | k in ks && l in ks ::
      (forall j :: j in ks ==> Before(k, j)) && (forall j :: j in ks ==> Before(l, j)) ==> k == l
  {
    var m := LeastKey(ks);
  }

  /** The keys in ascending order. */
  function SortedKeys(ks: set<string>): (s: seq<string>)
    ensures forall k :: k in s <==> k in ks
    ensures forall i, j :: 0 <= i < j < |s| ==> Before(s[i], s[j]) && s[i] != s[j]
    decreases |ks|
  {
    if ks == {} then [] else
      LeastKeyExists(ks);
      var k :| k in ks && (forall j :: j in ks ==> Before(k, j));
      var rest := SortedKeys(ks - {k});
      assert forall i :: 0 <= i < |rest| ==> rest[i] in rest;
      [k] + rest
  }

  // ---------------------------------------------------------------- sequences

  ghost predicate TotalOrder<T(!new)>(le: (T, T) -> bool) {
    && (forall x, y :: le(x, y) || le(y, x))
    && (forall x, y, z :: le(x, y) && le(y, z) ==> le(x, z))
  }

  ghost predicate Ordered<T>(s: seq<T>, le: (T, T) -> bool) {
    forall i, j :: 0 <= i < j < |s| ==> le(s[i], s[j])
  }

  function Insert<T>(s: seq<T>, x: T, le: (T, T) -> bool): (r: seq<T>)
    ensures |r| == |s| + 1
  {
    if s == [] || le(s[|s| - 1], x) then s + [x]
    else Insert(s[..|s| - 1], x, le) + [s[|s| - 1]]
  }

  /** The sorted copy that a library sort produces. */
  function Sorted<T>(s: seq<T>, le: (T, T) -> bool): (r: seq<T>)
    ensures |r| == |s|
  {
    if s == [] then [] else Insert(Sorted(s[..|s| - 1], le), s[|s| - 1], le)
  }

  lemma {:induction false} InsertIs<T(!new)>(s: seq<T>, x: T, le: (T, T) -> bool)
    requires TotalOrder(le) && Ordered(s, le)
    ensures Ordered(Insert(s, x, le), le)
    ensures multiset(Insert(s, x, le)) == multiset(s) + multiset{x}
  {
    if s != [] && !le(s[|s| - 1], x) {
      var front, last := s[..|s| - 1], s[|s| - 1];
      InsertIs(front, x, le);
      assert s == front + [last];
      var r := Insert(front, x, le);
      forall i | 0 <= i < |r| ensures le(r[i], last) {
        assert r[i] in multiset(r);
        if r[i] != x {
          assert r[i] in front;
        }
      }
    }
  }

  /** Sorting yields the same elements in ascending order. */
  lemma {:induction false} SortedIs<T(!new)>(s: seq<T>, le: (T, T) -> bool)
    requires TotalOrder(le)
    ensures Ordered(Sorted(s, le), le) && multiset(Sorted(s, le)) == multiset(s)
  {
    if s != [] {
      SortedIs(s[..|s| - 1], le);
      InsertIs(Sorted(s[..|s| - 1], le), s[|s| - 1], le);
      assert s == s[..|s| - 1] + [s[|s| - 1]];
    }
  }

  /** A total does not depend on the order of its terms. */
  lemma {:induction false} TotalOfPermutation<T>(s: seq<T>, t: seq<T>, f: T -> int)
    requires multiset(s) == multiset(t)
    ensures Total(s, f) == Total(t, f)
  {
    if s == [] {
      assert |multiset(t)| == 0;
    } else {
      var front, x := s[..|s| - 1], s[|s| - 1];
      assert s == front + [x];
      assert x in multiset(t);
      var i := IndexOf(t, x);
      var rest := t[..i] + t[i + 1..];
      assert t == t[..i] + [x] + t[i + 1..];
      assert multiset(rest) == multiset(t) - multiset{x};
      TotalOfPermutation(front, rest, f);
      TotalConcat(t[..i], t[i + 1..], f);
      TotalConcat(t[..i] + [x], t[i + 1..], f);
      TotalAppend(t[..i], x, f);
    }
  }
}
