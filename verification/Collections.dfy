/** Vocabulary shared by the models: options, weighted totals, duplicate-free
    sequences and removal of one occurrence. */
module Collections {

  datatype Option<T> = None | Some(value: T)

  /** The sum of `f` over `s`. Every conserved counter of the models is such a total. */
  function Total<T>(s: seq<T>, f: T -> int): int {
    if s == [] then 0 else Total(s[..|s| - 1], f) + f(s[|s| - 1])
  }

  lemma TotalAppend<T>(s: seq<T>, x: T, f: T -> int)
    ensures Total(s + [x], f) == Total(s, f) + f(x)
  {
    assert (s + [x])[..|s|] == s;
  }

  lemma {:induction false} TotalConcat<T>(s: seq<T>, t: seq<T>, f: T -> int)
    ensures Total(s + t, f) == Total(s, f) + Total(t, f)
  {
    if t == [] {
      assert s + t == s;
    } else {
      var n := |t| - 1;
      TotalConcat(s, t[..n], f);
      assert (s + t)[..|s| + n] == s + t[..n];
    }
  }

  lemma {:induction false} TotalUpdate<T>(s: seq<T>, i: nat, x: T, f: T -> int)
    requires i < |s|
    ensures Total(s[i := x], f) == Total(s, f) - f(s[i]) + f(x)
  {
    var n := |s| - 1;
    if i == n {
      assert s[i := x][..n] == s[..n];
    } else {
      assert s[i := x][..n] == s[..n][i := x];
      TotalUpdate(s[..n], i, x, f);
    }
  }

  /** Pointwise equal weights have equal totals. */
  lemma {:induction false} TotalCongruence<T, U>(s: seq<T>, f: T -> int, t: seq<U>, g: U -> int)
    requires |s| == |t|
    requires forall i :: 0 <= i < |s| ==> f(s[i]) == g(t[i])
    ensures Total(s, f) == Total(t, g)
  {
    if s != [] {
      TotalCongruence(s[..|s| - 1], f, t[..|s| - 1], g);
    }
  }

  lemma {:induction false} TotalBounds<T>(s: seq<T>, f: T -> int, i: nat)
    requires forall j :: 0 <= j < |s| ==> f(s[j]) >= 0
    requires i < |s|
    ensures f(s[i]) <= Total(s, f)
  {
    var n := |s| - 1;
    if i < n {
      TotalBounds(s[..n], f, i);
    } else {
      TotalNonNegative(s[..n], f);
    }
  }

  lemma {:induction false} TotalNonNegative<T>(s: seq<T>, f: T -> int)
    requires forall j :: 0 <= j < |s| ==> f(s[j]) >= 0
    ensures Total(s, f) >= 0
  {
    if s != [] {
      TotalNonNegative(s[..|s| - 1], f);
    }
  }

  lemma {:induction false} TotalZero<T>(s: seq<T>, f: T -> int)
    requires forall j :: 0 <= j < |s| ==> f(s[j]) == 0
    ensures Total(s, f) == 0
  {
    if s != [] {
      TotalZero(s[..|s| - 1], f);
    }
  }

  predicate NoDup<T(==)>(s: seq<T>) {
    forall i, j :: 0 <= i < j < |s| ==> s[i] != s[j]
  }

  predicate Increasing(s: seq<nat>) {
    forall i, j :: 0 <= i < j < |s| ==> s[i] < s[j]
  }

  /** The position of the first occurrence of `x`. */
  function IndexOf<T(==)>(s: seq<T>, x: T): (i: nat)
    requires x in s
    ensures i < |s| && s[i] == x && x !in s[..i]
  {
    if s[0] == x then 0 else
      var rest := IndexOf(s[1..], x);
      assert s[..rest + 1] == [s[0]] + s[1..][..rest];
      rest + 1
  }

  /** `s` without the first occurrence of `x`, as `deque.remove` and `list.remove` leave it. */
  function Remove<T(==)>(s: seq<T>, x: T): seq<T> {
    if x in s then s[..IndexOf(s, x)] + s[IndexOf(s, x) + 1..] else s
  }

  lemma RemoveMembers<T>(s: seq<T>, x: T)
    requires NoDup(s)
    ensures NoDup(Remove(s, x)) && x !in Remove(s, x)
    ensures forall y :: y in Remove(s, x) <==> y in s && y != x
  {
    if x in s {
      var i := IndexOf(s, x);
      forall y | y in s && y != x ensures y in Remove(s, x) {
        var j :| 0 <= j < |s| && s[j] == y;
        if j < i {
          assert Remove(s, x)[j] == y;
        } else {
          assert Remove(s, x)[j - 1] == y;
        }
      }
    }
  }

  /** Pigeonhole: distinct numbers below `n` are at most `n` many. */
  lemma {:induction false} NoDupBound(s: seq<nat>, n: nat)
    requires NoDup(s)
    requires forall x :: x in s ==> x < n
    ensures |s| <= n
  {
    if s != [] {
      assert s[0] in s;
      RemoveMembers(s, n - 1);
      NoDupBound(Remove(s, n - 1), n - 1);
    }
  }

  /** Pigeonhole, tight case: `n` distinct numbers below `n` are all of them. */
  lemma {:induction false} NoDupFull(s: seq<nat>, n: nat)
    requires NoDup(s) && |s| == n
    requires forall x :: x in s ==> x < n
    ensures forall k: nat :: k < n ==> k in s
  {
    forall k: nat | k < n ensures k in s {
      if k !in s {
        var t := s + [k];
        assert forall x :: x in t ==> x < n;
        NoDupBound(t, n);
      }
    }
  }
}
