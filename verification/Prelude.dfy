/** Small facts about options, sequences and finite ranges used by every other module. */
module Prelude {

  datatype Option<+T> = None | Some(value: T)

  function Max(a: int, b: int): int {
    if a >= b then a else b
  }

  ghost predicate Distinct<T>(s: seq<T>) {
    forall i, j :: 0 <= i < j < |s| ==> s[i] != s[j]
  }

  /** Drops the element at position i and keeps the others in order. */
  function Without<T>(s: seq<T>, i: nat): (r: seq<T>)
    requires i < |s|
    ensures |r| == |s| - 1
  {
    s[..i] + s[i + 1..]
  }

  lemma WithoutKeepsOthers<T>(s: seq<T>, i: nat)
    requires i < |s| && Distinct(s)
    ensures Distinct(Without(s, i))
    ensures forall x :: x in Without(s, i) <==> x in s && x != s[i]
  {
    var r := Without(s, i);
    forall x | x in s && x != s[i] ensures x in r {
      var k :| 0 <= k < |s| && s[k] == x;
      assert if k < i then r[k] == x else r[k - 1] == x;
    }
  }

  /** Position of x in s, or |s| when it is absent. */
  function IndexOf<T(==)>(s: seq<T>, x: T): (i: nat)
    ensures i <= |s|
    ensures i < |s| ==> s[i] == x
    ensures forall k :: 0 <= k < i ==> s[k] != x
    ensures x in s <==> i < |s|
  {
    if s == [] then 0 else if s[0] == x then 0 else 1 + IndexOf(s[1..], x)
  }

  /** s without its first occurrence of x. */
  function Minus<T(==)>(s: seq<T>, x: T): seq<T> {
    var i := IndexOf(s, x);
    if i < |s| then Without(s, i) else s
  }

  lemma MinusMembers<T>(s: seq<T>, x: T)
    requires Distinct(s)
    ensures Distinct(Minus(s, x))
    ensures forall y :: y in Minus(s, x) <==> y in s && y != x
    ensures x !in s ==> Minus(s, x) == s
  {
    var i := IndexOf(s, x);
    if i < |s| { WithoutKeepsOthers(s, i); }
  }

  /** All below n, where the top one occurs at most once, means all but that one below n - 1. */
  lemma BelowTop(s: seq<nat>, n: nat) returns (r: seq<nat>)
    requires Distinct(s) && n > 0 && forall i :: 0 <= i < |s| ==> s[i] < n
    ensures Distinct(r) && |s| <= |r| + 1 && forall i :: 0 <= i < |r| ==> r[i] < n - 1
  {
    if i :| 0 <= i < |s| && s[i] == n - 1 {
      r := s[..i] + s[i + 1..];
    } else {
      r := s;
    }
  }

  /** A sequence of distinct naturals below n has at most n elements. */
  lemma {:induction false} Pigeonhole(s: seq<nat>, n: nat)
    requires Distinct(s) && forall i :: 0 <= i < |s| ==> s[i] < n
    ensures |s| <= n
    decreases n
  {
    if s != [] {
      assert 0 <= s[0] < n;
      var r := BelowTop(s, n);
      Pigeonhole(r, n - 1);
    }
  }

  // ---- Division ----

  lemma MulOrder(n: nat, a: int, b: int)
    requires a <= b
    ensures n * a <= n * b
  {
  }

  lemma DivUnique(n: nat, a: nat, q: nat, r: nat)
    requires n > 0 && a == n * q + r && r < n
    ensures a / n == q
  {
    if q < a / n { MulOrder(n, q + 1, a / n); }
    if a / n < q { MulOrder(n, a / n + 1, q); }
  }

  lemma Multiple(n: nat, q: nat)
    requires n > 0
    ensures (n * q) % n == 0 && (n * q) / n == q
  {
    DivUnique(n, n * q, q, 0);
  }
}
