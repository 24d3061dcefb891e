/** Intrusive lists: singly linked chains ending in null, and circular rings with a head and a tail. */
module Links {
  import opened Prelude

  type Link = Option<nat>

  /** Following `next` from `head` visits exactly q, then null. */
  ghost predicate Chain(next: seq<Link>, head: Link, q: seq<nat>)
    decreases |q|
  {
    if q == [] then head == None
    else q[0] < |next| && head == Some(q[0]) && Chain(next, next[q[0]], q[1..])
  }

  lemma {:induction false} ChainFrame(next: seq<Link>, next': seq<Link>, head: Link, q: seq<nat>)
    requires Chain(next, head, q) && |next'| == |next| && forall x :: x in q && x < |next| ==> next'[x] == next[x]
    ensures Chain(next', head, q)
    decreases |q|
  {
    if q != [] {
      assert q[0] in q && forall x :: x in q[1..] ==> x in q;
      ChainFrame(next, next', next[q[0]], q[1..]);
    }
  }

  /** The link that leads to position i of the chain. */
  lemma {:induction false} ChainAt(next: seq<Link>, head: Link, q: seq<nat>, i: nat)
    requires Chain(next, head, q) && i <= |q|
    ensures forall k :: 0 <= k < |q| ==> q[k] < |next|
    ensures Chain(next, if i == 0 then head else next[q[i - 1]], q[i..])
    decreases |q|
  {
    if i > 0 {
      ChainAt(next, next[q[0]], q[1..], i - 1);
      assert q[i..] == q[1..][i - 1..];
      forall k | 0 <= k < |q| ensures q[k] < |next| {
        if k > 0 { assert q[k] == q[1..][k - 1]; }
      }
    } else if q != [] {
      ChainAt(next, next[q[0]], q[1..], 0);
      forall k | 0 <= k < |q| ensures q[k] < |next| {
        if k > 0 { assert q[k] == q[1..][k - 1]; }
      }
    }
  }

  /** Unlinking position i: its predecessor (or the head) takes over its link. */
  lemma {:induction false} ChainUnlink(next: seq<Link>, head: Link, q: seq<nat>, i: nat)
    requires Chain(next, head, q) && Distinct(q) && i < |q|
    ensures q[i] < |next| && (i > 0 ==> q[i - 1] < |next|)
    ensures i == 0 ==> Chain(next[q[i] := None], next[q[i]], Without(q, i))
    ensures i > 0 ==> Chain(next[q[i - 1] := next[q[i]]][q[i] := None], head, Without(q, i))
    decreases |q|
  {
    ChainAt(next, head, q, i);
    if i == 0 {
      assert Without(q, 0) == q[1..];
      ChainFrame(next, next[q[0] := None], next[q[0]], q[1..]);
    } else {
      var next' := next[q[i - 1] := next[q[i]]][q[i] := None];
      assert Distinct(q[1..]);
      ChainUnlink(next, next[q[0]], q[1..], i - 1);
      var r := Without(q, i);
      assert r != [] && r[0] == q[0] && r[1..] == Without(q[1..], i - 1);
      assert i == 1 ==> Without(q[1..], 0) == q[2..];
      hide Without;
      if i == 1 {
        ChainFrame(next[q[1] := None], next', next[q[1]], q[2..]);
      } else {
        assert q[1..][i - 1] == q[i] && q[1..][i - 2] == q[i - 1];
      }
    }
  }

  /** A circular list: head first, tail last, the tail pointing back at the head. */
  ghost predicate Ring(next: seq<Link>, head: Link, tail: Link, q: seq<nat>) {
    && (forall i :: 0 <= i < |q| ==> q[i] < |next|)
    && (if q == [] then head == None && tail == None else head == Some(q[0]) && tail == Some(q[|q| - 1]))
    && (forall i :: 0 <= i < |q| - 1 ==> next[q[i]] == Some(q[i + 1]))
    && (q != [] ==> next[q[|q| - 1]] == Some(q[0]))
  }

  lemma RingAppend(next: seq<Link>, q: seq<nat>, t: nat, next': seq<Link>)
    requires q != [] && Ring(next, Some(q[0]), Some(q[|q| - 1]), q) && Distinct(q) && t !in q && t < |next|
    requires next' == next[t := Some(q[0])][q[|q| - 1] := Some(t)]
    ensures Ring(next', Some(q[0]), Some(t), q + [t])
  {
    var r := q + [t];
    assert q[|q| - 1] in q;
    forall i | 0 <= i < |r| - 1 ensures next'[r[i]] == Some(r[i + 1]) {
      assert r[i] == q[i] && q[i] in q;
    }
  }

  /** Unlinking position i of a ring of several: the cyclic predecessor takes over its link. */
  lemma RingUnlink(next: seq<Link>, q: seq<nat>, i: nat, next': seq<Link>)
    requires |q| >= 2 && i < |q| && Ring(next, Some(q[0]), Some(q[|q| - 1]), q) && Distinct(q)
    requires next' == next[q[if i == 0 then |q| - 1 else i - 1] := next[q[i]]][q[i] := None]
    ensures var r := Without(q, i); Ring(next', Some(r[0]), Some(r[|r| - 1]), r)
  {
    var r := Without(q, i);
    assert forall k :: 0 <= k < |r| ==> r[k] == if k < i then q[k] else q[k + 1];
  }

  /** Read from another starting point, a ring is still closed and still in link order. */
  lemma RingRotate(next: seq<Link>, q: seq<nat>, i: nat, r: seq<nat>)
    requires q != [] && i < |q| && Ring(next, Some(q[0]), Some(q[|q| - 1]), q) && Distinct(q)
    requires r == q[i + 1..] + q[..i + 1]
    ensures |r| == |q| && Distinct(r) && forall k :: 0 <= k < |r| ==> r[k] < |next|
    ensures forall k :: 0 <= k < |r| - 1 ==> next[r[k]] == Some(r[k + 1])
    ensures r[|r| - 1] == q[i] && next[q[i]] == Some(r[0])
  {
    var n := |q|;
    assert forall k :: 0 <= k < n ==> r[k] == q[if i + 1 + k < n then i + 1 + k else i + 1 + k - n];
    forall k | 0 <= k < n - 1 ensures next[r[k]] == Some(r[k + 1]) {
      var p := if i + 1 + k < n then i + 1 + k else i + 1 + k - n;
      assert r[k] == q[p] && r[k + 1] == q[if p + 1 < n then p + 1 else 0];
    }
  }
}
