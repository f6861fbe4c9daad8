/** Sequences without repetition, and the removal of a set of elements from one. */
module Lists {

  ghost predicate NoDup<T>(s: seq<T>) {
    forall j, k :: 0 <= j < k < |s| ==> s[j] != s[k]
  }

  lemma NoDupConcat(s: seq<nat>, t: seq<nat>)
    requires NoDup(s) && NoDup(t) && forall x :: x in s ==> x !in t
    ensures NoDup(s + t)
  {
    var u := s + t;
    forall i, j | 0 <= i < j < |u| ensures u[i] != u[j] {
      if i < |s| <= j { assert s[i] in s && t[j - |s|] in t; }
    }
  }

  /** s without the elements of `out`, order kept. */
  function Minus(s: seq<nat>, out: set<nat>): (r: seq<nat>)
    ensures forall x :: x in r <==> x in s && x !in out
    ensures |r| <= |s|
    ensures NoDup(s) ==> NoDup(r)
  {
    if s == [] then []
    else
      var front := Minus(s[..|s| - 1], out);
      assert s == s[..|s| - 1] + [s[|s| - 1]];
      if s[|s| - 1] in out then front else front + [s[|s| - 1]]
  }

  lemma {:induction false} MinusNothing(s: seq<nat>, out: set<nat>)
    requires forall x :: x in s ==> x !in out
    ensures Minus(s, out) == s
  {
    if s != [] {
      var front := s[..|s| - 1];
      assert s == front + [s[|s| - 1]];
      MinusNothing(front, out);
    }
  }

  lemma {:induction false} MinusConcat(a: seq<nat>, b: seq<nat>, out: set<nat>)
    ensures Minus(a + b, out) == Minus(a, out) + Minus(b, out)
  {
    if b == [] {
      assert a + b == a;
    } else {
      var b' := b[..|b| - 1];
      assert (a + b)[..|a + b| - 1] == a + b';
      MinusConcat(a, b', out);
    }
  }

  /** In a list without repetition, removing the element at k splices it out. */
  lemma MinusAt(s: seq<nat>, k: nat)
    requires NoDup(s) && k < |s|
    ensures Minus(s, {s[k]}) == s[..k] + s[k + 1..]
  {
    var out, head, tail := {s[k]}, s[..k] + [s[k]], s[k + 1..];
    assert s == head + tail;
    MinusConcat(head, tail, out);
    MinusNothing(tail, out);
    assert Minus(head, out) == s[..k] by {
      assert head[..|head| - 1] == s[..k];
      MinusNothing(s[..k], out);
    }
  }

  lemma {:induction false} MinusMinus(s: seq<nat>, a: set<nat>, b: set<nat>)
    ensures Minus(Minus(s, a), b) == Minus(s, a + b)
  {
    if s != [] {
      MinusMinus(s[..|s| - 1], a, b);
    }
  }

  /** No node occurs twice, neither in one queue nor in two. */
  ghost predicate Apart(qs: seq<seq<nat>>) {
    && (forall q :: 0 <= q < |qs| ==> NoDup(qs[q]))
    && (forall q, r, x :: 0 <= q < |qs| && 0 <= r < |qs| && x in qs[q] && x in qs[r] ==> q == r)
  }

  ghost predicate Absent(qs: seq<seq<nat>>, n: nat) {
    forall q :: 0 <= q < |qs| ==> n !in qs[q]
  }
}
