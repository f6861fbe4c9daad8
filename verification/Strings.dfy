/** The parts of lib/string.c that move and compare text, on arrays of characters. */
module Strings {

  const NUL := '\0'

  /** What a string is up to its terminator. */
  function Text(s: string): (t: string)
    ensures |t| <= |s| && t == s[..|t|] && NUL !in t
    ensures |t| < |s| ==> s[|t|] == NUL
  {
    if s == "" || s[0] == NUL then "" else [s[0]] + Text(s[1..])
  }

  /** The terminator is found where it is first met. */
  lemma {:induction false} TextEndsAt(s: string, n: nat)
    requires n < |s| && s[n] == NUL && NUL !in s[..n]
    ensures Text(s) == s[..n]
  {
    if n > 0 {
      assert s[..n][0] == s[0] && s[1..][..n - 1] == s[..n][1..];
      assert forall i :: 0 <= i < n - 1 ==> s[..n][1..][i] in s[..n];
      TextEndsAt(s[1..], n - 1);
    }
  }

  /** `s` with the n characters from `src` on copied to `dest` at once. */
  function Copied(s: string, dest: nat, src: nat, n: nat): (r: string)
    requires dest + n <= |s| && src + n <= |s|
    ensures |r| == |s|
  {
    s[..dest] + s[src..src + n] + s[dest + n..]
  }

  lemma NothingCopied(s: string, dest: nat, src: nat)
    requires dest <= |s| && src <= |s|
    ensures Copied(s, dest, src, 0) == s
  {
  }

  lemma SelfCopied(s: string, at: nat, num: nat)
    requires at + num <= |s|
    ensures Copied(s, at, at, num) == s
  {
  }

  /** One more character, upwards, from what has been copied so far. */
  lemma OneUp(s: string, dest: nat, src: nat, i: nat, num: nat)
    requires i < num && dest + num <= |s| && src + num <= |s| && !(src < dest < src + num)
    ensures var c := Copied(s, dest, src, i); c[dest + i := c[src + i]] == Copied(s, dest, src, i + 1)
  {
    var c := Copied(s, dest, src, i);
    assert c[src + i] == s[src + i];
    assert s[src..src + i + 1] == s[src..src + i] + [s[src + i]];
  }

  /** And downwards. */
  lemma OneDown(s: string, dest: nat, src: nat, n: nat, num: nat)
    requires n < num && src <= dest && dest + num <= |s|
    ensures var c := Copied(s, dest + n + 1, src + n + 1, num - n - 1);
            c[dest + n := c[src + n]] == Copied(s, dest + n, src + n, num - n)
  {
    var c := Copied(s, dest + n + 1, src + n + 1, num - n - 1);
    assert c[src + n] == s[src + n];
    assert s[src + n..src + num] == [s[src + n]] + s[src + n + 1..src + num];
  }

  /** Lowest address first: right unless the destination begins inside the source. */
  method MemCpy(a: array<char>, dest: nat, src: nat, num: nat)
    requires dest + num <= a.Length && src + num <= a.Length
    requires !(src < dest < src + num)
    modifies a
    ensures a[..] == Copied(old(a[..]), dest, src, num)
  {
    hide Copied;
    NothingCopied(a[..], dest, src);
    var i := 0;
    while i < num
      invariant 0 <= i <= num
      invariant a[..] == Copied(old(a[..]), dest, src, i)
    {
      OneUp(old(a[..]), dest, src, i, num);
      ghost var next := a[..][dest + i := a[..][src + i]];
      a[dest + i] := a[src + i];
      assert a[..] == next;
      i := i + 1;
    }
  }

  /** Right for any overlap. */
  method MemMove(a: array<char>, dest: nat, src: nat, num: nat)
    requires dest + num <= a.Length && src + num <= a.Length
    modifies a
    ensures a[..] == Copied(old(a[..]), dest, src, num)
  {
    hide Copied;
    NothingCopied(a[..], dest + num, src + num);
    SelfCopied(a[..], dest, num);
    if dest == src {
      return;
    }
    if src < dest < src + num {
      var n := num;
      while n > 0
        invariant 0 <= n <= num
        invariant a[..] == Copied(old(a[..]), dest + n, src + n, num - n)
      {
        n := n - 1;
        OneDown(old(a[..]), dest, src, n, num);
        ghost var next := a[..][dest + n := a[..][src + n]];
        a[dest + n] := a[src + n];
        assert a[..] == next;
      }
    } else {
      MemCpy(a, dest, src, num);
    }
  }

  lemma {:induction false} TextInside(s: string)
    requires NUL in s
    ensures |Text(s)| < |s|
  {
    if s[0] != NUL {
      assert s == [s[0]] + s[1..];
      TextInside(s[1..]);
    }
  }

  /** Where two texts first part, s has the smaller character or has ended. */
  ghost predicate Before(s: string, t: string) {
    exists i :: 0 <= i <= |s| && i <= |t| && PartAt(s, t, i) && (i == |s| || (i < |t| && s[i] < t[i]))
  }

  /** The texts are the same up to i and not beyond. */
  predicate PartAt(s: string, t: string, i: nat)
    requires i <= |s| && i <= |t|
  {
    s[..i] == t[..i] && (if i < |s| && i < |t| then s[i] != t[i] else i < |s| || i < |t|)
  }

  lemma SameUpTo(s: string, t: string, i: nat, j: nat)
    requires i < j <= |s| && j <= |t| && s[..j] == t[..j]
    ensures s[i] == t[i]
  {
    assert s[i] == s[..j][i] && t[i] == t[..j][i];
  }

  /** strcmp, for strings that have their terminators. */
  method StrCmp(s: array<char>, t: string) returns (r: int)
    requires NUL in s[..] && NUL in t
    ensures r == 0 <==> Text(s[..]) == Text(t)
    ensures r < 0 <==> Before(Text(s[..]), Text(t))
    ensures r > 0 <==> Before(Text(t), Text(s[..]))
  {
    var i := 0;
    TextInside(s[..]);
    TextInside(t);
    while s[i] != NUL && s[i] == t[i]
      invariant 0 <= i <= |Text(s[..])| && i <= |Text(t)| && s[..i] == t[..i]
      decreases s.Length - i
    {
      i := i + 1;
    }
    r := s[i] as int - t[i] as int;
    assert Text(s[..])[..i] == Text(t)[..i];
    Compared(s[..], t, i);
  }

  /** What the first difference, or the common end, says. */
  lemma Compared(s: string, t: string, i: nat)
    requires NUL in s && NUL in t && |Text(s)| < |s| && |Text(t)| < |t|
    requires i <= |Text(s)| && i <= |Text(t)| && Text(s)[..i] == Text(t)[..i]
    requires s[i] == NUL || s[i] != t[i]
    ensures s[i] == t[i] <==> Text(s) == Text(t)
    ensures s[i] < t[i] <==> Before(Text(s), Text(t))
    ensures s[i] > t[i] <==> Before(Text(t), Text(s))
  {
    var u, v := Text(s), Text(t);
    assert i < |u| ==> u[i] == s[i] != NUL;
    assert i < |v| ==> v[i] == t[i] != NUL;
    if s[i] == t[i] {
      assert u == u[..i] && v == v[..i];
    } else {
      assert PartAt(u, v, i) && PartAt(v, u, i);
      forall j | 0 <= j <= |u| && j <= |v| && (PartAt(u, v, j) || PartAt(v, u, j)) ensures j == i {
        if i < j { SameUpTo(u, v, i, j); }
        if j < i { SameUpTo(u, v, j, i); }
      }
    }
  }
}
