/** The ring buffer of lib/cyclicbuffer.c, for elements of one byte. */
module CyclicBuffers {
  import opened Cells
  import opened Arithmetic

  const FULL_OR_EMPTY := -1

  /** Where index n lands in a ring of the given size. */
  function Around(n: nat, size: nat): (r: nat)
    requires n < 2 * size
    ensures r < size
  {
    if n < size then n else n - size
  }

  lemma ModIsAround(n: nat, size: nat)
    requires n < 2 * size
    ensures n % size == Around(n, size)
  {
    DivModUnique(n, size, if n < size then 0 else 1, Around(n, size));
  }

  /** The n elements from `start` on, around the end of the array. */
  function Ring(data: seq<Byte>, start: nat, n: nat): (s: seq<Byte>)
    requires start < |data| && n <= |data|
    ensures |s| == n && forall i :: 0 <= i < n ==> s[i] == data[Around(start + i, |data|)]
  {
    seq<Byte>(n, i requires 0 <= i < n => data[Around(start + i, |data|)])
  }

  lemma RingPush(data: seq<Byte>, start: nat, n: nat, x: Byte)
    requires start < |data| && n < |data|
    ensures Ring(data[Around(start + n, |data|) := x], start, n + 1) == Ring(data, start, n) + [x]
  {
  }

  lemma RingPop(data: seq<Byte>, start: nat, n: nat)
    requires start < |data| && 0 < n <= |data|
    ensures Ring(data, start, n) == [data[start]] + Ring(data, Around(start + 1, |data|), n - 1)
  {
    var s, t := Ring(data, start, n), Ring(data, Around(start + 1, |data|), n - 1);
    assert forall i :: 0 <= i < n - 1 ==> t[i] == s[i + 1];
  }

  class CyclicBuffer {
    const data: array<Byte>
    var start: nat
    var numEls: nat

    ghost predicate Valid()
      reads this
    {
      start < data.Length && numEls <= data.Length
    }

    ghost function Contents(): (s: seq<Byte>)
      requires Valid()
      reads this, data
      ensures |s| == numEls
    {
      Ring(data[..], start, numEls)
    }

    constructor (size: nat)
      requires size > 0
      ensures Valid() && fresh(data) && data.Length == size && Contents() == []
    {
      data := new Byte[size](_ => 0);
      start, numEls := 0, 0;
    }

    predicate IsFull()
      reads this
    {
      numEls == data.Length
    }

    predicate IsEmpty()
      reads this
    {
      numEls == 0
    }

    method Push(x: Byte) returns (ret: int)
      requires Valid()
      modifies this`numEls, data
      ensures Valid()
      ensures ret == if |old(Contents())| == data.Length then FULL_OR_EMPTY else 0
      ensures Contents() == if |old(Contents())| == data.Length then old(Contents()) else old(Contents()) + [x]
    {
      if IsFull() {
        return FULL_OR_EMPTY;
      }
      ModIsAround(start + numEls, data.Length);
      var insertAt := (start + numEls) % data.Length;
      RingPush(data[..], start, numEls, x);
      data[insertAt] := x;
      numEls := numEls + 1;
      return 0;
    }

    method Pop() returns (ret: int, x: Byte)
      requires Valid()
      modifies this`start, this`numEls
      ensures Valid()
      ensures ret == if old(Contents()) == [] then FULL_OR_EMPTY else 0
      ensures old(Contents()) == [] ==> Contents() == []
      ensures old(Contents()) != [] ==> old(Contents()) == [x] + Contents()
    {
      if IsEmpty() {
        return FULL_OR_EMPTY, 0;
      }
      RingPop(data[..], start, numEls);
      x := data[start];
      ModIsAround(start + 1, data.Length);
      start := (start + 1) % data.Length;
      numEls := numEls - 1;
      return 0, x;
    }
  }
}
