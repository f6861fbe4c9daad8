/** The multiply-with-carry generator of lib/random.c, in 32-bit unsigned arithmetic. */
module Random {
  import opened Arithmetic
  import opened Words

  const HALF := 0x1_0000
  const MULTIPLIER := 36969
  const MODULUS := MULTIPLIER * HALF - 1
  const ERROR := -1

  /** One draw; the sum is taken modulo 2^32, which never makes a difference. */
  function Next(seed: UInt): (r: UInt) {
    (MULTIPLIER * (seed % HALF) + seed / HALF) % WORD
  }

  /** A draw is the old seed divided by 2^16 modulo p: it never overflows, never leaves 1..p-1 once
      there, and two seeds never lead to the same one. */
  lemma NextExact(seed: UInt)
    ensures Next(seed) == MULTIPLIER * (seed % HALF) + seed / HALF
    ensures Next(seed) * HALF == seed + MODULUS * (seed % HALF)
    ensures (Next(seed) * HALF) % MODULUS == seed % MODULUS
    ensures 0 < seed < MODULUS ==> 0 < Next(seed) < MODULUS
  {
    DivModUnique(Next(seed) * HALF, MODULUS, seed / MODULUS + seed % HALF, seed % MODULUS);
  }

  lemma NextInjective(a: UInt, b: UInt)
    requires 0 < a < MODULUS && 0 < b < MODULUS && Next(a) == Next(b)
    ensures a == b
  {
    NextExact(a);
    NextExact(b);
  }

  function Draws(seed: UInt, n: nat): (r: UInt) {
    if n == 0 then seed else Next(Draws(seed, n - 1))
  }

  /** Over any number of draws: a seed that is not a multiple of p never yields zero, and a multiple
      of p (0 and p are the only ones in 32 bits) is returned for ever. */
  lemma {:induction false} DrawsDegenerateOnlyFromMultiples(seed: UInt, n: nat)
    ensures Draws(seed, n) % MODULUS == 0 <==> seed % MODULUS == 0
    ensures seed % MODULUS == 0 ==> Draws(seed, n) == seed
    ensures 0 < seed < MODULUS ==> 0 < Draws(seed, n) < MODULUS
  {
    if n > 0 {
      DrawsDegenerateOnlyFromMultiples(seed, n - 1);
      var d := Draws(seed, n - 1);
      NextExact(d);
      NextKeepsClass(d);
    }
  }

  lemma NextKeepsClass(d: UInt)
    ensures Next(d) % MODULUS == 0 <==> d % MODULUS == 0
    ensures d % MODULUS == 0 ==> Next(d) == d
  {
    NextExact(d);
    assert d % MODULUS == 0 ==> d == 0 || d == MODULUS;
    assert Next(d) % MODULUS == 0 ==> Next(d) == 0 || Next(d) == MODULUS;
  }

  class Generator {
    var seed: UInt
    var errno: int

    constructor ()
      ensures seed == 362436069 && errno == 0 && 0 < seed < MODULUS
    {
      seed, errno := 362436069, 0;
    }

    /** As written, it is the old seed that is compared with zero. */
    method Seed(s: UInt)
      modifies this
      ensures old(seed) == 0 ==> seed == 0 && errno == ERROR
      ensures old(seed) != 0 ==> seed == s && errno == old(errno)
    {
      if seed == 0 {
        errno := ERROR;
        return;
      }
      seed := s;
    }

    method Rand() returns (r: UInt)
      modifies this
      ensures r == seed == Next(old(seed)) && errno == 0
    {
      errno := 0;
      seed := (MULTIPLIER * (seed % HALF) + seed / HALF) % WORD;
      return seed;
    }

    method RandMax(max: UInt) returns (r: UInt)
      modifies this
      ensures r <= max
      ensures max == WORD - 1 ==> r == 0 && errno == ERROR && seed == old(seed)
      ensures max < WORD - 1 ==> errno == 0 && seed == Next(old(seed)) && r == seed % (max + 1)
    {
      if max == WORD - 1 {
        errno := ERROR;
        return 0;
      }
      var drawn := Rand();
      return drawn % (max + 1);
    }

    method RandRange(min: UInt, max: UInt) returns (r: UInt)
      modifies this
      ensures min > max ==> r == 0 && errno == ERROR && seed == old(seed)
      ensures min <= max ==> min <= r <= max
      ensures min <= max && max - min < WORD - 1 ==>
                errno == 0 && seed == Next(old(seed)) && r == min + seed % (max - min + 1)
    {
      if min > max {
        errno := ERROR;
        return 0;
      }
      var offset := RandMax(max - min);
      return (offset + min) % WORD;
    }
  }

  datatype Use = Reseed(s: UInt) | Draw

  /** Seeding with zero is accepted once, and then the generator is dead: whatever seeds it is given
      and however often it draws, it only ever draws zero. */
  method SeedZeroIsFinal(g: Generator, uses: seq<Use>) returns (draws: seq<UInt>)
    requires g.seed != 0
    modifies g
    ensures g.seed == 0 && forall i :: 0 <= i < |draws| ==> draws[i] == 0
    ensures |draws| == |uses| - Reseeds(uses)
  {
    g.Seed(0);
    draws := [];
    for n := 0 to |uses|
      invariant g.seed == 0 && forall i :: 0 <= i < |draws| ==> draws[i] == 0
      invariant |draws| == n - Reseeds(uses[..n])
    {
      assert uses[..n + 1][..n] == uses[..n];
      match uses[n] {
        case Reseed(s) => g.Seed(s);
        case Draw =>
          var r := g.Rand();
          draws := draws + [r];
      }
    }
    assert uses[..|uses|] == uses;
  }

  function Reseeds(uses: seq<Use>): nat {
    if uses == [] then 0 else Reseeds(uses[..|uses| - 1]) + if uses[|uses| - 1].Reseed? then 1 else 0
  }
}
