/** Numbers to text and back: lib/print.c and atoi of lib/stdlib.c, in 32-bit arithmetic. */
module Numbers {
  import opened Arithmetic
  import opened Strings
  import opened Words

  function DigitChar(d: nat, uc: bool): (c: char)
    requires d < 16
    ensures A2D(c) == d
  {
    if d < 10 then ('0' as int + d) as char else ((if uc then 'A' else 'a') as int + d - 10) as char
  }

  /** The value of a digit, or -1. */
  function A2D(ch: char): (d: int)
    ensures -1 <= d < 16
  {
    if '0' <= ch <= '9' then ch as int - '0' as int
    else if 'a' <= ch <= 'f' then ch as int - 'a' as int + 10
    else if 'A' <= ch <= 'F' then ch as int - 'A' as int + 10
    else -1
  }

  const LOWER := "0123456789abcdef"
  const UPPER := "0123456789ABCDEF"

  /** Digits are printed in the case asked for and read in either, and no other character is a digit. */
  lemma DigitsExact(d: nat, uc: bool, c: char)
    requires d < 16
    ensures DigitChar(d, uc) == (if uc then UPPER else LOWER)[d]
    ensures A2D(c) == d <==> c == LOWER[d] || c == UPPER[d]
    ensures A2D(c) == -1 <==> c !in LOWER && c !in UPPER
  {
    if A2D(c) >= 0 {
      assert c == LOWER[A2D(c)] || c == UPPER[A2D(c)];
    } else {
      forall i | 0 <= i < 16 ensures c != LOWER[i] && c != UPPER[i] {
        assert A2D(LOWER[i]) == i && A2D(UPPER[i]) == i;
      }
    }
  }

  // ------------------------------------------------------------------ numerals

  /** What a string of digits is worth. */
  function Value(s: string, base: nat): int {
    if s == "" then 0 else Value(s[..|s| - 1], base) * base + A2D(s[|s| - 1])
  }

  predicate IsDigit(c: char, base: nat, uc: bool) {
    0 <= A2D(c) < base && c == DigitChar(A2D(c), uc)
  }

  /** Digits of the base, and no leading zero. */
  predicate Numeral(s: string, base: nat, uc: bool) {
    s != "" && (forall i :: 0 <= i < |s| ==> IsDigit(s[i], base, uc)) && (|s| > 1 ==> s[0] != '0')
  }

  function Digits(num: nat, base: nat, uc: bool): (s: string)
    requires 2 <= base <= 16
    ensures s != ""
  {
    if num < base then [DigitChar(num, uc)]
    else
      MultipleGrows(num / base, base - 1);
      Digits(num / base, base, uc) + [DigitChar(num % base, uc)]
  }

  lemma {:induction false} DigitsAreNumeral(num: nat, base: nat, uc: bool)
    requires 2 <= base <= 16
    ensures Numeral(Digits(num, base, uc), base, uc) && Value(Digits(num, base, uc), base) == num
    ensures num > 0 ==> Digits(num, base, uc)[0] != '0'
  {
    hide Digits, Numeral, Value, A2D, DigitChar;
    NoDigits(base);
    DigitsEnd(num, base, uc);
    if num >= base {
      Recomposed(num, base);
      DigitsAreNumeral(num / base, base, uc);
      Longer(Digits(num / base, base, uc), num % base, base, uc);
    } else {
      Longer("", num, base, uc);
      assert [DigitChar(num, uc)] == "" + [DigitChar(num, uc)];
    }
  }

  lemma Recomposed(num: nat, base: nat)
    requires num >= base >= 2
    ensures num / base * base + num % base == num && 0 <= num % base < base
    ensures 0 < num / base < num
  {
    var q, r := num / base, num % base;
    assert num == base * q + r;
    MultipleGrows(base, q);
    MultipleGrows(q, base - 1);
    assert q * base == q + q * (base - 1);
  }

  /** The last digit of a numeral, and what comes before it. */
  lemma DigitsEnd(num: nat, base: nat, uc: bool)
    requires 2 <= base <= 16
    ensures num < base ==> Digits(num, base, uc) == [DigitChar(num, uc)]
    ensures num >= base ==>
              && 0 <= num % base < base && 0 < num / base < num
              && Digits(num, base, uc) == Digits(num / base, base, uc) + [DigitChar(num % base, uc)]
  {
    hide DigitChar;
    if num >= base { Recomposed(num, base); }
  }

  lemma NoDigits(base: nat)
    ensures Value("", base) == 0 && Wrap(0) == 0
  {
  }

  /** One more digit at the end of a numeral. */
  lemma Longer(s: string, d: nat, base: nat, uc: bool)
    requires 2 <= base <= 16 && d < base
    requires s == "" || (Numeral(s, base, uc) && s[0] != '0')
    ensures Numeral(s + [DigitChar(d, uc)], base, uc)
    ensures Value(s + [DigitChar(d, uc)], base) == Value(s, base) * base + d
    ensures d > 0 || s != "" ==> (s + [DigitChar(d, uc)])[0] != '0'
  {
    assert (s + [DigitChar(d, uc)])[..|s|] == s;
  }

  lemma {:induction false} ValueIsPositive(s: string, base: nat, uc: bool)
    requires Numeral(s, base, uc) && s[0] != '0'
    ensures Value(s, base) >= 1
  {
    if |s| == 1 {
      assert s[..0] == "";
    } else {
      ValueIsPositive(s[..|s| - 1], base, uc);
      MultipleGrows(base, Value(s[..|s| - 1], base));
    }
  }

  /** A numeral of more than one digit, but for its last digit. */
  lemma Shorter(s: string, base: nat, uc: bool)
    requires 2 <= base <= 16 && Numeral(s, base, uc) && |s| > 1
    ensures var front, d := s[..|s| - 1], A2D(s[|s| - 1]);
            && Numeral(front, base, uc) && front[0] != '0' && Value(s, base) == Value(front, base) * base + d
            && 0 <= d < base && s == front + [DigitChar(d, uc)]
  {
    hide A2D, DigitChar;
  }

  lemma OneDigit(s: string, base: nat, uc: bool)
    requires 2 <= base <= 16 && Numeral(s, base, uc) && |s| == 1
    ensures 0 <= Value(s, base) < base && s == [DigitChar(Value(s, base), uc)]
  {
    hide A2D, DigitChar;
    assert s[..0] == "";
  }

  /** A number has only one numeral. */
  lemma {:induction false} OnlyNumeral(s: string, base: nat, uc: bool)
    requires 2 <= base <= 16 && Numeral(s, base, uc)
    ensures Value(s, base) >= 0 && s == Digits(Value(s, base), base, uc)
  {
    hide Numeral, Value, Digits, A2D, DigitChar;
    NotEmpty(s, base, uc);
    if |s| == 1 {
      OneDigit(s, base, uc);
    } else {
      var front, d := s[..|s| - 1], A2D(s[|s| - 1]);
      Shorter(s, base, uc);
      OnlyNumeral(front, base, uc);
      ValueIsPositive(front, base, uc);
      MultipleGrows(base, Value(front, base));
      DivModUnique(Value(s, base), base, Value(front, base), d);
    }
    DigitsEnd(Value(s, base), base, uc);
  }

  lemma NotEmpty(s: string, base: nat, uc: bool)
    requires Numeral(s, base, uc)
    ensures s != ""
  {
  }

  function Pow(base: nat, k: nat): (p: nat)
    requires base > 0
    ensures p > 0
  {
    if k == 0 then 1
    else
      MultipleGrows(base, Pow(base, k - 1));
      base * Pow(base, k - 1)
  }

  /** A numeral has at most k digits exactly when the number is below base^k. */
  lemma {:induction false} DigitsLength(num: nat, base: nat, uc: bool, k: nat)
    requires 2 <= base <= 16 && k > 0
    ensures |Digits(num, base, uc)| <= k <==> num < Pow(base, k)
  {
    hide Digits, Pow, DigitChar;
    DigitsEnd(num, base, uc);
    PowUp(base, k);
    if num >= base {
      if k > 1 {
        DigitsLength(num / base, base, uc, k - 1);
        Below(num, base, Pow(base, k - 1));
      }
    } else {
      MultipleGrows(base, Pow(base, k - 1));
    }
  }

  lemma PowUp(base: nat, k: nat)
    requires base > 0 && k > 0
    ensures Pow(base, k) == base * Pow(base, k - 1) && Pow(base, 1) == base
  {
    assert Pow(base, 1) == base * Pow(base, 0);
  }

  lemma Below(num: nat, base: nat, p: nat)
    requires base > 0
    ensures num / base < p <==> num < base * p
  {
    var q, r := num / base, num % base;
    assert num == base * q + r;
    assert base * p - base * q == base * (p - q);
    MultipleGrows(base, p - q);
  }

  lemma PowDown(base: nat, k: nat)
    requires base >= 2
    ensures Pow(base, k) / base == if k > 0 then Pow(base, k - 1) else 0
  {
    if k > 0 { DivModUnique(Pow(base, k), base, Pow(base, k - 1), 0); }
  }

  // ------------------------------------------------------------------ printing

  lemma RoomForMore(num: nat, d: nat, base: nat)
    requires d > 0 && base >= 2 && num / d >= base
    ensures d < d * base <= num
  {
    Below(num, d, base);
    MultipleGrows(d, base - 1);
  }

  /** The largest power of the base that does not exceed num, or 1; the product stays within a word. */
  method Scale(num: UInt, base: nat) returns (d: UInt, ghost k: nat)
    requires 2 <= base <= 16
    ensures d == Pow(base, k) && num < d * base
    ensures k == 0 || d <= num
  {
    d, k := 1, 0;
    while num / d >= base
      invariant d == Pow(base, k) && (k == 0 || d <= num)
      decreases num - d
    {
      RoomForMore(num, d, base);
      d, k := d * base, k + 1;
    }
    Below(num, d, base);
  }

  /** `value` is printed, `num` is left, and k digits of it are to come, the next of weight d. */
  ghost predicate Remaining(number: int, value: int, num: int, base: int, d: int, k: nat) {
    && base >= 2 && 0 <= num < Pow(base, k) && value * Pow(base, k) + num == number
    && d == if k > 0 then Pow(base, k - 1) else 0
  }

  lemma NextDigit(number: int, value: int, num: int, base: int, d: int, k: nat)
    requires Remaining(number, value, num, base, d, k) && d != 0
    ensures k > 0 && d > 0 && 0 <= num / d < base
    ensures Remaining(number, value * base + num / d, num % d, base, d / base, k - 1)
    ensures d / base == 0 <==> k == 1
  {
    Below(num, d, base);
    PowDown(base, k - 1);
    LeadingDigit(value, num, base, d);
  }

  lemma LeadingDigit(value: int, num: nat, base: nat, d: nat)
    requires d > 0
    ensures value * (base * d) + num == (value * base + num / d) * d + num % d
  {
    var dgt := num / d;
    assert num == d * dgt + num % d;
    assert (value * base) * d == value * (base * d);
    assert (value * base + dgt) * d == (value * base) * d + dgt * d;
  }

  lemma NothingTaken(number: int, base: int, d: int, k: nat)
    requires base >= 2 && k > 0 && d == Pow(base, k - 1) && 0 <= number < d * base
    ensures Remaining(number, 0, number, base, d, k) && Value("", base) == 0
  {
    assert Pow(base, k) == base * d == d * base;
  }

  lemma NothingLeft(number: int, value: int, num: int, base: int, k: nat)
    requires Remaining(number, value, num, base, 0, k)
    ensures k == 0 && value == number
  {
    assert value * Pow(base, 0) == value;
  }

  /** `before` with the text written over it from `at` on. */
  function Overwritten(before: string, at: nat, text: string): string
    requires at + |text| <= |before|
  {
    before[..at] + text + before[at + |text|..]
  }

  lemma NothingWritten(before: string, at: nat)
    requires at <= |before|
    ensures Overwritten(before, at, "") == before
  {
  }

  /** ui2a, and uli2a where an unsigned long is a word: the numeral and its terminator, from `at` on. */
  method UI2A(number: UInt, base: nat, uc: bool, bf: array<char>, at: nat) returns (end: nat)
    requires 2 <= base <= 16 && at + |Digits(number, base, uc)| < bf.Length
    modifies bf
    ensures end == at + |Digits(number, base, uc)|
    ensures bf[..] == Overwritten(old(bf[..]), at, Digits(number, base, uc) + [NUL])
  {
    hide Numeral, Value, Digits, A2D, DigitChar, Remaining, Pow, Overwritten;
    var num := number;
    var n := 0;
    ghost var k, written: string := 0, "";
    var d;
    d, k := Scale(num, base);
    ghost var size := |Digits(number, base, uc)|;
    if k > 0 { DigitsLength(number, base, uc, k); }
    end := at;
    k := k + 1;
    NothingTaken(number, base, d, k);
    NothingWritten(bf[..], at);
    while d != 0
      invariant Remaining(number, Value(written, base), num, base, d, k) && (d == 0 <==> k == 0)
      invariant n == |written| && |written| + k <= size && end == at + n
      invariant if written == "" then k > 0 else Numeral(written, base, uc) && (written[0] != '0' || k == 0)
      invariant bf[..] == Overwritten(old(bf[..]), at, written)
      decreases k
    {
      NextDigit(number, Value(written, base), num, base, d, k);
      var dgt := num / d;
      num, d, k := num % d, d / base, k - 1;
      if n > 0 || dgt > 0 || d == 0 {
        Longer(written, dgt, base, uc);
        Append(bf, end, DigitChar(dgt, uc), old(bf[..]), at, written);
        written := written + [DigitChar(dgt, uc)];
        end := end + 1;
        n := n + 1;
      }
    }
    NothingLeft(number, Value(written, base), num, base, k);
    OnlyNumeral(written, base, uc);
    Append(bf, end, NUL, old(bf[..]), at, written);
  }

  method Append(bf: array<char>, end: nat, c: char, ghost before: string, ghost at: nat, ghost written: string)
    requires end == at + |written| < bf.Length == |before| && bf[..] == Overwritten(before, at, written)
    modifies bf
    ensures bf[..] == Overwritten(before, at, written + [c])
  {
    bf[end] := c;
    assert bf[..] == before[..at] + written + [c] + before[end + 1..];
  }

  function Decimal(num: int): (s: string)
    ensures s != ""
  {
    if num < 0 then "-" + Digits(-num, 10, false) else Digits(num, 10, false)
  }

  /** Every number fits the twelve characters that the formatter sets aside, terminator included. */
  lemma NumbersFit(num: Int, u: UInt, uc: bool)
    ensures |Decimal(num)| <= 11
    ensures |Digits(u, 10, uc)| <= 10 && |Digits(u, 16, uc)| <= 8
  {
    assert Pow(10, 5) == 100000 && Pow(10, 10) == 100000 * Pow(10, 5);
    assert Pow(16, 4) == 0x10000 && Pow(16, 8) == 0x10000 * Pow(16, 4);
    var size: int := if num < 0 then -(num as int) else num;
    DigitsLength(size, 10, false, 10);
    DigitsLength(u, 10, uc, 10);
    DigitsLength(u, 16, uc, 8);
  }

  /** Negating the most negative number wraps around to itself, and is right again as an unsigned word. */
  lemma Magnitude(num: int)
    requires -0x8000_0000 <= num < 0x8000_0000
    ensures Wrap(-num) % WORD == (-num) % WORD
    ensures num <= 0 ==> (-num) % WORD == -num
    ensures num >= 0 ==> num % WORD == num
  {
  }

  /** i2a, and li2a where a long is a word. */
  method I2A(number: Int, bf: array<char>) returns (end: nat)
    requires bf.Length >= 12
    modifies bf
    ensures end == |Decimal(number)| < bf.Length && bf[..end + 1] == Decimal(number) + [NUL]
  {
    NumbersFit(number, 0, false);
    Magnitude(number);
    hide Digits, Wrap;
    var num, at := number, 0;
    if num < 0 {
      num := Wrap(-num);
      bf[at] := '-';
      at := at + 1;
    }
    ghost var text := Digits(num % WORD, 10, false);
    ghost var before := bf[..];
    end := UI2A(num % WORD, 10, false, bf, at);
    assert bf[..end + 1] == before[..at] + text + [NUL];
  }

  function Repeat(c: char, n: nat): (s: string)
    ensures |s| == n && forall i :: 0 <= i < n ==> s[i] == c
  {
    if n == 0 then "" else Repeat(c, n - 1) + [c]
  }

  lemma NoPadding(c: char)
    ensures Repeat(c, 0) == "" && forall n: nat :: Repeat(c, n + 1) == Repeat(c, n) + [c]
  {
  }

  /** Pads on the left to n characters, never cutting the text off. */
  method PutChW(n: Int, z: bool, bf: array<char>, at: nat) returns (emitted: string)
    requires at <= bf.Length && NUL in bf[at..]
    ensures |emitted| == if n > |Text(bf[at..])| then n else |Text(bf[at..])|
    ensures emitted == Repeat(if z then '0' else ' ', |emitted| - |Text(bf[at..])|) + Text(bf[at..])
  {
    hide Text, Repeat;
    NoPadding(if z then '0' else ' ');
    var fc := if z then '0' else ' ';
    var s := bf[at..];
    TextInside(s);
    var left: int, p := n, 0;
    while s[p] != NUL && left > 0
      invariant 0 <= p <= |Text(s)| && left == n - p && (p > 0 ==> left >= 0)
      decreases left
    {
      left := left - 1;
      p := p + 1;
    }
    ghost var pad := if left > 0 then left else 0;
    emitted := "";
    while left > 0
      invariant emitted == Repeat(fc, pad - (if left > 0 then left else 0))
    {
      emitted := emitted + [fc];
      left := left - 1;
    }
    ghost var padding := emitted;
    p := 0;
    while s[p] != NUL
      invariant 0 <= p <= |Text(s)| && emitted == padding + Text(s)[..p]
      decreases |s| - p
    {
      emitted := emitted + [s[p]];
      p := p + 1;
    }
  }

  // ------------------------------------------------------------------ reading

  /** What the characters would be worth as digits, in unbounded arithmetic. */
  function Worth(s: string): int {
    if s == "" then 0 else Worth(s[..|s| - 1]) * 10 + (s[|s| - 1] as int - '0' as int)
  }

  /** Arithmetic modulo a word may drop words anywhere. */
  lemma WrapDrops(n: int, q: int)
    ensures Wrap(n + q * WORD) == Wrap(n)
  {
    DivModUnique(n + q * WORD, WORD, n / WORD + q, n % WORD);
  }

  lemma WrapQuotient(n: int) returns (q: int)
    ensures Wrap(n) == n - q * WORD
  {
    q := if n % WORD < 0x8000_0000 then n / WORD else n / WORD + 1;
  }

  lemma AppendDigit(n: int, c: int)
    ensures Wrap(Wrap(Wrap(n) * 8) + Wrap(Wrap(n) * 2) + c) == Wrap(n * 10 + c)
  {
    var k: int := Wrap(n);
    var q := WrapQuotient(n);
    var q8 := WrapQuotient(k * 8);
    var q2 := WrapQuotient(k * 2);
    WrapDrops(n * 10 + c, -(10 * q + q8 + q2));
  }

  method AtoI(p: string) returns (k: Int)
    requires NUL in p
    ensures k == Wrap(Worth(Text(p)))
  {
    k := 0;
    var i := 0;
    TextInside(p);
    while p[i] != NUL
      invariant 0 <= i <= |Text(p)| && k == Wrap(Worth(Text(p)[..i]))
      decreases |p| - i
    {
      assert Text(p)[..i + 1][..i] == Text(p)[..i];
      AppendDigit(Worth(Text(p)[..i]), p[i] as int - '0' as int);
      k := Wrap(Wrap(k * 8) + Wrap(k * 2) + p[i] as int - '0' as int);
      i := i + 1;
    }
    assert Text(p)[..i] == Text(p);
  }

  lemma {:induction false} WorthIsValue(s: string)
    requires Numeral(s, 10, false)
    ensures Worth(s) == Value(s, 10)
  {
    if |s| == 1 {
      assert s[..0] == "";
    } else {
      WorthIsValue(s[..|s| - 1]);
    }
  }

  /** Reading back what was printed gives what is left of it in a signed word. */
  lemma PrintedIsRead(u: UInt)
    ensures Wrap(Worth(Digits(u, 10, false))) == Wrap(u)
    ensures Wrap(Worth(Digits(u, 10, false))) == u <==> u < 0x8000_0000
  {
    DigitsAreNumeral(u, 10, false);
    WorthIsValue(Digits(u, 10, false));
  }

  /** A sign is read as if it were a digit. */
  lemma {:induction false} SignedWorth(s: string)
    ensures Worth("-" + s) == Worth(s) - 3 * Pow(10, |s|)
  {
    if s == "" {
      assert ("-" + s)[..0] == "";
    } else {
      assert ("-" + s)[..|s|] == "-" + s[..|s| - 1];
      SignedWorth(s[..|s| - 1]);
    }
  }

  /** atoi has no case for a sign: it reads back what i2a printed for every number that is not
      negative, and for a single one that is. */
  lemma SignedRoundTrip(num: Int)
    ensures Wrap(Worth(Decimal(num))) == num <==> num >= 0 || num == -2115098112
  {
    hide Digits, Value, Numeral, IsDigit, Worth, Pow;
    var size: int := if num < 0 then -(num as int) else num;
    PrintedIsRead(size);
    var s := Digits(size, 10, false);
    DigitsAreNumeral(size, 10, false);
    WorthIsValue(s);
    if num < 0 {
      SignedWorth(s);
      NumbersFit(num, 0, false);
      DigitsLength(size, 10, false, |s|);
      if |s| > 1 { DigitsLength(size, 10, false, |s| - 1); }
      PowersOfTen();
      LuckyNumber(size, |s|);
    }
  }

  lemma PowersOfTen()
    ensures Pow(10, 0) == 1 && Pow(10, 1) == 10 && Pow(10, 2) == 100 && Pow(10, 3) == 1000
    ensures Pow(10, 4) == 10000 && Pow(10, 5) == 100000 && Pow(10, 6) == 1000000 && Pow(10, 7) == 10000000
    ensures Pow(10, 8) == 100000000 && Pow(10, 9) == 1000000000 && Pow(10, 10) == 10000000000
  {
  }

  /** The misread sign costs three times a power of ten, which is twice the number and some words
      for one number only. */
  lemma LuckyNumber(n: nat, len: nat)
    requires 0 < n <= 0x8000_0000 && 1 <= len <= 10 && Pow(10, len - 1) <= n < Pow(10, len)
    ensures Wrap(n - 3 * Pow(10, len)) + n == 0 <==> n == 2115098112
  {
    PowersOfTen();
    if len < 10 {
      assert Pow(10, len) <= 1000000000;
      assert 0 < 3 * Pow(10, len) - 2 * n < WORD;
    }
  }

  /** Whether a2i reads on at this character: one value too far, since it compares with > and not >=. */
  predicate ReadsOn(ch: char, base: nat) {
    0 <= A2D(ch) <= base
  }

  /** How many characters from the front a2i reads. */
  function Run(s: string, base: nat): (n: nat)
    ensures n <= |s| && forall i :: 0 <= i < n ==> ReadsOn(s[i], base)
    ensures n < |s| ==> !ReadsOn(s[n], base)
  {
    if s == "" || !ReadsOn(s[0], base) then 0 else 1 + Run(s[1..], base)
  }

  /** A terminated string is read from `ch` on, which stands just before `src`; `end` is where the
      pointer is left, just behind the character returned. */
  method A2I(s: string, ch: char, src: nat, base: nat) returns (last: char, end: nat, num: Int)
    requires 2 <= base <= 16
    requires 0 < src <= |s| && s[src - 1] == ch && NUL in s[src - 1..]
    ensures var n := Run(s[src - 1..], base);
            && end == src + n <= |s| && last == s[end - 1]
            && num == Wrap(Value(s[src - 1..][..n], base))
  {
    hide Run, A2D, Wrap, Value;
    var text := s[src - 1..];
    StopsAtNul(text, base);
    NoDigits(base);
    var c, p := ch, src;
    num := 0;
    var digit := A2D(c);
    while digit >= 0
      invariant src <= p <= src + Run(text, base) && c == s[p - 1] && digit == A2D(c)
      invariant num == Wrap(Value(text[..p - src], base))
      decreases |s| - p
    {
      if digit > base {
        break;
      }
      ghost var i := p - src;
      assert c == text[i];
      AppendAnyDigit(text, i, base);
      num := Wrap(Wrap(num * base) + digit);
      c := s[p];
      p := p + 1;
      digit := A2D(c);
    }
    return c, p, num;
  }

  lemma {:induction false} StopsAtNul(s: string, base: nat)
    requires NUL in s
    ensures Run(s, base) < |s|
  {
    if s[0] != NUL {
      assert s == [s[0]] + s[1..];
      StopsAtNul(s[1..], base);
    }
  }

  lemma AppendAnyDigit(text: string, i: nat, base: nat)
    requires i < |text|
    ensures Wrap(Value(text[..i + 1], base)) == Wrap(Wrap(Wrap(Value(text[..i], base)) * base) + A2D(text[i]))
  {
    assert text[..i + 1][..i] == text[..i];
    var n, d := Value(text[..i], base), A2D(text[i]);
    var k: int := Wrap(n);
    var q := WrapQuotient(n);
    var r := WrapQuotient(k * base);
    assert k * base == n * base - (q * base) * WORD;
    WrapDrops(n * base + d, -(q * base + r));
  }

  /** A printed numeral followed by a character that is not a digit of its base is read back, and the
      pointer left just behind that character, exactly when the character is not the one digit
      whose value is the base itself: in base 10, an 'a' or 'A' after a number is taken for a digit. */
  lemma NumeralIsRead(u: UInt, base: nat, uc: bool, t: char, rest: string)
    requires 2 <= base <= 16 && !(0 <= A2D(t) < base)
    ensures var s := Digits(u, base, uc) + [t] + rest;
            && (Run(s, base) == |Digits(u, base, uc)| <==> A2D(t) != base)
            && (A2D(t) != base ==> Value(s[..Run(s, base)], base) == u)
  {
    DigitsAreNumeral(u, base, uc);
    var d := Digits(u, base, uc);
    var s := d + [t] + rest;
    assert s[|d|] == t;
    assert forall i :: 0 <= i < |d| ==> s[i] == d[i] && ReadsOn(s[i], base);
    if Run(s, base) == |d| {
      assert s[..|d|] == d;
    }
  }
}
