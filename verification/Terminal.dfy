/** One row of a terminal that understands the control functions of ECMA-48 that the shell uses:
    BS (section 8.3.5), CUB (8.3.18), CUF (8.3.20), CR, LF, and showing or hiding the cursor. The row is as
    long as it needs to be; a line feed starts a blank one. */
module Terminals {
  import opened Numbers

  const ESC := '\U{1b}'
  const BS := '\U{8}'

  /** Inside a control sequence: the number read so far and whether a '?' was seen. */
  datatype Mode = Ground | Escape | Control(private: bool, number: nat)

  datatype Terminal = Terminal(row: string, col: nat, cursor: bool, mode: Mode)

  predicate Printable(c: char) {
    ' ' <= c <= '~'
  }

  predicate AllPrintable(s: string) {
    forall i :: 0 <= i < |s| ==> Printable(s[i])
  }

  function Blanks(n: nat): (s: string)
    ensures |s| == n
  {
    seq(n, _ => ' ')
  }

  /** What a row shows at column i; beyond its end it is blank. */
  function At(row: string, i: nat): char {
    if i < |row| then row[i] else ' '
  }

  function Write(row: string, col: nat, c: char): (r: string)
    ensures forall i: nat :: At(r, i) == if i == col then c else At(row, i)
  {
    if col < |row| then row[col := c] else row + Blanks(col - |row|) + [c]
  }

  function Back(col: nat, n: nat): nat {
    if n < col then col - n else 0
  }

  /** A missing or zero parameter counts as one. */
  function Times(n: nat): nat {
    if n == 0 then 1 else n
  }

  /** The final character of a control sequence. */
  function Perform(t: Terminal, private: bool, n: nat, final: char): Terminal {
    if final == 'D' then t.(col := Back(t.col, Times(n)))
    else if final == 'C' then t.(col := t.col + Times(n))
    else if final == 'h' && private && n == 25 then t.(cursor := true)
    else if final == 'l' && private && n == 25 then t.(cursor := false)
    else t
  }

  function Feed(t: Terminal, c: char): Terminal {
    match t.mode
    case Ground =>
      if c == ESC then t.(mode := Escape)
      else if c == BS then t.(col := Back(t.col, 1))
      else if c == '\r' then t.(col := 0)
      else if c == '\n' then t.(row := "")
      else if Printable(c) then t.(row := Write(t.row, t.col, c), col := t.col + 1)
      else t
    case Escape =>
      t.(mode := if c == '[' then Control(false, 0) else Ground)
    case Control(private, n) =>
      if '0' <= c <= '9' then t.(mode := Control(private, n * 10 + A2D(c)))
      else if c == '?' then t.(mode := Control(true, n))
      else Perform(t, private, n, c).(mode := Ground)
  }

  function FeedAll(t: Terminal, s: string): Terminal {
    if s == "" then t else Feed(FeedAll(t, s[..|s| - 1]), s[|s| - 1])
  }

  lemma {:induction false} FeedConcat(t: Terminal, a: string, b: string)
    ensures FeedAll(t, a + b) == FeedAll(FeedAll(t, a), b)
  {
    if b == "" {
      assert a + b == a;
    } else {
      assert (a + b)[..|a + b| - 1] == a + b[..|b| - 1];
      FeedConcat(t, a, b[..|b| - 1]);
    }
  }

  // ------------------------------------------------------------------ what the shell's strings do

  /** The row shows the text and nothing else. */
  ghost predicate Shows(row: string, text: string) {
    forall i: nat :: At(row, i) == At(text, i)
  }

  /** Text goes over what was there, and the cursor behind it. */
  lemma {:induction false} FeedText(t: Terminal, s: string)
    requires t.mode == Ground && AllPrintable(s)
    ensures var t' := FeedAll(t, s);
            && t' == t.(row := t'.row, col := t.col + |s|)
            && forall i: nat :: At(t'.row, i) == if t.col <= i < t.col + |s| then s[i - t.col] else At(t.row, i)
  {
    if s != "" {
      FeedText(t, s[..|s| - 1]);
    }
  }

  /** A decimal parameter is read as the number it was printed from. */
  lemma {:induction false} FeedNumber(t: Terminal, private: bool, s: string)
    requires t.mode == Control(private, 0) && Numeral(s, 10, false)
    ensures Value(s, 10) >= 0 && FeedAll(t, s) == t.(mode := Control(private, Value(s, 10)))
  {
    var front := s[..|s| - 1];
    OnlyNumeral(s, 10, false);
    assert IsDigit(s[|s| - 1], 10, false);
    if front == "" {
      assert FeedAll(t, front) == t;
    } else {
      FeedNumber(t, private, front);
    }
  }

  function Csi(s: string): string {
    [ESC, '['] + s
  }

  /** CSI, a decimal number and a final character. */
  lemma FeedControl(t: Terminal, n: nat, final: char)
    requires t.mode == Ground && !('0' <= final <= '9') && final != '?'
    ensures FeedAll(t, Csi(Digits(n, 10, false) + [final])) == Perform(t, false, n, final)
  {
    var s := Digits(n, 10, false);
    DigitsAreNumeral(n, 10, false);
    FeedTwo(t, ESC, '[');
    var within := t.(mode := Control(false, 0));
    FeedNumber(within, false, s);
    FeedConcat(within, s, [final]);
    FeedOne(FeedAll(within, s), final);
    FeedConcat(t, [ESC, '['], s + [final]);
  }

  lemma FeedOne(t: Terminal, c: char)
    ensures FeedAll(t, [c]) == Feed(t, c)
  {
    assert [c][..0] == "";
  }

  lemma FeedTwo(t: Terminal, a: char, b: char)
    ensures FeedAll(t, [a, b]) == Feed(Feed(t, a), b)
  {
    FeedOne(t, a);
    assert [a, b][..1] == [a];
  }

  const HIDE_CURSOR := Csi("?25l")
  const SHOW_CURSOR := Csi("?25h")

  lemma FeedCursor(t: Terminal)
    requires t.mode == Ground
    ensures FeedAll(t, HIDE_CURSOR) == t.(cursor := false) && FeedAll(t, SHOW_CURSOR) == t.(cursor := true)
  {
    hide FeedAll;
    var within := t.(mode := Control(true, 0));
    FeedTwo(t, ESC, '[');
    FeedTwo(within, '2', '5');
    FeedOne(FeedAll(t, [ESC, '[']), '?');
    FeedConcat(t, [ESC, '['], "?");
    FeedConcat(t, [ESC, '[', '?'], "25");
    var asked := t.(mode := Control(true, 25));
    FeedConcat(t, [ESC, '[', '?', '2', '5'], "l");
    FeedConcat(t, [ESC, '[', '?', '2', '5'], "h");
    FeedOne(asked, 'l');
    FeedOne(asked, 'h');
    assert [ESC, '['] + "?" == [ESC, '[', '?'] && [ESC, '[', '?'] + "25" == [ESC, '[', '?', '2', '5'];
    assert HIDE_CURSOR == [ESC, '[', '?', '2', '5'] + "l" && SHOW_CURSOR == [ESC, '[', '?', '2', '5'] + "h";
  }
}
