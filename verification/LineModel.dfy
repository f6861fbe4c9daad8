/** The shell's line editor as a value: the text on either side of the cursor; and what it prints. */
module LineModel {
  import opened Numbers
  import opened Terminals

  /** `size` is that of the command buffer; `ret` is what the last command returned; `commands` are
      the lines handed over so far. */
  datatype Line = Line(size: nat, left: string, right: string, ret: int, exited: bool, commands: seq<string>)

  /** Enter carries what the command returns and what it prints. */
  datatype Key = Insert(ch: char) | Backspace | Arrow(dir: char) | Enter(reply: int, output: string)

  const EXIT := "exit"

  function Farewell(): string {
    "exit...\r\n"
  }

  predicate Fits(e: Line) {
    |e.left| + |e.right| < e.size
  }

  function Step(e: Line, key: Key): Line {
    match key
    case Insert(ch) =>
      if |e.left| + |e.right| == e.size - 1 then e else e.(left := e.left + [ch])
    case Backspace =>
      if e.left == "" then e else e.(left := e.left[..|e.left| - 1])
    case Arrow(dir) =>
      if dir == 'C' && e.right != "" then e.(left := e.left + [e.right[0]], right := e.right[1..])
      else if dir == 'D' && e.left != "" then
        e.(left := e.left[..|e.left| - 1], right := [e.left[|e.left| - 1]] + e.right)
      else e
    case Enter(reply, _) =>
      var line := e.left + e.right;
      e.(left := "", right := "", exited := line == EXIT,
         ret := if line == "" || line == EXIT then 0 else reply,
         commands := if line == "" || line == EXIT then e.commands else e.commands + [line])
  }

  // ------------------------------------------------------------------ what is printed

  function PromptText(ret: int, prompt: string): string {
    (if ret != 0 then "(" + Decimal(ret) + ") " else "") + prompt
  }

  /** A text between the code of a colour and the code that resets it. */
  function Coloured(colour: nat, text: string): string {
    Csi(Digits(colour, 10, false) + "m") + text + Csi("0m")
  }

  function PromptBytes(ret: int, prompt: string): string {
    (if ret != 0 then "(" + Coloured(33, Decimal(ret)) + ") " else "")
    + Coloured(if ret == 0 then 32 else 31, prompt)
  }

  function Left(n: nat): string {
    Csi(Digits(n, 10, false) + "D")
  }

  /** The answer to the key itself. */
  function Answer(e: Line, key: Key): string {
    match key
    case Insert(ch) =>
      if |e.left| + |e.right| == e.size - 1 then ""
      else [ch] + if e.right == "" then "" else e.right + Left(|e.right|)
    case Backspace =>
      if e.left == "" then "" else [BS] + (e.right + " ") + Left(|e.right| + 1)
    case Arrow(dir) =>
      if (dir == 'C' && e.right != "") || (dir == 'D' && e.left != "") then Csi([dir]) else ""
    case Enter(_, output) =>
      var line := e.left + e.right;
      "\r\n" + if line == "" then "" else if line == EXIT then Farewell() else output
  }

  /** And what follows it: the prompt after a line, the cursor's visibility after any other key. */
  function Echo(e: Line, key: Key, prompt: string): string {
    var e' := Step(e, key);
    Answer(e, key) +
    if key.Enter? then if e'.exited then "" else PromptBytes(e'.ret, prompt)
    else if |e'.left| == e.size - 1 then HIDE_CURSOR else SHOW_CURSOR
  }

  // ------------------------------------------------------------------ the screen follows

  /** The row shows the prompt and the line, and the cursor stands where the next character goes. */
  ghost predicate InStep(t: Terminal, e: Line, prompt: string) {
    && t.mode == Ground
    && t.col == |PromptText(e.ret, prompt)| + |e.left|
    && Shows(t.row, PromptText(e.ret, prompt) + e.left + e.right)
  }

  /** A blank row with the cursor at its start. */
  ghost predicate Fresh(t: Terminal) {
    t.mode == Ground && t.col == 0 && Shows(t.row, "")
  }

  /** What a command prints leaves the cursor at the start of a blank row. */
  ghost predicate Tidy(output: string) {
    forall t: Terminal :: Fresh(t) ==> Fresh(FeedAll(t, output))
  }

  /** Printable keys, commands that end their output with a line feed, and no key after exit. */
  ghost predicate Proper(e: Line, key: Key) {
    && !e.exited
    && (key.Insert? ==> Printable(key.ch))
    && (key.Enter? ==> Tidy(key.output))
  }

  lemma FeedNothing(t: Terminal)
    ensures FeedAll(t, "") == t
  {
  }

  lemma FeedPlain(t: Terminal, final: char)
    requires t.mode == Ground && !('0' <= final <= '9') && final != '?'
    ensures FeedAll(t, Csi([final])) == Perform(t, false, 0, final)
  {
    FeedTwo(t, ESC, '[');
    FeedConcat(t, [ESC, '['], [final]);
    FeedOne(FeedAll(t, [ESC, '[']), final);
  }

  /** Going back over what was just printed. */
  lemma FeedLeft(t: Terminal, n: nat)
    requires t.mode == Ground && 0 < n <= t.col
    ensures FeedAll(t, Left(n)) == t.(col := t.col - n)
  {
    FeedControl(t, n, 'D');
  }

  /** Text printed over the row from the cursor on, and the cursor put back. */
  lemma FeedAndReturn(t: Terminal, text: string, back: nat)
    requires t.mode == Ground && AllPrintable(text) && 0 < back <= |text|
    ensures var t' := FeedAll(t, text + Left(back));
            && t' == t.(row := t'.row, col := t.col + |text| - back)
            && Over(t.row, t'.row, t.col, text)
  {
    FeedText(t, text);
    FeedLeft(FeedAll(t, text), back);
    FeedConcat(t, text, Left(back));
  }

  /** `row'` is `row` with the text written over it from `col` on. */
  ghost predicate Over(row: string, row': string, col: nat, text: string) {
    forall i: nat :: At(row', i) == if col <= i < col + |text| then text[i - col] else At(row, i)
  }

  lemma RowAfterInsert(row: string, row': string, head: string, ch: char, right: string)
    requires Shows(row, head + right) && Over(row, row', |head|, [ch] + right)
    ensures Shows(row', head + [ch] + right)
  {
    forall i: nat ensures At(row', i) == At(head + [ch] + right, i) {
      assert At(row, i) == At(head + right, i);
    }
  }

  lemma RowAfterBackspace(row: string, row': string, head: string, gone: char, right: string)
    requires Shows(row, head + [gone] + right) && Over(row, row', |head|, right + " ")
    ensures Shows(row', head + right)
  {
    forall i: nat ensures At(row', i) == At(head + right, i) {
      assert At(row, i) == At(head + [gone] + right, i);
    }
  }

  lemma InsertInStep(t: Terminal, e: Line, ch: char, prompt: string)
    requires InStep(t, e, prompt) && Fits(e) && Printable(ch) && AllPrintable(e.right)
    ensures InStep(FeedAll(t, Answer(e, Insert(ch))), Step(e, Insert(ch)), prompt)
  {
    hide Left, PromptText, At, FeedAll;
    var echo, t' := Answer(e, Insert(ch)), FeedAll(t, Answer(e, Insert(ch)));
    if |e.left| + |e.right| != e.size - 1 {
      if e.right == "" {
        FeedText(t, [ch]);
        assert echo == [ch] == [ch] + e.right;
      } else {
        FeedAndReturn(t, [ch] + e.right, |e.right|);
        assert echo == [ch] + e.right + Left(|e.right|);
      }
      var head := PromptText(e.ret, prompt) + e.left;
      RowAfterInsert(t.row, t'.row, head, ch, e.right);
      assert PromptText(e.ret, prompt) + (e.left + [ch]) == head + [ch];
    } else {
      assert t' == t by { FeedNothing(t); }
    }
  }

  lemma BackspaceInStep(t: Terminal, e: Line, prompt: string)
    requires InStep(t, e, prompt) && AllPrintable(e.right)
    ensures InStep(FeedAll(t, Answer(e, Backspace)), Step(e, Backspace), prompt)
  {
    hide Left, PromptText, At, FeedAll;
    var t' := FeedAll(t, Answer(e, Backspace));
    if e.left != "" {
      FeedOne(t, BS);
      FeedAndReturn(Feed(t, BS), e.right + " ", |e.right| + 1);
      FeedConcat(t, [BS], e.right + " " + Left(|e.right| + 1));
      assert Answer(e, Backspace) == [BS] + (e.right + " " + Left(|e.right| + 1));
      var kept, gone := e.left[..|e.left| - 1], e.left[|e.left| - 1];
      var head := PromptText(e.ret, prompt) + kept;
      assert PromptText(e.ret, prompt) + e.left == head + [gone];
      RowAfterBackspace(t.row, t'.row, head, gone, e.right);
    } else {
      FeedNothing(t);
    }
  }

  lemma ArrowInStep(t: Terminal, e: Line, dir: char, prompt: string)
    requires InStep(t, e, prompt)
    ensures InStep(FeedAll(t, Answer(e, Arrow(dir))), Step(e, Arrow(dir)), prompt)
  {
    hide PromptText, Csi, FeedAll, Shows;
    var e' := Step(e, Arrow(dir));
    if e' == e {
      FeedNothing(t);
    } else {
      FeedPlain(t, dir);
    }
    assert e'.left + e'.right == e.left + e.right;
    assert PromptText(e.ret, prompt) + e.left + e.right == PromptText(e.ret, prompt) + (e.left + e.right);
    assert PromptText(e.ret, prompt) + e'.left + e'.right == PromptText(e.ret, prompt) + (e'.left + e'.right);
  }

  // ------------------------------------------------------------------ the prompt

  lemma ColourCodes()
    ensures Digits(0, 10, false) + "m" == "0m" && Digits(31, 10, false) + "m" == "31m"
    ensures Digits(32, 10, false) + "m" == "32m" && Digits(33, 10, false) + "m" == "33m"
  {
    assert Digits(3, 10, false) == "3";
  }

  lemma FeedColour(t: Terminal, n: nat)
    requires t.mode == Ground
    ensures FeedAll(t, Csi(Digits(n, 10, false) + "m")) == t
  {
    FeedControl(t, n, 'm');
  }

  /** A text printed on a row that already shows one. */
  lemma FeedOn(t: Terminal, shown: string, text: string)
    requires t.mode == Ground && t.col == |shown| && Shows(t.row, shown) && AllPrintable(text)
    ensures var t' := FeedAll(t, text);
            t'.mode == Ground && t'.col == |shown + text| && Shows(t'.row, shown + text)
  {
    FeedText(t, text);
    var t' := FeedAll(t, text);
    forall i: nat ensures At(t'.row, i) == At(shown + text, i) {
      assert At(t.row, i) == At(shown, i);
    }
  }

  lemma PrintableDecimal(n: int)
    ensures AllPrintable(Decimal(n))
  {
    var s := Digits(if n < 0 then -n else n, 10, false);
    DigitsAreNumeral(if n < 0 then -n else n, 10, false);
    forall i | 0 <= i < |s| ensures Printable(s[i]) {
      assert IsDigit(s[i], 10, false);
    }
  }

  /** A text in colour, on a row that already shows one. */
  lemma FeedColoured(t: Terminal, shown: string, colour: nat, text: string)
    requires t.mode == Ground && t.col == |shown| && Shows(t.row, shown) && AllPrintable(text)
    ensures var t' := FeedAll(t, Coloured(colour, text));
            t'.mode == Ground && t'.col == |shown + text| && Shows(t'.row, shown + text)
  {
    var on, off := Csi(Digits(colour, 10, false) + "m"), Csi("0m");
    ColourCodes();
    FeedColour(t, colour);
    FeedOn(t, shown, text);
    FeedColour(FeedAll(t, text), 0);
    FeedConcat(t, on, text);
    FeedConcat(t, on + text, off);
  }

  lemma FeedPrompt(t: Terminal, ret: int, prompt: string)
    requires Fresh(t) && AllPrintable(prompt)
    ensures InStep(FeedAll(t, PromptBytes(ret, prompt)), Line(1, "", "", ret, false, []), prompt)
  {
    hide FeedAll, At, Coloured;
    var status := if ret != 0 then "(" + Coloured(33, Decimal(ret)) + ") " else "";
    var text := if ret != 0 then "(" + Decimal(ret) + ") " else "";
    var t1 := FeedAll(t, status);
    assert t1.mode == Ground && t1.col == |text| && Shows(t1.row, text) by {
      if ret != 0 {
        FeedOn(t, "", "(");
        assert "" + "(" == "(";
        PrintableDecimal(ret);
        var open, number := FeedAll(t, "("), Coloured(33, Decimal(ret));
        FeedColoured(open, "(", 33, Decimal(ret));
        FeedConcat(t, "(", number);
        FeedOn(FeedAll(open, number), "(" + Decimal(ret), ") ");
        FeedConcat(t, "(" + number, ") ");
      } else {
        FeedNothing(t);
      }
    }
    var colour := if ret == 0 then 32 else 31;
    FeedColoured(t1, text, colour, prompt);
    FeedConcat(t, status, Coloured(colour, prompt));
    assert text + prompt + "" + "" == text + prompt;
  }

  // ------------------------------------------------------------------ whole runs

  lemma FeedNewline(t: Terminal)
    requires t.mode == Ground
    ensures Fresh(FeedAll(t, "\r\n"))
  {
    FeedTwo(t, '\r', '\n');
  }

  /** Any line of printable text is tidy output. */
  lemma LinesAreTidy(text: string)
    requires AllPrintable(text)
    ensures Tidy("") && Tidy(text + "\r\n")
  {
    forall t: Terminal | Fresh(t) ensures Fresh(FeedAll(t, text + "\r\n")) {
      FeedText(t, text);
      FeedConcat(t, text, "\r\n");
      FeedNewline(FeedAll(t, text));
    }
  }

  lemma TidyIsFresh(t: Terminal, a: string, b: string)
    requires Fresh(FeedAll(t, a)) && Tidy(b)
    ensures Fresh(FeedAll(t, a + b))
  {
    FeedConcat(t, a, b);
  }

  lemma EnterInStep(t: Terminal, e: Line, key: Key, prompt: string)
    requires t.mode == Ground && key.Enter? && Proper(e, key) && AllPrintable(prompt)
    ensures var t', e' := FeedAll(t, Echo(e, key, prompt)), Step(e, key);
            if e'.exited then Fresh(t') else InStep(t', e', prompt)
  {
    hide FeedAll, PromptBytes;
    var line, e' := e.left + e.right, Step(e, key);
    var output := if line == "" then "" else if line == EXIT then Farewell() else key.output;
    LinesAreTidy("exit...");
    assert "exit..." + "\r\n" == "exit...\r\n";
    FeedNewline(t);
    TidyIsFresh(t, "\r\n", output);
    var done := FeedAll(t, "\r\n" + output);
    FeedPrompt(done, e'.ret, prompt);
    FeedConcat(t, Answer(e, key), if e'.exited then "" else PromptBytes(e'.ret, prompt));
    FeedNothing(done);
  }

  lemma PrintableStep(e: Line, key: Key)
    requires AllPrintable(e.left + e.right) && (key.Insert? ==> Printable(key.ch))
    ensures AllPrintable(Step(e, key).left + Step(e, key).right)
  {
    var line, e' := e.left + e.right, Step(e, key);
    forall c | c in e'.left + e'.right ensures Printable(c) {
      assert c in line || (key.Insert? && c == key.ch);
    }
  }

  /** One key: the screen follows the editor, and after any key but Enter the cursor is hidden exactly
      when the buffer is full up to it. */
  lemma KeyInStep(t: Terminal, e: Line, key: Key, prompt: string)
    requires InStep(t, e, prompt) && Fits(e) && AllPrintable(e.left + e.right) && AllPrintable(prompt) && Proper(e, key)
    ensures var t', e' := FeedAll(t, Echo(e, key, prompt)), Step(e, key);
            && Fits(e') && AllPrintable(e'.left + e'.right)
            && (if e'.exited then Fresh(t') else InStep(t', e', prompt))
            && (!key.Enter? ==> (t'.cursor <==> |e'.left| != e'.size - 1))
  {
    hide FeedAll, Answer, PromptText, At, Shows, Tidy;
    assert AllPrintable(e.right) by {
      assert forall i :: 0 <= i < |e.right| ==> e.right[i] == (e.left + e.right)[|e.left| + i];
    }
    if key.Enter? {
      EnterInStep(t, e, key, prompt);
    } else {
      var t1, e' := FeedAll(t, Answer(e, key)), Step(e, key);
      match key {
        case Insert(ch) => InsertInStep(t, e, ch, prompt);
        case Backspace => BackspaceInStep(t, e, prompt);
        case Arrow(dir) => ArrowInStep(t, e, dir, prompt);
      }
      PrintableStep(e, key);
      FeedCursor(t1);
      FeedConcat(t, Answer(e, key), if |e'.left| == e.size - 1 then HIDE_CURSOR else SHOW_CURSOR);
    }
  }

  function Start(size: nat): Line {
    Line(size, "", "", 0, false, [])
  }

  function Run(e: Line, keys: seq<Key>): Line
    decreases |keys|
  {
    if keys == [] then e else Run(Step(e, keys[0]), keys[1..])
  }

  function Output(e: Line, keys: seq<Key>, prompt: string): string
    decreases |keys|
  {
    if keys == [] then "" else Echo(e, keys[0], prompt) + Output(Step(e, keys[0]), keys[1..], prompt)
  }

  ghost predicate Legal(e: Line, keys: seq<Key>)
    decreases |keys|
  {
    keys == [] || (Proper(e, keys[0]) && Legal(Step(e, keys[0]), keys[1..]))
  }

  lemma {:induction false} KeysInStep(t: Terminal, e: Line, keys: seq<Key>, prompt: string)
    requires InStep(t, e, prompt) && Fits(e) && AllPrintable(e.left + e.right) && AllPrintable(prompt) && !e.exited
    requires Legal(e, keys)
    ensures var t', e' := FeedAll(t, Output(e, keys, prompt)), Run(e, keys);
            && Fits(e') && AllPrintable(e'.left + e'.right)
            && if e'.exited then Fresh(t') else InStep(t', e', prompt)
    decreases |keys|
  {
    hide InStep, Proper, Fits, Echo, Step;
    if keys == [] {
      FeedNothing(t);
    } else {
      var t1, e1 := FeedAll(t, Echo(e, keys[0], prompt)), Step(e, keys[0]);
      KeyInStep(t, e, keys[0], prompt);
      FeedConcat(t, Echo(e, keys[0], prompt), Output(e1, keys[1..], prompt));
      if e1.exited {
        ExitIsLast(e1, keys[1..]);
        FeedNothing(t1);
      } else {
        KeysInStep(t1, e1, keys[1..], prompt);
      }
    }
  }

  lemma ExitIsLast(e: Line, keys: seq<Key>)
    requires e.exited && Legal(e, keys)
    ensures keys == []
  {
  }

  /** For every buffer size, prompt and sequence of keys: a terminal fed everything the shell printed
      shows the prompt and exactly the line being edited, with its cursor in it; and the line
      always fits the buffer with its terminator. */
  lemma ScreenFollows(t: Terminal, size: nat, keys: seq<Key>, prompt: string)
    requires Fresh(t) && size > 0 && AllPrintable(prompt) && Legal(Start(size), keys)
    ensures var t' := FeedAll(t, PromptBytes(0, prompt) + Output(Start(size), keys, prompt));
            var e' := Run(Start(size), keys);
            && Fits(e')
            && if e'.exited then Fresh(t') else InStep(t', e', prompt)
  {
    FeedPrompt(t, 0, prompt);
    FeedConcat(t, PromptBytes(0, prompt), Output(Start(size), keys, prompt));
    KeysInStep(FeedAll(t, PromptBytes(0, prompt)), Start(size), keys, prompt);
  }

  /** Backspace takes back the character just typed, and an arrow the opposite arrow. */
  lemma EditsUndo(e: Line, ch: char)
    ensures |e.left| + |e.right| != e.size - 1 ==> Step(Step(e, Insert(ch)), Backspace) == e
    ensures e.left != "" ==> Step(Step(e, Arrow('D')), Arrow('C')) == e
    ensures e.right != "" ==> Step(Step(e, Arrow('C')), Arrow('D')) == e
  {
    assert e.right != "" ==> [e.right[0]] + e.right[1..] == e.right;
    assert (e.left + [ch])[..|e.left|] == e.left;
  }

  // ------------------------------------------------------------------ what the keys alone say

  /** A line as one text with a place in it, the lines handed over so far, what the last of them returned, and
      whether the last line entered ended the shell. */
  datatype Typed = Typed(text: string, place: nat, handed: seq<string>, ret: int, ended: bool)

  /** What one key does to the text, in a line of less than `size` characters. */
  function Type(size: nat, t: Typed, key: Key): Typed {
    if t.place > |t.text| then t
    else
      match key
      case Insert(ch) =>
        if |t.text| == size - 1 then t
        else t.(text := t.text[..t.place] + [ch] + t.text[t.place..], place := t.place + 1)
      case Backspace =>
        if t.place == 0 then t
        else t.(text := t.text[..t.place - 1] + t.text[t.place..], place := t.place - 1)
      case Arrow(dir) =>
        if dir == 'C' && t.place < |t.text| then t.(place := t.place + 1)
        else if dir == 'D' && t.place > 0 then t.(place := t.place - 1)
        else t
      case Enter(reply, _) =>
        if t.text == "" || t.text == EXIT then Typed("", 0, t.handed, 0, t.text == EXIT)
        else Typed("", 0, t.handed + [t.text], reply, false)
  }

  function TypeAll(size: nat, t: Typed, keys: seq<Key>): Typed
    decreases |keys|
  {
    if keys == [] then t else TypeAll(size, Type(size, t, keys[0]), keys[1..])
  }

  function TypedIn(e: Line): Typed {
    Typed(e.left + e.right, |e.left|, e.commands, e.ret, e.exited)
  }

  lemma EitherSide(left: string, right: string, ch: char)
    ensures (left + right)[..|left|] + [ch] + (left + right)[|left|..] == left + [ch] + right
    ensures left != "" ==> (left + right)[..|left| - 1] + (left + right)[|left|..] == left[..|left| - 1] + right
  {
    assert (left + right)[..|left|] == left && (left + right)[|left|..] == right;
    assert left != "" ==> (left + right)[..|left| - 1] == left[..|left| - 1];
  }

  lemma AcrossOne(left: string, right: string)
    ensures right != "" ==> left + [right[0]] + right[1..] == left + right
    ensures left != "" ==> left[..|left| - 1] + ([left[|left| - 1]] + right) == left + right
  {
  }

  lemma StepTypes(e: Line, key: Key)
    ensures TypedIn(Step(e, key)) == Type(e.size, TypedIn(e), key) && Step(e, key).size == e.size
  {
    if key.Enter? {
      EnterTypes(e, key.reply, key.output);
    } else if key.Arrow? {
      ArrowTypes(e, key.dir);
    } else {
      EditTypes(e, key);
    }
  }

  lemma EnterTypes(e: Line, reply: int, output: string)
    ensures TypedIn(Step(e, Enter(reply, output))) == Type(e.size, TypedIn(e), Enter(reply, output))
    ensures Step(e, Enter(reply, output)).size == e.size
  {
  }

  lemma ArrowTypes(e: Line, dir: char)
    ensures TypedIn(Step(e, Arrow(dir))) == Type(e.size, TypedIn(e), Arrow(dir)) && Step(e, Arrow(dir)).size == e.size
  {
    AcrossOne(e.left, e.right);
  }

  lemma EditTypes(e: Line, key: Key)
    requires key.Insert? || key.Backspace?
    ensures TypedIn(Step(e, key)) == Type(e.size, TypedIn(e), key) && Step(e, key).size == e.size
  {
    EitherSide(e.left, e.right, if key.Insert? then key.ch else ' ');
  }

  /** For every sequence of keys: the line and the cursor in it, and every line that was handed to a command,
      are what the keys say. */
  lemma {:induction false} RunTypes(e: Line, keys: seq<Key>)
    ensures TypedIn(Run(e, keys)) == TypeAll(e.size, TypedIn(e), keys)
    decreases |keys|
  {
    hide Step, TypedIn, Type;
    if keys != [] {
      StepTypes(e, keys[0]);
      RunTypes(Step(e, keys[0]), keys[1..]);
    }
  }

  function Typing(word: string): seq<Key> {
    seq(|word|, i requires 0 <= i < |word| => Insert(word[i]))
  }

  lemma {:induction false} TypingAppends(e: Line, word: string, rest: seq<Key>)
    requires e.right == "" && |e.left| + |word| < e.size
    ensures Run(e, Typing(word) + rest) == Run(e.(left := e.left + word), rest)
    decreases |word|
  {
    if word == "" {
      assert Typing(word) + rest == rest && e.left + word == e.left;
    } else {
      assert (Typing(word) + rest)[1..] == Typing(word[1..]) + rest;
      var e1 := Step(e, Insert(word[0]));
      TypingAppends(e1, word[1..], rest);
      assert e.left + [word[0]] + word[1..] == e.left + word;
    }
  }

  /** A word that fits the line, typed and entered, is the command that is run, and what it returns is kept
      for the next prompt. */
  lemma TypedIsRun(e: Line, word: string, reply: int, output: string)
    requires e.left == e.right == "" && 0 < |word| < e.size && word != EXIT
    ensures Run(e, Typing(word) + [Enter(reply, output)]) ==
            e.(commands := e.commands + [word], ret := reply, exited := false)
  {
    TypingAppends(e, word, [Enter(reply, output)]);
    assert "" + word == word && word + "" == word;
    var e1 := e.(left := word);
    assert [Enter(reply, output)][1..] == [];
    assert Run(e1, [Enter(reply, output)]) == Step(e1, Enter(reply, output));
  }
}
