/** The key loop of usr/shell.c over its command buffer. */
module LineEditors {
  import opened Strings
  import opened Numbers
  import opened Words
  import opened Terminals
  import opened LineModel

  function LeftOf(b: string, pos: nat): (s: string)
    requires pos <= |b|
    ensures |s| == pos
  {
    b[..pos]
  }

  function RightOf(b: string, pos: nat, len: nat): (s: string)
    requires pos <= len <= |b|
    ensures |s| == len - pos
  {
    b[pos..len]
  }

  /** The first len characters are text: no terminator among them. */
  ghost predicate IsText(b: string, len: nat) {
    len <= |b| && NUL !in b[..len]
  }

  /** Making room at `pos` and filling it. */
  lemma BufferInsert(b: string, pos: nat, len: nat, ch: char)
    requires pos <= len < |b| - 1 && IsText(b, len) && ch != NUL
    ensures var moved := if pos < len then Copied(b, pos + 1, pos, len - pos) else b;
            && |moved| == |b| && IsText(moved[pos := ch], len + 1)
            && LeftOf(moved[pos := ch], pos + 1) == LeftOf(b, pos) + [ch]
            && RightOf(moved[pos := ch], pos + 1, len + 1) == RightOf(b, pos, len)
  {
    var r := (if pos < len then Copied(b, pos + 1, pos, len - pos) else b)[pos := ch];
    NoNulInParts(b, pos, len);
    NoNulInParts(r, pos + 1, len + 1);
  }

  /** Closing the gap before `pos`. */
  lemma BufferDelete(b: string, pos: nat, len: nat)
    requires 0 < pos <= len < |b| && IsText(b, len)
    ensures var moved := if pos != len then Copied(b, pos - 1, pos, len - pos) else b;
            && |moved| == |b| && IsText(moved, len - 1)
            && LeftOf(b, pos) != "" && LeftOf(moved, pos - 1) == LeftOf(b, pos)[..|LeftOf(b, pos)| - 1]
            && RightOf(moved, pos - 1, len - 1) == RightOf(b, pos, len)
  {
    var r := if pos != len then Copied(b, pos - 1, pos, len - pos) else b;
    NoNulInParts(b, pos, len);
    NoNulInParts(r, pos - 1, len - 1);
  }

  /** The character at `pos` changes sides. */
  lemma BufferMove(b: string, pos: nat, len: nat)
    requires pos < len <= |b|
    ensures var left, right := LeftOf(b, pos), RightOf(b, pos, len);
            && LeftOf(b, pos + 1) == left + [right[0]] && RightOf(b, pos + 1, len) == right[1..]
            && left == LeftOf(b, pos + 1)[..|left|]
            && right == [LeftOf(b, pos + 1)[|left|]] + RightOf(b, pos + 1, len)
  {
  }

  lemma BufferTerminate(b: string, pos: nat, len: nat)
    requires pos <= len < |b| && IsText(b, len)
    ensures IsText(b[len := NUL], len)
    ensures LeftOf(b[len := NUL], pos) == LeftOf(b, pos) && RightOf(b[len := NUL], pos, len) == RightOf(b, pos, len)
  {
    assert b[len := NUL][..len] == b[..len];
  }

  lemma NoNulInParts(b: string, pos: nat, len: nat)
    requires pos <= len <= |b|
    ensures NUL !in b[..len] <==> NUL !in b[..pos] && NUL !in b[pos..len]
  {
    assert b[..len] == b[..pos] + b[pos..len];
  }

  /** What a terminated buffer prints from `at` on. */
  lemma RestOf(b: string, at: nat, len: nat)
    requires at <= len < |b| && IsText(b, len) && b[len] == NUL
    ensures Text(b[at..]) == RightOf(b, at, len) && NUL in b[at..]
  {
    NoNulInParts(b, at, len);
    assert b[at..][..len - at] == b[at..len] && b[at..][len - at] == NUL;
    TextEndsAt(b[at..], len - at);
  }

  /** The string in the buffer is the line, whatever the cursor's place. */
  lemma TextOfLine(b: string, pos: nat, len: nat)
    requires pos <= len < |b| && IsText(b, len) && b[len] == NUL
    ensures Text(b) == LeftOf(b, pos) + RightOf(b, pos, len) && NUL in b
  {
    assert b[..len] == b[..pos] + b[pos..len];
    TextEndsAt(b, len);
  }

  lemma EmptyText(b: string)
    ensures IsText(b, 0) && LeftOf(b, 0) == "" && RightOf(b, 0, 0) == ""
  {
  }

  lemma TextOf(bf: string, s: string)
    requires |s| < |bf| && bf[..|s| + 1] == s + [NUL] && AllPrintable(s)
    ensures Text(bf) == s && NUL in bf
  {
    assert bf[..|s|] == bf[..|s| + 1][..|s|] == s && bf[|s|] == bf[..|s| + 1][|s|];
    TextEndsAt(bf, |s|);
  }

  lemma ExitText()
    ensures Text("exit\0") == EXIT && NUL in "exit\0"
  {
    TextEndsAt("exit\0", 4);
    assert "exit\0"[4] == NUL;
  }

  // The same bytes, printed one after the other.

  /** Nothing is printed for a character without room or a backspace at the start. */
  lemma FullAnswer(e: Line, ch: char)
    ensures |e.left| + |e.right| == e.size - 1 ==> Answer(e, Insert(ch)) == ""
    ensures e.left == "" ==> Answer(e, Backspace) == ""
  {
  }

  lemma InsertPrinted(before: string, e: Line, ch: char)
    requires |e.left| + |e.right| != e.size - 1
    ensures before + Answer(e, Insert(ch)) ==
            if e.right == "" then before + [ch] else before + [ch] + e.right + Left(|e.right|)
  {
    hide Left;
    var back := Left(|e.right|);
    assert before + [ch] + e.right + back == before + ([ch] + (e.right + back));
  }

  lemma BackspacePrinted(before: string, e: Line)
    requires e.left != ""
    ensures before + Answer(e, Backspace) == before + [BS] + e.right + [' '] + Left(|e.right| + 1)
  {
    hide Left;
    var back := Left(|e.right| + 1);
    assert before + [BS] + e.right + " " + back == before + ([BS] + (e.right + " ") + back);
  }

  lemma PromptPrinted(before: string, ret: int, prompt: string)
    ensures before + PromptBytes(ret, prompt) ==
            if ret == 0 then before + Coloured(32, prompt)
            else before + ['('] + Coloured(33, Decimal(ret)) + ") " + Coloured(31, prompt)
  {
    hide Coloured, Decimal;
    var status, rest := Coloured(33, Decimal(ret)), Coloured(if ret == 0 then 32 else 31, prompt);
    assert before + ['('] + status + ") " + rest == before + (("(" + status + ") ") + rest);
    assert "" + rest == rest;
  }

  lemma KeyPrinted(before: string, e: Line, key: Key, prompt: string)
    requires !key.Enter?
    ensures before + Echo(e, key, prompt) ==
            before + Answer(e, key) + if |Step(e, key).left| == e.size - 1 then HIDE_CURSOR else SHOW_CURSOR
    ensures Step(e, key).size == e.size
  {
    hide Answer, Csi;
  }

  lemma EnterPrinted(before: string, e: Line, reply: Int, output: string, prompt: string)
    ensures var line, e', start := e.left + e.right, Step(e, Enter(reply, output)), before + ['\r'] + ['\n'];
            before + Echo(e, Enter(reply, output), prompt) ==
            if line == "" then start + PromptBytes(0, prompt)
            else if line == EXIT then start + Farewell()
            else start + output + PromptBytes(reply, prompt)
  {
    hide PromptBytes, Farewell;
    var line, e' := e.left + e.right, Step(e, Enter(reply, output));
    var middle := if line == "" then "" else if line == EXIT then Farewell() else output;
    var after := if e'.exited then "" else PromptBytes(e'.ret, prompt);
    assert before + ("\r\n" + middle + after) == before + ['\r'] + ['\n'] + middle + after;
  }

  class LineEditor {
    const buffer: array<char>
    const prompt: string
    var bufferPos: int
    var length: int
    var ret: Int
    var exited: bool
    // what went to the channel, and the lines handed to commands
    ghost var out: string
    ghost var commands: seq<string>

    ghost predicate InBounds()
      reads this, buffer
    {
      0 <= bufferPos <= length < buffer.Length <= 0x7fff_ffff && IsText(buffer[..], length)
    }

    /** A line that is not empty is terminated in the buffer. */
    ghost predicate Valid()
      reads this, buffer
    {
      InBounds() && (length > 0 ==> buffer[length] == NUL)
    }

    ghost function Abs(): Line
      requires InBounds()
      reads this, buffer
    {
      Line(buffer.Length, LeftOf(buffer[..], bufferPos), RightOf(buffer[..], bufferPos, length), ret, exited, commands)
    }

    /** The buffer's contents are whatever was there. */
    constructor (commandBuffer: array<char>, text: string)
      requires 0 < commandBuffer.Length <= 0x7fff_ffff
      ensures buffer == commandBuffer && prompt == text
      ensures Valid() && Abs() == Start(buffer.Length) && out == PromptBytes(0, prompt)
    {
      buffer, prompt := commandBuffer, text;
      bufferPos, length, ret, exited := 0, 0, 0, false;
      out, commands := "", [];
      new;
      PrintPrompt();
    }

    method PutC(ch: char)
      modifies this`out
      ensures out == old(out) + [ch]
    {
      out := out + [ch];
    }

    method Print(s: string)
      modifies this`out
      ensures out == old(out) + s
    {
      out := out + s;
    }

    /** The buffer from `at` on, up to its terminator. */
    method PrintRest(at: int)
      requires Valid() && 0 < length && 0 <= at <= length
      modifies this`out
      ensures out == old(out) + RightOf(buffer[..], at, length)
    {
      RestOf(buffer[..], at, length);
      assert buffer[..][at..] == buffer[at..];
      var s := PutChW(0, false, buffer, at);
      out := out + s;
    }

    method FormatInt(n: Int) returns (s: string)
      ensures s == Decimal(n)
    {
      var bf := new char[12];
      var end := I2A(n, bf);
      PrintableDecimal(n);
      TextOf(bf[..], Decimal(n));
      hide Decimal, Text;
      assert bf[0..] == bf[..];
      s := PutChW(0, false, bf, 0);
    }

    method MoveLeft(n: Int)
      requires n > 0
      modifies this`out
      ensures out == old(out) + Left(n)
    {
      var number := FormatInt(n);
      Print(Csi(number + "D"));
    }

    method PrintColoured(code: string, text: string, ghost colour: nat)
      requires code == Csi(Digits(colour, 10, false) + "m")
      modifies this`out
      ensures out == old(out) + Coloured(colour, text)
    {
      Print(code);
      Print(text);
      Print(Csi("0m"));
    }

    method PrintPrompt()
      modifies this`out
      ensures out == old(out) + PromptBytes(ret, prompt)
    {
      ColourCodes();
      PromptPrinted(old(out), ret, prompt);
      hide Digits, Decimal, Coloured, PromptBytes;
      if ret != 0 {
        PutC('(');
        var number := FormatInt(ret);
        PrintColoured(Csi("33m"), number, 33);
        Print(") ");
      }
      PrintColoured(if ret == 0 then Csi("32m") else Csi("31m"), prompt, if ret == 0 then 32 else 31);
    }

    method PrintInsert(ch: char)
      requires Valid() && length != buffer.Length - 1
      modifies this`out
      ensures out == old(out) + Answer(Abs(), Insert(ch))
    {
      hide Left, Text, Answer, IsText, LeftOf, RightOf;
      InsertPrinted(out, Abs(), ch);
      PutC(ch);
      if bufferPos < length {
        PrintRest(bufferPos);
        MoveLeft(length - bufferPos);
      }
    }

    method InsertKey(ch: char)
      requires Valid() && ch != NUL
      modifies this`out, this`length, this`bufferPos, buffer
      ensures InBounds()
      ensures Abs() == Step(old(Abs()), Insert(ch)) && out == old(out) + Answer(old(Abs()), Insert(ch))
    {
      hide Answer, Copied, IsText, LeftOf, RightOf;
      FullAnswer(Abs(), ch);
      if length == buffer.Length - 1 {
        return;
      }
      PrintInsert(ch);
      BufferInsert(buffer[..], bufferPos, length, ch);
      if bufferPos < length {
        MemMove(buffer, bufferPos + 1, bufferPos, length - bufferPos);
      }
      length := length + 1;
      ghost var moved := buffer[..];
      buffer[bufferPos] := ch;
      assert buffer[..] == moved[bufferPos := ch];
      bufferPos := bufferPos + 1;
    }

    method PrintBackspace()
      requires Valid() && bufferPos > 0
      modifies this`out
      ensures out == old(out) + Answer(Abs(), Backspace)
    {
      hide Left, Text, Answer, IsText, LeftOf, RightOf;
      BackspacePrinted(out, Abs());
      PutC(BS);
      PrintRest(bufferPos);
      PutC(' ');
      MoveLeft(length - bufferPos + 1);
    }

    method BackspaceKey()
      requires Valid()
      modifies this`out, this`length, this`bufferPos, buffer
      ensures InBounds()
      ensures Abs() == Step(old(Abs()), Backspace) && out == old(out) + Answer(old(Abs()), Backspace)
    {
      hide Answer, Copied, IsText, LeftOf, RightOf;
      FullAnswer(Abs(), ' ');
      if bufferPos > 0 {
        PrintBackspace();
        BufferDelete(buffer[..], bufferPos, length);
        if bufferPos != length {
          MemMove(buffer, bufferPos - 1, bufferPos, length - bufferPos);
        }
        length := length - 1;
        bufferPos := bufferPos - 1;
      }
    }

    method ArrowKey(dir: char)
      requires Valid()
      modifies this`out, this`bufferPos
      ensures InBounds()
      ensures Abs() == Step(old(Abs()), Arrow(dir)) && out == old(out) + Answer(old(Abs()), Arrow(dir))
    {
      hide IsText, LeftOf, RightOf;
      match dir {
        case 'C' =>
          if bufferPos < length {
            BufferMove(buffer[..], bufferPos, length);
            bufferPos := bufferPos + 1;
            PutC(ESC);
            PutC('[');
            PutC('C');
          }
        case 'D' =>
          if bufferPos > 0 {
            BufferMove(buffer[..], bufferPos - 1, length);
            bufferPos := bufferPos - 1;
            PutC(ESC);
            PutC('[');
            PutC('D');
          }
        case _ =>
      }
    }

    /** The command named by the line prints `output` and returns `reply`. */
    method Handle(reply: Int, output: string)
      requires NUL in buffer[..]
      modifies this`out, this`ret, this`commands
      ensures commands == old(commands) + [Text(buffer[..])] && ret == reply && out == old(out) + output
    {
      commands := commands + [Text(buffer[..])];
      ret := reply;
      Print(output);
    }

    method EnterKey(reply: Int, output: string)
      requires Valid() && !exited
      modifies this
      ensures Valid() && Abs() == Step(old(Abs()), Enter(reply, output))
      ensures out == old(out) + Echo(old(Abs()), Enter(reply, output), prompt)
    {
      hide PromptBytes, Text, Farewell, Echo, Answer, IsText, LeftOf, RightOf;
      ExitText();
      EnterPrinted(out, Abs(), reply, output, prompt);
      EmptyText(buffer[..]);
      PutC('\r');
      PutC('\n');
      var origLength := length;
      if origLength > 0 {
        TextOfLine(buffer[..], bufferPos, length);
      }
      ret, bufferPos, length := 0, 0, 0;
      if origLength == 0 {
        PrintPrompt();
        return;
      }
      var differs := StrCmp(buffer, "exit\0");
      if differs == 0 {
        Print(Farewell());
        exited := true;
        return;
      }
      Handle(reply, output);
      PrintPrompt();
    }

    /** One turn of the loop. */
    method Press(key: Key)
      requires Valid() && !exited
      requires key.Insert? ==> key.ch != NUL
      requires key.Enter? ==> -0x8000_0000 <= key.reply < 0x8000_0000
      modifies this, buffer
      ensures Valid() && Abs() == Step(old(Abs()), key)
      ensures out == old(out) + Echo(old(Abs()), key, prompt)
    {
      hide Echo, Answer, PromptBytes, Step, IsText, LeftOf, RightOf, Csi;
      if !key.Enter? { KeyPrinted(out, Abs(), key, prompt); }
      match key {
        case Insert(ch) => InsertKey(ch);
        case Backspace => BackspaceKey();
        case Arrow(dir) => ArrowKey(dir);
        case Enter(reply, output) =>
          EnterKey(reply, output);
          return;
      }
      BufferTerminate(buffer[..], bufferPos, length);
      ghost var terminated := buffer[..][length := NUL];
      buffer[length] := NUL;
      assert buffer[..] == terminated;
      Print(if bufferPos == buffer.Length - 1 then HIDE_CURSOR else SHOW_CURSOR);
    }

    /** The loop itself, over any keys that end with the shell or before it. */
    method PressAll(keys: seq<Key>)
      requires Valid() && Legal(Abs(), keys) && WordReplies(keys)
      modifies this, buffer
      ensures Valid() && Abs() == LineModel.Run(old(Abs()), keys)
      ensures out == old(out) + Output(old(Abs()), keys, prompt)
    {
      hide Echo, Step, Proper, IsText, LeftOf, RightOf;
      assert keys[0..] == keys;
      for i := 0 to |keys|
        invariant Valid() && Legal(Abs(), keys[i..])
        invariant LineModel.Run(Abs(), keys[i..]) == LineModel.Run(old(Abs()), keys)
        invariant out + Output(Abs(), keys[i..], prompt) == old(out) + Output(old(Abs()), keys, prompt)
      {
        ghost var e, said := Abs(), out;
        assert keys[i..][1..] == keys[i + 1..] && keys[i] in keys;
        ProperKey(e, keys[i]);
        NotExited();
        Press(keys[i]);
        assert said + (Echo(e, keys[i], prompt) + Output(Abs(), keys[i + 1..], prompt)) ==
               said + Echo(e, keys[i], prompt) + Output(Abs(), keys[i + 1..], prompt);
      }
    }

    lemma NotExited()
      requires Valid()
      ensures exited == Abs().exited
    {
    }

    lemma AsTyped()
      requires Valid()
      ensures TypedIn(Abs()) == Typed(buffer[..length], bufferPos, commands, ret, exited)
      ensures Abs().size == buffer.Length
    {
      hide IsText;
      assert buffer[..bufferPos] + buffer[bufferPos..length] == buffer[..length];
    }

    lemma OnScreen(t: Terminal)
      requires Valid() && if Abs().exited then Fresh(t) else InStep(t, Abs(), prompt)
      ensures if exited then Fresh(t)
              else
                && Shows(t.row, PromptText(ret, prompt) + buffer[..length])
                && t.col == |PromptText(ret, prompt)| + bufferPos
    {
      hide PromptText, Shows, IsText;
      var e := Abs();
      assert PromptText(ret, prompt) + e.left + e.right == PromptText(ret, prompt) + buffer[..length];
    }
  }

  /** What a command returns is a signed word. */
  predicate WordReplies(keys: seq<Key>) {
    forall key :: key in keys && key.Enter? ==> -0x8000_0000 <= key.reply < 0x8000_0000
  }

  lemma ProperKey(e: Line, key: Key)
    requires Proper(e, key)
    ensures !e.exited && (key.Insert? ==> key.ch != NUL)
  {
  }

  lemma NothingTyped(size: nat)
    ensures TypedIn(Start(size)) == Typed("", 0, [], 0, false) && Start(size).size == size
  {
  }

  /** A whole session: the buffer up to its length, the position in it, the lines handed over and the last
      reply are what the keys say, and the terminal that shows what the shell printed shows the prompt and the
      buffer up to its length, with the cursor at the shell's position in it. */
  method Session(buffer: array<char>, prompt: string, keys: seq<Key>, ghost t: Terminal) returns (shell: LineEditor)
    requires 0 < buffer.Length <= 0x7fff_ffff && Fresh(t) && AllPrintable(prompt)
    requires Legal(Start(buffer.Length), keys) && WordReplies(keys)
    modifies buffer
    ensures fresh(shell) && shell.buffer == buffer && shell.Valid()
    ensures Typed(buffer[..shell.length], shell.bufferPos, shell.commands, shell.ret, shell.exited) ==
            TypeAll(buffer.Length, Typed("", 0, [], 0, false), keys)
    ensures var t' := FeedAll(t, shell.out);
            if shell.exited then Fresh(t')
            else
              && Shows(t'.row, PromptText(shell.ret, prompt) + buffer[..shell.length])
              && t'.col == |PromptText(shell.ret, prompt)| + shell.bufferPos
  {
    hide *;
    shell := new LineEditor(buffer, prompt);
    shell.PressAll(keys);
    ScreenFollows(t, buffer.Length, keys, prompt);
    shell.OnScreen(FeedAll(t, shell.out));
    RunTypes(Start(buffer.Length), keys);
    shell.AsTyped();
    NothingTyped(buffer.Length);
  }
}
