/** The console: text written to an output stream, styled with SGR control sequences.
    A console carries a fixed colour and bold flag; `withColor` and `inBold` run a block
    of print statements on a nested console with the new style and afterwards put the
    terminal back into the enclosing console's style. */
module Consoles {
  import opened Wrappers
  import opened Ansi

  /** A block of print statements, as passed to `withColor` and `inBold`. */
  datatype PrintCommand =
    | Nothing
    | Print(text: string)
    | Println(text: string)
    | PrintlnEmpty
    | PrintBold(text: string)
    | WithColor(color: ConsoleColor, body: PrintCommand)
    | InBold(body: PrintCommand)
    | Then(first: PrintCommand, second: PrintCommand)

  /** A measure under which `PrintBold(t)` is larger than `InBold(Print(t))`, which it stands for. */
  function Size(cmd: PrintCommand): (n: nat)
    ensures n >= 1
  {
    match cmd
    case Nothing => 1
    case Print(_) => 1
    case Println(_) => 1
    case PrintlnEmpty => 1
    case PrintBold(_) => 3
    case WithColor(_, body) => 1 + Size(body)
    case InBold(body) => 1 + Size(body)
    case Then(first, second) => 1 + Size(first) + Size(second)
  }

  /** The line separator `println` ends a line with. */
  const NewLine := "\n"

  /** What `returnConsoleToCurrentState` writes for a console of style `s`: reset, then
      bold if the console is bold, then its colour if it has one. */
  function RestoreOutput(s: Style): (r: seq<Output>)
  {
    [Sgr(ResetCode)]
    + (if s.bold then [Sgr(BoldCode)] else [])
    + (match s.color case Some(c) => [Sgr(c.Code())] case None => [])
  }

  /** What `withColor(c)` writes before its block on a console of style `s` that does not
      have colour `c`: reset (and bold again, if bold) when the console has a colour,
      then the new colour. */
  function SwitchOutput(s: Style, c: ConsoleColor): (r: seq<Output>)
  {
    (if s.color.Some? then [Sgr(ResetCode)] + (if s.bold then [Sgr(BoldCode)] else []) else [])
    + [Sgr(c.Code())]
  }

  /** What running `cmd` on a console of style `s` writes. */
  function Render(cmd: PrintCommand, s: Style): (r: seq<Output>)
    decreases Size(cmd)
  {
    match cmd
    case Nothing => []
    case Print(t) => [Text(t)]
    case Println(t) => [Text(t + NewLine)]
    case PrintlnEmpty => [Text(NewLine)]
    case PrintBold(t) =>
      assert Size(InBold(Print(t))) == 2;
      Render(InBold(Print(t)), s)
    case WithColor(c, body) =>
      if s.color == Some(c) then Render(body, s)
      else SwitchOutput(s, c) + Render(body, Style(Some(c), s.bold)) + RestoreOutput(s)
    case InBold(body) =>
      if s.bold then Render(body, s)
      else [Sgr(BoldCode)] + Render(body, Style(s.color, true)) + RestoreOutput(s)
    case Then(first, second) => Render(first, s) + Render(second, s)
  }

  /** A block writes text and no SGR parameter other than reset, bold and the eight
      colours. */
  lemma {:induction false} RenderUsesConsoleCodes(cmd: PrintCommand, s: Style)
    ensures ConsoleOutputs(Render(cmd, s))
    decreases Size(cmd)
  {
    match cmd
    case Nothing =>
    case Print(t) =>
    case Println(t) =>
    case PrintlnEmpty =>
    case PrintBold(t) =>
      assert Size(InBold(Print(t))) == 2;
      RenderUsesConsoleCodes(InBold(Print(t)), s);
    case WithColor(c, body) =>
      if s.color != Some(c) {
        RenderUsesConsoleCodes(body, Style(Some(c), s.bold));
        ColorCodeRoundTrip(c);
        ConsoleOutputsAppend(SwitchOutput(s, c), Render(body, Style(Some(c), s.bold)));
        RestoreUsesConsoleCodes(s);
        ConsoleOutputsAppend(SwitchOutput(s, c) + Render(body, Style(Some(c), s.bold)), RestoreOutput(s));
      } else {
        RenderUsesConsoleCodes(body, s);
      }
    case InBold(body) =>
      if !s.bold {
        RenderUsesConsoleCodes(body, Style(s.color, true));
        ConsoleOutputsAppend([Sgr(BoldCode)], Render(body, Style(s.color, true)));
        RestoreUsesConsoleCodes(s);
        ConsoleOutputsAppend([Sgr(BoldCode)] + Render(body, Style(s.color, true)), RestoreOutput(s));
      } else {
        RenderUsesConsoleCodes(body, s);
      }
    case Then(first, second) =>
      RenderUsesConsoleCodes(first, s);
      RenderUsesConsoleCodes(second, s);
      ConsoleOutputsAppend(Render(first, s), Render(second, s));
  }

  lemma RestoreUsesConsoleCodes(s: Style)
    ensures ConsoleOutputs(RestoreOutput(s))
  {
    match s.color
    case Some(c) => ColorCodeRoundTrip(c);
    case None =>
  }

  /** The reference meaning of a block: every character it prints, in the style of the
      innermost `withColor`/`inBold` around it, the enclosing console's style elsewhere. */
  function Intended(cmd: PrintCommand, s: Style): (r: seq<StyledChar>)
    decreases Size(cmd)
  {
    match cmd
    case Nothing => []
    case Print(t) => Paint(t, s)
    case Println(t) => Paint(t + NewLine, s)
    case PrintlnEmpty => Paint(NewLine, s)
    case PrintBold(t) =>
      assert Size(InBold(Print(t))) == 2;
      Intended(InBold(Print(t)), s)
    case WithColor(c, body) => Intended(body, Style(Some(c), s.bold))
    case InBold(body) => Intended(body, Style(s.color, true))
    case Then(first, second) => Intended(first, s) + Intended(second, s)
  }

  /** Restoring displays nothing and leaves the terminal in the console's style,
      whatever style it was in before. */
  lemma RestoreReturnsToStyle(s: Style, from: Style)
    ensures FinalStyle(RestoreOutput(s), from) == s
    ensures Displayed(RestoreOutput(s), from) == []
  {
    var reset := [Sgr(ResetCode)];
    var bold: seq<Output> := if s.bold then [Sgr(BoldCode)] else [];
    var color: seq<Output> := match s.color case Some(c) => [Sgr(c.Code())] case None => [];
    assert RestoreOutput(s) == reset + bold + color;
    TerminalAppend(reset, bold, from);
    TerminalAppend(reset + bold, color, from);
    assert FinalStyle(reset + bold, from) == Style(None, s.bold);
    if s.color.Some? {
      ColorCodeRoundTrip(s.color.value);
    }
  }

  /** The console keeps the terminal in step with the nesting of its blocks: a terminal in
      the console's style shows every character of the block in its intended style, and is
      back in the console's style when the block is done. */
  lemma {:induction false} RenderDisplaysIntended(cmd: PrintCommand, s: Style)
    ensures Displayed(Render(cmd, s), s) == Intended(cmd, s)
    ensures FinalStyle(Render(cmd, s), s) == s
    decreases Size(cmd)
  {
    match cmd
    case Nothing =>
    case Print(t) =>
      TextDisplays(t, s);
    case Println(t) =>
      TextDisplays(t + NewLine, s);
    case PrintlnEmpty =>
      TextDisplays(NewLine, s);
    case PrintBold(t) =>
      assert Size(InBold(Print(t))) == 2;
      RenderDisplaysIntended(InBold(Print(t)), s);
    case WithColor(c, body) =>
      if s.color != Some(c) {
        RenderDisplaysIntended(body, Style(Some(c), s.bold));
        WithColorDisplays(c, body, s);
      } else {
        RenderDisplaysIntended(body, s);
      }
    case InBold(body) =>
      if !s.bold {
        RenderDisplaysIntended(body, Style(s.color, true));
        InBoldDisplays(body, s);
      } else {
        RenderDisplaysIntended(body, s);
      }
    case Then(first, second) =>
      RenderDisplaysIntended(first, s);
      RenderDisplaysIntended(second, s);
      ThenDisplays(first, second, s);
  }

  /** Printed text is displayed in the current style and leaves the style alone. */
  lemma TextDisplays(t: string, s: Style)
    ensures Displayed([Text(t)], s) == Paint(t, s)
    ensures FinalStyle([Text(t)], s) == s
  {
    assert [Text(t)][..0] == [];
  }

  /** The sequencing case: two blocks that each keep the style display one after the other. */
  lemma ThenDisplays(first: PrintCommand, second: PrintCommand, s: Style)
    requires Displayed(Render(first, s), s) == Intended(first, s) && FinalStyle(Render(first, s), s) == s
    requires Displayed(Render(second, s), s) == Intended(second, s) && FinalStyle(Render(second, s), s) == s
    ensures Displayed(Render(Then(first, second), s), s) == Intended(Then(first, second), s)
    ensures FinalStyle(Render(Then(first, second), s), s) == s
  {
    TerminalAppend(Render(first, s), Render(second, s), s);
  }

  /** The nested-colour case: if the block shows its intended characters from the nested
      style and keeps that style, `withColor` of another colour does the same from the
      console's style and ends in it. */
  lemma WithColorDisplays(c: ConsoleColor, body: PrintCommand, s: Style)
    requires s.color != Some(c)
    requires Displayed(Render(body, Style(Some(c), s.bold)), Style(Some(c), s.bold)) == Intended(body, Style(Some(c), s.bold))
    requires FinalStyle(Render(body, Style(Some(c), s.bold)), Style(Some(c), s.bold)) == Style(Some(c), s.bold)
    ensures Displayed(Render(WithColor(c, body), s), s) == Intended(WithColor(c, body), s)
    ensures FinalStyle(Render(WithColor(c, body), s), s) == s
  {
    var inner := Style(Some(c), s.bold);
    var prefix := SwitchOutput(s, c);
    var middle := Render(body, inner);
    assert Render(WithColor(c, body), s) == prefix + middle + RestoreOutput(s);
    PrefixSelects(s, c);
    ComposeStyled(prefix, middle, s, inner);
  }

  /** The nested-bold case, as for `WithColorDisplays`. */
  lemma InBoldDisplays(body: PrintCommand, s: Style)
    requires !s.bold
    requires Displayed(Render(body, Style(s.color, true)), Style(s.color, true)) == Intended(body, Style(s.color, true))
    requires FinalStyle(Render(body, Style(s.color, true)), Style(s.color, true)) == Style(s.color, true)
    ensures Displayed(Render(InBold(body), s), s) == Intended(InBold(body), s)
    ensures FinalStyle(Render(InBold(body), s), s) == s
  {
    var inner := Style(s.color, true);
    var prefix := [Sgr(BoldCode)];
    var middle := Render(body, inner);
    assert Render(InBold(body), s) == prefix + middle + RestoreOutput(s);
    assert prefix == [] + [Sgr(BoldCode)];
    ComposeStyled(prefix, middle, s, inner);
  }

  /** The control sequences `withColor` writes before its block take a terminal in the
      console's style to the nested console's style and display nothing. */
  lemma PrefixSelects(s: Style, c: ConsoleColor)
    requires s.color != Some(c)
    ensures FinalStyle(SwitchOutput(s, c), s) == Style(Some(c), s.bold)
    ensures Displayed(SwitchOutput(s, c), s) == []
  {
    var switch: seq<Output> := if s.color.Some? then [Sgr(ResetCode)] + (if s.bold then [Sgr(BoldCode)] else []) else [];
    var select := [Sgr(c.Code())];
    TerminalAppend(switch, select, s);
    if s.color.Some? {
      TerminalAppend([Sgr(ResetCode)], if s.bold then [Sgr(BoldCode)] else [], s);
      assert [Sgr(ResetCode)] == [] + [Sgr(ResetCode)];
    }
    assert FinalStyle(switch, s) == Style(None, s.bold) || FinalStyle(switch, s) == s;
    assert select == [] + select;
    ColorCodeRoundTrip(c);
  }

  /** Shared step of the nested cases: a prefix into the nested style, a block that keeps
      it, and the restore, display what the block displays and end in the console's style. */
  lemma ComposeStyled(prefix: seq<Output>, middle: seq<Output>, s: Style, inner: Style)
    requires FinalStyle(prefix, s) == inner && Displayed(prefix, s) == []
    requires FinalStyle(middle, inner) == inner
    ensures FinalStyle(prefix + middle + RestoreOutput(s), s) == s
    ensures Displayed(prefix + middle + RestoreOutput(s), s) == Displayed(middle, inner)
  {
    TerminalAppend(prefix, middle, s);
    TerminalAppend(prefix + middle, RestoreOutput(s), s);
    RestoreReturnsToStyle(s, inner);
  }

  /** The text `returnConsoleToCurrentState` writes. */
  function RestoreText(s: Style): (r: string)
  {
    Flatten(RestoreOutput(s))
  }

  /** The text of the switch: reset, and bold again if the console is bold, when the
      console has a colour; then the new colour. */
  lemma SwitchText(s: Style, c: ConsoleColor)
    ensures Flatten(SwitchOutput(s, c))
         == (if s.color.Some? then EscapeSequence(ResetCode) + (if s.bold then EscapeSequence(BoldCode) else "") else "")
            + EscapeSequence(c.Code())
  {
    var bold: seq<Output> := if s.bold then [Sgr(BoldCode)] else [];
    var switch: seq<Output> := if s.color.Some? then [Sgr(ResetCode)] + bold else [];
    FlattenSingle(Sgr(ResetCode));
    FlattenSingle(Sgr(BoldCode));
    FlattenSingle(Sgr(c.Code()));
    FlattenAppend(switch, [Sgr(c.Code())]);
    FlattenAppend([Sgr(ResetCode)], bold);
  }

  /** `withColor` of another colour renders as the switch, the block in the nested style
      and the restore. */
  lemma RenderWithOtherColor(c: ConsoleColor, body: PrintCommand, s: Style)
    requires s.color != Some(c)
    ensures Render(WithColor(c, body), s)
         == SwitchOutput(s, c) + Render(body, Style(Some(c), s.bold)) + RestoreOutput(s)
  {
  }

  /** `inBold` on a console that is not bold renders as bold, the block in bold and the
      restore. */
  lemma RenderInBoldOnPlain(body: PrintCommand, s: Style)
    requires !s.bold
    ensures Render(InBold(body), s)
         == [Sgr(BoldCode)] + Render(body, Style(s.color, true)) + RestoreOutput(s)
  {
  }

  /** `withColor` on a console of another colour writes the switch, then the block as the
      nested console writes it, then the restore. */
  lemma WithColorSwitchText(c: ConsoleColor, body: PrintCommand, s: Style)
    requires s.color != Some(c)
    ensures Flatten(Render(WithColor(c, body), s))
         == (if s.color.Some? then EscapeSequence(ResetCode) + (if s.bold then EscapeSequence(BoldCode) else "") else "")
            + EscapeSequence(c.Code())
            + Flatten(Render(body, Style(Some(c), s.bold)))
            + RestoreText(s)
  {
    var middle := Render(body, Style(Some(c), s.bold));
    FlattenAppend(SwitchOutput(s, c) + middle, RestoreOutput(s));
    FlattenAppend(SwitchOutput(s, c), middle);
    SwitchText(s, c);
  }

  /** `withColor` on a console that already has the colour writes exactly what the block writes. */
  lemma WithColorSameColorText(c: ConsoleColor, body: PrintCommand, s: Style)
    requires s.color == Some(c)
    ensures Flatten(Render(WithColor(c, body), s)) == Flatten(Render(body, s))
  {
  }

  /** `inBold` on a console that is not bold writes the bold sequence, the block as the
      nested bold console writes it, then the restore; on a bold console just the block. */
  lemma InBoldText(body: PrintCommand, s: Style)
    ensures !s.bold ==> Flatten(Render(InBold(body), s))
                        == EscapeSequence(BoldCode) + Flatten(Render(body, Style(s.color, true))) + RestoreText(s)
    ensures s.bold ==> Flatten(Render(InBold(body), s)) == Flatten(Render(body, s))
  {
    if !s.bold {
      var middle := Render(body, Style(s.color, true));
      FlattenAppend([Sgr(BoldCode)] + middle, RestoreOutput(s));
      FlattenAppend([Sgr(BoldCode)], middle);
      FlattenSingle(Sgr(BoldCode));
    }
  }

  /** The restore writes reset, then bold if the console is bold, then its colour if it has one. */
  lemma RestoreTextValue(s: Style)
    ensures RestoreText(s)
         == EscapeSequence(ResetCode)
            + (if s.bold then EscapeSequence(BoldCode) else "")
            + (match s.color case Some(c) => EscapeSequence(c.Code()) case None => "")
  {
    var bold: seq<Output> := if s.bold then [Sgr(BoldCode)] else [];
    var color: seq<Output> := match s.color case Some(c) => [Sgr(c.Code())] case None => [];
    FlattenAppend([Sgr(ResetCode)] + bold, color);
    FlattenAppend([Sgr(ResetCode)], bold);
    FlattenSingle(Sgr(ResetCode));
    FlattenSingle(Sgr(BoldCode));
    if s.color.Some? {
      FlattenSingle(Sgr(s.color.value.Code()));
    }
  }

  /** `printBold(t)` on a plain console: bold on, the text, reset. */
  lemma PrintBoldOnPlainConsole(t: string)
    ensures Flatten(Render(PrintBold(t), DefaultStyle)) == "\U{1B}[1m" + t + "\U{1B}[0m"
  {
    EscapeSequenceValues(Black);
    InBoldText(Print(t), DefaultStyle);
    RestoreTextValue(DefaultStyle);
    FlattenSingle(Text(t));
    assert RestoreText(DefaultStyle) == "\U{1B}[0m";
    assert Flatten(Render(Print(t), Style(None, true))) == t;
  }

  /** The stream the console writes to; `written` is everything printed so far. */
  class OutputStream {
    var written: string

    constructor ()
      ensures written == ""
    {
      written := "";
    }

    method Print(text: string)
      modifies this
      ensures written == old(written) + text
    {
      written := written + text;
    }
  }

  class Console {
    const outputStream: OutputStream
    const color: Option<ConsoleColor>
    const isBold: bool

    constructor (outputStream: OutputStream, color: Option<ConsoleColor>, isBold: bool)
      ensures this.outputStream == outputStream && this.color == color && this.isBold == isBold
    {
      this.outputStream := outputStream;
      this.color := color;
      this.isBold := isBold;
    }

    /** A console with no colour and bold off. */
    constructor Plain(outputStream: OutputStream)
      ensures this.outputStream == outputStream && color == None && !isBold
    {
      this.outputStream := outputStream;
      this.color := None;
      this.isBold := false;
    }

    function CurrentStyle(): (r: Style)
    {
      Style(color, isBold)
    }

    method Print(text: string)
      modifies outputStream
      ensures outputStream.written == old(outputStream.written) + text
    {
      outputStream.Print(text);
    }

    method Println(text: string)
      modifies outputStream
      ensures outputStream.written == old(outputStream.written) + text + NewLine
    {
      outputStream.Print(text + NewLine);
    }

    method PrintlnEmpty()
      modifies outputStream
      ensures outputStream.written == old(outputStream.written) + NewLine
    {
      outputStream.Print(NewLine);
    }

    /** Bookkeeping for the ghost record of what has been written: appending the text of
        `more` to what `out` wrote is writing `out + more`. */
    static lemma WrittenAppend(before: string, out: seq<Output>, more: seq<Output>)
      ensures before + Flatten(out) + Flatten(more) == before + Flatten(out + more)
    {
      FlattenAppend(out, more);
    }

    /** Writes one control sequence, keeping `written` equal to `before` followed by the
        flattened outputs. */
    method PrintSgr(code: nat, ghost before: string, ghost out: seq<Output>) returns (ghost out': seq<Output>)
      requires outputStream.written == before + Flatten(out)
      modifies outputStream
      ensures out' == out + [Sgr(code)]
      ensures outputStream.written == before + Flatten(out')
    {
      outputStream.Print(EscapeSequence(code));
      out' := out + [Sgr(code)];
      WriteOutput(before, out, Sgr(code));
    }

    /** Runs a block of print statements on this console. */
    method Run(cmd: PrintCommand)
      modifies outputStream
      ensures outputStream.written == old(outputStream.written) + Flatten(Render(cmd, CurrentStyle()))
      decreases Size(cmd), 1
    {
      match cmd
      case Nothing =>
        FlattenSingle(Text(""));
      case Print(t) =>
        Print(t);
        FlattenSingle(Text(t));
      case Println(t) =>
        Println(t);
        FlattenSingle(Text(t + NewLine));
      case PrintlnEmpty =>
        PrintlnEmpty();
        FlattenSingle(Text(NewLine));
      case PrintBold(t) => PrintBold(t);
      case WithColor(c, body) => WithColor(c, body);
      case InBold(body) => InBold(body);
      case Then(first, second) =>
        Run(first);
        Run(second);
        FlattenAppend(Render(first, CurrentStyle()), Render(second, CurrentStyle()));
    }

    method WithColor(c: ConsoleColor, body: PrintCommand)
      modifies outputStream
      ensures outputStream.written == old(outputStream.written) + Flatten(Render(PrintCommand.WithColor(c, body), CurrentStyle()))
      decreases Size(body) + 1, 0
    {
      if Some(c) == color {
        Run(body);
        return;
      }

      ghost var before := outputStream.written;
      WriteSwitch(c);
      ghost var out := SwitchOutput(CurrentStyle(), c);
      var nested := new Console(outputStream, Some(c), isBold);
      ghost var middle := Render(body, nested.CurrentStyle());
      nested.Run(body);
      WrittenAppend(before, out, middle);
      out := out + middle;
      ghost var restore := RestoreOutput(CurrentStyle());
      ReturnConsoleToCurrentState();
      WrittenAppend(before, out, restore);
      out := out + restore;
      RenderWithOtherColor(c, body, CurrentStyle());
    }

    /** The sequences `withColor(c)` writes before its block: reset, and bold again if
        bold, when the console has a colour; then the colour `c`. */
    method WriteSwitch(c: ConsoleColor)
      modifies outputStream
      ensures outputStream.written == old(outputStream.written) + Flatten(SwitchOutput(CurrentStyle(), c))
    {
      ghost var before := outputStream.written;
      ghost var out: seq<Output> := [];
      FlattenSingle(Sgr(ResetCode));

      if color != None {
        out := PrintSgr(ResetCode, before, out);

        if isBold {
          out := PrintSgr(BoldCode, before, out);
        }
      }

      out := PrintSgr(c.Code(), before, out);
      assert out == SwitchOutput(CurrentStyle(), c);
    }

    method InBold(body: PrintCommand)
      modifies outputStream
      ensures outputStream.written == old(outputStream.written) + Flatten(Render(PrintCommand.InBold(body), CurrentStyle()))
      decreases Size(body) + 1, 0
    {
      if isBold {
        Run(body);
        return;
      }

      ghost var before := outputStream.written;
      FlattenSingle(Sgr(BoldCode));
      ghost var out := PrintSgr(BoldCode, before, []);
      assert out == [Sgr(BoldCode)];
      var nested := new Console(outputStream, color, true);
      ghost var middle := Render(body, nested.CurrentStyle());
      nested.Run(body);
      WrittenAppend(before, out, middle);
      out := out + middle;
      ghost var restore := RestoreOutput(CurrentStyle());
      ReturnConsoleToCurrentState();
      WrittenAppend(before, out, restore);
      out := out + restore;
      RenderInBoldOnPlain(body, CurrentStyle());
      assert out == Render(PrintCommand.InBold(body), CurrentStyle());
    }

    method PrintBold(text: string)
      modifies outputStream
      ensures outputStream.written == old(outputStream.written) + Flatten(Render(PrintCommand.PrintBold(text), CurrentStyle()))
      decreases 3, 0
    {
      InBold(PrintCommand.Print(text));
    }

    method ReturnConsoleToCurrentState()
      modifies outputStream
      ensures outputStream.written == old(outputStream.written) + RestoreText(CurrentStyle())
    {
      ghost var before := outputStream.written;
      FlattenSingle(Sgr(ResetCode));
      assert outputStream.written == before + Flatten([]);
      ghost var out := PrintSgr(ResetCode, before, []);

      if isBold {
        out := PrintSgr(BoldCode, before, out);
      }

      if color != None {
        out := PrintSgr(color.value.Code(), before, out);
      }
      assert out == RestoreOutput(CurrentStyle());
    }
  }
}
