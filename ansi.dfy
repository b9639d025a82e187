/** Select Graphic Rendition control sequences (ECMA-48, section 8.3.117), as the
    console writes them, and a terminal that interprets them. */
module Ansi {
  import opened Wrappers

  /** The eight foreground colours and their SGR parameters. */
  datatype ConsoleColor = Black | Red | Green | Yellow | Blue | Magenta | Cyan | White
  {
    function Code(): (r: nat)
      ensures 30 <= r <= 37
    {
      match this
      case Black => 30
      case Red => 31
      case Green => 32
      case Yellow => 33
      case Blue => 34
      case Magenta => 35
      case Cyan => 36
      case White => 37
    }
  }

  /** The colour an SGR parameter selects, if it selects one; the inverse of `Code`. */
  function ColorOfCode(code: nat): (r: Option<ConsoleColor>)
    ensures r.Some? <==> 30 <= code <= 37
    ensures r.Some? ==> r.value.Code() == code
  {
    if code == 30 then Some(Black)
    else if code == 31 then Some(Red)
    else if code == 32 then Some(Green)
    else if code == 33 then Some(Yellow)
    else if code == 34 then Some(Blue)
    else if code == 35 then Some(Magenta)
    else if code == 36 then Some(Cyan)
    else if code == 37 then Some(White)
    else None
  }

  /** Every colour has its own code, and the code selects it again. */
  lemma ColorCodeRoundTrip(c: ConsoleColor)
    ensures ColorOfCode(c.Code()) == Some(c)
  {
  }

  lemma ColorCodesDistinct(c: ConsoleColor, d: ConsoleColor)
    ensures c.Code() == d.Code() <==> c == d
  {
    ColorCodeRoundTrip(c);
    ColorCodeRoundTrip(d);
  }

  const ESC: char := '\U{1B}'

  /** SGR parameter that returns every attribute to its default. */
  const ResetCode: nat := 0

  /** SGR parameter for bold. */
  const BoldCode: nat := 1

  function DigitChar(d: nat): (ch: char)
    requires d < 10
    ensures '0' <= ch <= '9' && ch as int - '0' as int == d
  {
    ('0' as int + d) as char
  }

  /** The decimal digits of `n`, most significant first, without leading zeros. */
  function Decimal(n: nat): (r: string)
  {
    if n < 10 then [DigitChar(n)] else Decimal(n / 10) + [DigitChar(n % 10)]
  }

  /** The decimal form is a non-empty string of digits. */
  lemma {:induction false} DecimalDigits(n: nat)
    ensures |Decimal(n)| >= 1
    ensures forall i :: 0 <= i < |Decimal(n)| ==> '0' <= Decimal(n)[i] <= '9'
  {
    if n >= 10 {
      DecimalDigits(n / 10);
    }
  }

  /** The number a string of decimal digits denotes. */
  function DecimalValue(s: string): (n: nat)
    requires forall i :: 0 <= i < |s| ==> '0' <= s[i] <= '9'
  {
    if s == [] then 0
    else 10 * DecimalValue(s[..|s| - 1]) + (s[|s| - 1] as int - '0' as int)
  }

  /** Reading the digits back gives the number they were written from. */
  lemma {:induction false} DecimalRoundTrip(n: nat)
    ensures |Decimal(n)| >= 1
    ensures forall i :: 0 <= i < |Decimal(n)| ==> '0' <= Decimal(n)[i] <= '9'
    ensures DecimalValue(Decimal(n)) == n
  {
    DecimalDigits(n);
    if n >= 10 {
      DecimalRoundTrip(n / 10);
      var r := Decimal(n);
      assert r[..|r| - 1] == Decimal(n / 10);
    }
  }

  /** `escapeSequence(code)`: the control sequence that selects SGR parameter `code`. */
  function EscapeSequence(code: nat): (r: string)
    ensures |r| >= 4 && r[0] == ESC && r[1] == '[' && r[|r| - 1] == 'm'
  {
    DecimalDigits(code);
    [ESC, '['] + Decimal(code) + "m"
  }

  /** A control sequence is ESC, '[', decimal digits and 'm', and the digits read back
      as the parameter it was written for. */
  lemma EscapeSequenceParses(code: nat)
    ensures var r := EscapeSequence(code);
            && |r| >= 4 && r[0] == ESC && r[1] == '[' && r[|r| - 1] == 'm'
            && (forall i :: 2 <= i < |r| - 1 ==> '0' <= r[i] <= '9')
            && DecimalValue(r[2..|r| - 1]) == code
  {
    var r := EscapeSequence(code);
    assert r[2..|r| - 1] == Decimal(code);
    DecimalRoundTrip(code);
  }

  /** Different parameters give different control sequences. */
  lemma EscapeSequenceInjective(code1: nat, code2: nat)
    ensures EscapeSequence(code1) == EscapeSequence(code2) <==> code1 == code2
  {
    if EscapeSequence(code1) == EscapeSequence(code2) {
      EscapeSequenceParses(code1);
      EscapeSequenceParses(code2);
    }
  }

  /** The reset and bold sequences, and the sequence of each colour, as text. */
  lemma EscapeSequenceValues(c: ConsoleColor)
    ensures EscapeSequence(ResetCode) == "\U{1B}[0m"
    ensures EscapeSequence(BoldCode) == "\U{1B}[1m"
    ensures EscapeSequence(c.Code()) == "\U{1B}[3" + [DigitChar(c.Code() - 30)] + "m"
  {
    assert Decimal(0) == "0";
    assert Decimal(1) == "1";
    var n := c.Code();
    assert n / 10 == 3 && n % 10 == n - 30;
    assert Decimal(3) == "3";
    assert Decimal(n) == "3" + [DigitChar(n - 30)];
  }

  /** What the console writes, before flattening to text: plain text, or the control
      sequence for one SGR parameter. */
  datatype Output = Text(text: string) | Sgr(code: nat)

  /** The characters written for one output. */
  function OutputText(o: Output): (r: string)
  {
    match o
    case Text(t) => t
    case Sgr(code) => EscapeSequence(code)
  }

  /** The concatenation of a sequence of strings. */
  function Concat(pieces: seq<string>): (r: string)
  {
    if pieces == [] then "" else pieces[0] + Concat(pieces[1..])
  }

  lemma {:induction false} ConcatAppend(a: seq<string>, b: seq<string>)
    ensures Concat(a + b) == Concat(a) + Concat(b)
  {
    if a == [] {
      assert a + b == b;
    } else {
      var t := a + b;
      assert t[0] == a[0];
      assert t[1..] == a[1..] + b;
      ConcatAppend(a[1..], b);
      calc {
        Concat(t);
        t[0] + Concat(t[1..]);
        a[0] + (Concat(a[1..]) + Concat(b));
        (a[0] + Concat(a[1..])) + Concat(b);
      }
    }
  }

  /** The text of each output, in order. */
  function Pieces(out: seq<Output>): (r: seq<string>)
    ensures |r| == |out|
    ensures forall i :: 0 <= i < |out| ==> r[i] == OutputText(out[i])
  {
    seq(|out|, i requires 0 <= i < |out| => OutputText(out[i]))
  }

  /** The characters written for a sequence of outputs. */
  function Flatten(out: seq<Output>): (r: string)
  {
    Concat(Pieces(out))
  }

  /** Writing two runs of output one after the other writes their texts one after the other. */
  lemma FlattenAppend(a: seq<Output>, b: seq<Output>)
    ensures Flatten(a + b) == Flatten(a) + Flatten(b)
  {
    assert Pieces(a + b) == Pieces(a) + Pieces(b);
    ConcatAppend(Pieces(a), Pieces(b));
  }

  /** One output writes its own text. */
  lemma FlattenSingle(o: Output)
    ensures Flatten([]) == ""
    ensures Flatten([o]) == OutputText(o)
  {
    assert Pieces([o]) == [OutputText(o)];
    assert [OutputText(o)][1..] == [];
  }

  /** Writing one more output appends its text after what was written before. */
  lemma {:induction false} WriteOutput(before: string, out: seq<Output>, o: Output)
    ensures before + Flatten(out + [o]) == before + Flatten(out) + OutputText(o)
  {
    FlattenAppend(out, [o]);
    FlattenSingle(o);
  }

  /** The rendition state of a terminal: the foreground colour (none is the default)
      and whether bold is on. */
  datatype Style = Style(color: Option<ConsoleColor>, bold: bool)

  const DefaultStyle := Style(None, false)

  /** How a terminal's rendition changes on one SGR parameter: 0 resets everything,
      1 turns bold on, 30 to 37 select a colour, anything else is ignored. */
  function ApplySgr(s: Style, code: nat): (r: Style)
    ensures code == ResetCode ==> r == DefaultStyle
    ensures code == BoldCode ==> r == Style(s.color, true)
    ensures 30 <= code <= 37 ==> r == Style(ColorOfCode(code), s.bold)
  {
    if code == ResetCode then DefaultStyle
    else if code == BoldCode then Style(s.color, true)
    else match ColorOfCode(code)
      case Some(c) => Style(Some(c), s.bold)
      case None => s
  }

  /** An output the console writes: text, or one of the SGR parameters reset, bold and
      the eight colours. */
  predicate IsConsoleOutput(o: Output)
  {
    o.Sgr? ==> o.code == ResetCode || o.code == BoldCode || ColorOfCode(o.code).Some?
  }

  /** Every output in `out` is one the console writes. */
  predicate ConsoleOutputs(out: seq<Output>)
  {
    forall i :: 0 <= i < |out| ==> IsConsoleOutput(out[i])
  }

  lemma ConsoleOutputsAppend(a: seq<Output>, b: seq<Output>)
    requires ConsoleOutputs(a) && ConsoleOutputs(b)
    ensures ConsoleOutputs(a + b)
  {
    forall i | 0 <= i < |a + b|
      ensures IsConsoleOutput((a + b)[i])
    {
      if i >= |a| {
        assert (a + b)[i] == b[i - |a|];
      }
    }
  }

  /** A displayed character and the rendition it is displayed with. */
  datatype StyledChar = StyledChar(ch: char, style: Style)

  function Paint(t: string, s: Style): (r: seq<StyledChar>)
    ensures |r| == |t|
    ensures forall i :: 0 <= i < |t| ==> r[i] == StyledChar(t[i], s)
  {
    seq(|t|, i requires 0 <= i < |t| => StyledChar(t[i], s))
  }

  /** The rendition a terminal is left in after `out`, starting from `s`. */
  function FinalStyle(out: seq<Output>, s: Style): (r: Style)
  {
    if out == [] then s
    else match out[|out| - 1]
      case Text(_) => FinalStyle(out[..|out| - 1], s)
      case Sgr(code) => ApplySgr(FinalStyle(out[..|out| - 1], s), code)
  }

  /** The characters a terminal shows for `out`, starting from `s`, each with its rendition. */
  function Displayed(out: seq<Output>, s: Style): (r: seq<StyledChar>)
  {
    if out == [] then []
    else Displayed(out[..|out| - 1], s)
         + match out[|out| - 1]
           case Text(t) => Paint(t, FinalStyle(out[..|out| - 1], s))
           case Sgr(_) => []
  }

  /** Interpreting a concatenation: the second part starts in the rendition the first left. */
  lemma {:induction false} TerminalAppend(a: seq<Output>, b: seq<Output>, s: Style)
    ensures FinalStyle(a + b, s) == FinalStyle(b, FinalStyle(a, s))
    ensures Displayed(a + b, s) == Displayed(a, s) + Displayed(b, FinalStyle(a, s))
    decreases |b|
  {
    if b == [] {
      assert a + b == a;
    } else {
      TerminalAppend(a, b[..|b| - 1], s);
      assert (a + b)[..|a + b| - 1] == a + b[..|b| - 1];
    }
  }
}
