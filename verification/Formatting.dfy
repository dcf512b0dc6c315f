/** Word wrapping for terminal output (formatting.ts). */
module Formatting {
  import opened Texts

  const ESCAPE: CodeUnit := 27
  const LETTER_M: CodeUnit := 109

  predicate IsHighSurrogate(c: CodeUnit) {
    0xd800 <= c <= 0xdbff
  }

  // ---- Visible width ----

  datatype Scan = Plain | InEscape | AfterHighSurrogate

  /** The columns of a text, scanned from the given state: a complete escape sequence takes one column, an
      unfinished one none, a surrogate pair one. */
  function Columns(scan: Scan, t: Text): nat
    decreases t
  {
    if t == [] then 0
    else
      match scan
      case Plain =>
        if t[0] == ESCAPE then Columns(InEscape, t[1..])
        else 1 + Columns(if IsHighSurrogate(t[0]) then AfterHighSurrogate else Plain, t[1..])
      case InEscape =>
        if t[0] == LETTER_M then 1 + Columns(Plain, t[1..]) else Columns(InEscape, t[1..])
      case AfterHighSurrogate => Columns(Plain, t[1..])
  }

  function VisibleWidth(t: Text): nat {
    Columns(Plain, t)
  }

  method VisibleWidthOf(str: Text) returns (length: nat)
    ensures length == VisibleWidth(str)
  {
    var i := 0;
    length := 0;
    while i < |str|
      invariant 0 <= i <= |str| + 1
      invariant length + (if i <= |str| then Columns(Plain, str[i..]) else 0) == VisibleWidth(str)
    {
      ghost var start := i;
      if str[i] == ESCAPE {
        i := i + 1;
        while i < |str| && str[i] != LETTER_M
          invariant start < i <= |str|
          invariant Columns(InEscape, str[i..]) == Columns(Plain, str[start..])
        {
          i := i + 1;
        }
        if i == |str| {
          break;
        }
      }
      if IsHighSurrogate(str[i]) {
        i := i + 1;
        assert i < |str| ==> str[i..][1..] == str[i + 1..];
      }
      length := length + 1;
      i := i + 1;
    }
  }

  /** An open escape sequence never makes what follows wider. */
  lemma {:induction false} EscapeIsNarrow(t: Text)
    ensures Columns(InEscape, t) <= Columns(Plain, t)
    ensures t != [] && t[0] == SPACE ==> Columns(AfterHighSurrogate, t) <= Columns(Plain, t)
  {
    if t != [] {
      EscapeIsNarrow(t[1..]);
      if IsHighSurrogate(t[0]) && |t| > 1 {
        EscapeIsNarrow(t[1..][1..]);
      }
    }
  }

  /** Two texts with a space between them take no more than their columns and one. */
  lemma {:induction false} SpacedWidth(scan: Scan, a: Text, b: Text)
    ensures Columns(scan, a + [SPACE] + b) <= Columns(scan, a) + 1 + VisibleWidth(b)
    decreases a
  {
    if a == [] {
      assert a + [SPACE] + b == [SPACE] + b && ([SPACE] + b)[1..] == b;
      EscapeIsNarrow(b);
    } else {
      var next := match scan
        case Plain => if a[0] == ESCAPE then InEscape else if IsHighSurrogate(a[0]) then AfterHighSurrogate else Plain
        case InEscape => if a[0] == LETTER_M then Plain else InEscape
        case AfterHighSurrogate => Plain;
      SpacedWidth(next, a[1..], b);
      assert (a + [SPACE] + b)[1..] == a[1..] + [SPACE] + b;
    }
  }

  // ---- Words ----

  predicate EndsWord(t: Text) {
    t == [] || IsSpace(t[0])
  }

  /** The maximal runs of non-space characters. */
  function Words(t: Text): (words: seq<Text>)
    ensures t != [] && !IsSpace(t[0]) ==> words != []
  {
    if t == [] then []
    else if IsSpace(t[0]) then Words(t[1..])
    else if EndsWord(t[1..]) then [[t[0]]] + Words(t[1..])
    else Prepend([t[0]], Words(t[1..]))
  }

  /** `text.trim().split(/\s+/)`: a blank text gives one empty word. */
  function SplitWords(t: Text): seq<Text> {
    if Words(t) == [] then [[]] else Words(t)
  }

  predicate IsWord(w: Text) {
    w != [] && forall i | 0 <= i < |w| :: !IsSpace(w[i])
  }

  // ---- wrap, as the source computes it ----

  datatype Wrapping = Wrapping(lines: seq<Text>, line: Text, lineWidth: nat)

  function AddWord(s: Wrapping, word: Text, width: int): Wrapping {
    var wordWidth := VisibleWidth(word);
    if s.lineWidth != 0 && s.lineWidth + 1 + wordWidth >= width then Wrapping(s.lines + [s.line], word, wordWidth)
    else if s.lineWidth != 0 then Wrapping(s.lines, s.line + [SPACE] + word, s.lineWidth + 1 + wordWidth)
    else Wrapping(s.lines, s.line + word, wordWidth)
  }

  function AddWords(s: Wrapping, words: seq<Text>, width: int): Wrapping
    decreases words
  {
    if words == [] then s else AddWords(AddWord(s, words[0], width), words[1..], width)
  }

  function WrapLines(text: Text, width: int): seq<Text> {
    var s := AddWords(Wrapping([], [], 0), SplitWords(text), width);
    if s.line != [] then s.lines + [s.line] else s.lines
  }

  function WrapText(text: Text, width: int): Text {
    Join(WrapLines(text, width), [NEWLINE])
  }

  method Wrap(text: Text, width: int) returns (result: Text)
    ensures result == WrapText(text, width)
  {
    var words := SplitWords(text);
    var lineWidth: nat := 0;
    var line: Text := [];
    var lines: seq<Text> := [];
    for i := 0 to |words|
      invariant AddWords(Wrapping(lines, line, lineWidth), words[i..], width)
             == AddWords(Wrapping([], [], 0), words, width)
    {
      var word := words[i];
      assert words[i..][0] == word && words[i..][1..] == words[i + 1..];
      var wordWidth := VisibleWidthOf(word);
      if lineWidth != 0 && lineWidth + 1 + wordWidth >= width {
        lines := lines + [line];
        line := word;
        lineWidth := wordWidth;
      } else {
        if lineWidth != 0 {
          line := line + [SPACE];
          lineWidth := lineWidth + 1;
        }
        line := line + word;
        lineWidth := lineWidth + wordWidth;
      }
    }
    if line != [] {
      lines := lines + [line];
    }
    result := Join(lines, [NEWLINE]);
  }

  // ---- fittedTextOf ----

  datatype Width = Unknown | Terminal(columns: int)

  /** The characters that `.` does not match. */
  predicate IsLineTerminator(c: CodeUnit) {
    c in {10, 13, 0x2028, 0x2029}
  }

  function PaddingLength(line: Text): (n: nat)
    ensures n <= |line|
  {
    if line != [] && IsSpace(line[0]) then 1 + PaddingLength(line[1..]) else 0
  }

  function BodyLength(t: Text): (n: nat)
    ensures n <= |t|
  {
    if t != [] && !IsLineTerminator(t[0]) then 1 + BodyLength(t[1..]) else 0
  }

  /** The groups of `/^(\s*)(.*)/`, and what the second group leaves unmatched. */
  function Padding(line: Text): Text {
    line[..PaddingLength(line)]
  }

  function Body(line: Text): Text {
    var rest := line[PaddingLength(line)..];
    rest[..BodyLength(rest)]
  }

  function Unmatched(line: Text): Text {
    var rest := line[PaddingLength(line)..];
    rest[BodyLength(rest)..]
  }

  function FitLine(line: Text, width: int): Text {
    Padding(line) + WrapText(Body(line), width)
  }

  function FitLines(lines: seq<Text>, width: int): (r: seq<Text>)
    ensures |r| == |lines| && forall i | 0 <= i < |lines| :: r[i] == FitLine(lines[i], width)
  {
    if lines == [] then [] else [FitLine(lines[0], width)] + FitLines(lines[1..], width)
  }

  lemma FitLinesStep(lines: seq<Text>, i: nat, width: int)
    requires i < |lines|
    ensures FitLines(lines[i..], width) == [FitLine(lines[i], width)] + FitLines(lines[i + 1..], width)
  {
    assert lines[i..][0] == lines[i] && lines[i..][1..] == lines[i + 1..];
  }

  lemma AppendStep(done: seq<Text>, next: Text, rest: seq<Text>)
    ensures done + ([next] + rest) == done + [next] + rest
  {
  }

  function FittedText(text: Text, width: Width): Text {
    if width.Unknown? || width.columns <= 20 then text
    else Join(FitLines(Split(text, NEWLINE), width.columns), [NEWLINE])
  }

  method FittedTextOf(text: Text, width: Width) returns (result: Text)
    ensures result == FittedText(text, width)
  {
    if width.Unknown? || width.columns <= 20 {
      return text;
    }
    var lines := Split(text, NEWLINE);
    var paragraphs: seq<Text> := [];
    ghost var all := FitLines(lines, width.columns);
    assert lines[0..] == lines && paragraphs + all == all;
    for i := 0 to |lines|
      invariant paragraphs + FitLines(lines[i..], width.columns) == all
    {
      FitLinesStep(lines, i, width.columns);
      var wrapped := Wrap(Body(lines[i]), width.columns);
      AppendStep(paragraphs, Padding(lines[i]) + wrapped, FitLines(lines[i + 1..], width.columns));
      paragraphs := paragraphs + [Padding(lines[i]) + wrapped];
    }
    assert lines[|lines|..] == [] && paragraphs + [] == paragraphs;
    result := Join(paragraphs, [NEWLINE]);
  }
}
