/** What the terminal shows: the width of text unit by unit, the lines of wrapped text, and which part of a paragraph
    is padding, text, or dropped. 10 is the line break, 27 the escape character, 109 the letter m. */
module TerminalText {
  import opened Texts
  import opened Formatting
  import opened GreedyWrapping
  import opened FittedTexts

  // ---- Widths ----

  lemma {:induction false} EscapedColumns(s: Text, t: Text)
    requires 109 !in s
    ensures Columns(InEscape, s + [109] + t) == 1 + VisibleWidth(t)
    ensures Columns(InEscape, s) == 0
  {
    if s == [] {
      assert (s + [109] + t)[1..] == t;
    } else {
      assert (s + [109] + t)[1..] == s[1..] + [109] + t && s[0] != 109;
      EscapedColumns(s[1..], t);
    }
  }

  /** An escape sequence up to its m takes one column, whatever it holds; what follows has its own width. */
  lemma EscapeSequenceTakesOneColumn(s: Text, t: Text)
    requires 109 !in s
    ensures VisibleWidth([27] + s + [109] + t) == 1 + VisibleWidth(t)
  {
    EscapedColumns(s, t);
    assert ([27] + s + [109] + t)[1..] == s + [109] + t;
  }

  /** One that does not end takes none, and neither does anything after it. */
  lemma OpenEscapeTakesNone(s: Text)
    requires 109 !in s
    ensures VisibleWidth([27] + s) == 0
  {
    EscapedColumns(s, []);
    assert ([27] + s)[1..] == s;
  }

  /** Any other unit takes one column, a high surrogate together with the unit after it. */
  lemma UnitTakesOneColumn(c: CodeUnit, t: Text)
    requires c != 27
    ensures VisibleWidth([c] + t) == 1 + if 0xd800 <= c < 0xdc00 && t != [] then VisibleWidth(t[1..])
                                         else if 0xd800 <= c < 0xdc00 then 0
                                         else VisibleWidth(t)
  {
    assert ([c] + t)[1..] == t;
    assert Columns(AfterHighSurrogate, t) == if t == [] then 0 else VisibleWidth(t[1..]);
  }

  lemma NothingTakesNoColumn()
    ensures VisibleWidth([]) == 0
  {
  }

  // ---- The parts of a paragraph ----

  lemma {:induction false} PaddingLengthIs(padding: Text, rest: Text)
    requires (forall c | c in padding :: IsSpace(c)) && (rest == [] || !IsSpace(rest[0]))
    ensures PaddingLength(padding + rest) == |padding|
  {
    if padding == [] {
      assert padding + rest == rest;
    } else {
      assert padding[0] in padding && (padding + rest)[1..] == padding[1..] + rest;
      assert forall c | c in padding[1..] :: c in padding;
      PaddingLengthIs(padding[1..], rest);
    }
  }

  lemma {:induction false} BodyLengthIs(body: Text, rest: Text)
    requires (forall c | c in body :: c !in {10, 13, 8232, 8233}) && (rest == [] || rest[0] in {10, 13, 8232, 8233})
    ensures BodyLength(body + rest) == |body|
  {
    if body == [] {
      assert body + rest == rest;
    } else {
      assert body[0] in body && (body + rest)[1..] == body[1..] + rest;
      assert forall c | c in body[1..] :: c in body;
      BodyLengthIs(body[1..], rest);
    }
  }

  /** A paragraph is its white space at the head, the text up to the first line terminator, and what is dropped. */
  lemma ParagraphParts(padding: Text, body: Text, dropped: Text)
    requires (forall c | c in padding :: IsSpace(c)) && (body + dropped == [] || !IsSpace((body + dropped)[0]))
    requires forall c | c in body :: c !in {10, 13, 8232, 8233}
    requires dropped == [] || dropped[0] in {10, 13, 8232, 8233}
    ensures
      var line := padding + body + dropped;
      Padding(line) == padding && Body(line) == body && Unmatched(line) == dropped
      && forall width: int :: FitLine(line, width) == padding + WrapText(body, width)
  {
    var line, rest := padding + body + dropped, body + dropped;
    assert line == padding + rest;
    PaddingLengthIs(padding, rest);
    BodyLengthIs(body, dropped);
    assert line[..|padding|] == padding && line[|padding|..] == rest;
    assert rest[..|body|] == body && rest[|body|..] == dropped;
  }

  /** Text is left alone where the terminal is unknown or not wider than 20 columns. */
  lemma NarrowTerminalLeavesText(text: Text, columns: int)
    ensures FittedText(text, Unknown) == text
    ensures columns <= 20 ==> FittedText(text, Terminal(columns)) == text
  {
  }

  /** Elsewhere each paragraph is fitted by itself. */
  lemma ParagraphsAreFitted(text: Text, columns: int)
    requires columns > 20
    ensures
      var lines := Split(text, 10);
      FittedText(text, Terminal(columns)) == Join(FitLines(lines, columns), [10])
      && forall i | 0 <= i < |lines| :: FitLines(lines, columns)[i] == FitLine(lines[i], columns)
  {
  }

  // ---- The lines of wrapped text ----

  lemma WrappedLinesStand(text: Text, width: int)
    requires Solid(Greedy(Words(text), width)) && Words(text) != []
    ensures Split(WrapText(text, width), 10) == WrapLines(text, width)
  {
    WordsAreWords(text);
    WrapIsGreedy(text, width);
    var lines := Greedy(Words(text), width);
    GreedyKeepsWords(Words(text), width);
    var texts := LinesOf(lines);
    assert lines != [] by { BreakStarts([Words(text)[0]], Words(text)[1..], width); }
    forall i | 0 <= i < |texts| ensures 10 !in texts[i] {
      LinesOfAt(lines, i);
      FlattenHolds(lines, i);
      LineCharacters(lines[i]);
      assert forall c | c in LineOf(lines[i]) :: c == SPACE || !IsSpace(c);
    }
    SplitJoin(texts, 10);
  }

  /** Of the lines that the terminal shows, those of more than one word are narrower than the width, and no way of
      breaking the same words takes fewer. */
  lemma WrappedTextIsNarrowAndShort(text: Text, width: int, rival: seq<seq<Text>>)
    requires Solid(Greedy(Words(text), width)) && Words(text) != []
    ensures forall i | 0 <= i < |Split(WrapText(text, width), 10)| ::
              var line := Split(WrapText(text, width), 10)[i];
              |Words(line)| == 1 || VisibleWidth(line) < width
    ensures GoodLines(rival, width) && Flatten(rival) == Words(text) ==> |Split(WrapText(text, width), 10)| <= |rival|
  {
    WrappedLinesStand(text, width);
    var shown := WrapLines(text, width);
    forall i | 0 <= i < |shown| ensures |Words(shown[i])| == 1 || VisibleWidth(shown[i]) < width {
      WrappedLinesAreNarrow(text, width, i);
    }
    if GoodLines(rival, width) && Flatten(rival) == Words(text) {
      WrapIsShortest(text, width, rival);
    }
  }

  /** What a rival may do, and how wide a line of it is: its words and one column between any two. */
  lemma GoodLineIff(line: seq<Text>, width: int)
    ensures GoodLine(line, width) <==> line != [] && (|line| == 1 || Measure(line) < width)
    ensures line == [] ==> Measure(line) == 0
    ensures |line| == 1 ==> Measure(line) == VisibleWidth(line[0])
    ensures |line| > 1 ==> Measure(line) == Measure(line[..|line| - 1]) + 1 + VisibleWidth(line[|line| - 1])
  {
  }

  // ---- White space ----

  /** A word holds none, and any piece of it separates words. */
  lemma WordsAreSeparated(a: Text, c: CodeUnit, b: Text, word: Text)
    ensures c in {9, 10, 13, 32, 160, 8232, 8233} ==> Words(a + [c] + b) == Words(a) + Words(b)
    ensures word != [] && (forall u | u in word :: 33 <= u <= 126) ==> Words(word) == [word]
    ensures Words([]) == []
  {
    if c in {9, 10, 13, 32, 160, 8232, 8233} {
      SpaceIff(c);
      WordsConcat(a, c, b);
    }
    if word != [] && forall u | u in word :: 33 <= u <= 126 {
      assert forall i | 0 <= i < |word| :: word[i] in word;
      WordsOfWord(word);
    }
  }
}
