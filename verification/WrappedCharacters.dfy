/** Whatever its words are, wrapping and fitting change white space only (formatting.ts). */
module WrappedCharacters {
  import opened Texts
  import opened Formatting
  import opened FittedTexts

  function Glued(words: seq<Text>): Text {
    if words == [] then [] else words[0] + Glued(words[1..])
  }

  lemma GluedPrepend(c: CodeUnit, words: seq<Text>)
    requires words != []
    ensures Glued(Prepend([c], words)) == [c] + Glued(words)
  {
    assert Prepend([c], words)[1..] == words[1..];
    assert [c] + (words[0] + Glued(words[1..])) == [c] + words[0] + Glued(words[1..]);
  }

  lemma GluedBefore(c: CodeUnit, words: seq<Text>)
    ensures Glued([[c]] + words) == [c] + Glued(words)
  {
    assert ([[c]] + words)[1..] == words;
  }

  lemma {:induction false} WordsGlued(t: Text)
    ensures Glued(Words(t)) == Strip(t)
  {
    if t != [] {
      WordsGlued(t[1..]);
      WordsStep(t);
      if !IsSpace(t[0]) {
        GluedBefore(t[0], Words(t[1..]));
        if !EndsWord(t[1..]) {
          GluedPrepend(t[0], Words(t[1..]));
        }
      }
    }
  }

  predicate Spaceless(w: Text) {
    forall i | 0 <= i < |w| :: !IsSpace(w[i])
  }

  lemma {:induction false} StripWord(w: Text)
    requires Spaceless(w)
    ensures Strip(w) == w
  {
    if w != [] {
      StripWord(w[1..]);
    }
  }

  // ---- Lines and the line at hand ----

  function Written(lines: seq<Text>, line: Text): Text {
    Strip(Join(lines, [10])) + Strip(line)
  }

  lemma StripLast(lines: seq<Text>, line: Text)
    ensures Strip(Join(lines + [line], [10])) == Written(lines, line)
  {
    if lines == [] {
      assert [] + [line] == [line] && Strip([]) + Strip(line) == Strip(line);
    } else {
      JoinLast(lines, line, [10]);
      StripConcat3(Join(lines, [10]), [10], line);
      assert Strip([10]) == [] && Strip(Join(lines, [10])) + [] == Strip(Join(lines, [10]));
    }
  }

  lemma BreakWrites(lines: seq<Text>, line: Text, word: Text)
    ensures Written(lines + [line], word) == Written(lines, line) + Strip(word)
  {
    StripLast(lines, line);
  }

  lemma AppendWrites(lines: seq<Text>, line: Text, word: Text)
    ensures Written(lines, line + word) == Written(lines, line) + Strip(word)
  {
    StripConcat(line, word);
    Associate(Strip(Join(lines, [10])), Strip(line), Strip(word));
  }

  lemma SpaceWrites(lines: seq<Text>, line: Text)
    ensures Written(lines, line + [32]) == Written(lines, line)
  {
    StripConcat(line, [32]);
    assert Strip([32]) == [] && Strip(line) + [] == Strip(line);
  }

  lemma AddWordWrites(s: Wrapping, word: Text, width: int)
    requires Spaceless(word)
    ensures
      var t := AddWord(s, word, width);
      Written(t.lines, t.line) == Written(s.lines, s.line) + word
  {
    StripWord(word);
    BreakWrites(s.lines, s.line, word);
    AppendWrites(s.lines, s.line + [32], word);
    SpaceWrites(s.lines, s.line);
    AppendWrites(s.lines, s.line, word);
  }

  lemma {:induction false} AddWordsWrite(s: Wrapping, words: seq<Text>, width: int)
    requires forall w | w in words :: Spaceless(w)
    ensures
      var t := AddWords(s, words, width);
      Written(t.lines, t.line) == Written(s.lines, s.line) + Glued(words)
    decreases words
  {
    var before := Written(s.lines, s.line);
    if words == [] {
      assert before + [] == before;
    } else {
      AddWordWrites(s, words[0], width);
      AddWordsWrite(AddWord(s, words[0], width), words[1..], width);
      Associate(before, words[0], Glued(words[1..]));
    }
  }

  lemma SplitWordsGlued(t: Text)
    ensures Glued(SplitWords(t)) == Strip(t) && forall w | w in SplitWords(t) :: Spaceless(w)
  {
    WordsGlued(t);
    WordsAreWords(t);
    assert [[]][0] + Glued([[]][1..]) == [];
    forall w | w in SplitWords(t) ensures Spaceless(w) {
      if Words(t) != [] {
        assert IsWord(w);
      }
    }
  }

  /** Wrapped text has the characters of the text in their order. */
  lemma WrapKeepsCharacters(text: Text, width: int)
    ensures Strip(WrapText(text, width)) == Strip(text)
  {
    var words, start := SplitWords(text), Wrapping([], [], 0);
    SplitWordsGlued(text);
    AddWordsWrite(start, words, width);
    assert Written([], []) == [] && [] + Glued(words) == Glued(words);
    var s := AddWords(start, words, width);
    StripLast(s.lines, s.line);
    assert Strip(Join(s.lines, [10])) + [] == Strip(Join(s.lines, [10]));
  }

  // ---- Fitting ----

  lemma StripNothing(t: Text)
    ensures Strip(t) == [] <==> IsBlank(t)
  {
    WordsGlued(t);
    WordsAreWords(t);
    if !IsBlank(t) {
      assert Words(t)[0] in Words(t);
    }
  }

  lemma PartsOf(line: Text)
    ensures line == Padding(line) + (Body(line) + Unmatched(line))
  {
    var rest := line[PaddingLength(line)..];
    assert line == Padding(line) + rest && rest == Body(line) + Unmatched(line);
  }

  lemma LineParts(line: Text, width: int)
    ensures Strip(line) == Strip(FitLine(line, width)) + Strip(Unmatched(line))
  {
    PartsOf(line);
    WrapKeepsCharacters(Body(line), width);
    PartsAreStripped(Padding(line), Body(line), Unmatched(line), WrapText(Body(line), width));
  }

  lemma PartsAreStripped(padding: Text, body: Text, rest: Text, wrapped: Text)
    requires Strip(wrapped) == Strip(body)
    ensures Strip(padding + (body + rest)) == Strip(padding + wrapped) + Strip(rest)
  {
    StripConcat(padding, body + rest);
    StripConcat(body, rest);
    StripConcat(padding, wrapped);
    Associate(Strip(padding), Strip(body), Strip(rest));
  }

  lemma {:induction false} GluedStrips(parts: seq<Text>)
    ensures Join(StripAll(parts), []) == Glued(StripAll(parts))
  {
    if parts != [] {
      GluedStrips(parts[1..]);
      assert StripAll(parts)[1..] == StripAll(parts[1..]);
      assert Strip(parts[0]) + [] == Strip(parts[0]);
    }
  }

  lemma StripLines(lines: seq<Text>)
    ensures Strip(Join(lines, [10])) == Glued(StripAll(lines))
  {
    StripJoin(lines, [10]);
    assert Strip([10]) == [];
    GluedStrips(lines);
  }

  /** Taking a part out of a concatenation makes it shorter, unless the part is empty. */
  lemma Shorter(a: Text, dropped: Text, b: Text, c: Text)
    requires |b| <= |c|
    ensures |a + b| <= |a + dropped + c|
    ensures a + b == a + dropped + c <==> dropped == [] && b == c
  {
    if a + b == a + dropped + c {
      assert |dropped| == 0;
      assert b == (a + b)[|a|..] && c == (a + dropped + c)[|a|..];
    }
  }

  lemma {:induction false} FitLinesKeepCharacters(lines: seq<Text>, width: int)
    ensures |Glued(StripAll(FitLines(lines, width)))| <= |Glued(StripAll(lines))|
    ensures Glued(StripAll(FitLines(lines, width))) == Glued(StripAll(lines)) <==> AllMatched(lines)
  {
    if lines != [] {
      var line, rest := lines[0], lines[1..];
      FitLinesKeepCharacters(rest, width);
      LineParts(line, width);
      StripNothing(Unmatched(line));
      assert StripAll(lines)[1..] == StripAll(rest);
      assert StripAll(FitLines(lines, width))[1..] == StripAll(FitLines(rest, width));
      Shorter(Strip(FitLine(line, width)), Strip(Unmatched(line)),
              Glued(StripAll(FitLines(rest, width))), Glued(StripAll(rest)));
      assert AllMatched(lines) <==> IsBlank(Unmatched(line)) && AllMatched(rest);
    }
  }

  /** Fitted text has them too, exactly when no line has more than white space after a line terminator. */
  lemma FittingKeepsCharacters(text: Text, columns: int)
    requires columns > 20
    ensures Strip(FittedText(text, Terminal(columns))) == Strip(text) <==> AllMatched(Split(text, 10))
  {
    var lines := Split(text, 10);
    JoinSplit(text, 10);
    StripLines(lines);
    StripLines(FitLines(lines, columns));
    FitLinesKeepCharacters(lines, columns);
  }
}
