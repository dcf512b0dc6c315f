/** What fitting a text to a width keeps: the words of every paragraph and its padding; and that fitting a
    fitted text changes nothing. */
module FittedTexts {
  import opened Texts
  import opened Formatting
  import opened GreedyWrapping

  function WordsOfAll(ts: seq<Text>): seq<Text> {
    if ts == [] then [] else Words(ts[0]) + WordsOfAll(ts[1..])
  }

  // ---- Words of concatenations ----

  lemma WordsStep(t: Text)
    requires t != []
    ensures Words(t) == if IsSpace(t[0]) then Words(t[1..])
                        else if EndsWord(t[1..]) then [[t[0]]] + Words(t[1..])
                        else Prepend([t[0]], Words(t[1..]))
    ensures !EndsWord(t[1..]) ==> Words(t[1..]) != []
  {
  }

  lemma WordsCons(c: CodeUnit, t: Text)
    ensures Words([c] + t) == if IsSpace(c) then Words(t)
                              else if EndsWord(t) then [[c]] + Words(t)
                              else Prepend([c], Words(t))
    ensures !EndsWord(t) ==> Words(t) != []
  {
    assert ([c] + t)[1..] == t;
    WordsStep([c] + t);
  }

  lemma Associate<T>(a: seq<T>, b: seq<T>, c: seq<T>)
    ensures a + (b + c) == a + b + c
  {
  }

  /** One character before a text whose words are known. */
  lemma WordsBefore(c: CodeUnit, a: Text, t: Text, wb: seq<Text>)
    requires EndsWord(t) == EndsWord(a) && Words(t) == Words(a) + wb
    ensures Words([c] + t) == Words([c] + a) + wb
  {
    WordsCons(c, t);
    WordsCons(c, a);
    if EndsWord(a) {
      Associate([[c]], Words(a), wb);
    } else {
      PrependConcat([c], Words(a), wb);
    }
  }

  lemma {:induction false} WordsConcat(a: Text, space: CodeUnit, b: Text)
    requires IsSpace(space)
    ensures Words(a + [space] + b) == Words(a) + Words(b)
  {
    if a == [] {
      assert (a + [space] + b)[1..] == b;
      WordsStep(a + [space] + b);
    } else {
      var t := a[1..] + [space] + b;
      WordsConcat(a[1..], space, b);
      WordsBefore(a[0], a[1..], t, Words(b));
      assert [a[0]] + t == a + [space] + b && [a[0]] + a[1..] == a;
    }
  }

  lemma {:induction false} WordsOfWord(w: Text)
    requires IsWord(w)
    ensures Words(w) == [w]
  {
    if |w| > 1 {
      WordsOfWord(w[1..]);
      assert [w[0]] + w[1..] == w;
    } else {
      assert w == [w[0]];
    }
  }

  lemma {:induction false} WordsAreWords(t: Text)
    ensures forall w | w in Words(t) :: IsWord(w)
    ensures Words(t) == [] <==> IsBlank(t)
  {
    if t != [] {
      WordsAreWords(t[1..]);
      assert IsBlank(t) <==> IsSpace(t[0]) && IsBlank(t[1..]) by {
        assert forall i | 1 <= i < |t| :: t[i] == t[1..][i - 1];
      }
      if !IsSpace(t[0]) && !EndsWord(t[1..]) {
        var words := Words(t[1..]);
        forall w | w in Words(t) ensures IsWord(w) {
          assert IsWord(words[0]);
          assert w == [t[0]] + words[0] || w in words[1..];
        }
      }
    }
  }

  lemma {:induction false} WordsOfLine(words: seq<Text>)
    requires forall w | w in words :: IsWord(w)
    ensures Words(LineOf(words)) == words
  {
    if words != [] {
      WordsOfWord(words[0]);
      WordsOfLine(words[1..]);
      if |words| > 1 {
        WordsConcat(words[0], SPACE, LineOf(words[1..]));
      }
    }
  }

  lemma {:induction false} WordsOfJoin(ts: seq<Text>)
    ensures Words(Join(ts, [NEWLINE])) == WordsOfAll(ts)
  {
    if |ts| > 1 {
      WordsConcat(ts[0], NEWLINE, Join(ts[1..], [NEWLINE]));
      WordsOfJoin(ts[1..]);
    }
  }

  lemma {:induction false} WordsOfLines(lines: seq<seq<Text>>)
    requires forall w | w in Flatten(lines) :: IsWord(w)
    ensures WordsOfAll(LinesOf(lines)) == Flatten(lines)
  {
    if lines != [] {
      WordsOfLine(lines[0]);
      WordsOfLines(lines[1..]);
      assert LinesOf(lines)[1..] == LinesOf(lines[1..]);
    }
  }

  // ---- One paragraph ----

  lemma GreedyKeepsWords(words: seq<Text>, width: int)
    ensures Flatten(Greedy(words, width)) == words && GoodLines(Greedy(words, width), width)
  {
    if words != [] {
      BreakIsGood([words[0]], words[1..], width);
    }
  }

  lemma WrapKeepsSolidWords(text: Text, width: int)
    requires Solid(Greedy(Words(text), width))
    ensures Words(WrapText(text, width)) == Words(text)
  {
    WordsAreWords(text);
    WrapIsGreedy(text, width);
    var lines := Greedy(Words(text), width);
    GreedyKeepsWords(Words(text), width);
    WordsOfLines(lines);
    WordsOfJoin(LinesOf(lines));
  }

  lemma WrapKeepsWords(text: Text, width: int)
    requires Visible(Words(text))
    ensures Words(WrapText(text, width)) == Words(text)
  {
    VisibleIsSolid(Words(text), width);
    WrapKeepsSolidWords(text, width);
  }

  lemma {:induction false} LineIsNoWider(words: seq<Text>)
    requires words != []
    ensures VisibleWidth(LineOf(words)) <= Measure(words)
    decreases |words|
  {
    if |words| > 1 {
      var init, last := words[..|words| - 1], words[|words| - 1];
      assert words == init + [last];
      LineIsNoWider(init);
      JoinLast(init, last, [SPACE]);
      SpacedWidth(Plain, LineOf(init), last);
    }
  }

  /** Every line that holds more than one word takes fewer than `width` columns on the terminal. */
  lemma WrappedLinesAreNarrow(text: Text, width: int, i: nat)
    requires Solid(Greedy(Words(text), width)) && i < |WrapLines(text, width)|
    ensures |Words(WrapLines(text, width)[i])| == 1 || VisibleWidth(WrapLines(text, width)[i]) < width
  {
    WordsAreWords(text);
    WrapIsGreedy(text, width);
    var lines := Greedy(Words(text), width);
    GreedyKeepsWords(Words(text), width);
    LinesOfAt(lines, i);
    FlattenHolds(lines, i);
    assert GoodLine(lines[i], width);
    WordsOfLine(lines[i]);
    LineIsNoWider(lines[i]);
  }

  /** No way of breaking the same words into lines that are narrow enough takes fewer lines. */
  lemma WrapIsShortest(text: Text, width: int, lines: seq<seq<Text>>)
    requires Solid(Greedy(Words(text), width))
    requires GoodLines(lines, width) && Flatten(lines) == Words(text)
    ensures |WrapLines(text, width)| <= |lines|
  {
    WordsAreWords(text);
    WrapIsGreedy(text, width);
    GreedyIsOptimal(Words(text), lines, width);
  }

  // ---- Words without visible width ----

  function WordCount(s: Wrapping): nat {
    |WordsOfAll(s.lines)| + |Words(s.line)|
  }

  /** Text of width 0 on the current line is one word. */
  predicate Clean(s: Wrapping) {
    s.lineWidth == 0 ==> s.line == [] || IsWord(s.line)
  }

  lemma {:induction false} WordsOfAllLast(ts: seq<Text>, last: Text)
    ensures WordsOfAll(ts + [last]) == WordsOfAll(ts) + Words(last)
  {
    if ts == [] {
      assert [last][1..] == [] && ts + [last] == [last];
    } else {
      assert (ts + [last])[1..] == ts[1..] + [last];
      WordsOfAllLast(ts[1..], last);
    }
  }

  lemma AddWordCounts(s: Wrapping, word: Text, width: int)
    requires IsWord(word) && Clean(s)
    ensures Clean(AddWord(s, word, width))
    ensures WordCount(AddWord(s, word, width)) == WordCount(s) + if s.lineWidth == 0 && s.line != [] then 0 else 1
  {
    WordsOfWord(word);
    if s.lineWidth != 0 && s.lineWidth + 1 + VisibleWidth(word) >= width {
      WordsOfAllLast(s.lines, s.line);
    } else if s.lineWidth != 0 {
      WordsConcat(s.line, SPACE, word);
    } else if s.line == [] {
      assert [] + word == word;
    } else {
      WordsOfWord(s.line);
      WordsOfWord(s.line + word);
    }
  }

  lemma {:induction false} AddWordsCount(s: Wrapping, words: seq<Text>, width: int)
    requires Clean(s) && forall w | w in words :: IsWord(w)
    ensures WordCount(AddWords(s, words, width)) <= WordCount(s) + |words|
    decreases words
  {
    if words != [] {
      assert words[0] in words;
      AddWordCounts(s, words[0], width);
      AddWordsCount(AddWord(s, words[0], width), words[1..], width);
    }
  }

  /** A split that is not solid loses a word when it is wrapped. */
  lemma {:induction false} LooseBreakFuses(lines: seq<Text>, line: seq<Text>, rest: seq<Text>, width: int)
    requires line != [] && (|line| == 1 || VisibleWidth(line[0]) > 0)
    requires forall w | w in line + rest :: IsWord(w)
    requires !Solid(Break(line, rest, width))
    ensures
      var s := Wrapping(lines, LineOf(line), Measure(line));
      Clean(s) && WordCount(AddWords(s, rest, width)) < WordCount(s) + |rest|
    decreases rest
  {
    var s := Wrapping(lines, LineOf(line), Measure(line));
    assert rest != [];
    var word, more := rest[0], rest[1..];
    assert (line + rest)[|line|] == word && (line + rest)[0] == line[0];
    MeasureHead(line);
    assert Clean(s);
    AddWordCounts(s, word, width);
    if VisibleWidth(line[0]) == 0 {
      assert forall w | w in more :: w in line + rest;
      AddWordsCount(AddWord(s, word, width), more, width);
    } else {
      SolidStep(line, rest, width);
      AddWordStep(lines, line, word, width);
      if Measure(line) + 1 + VisibleWidth(word) >= width {
        assert forall w | w in [word] + more :: w in line + rest;
        LooseBreakFuses(lines + [LineOf(line)], [word], more, width);
      } else {
        assert line + [word] + more == line + rest;
        LooseBreakFuses(lines, line + [word], more, width);
      }
    }
  }

  /** Exactly when wrapping keeps the words of a text: when every line of the greedy split of its words starts with a
      visible word, but for a last line of one word. A word without visible width at the head of a line is fused with
      the next one. */
  lemma WrapKeepsWordsIff(text: Text, width: int)
    ensures Words(WrapText(text, width)) == Words(text) <==> Solid(Greedy(Words(text), width))
  {
    var words := Words(text);
    if Solid(Greedy(words, width)) {
      WrapKeepsSolidWords(text, width);
    } else {
      WordsAreWords(text);
      LooseWordsAreLost(words, width);
      var s := AddWords(Wrapping([], [], 0), words, width);
      WordsOfAllLast(s.lines, s.line);
      WordsOfJoin(WrapLines(text, width));
    }
  }

  lemma LooseWordsAreLost(words: seq<Text>, width: int)
    requires (forall w | w in words :: IsWord(w)) && !Solid(Greedy(words, width))
    ensures words != [] && WordCount(AddWords(Wrapping([], [], 0), words, width)) < |words|
  {
    var first, rest := words[0], words[1..];
    assert words == [first] + rest;
    FirstWordStarts(words, width);
    LooseBreakFuses([], [first], rest, width);
    WordsOfWord(first);
  }

  /** The smallest such loss. */
  lemma InvisibleWordIsFused(invisible: Text, word: Text, width: int)
    requires IsWord(invisible) && VisibleWidth(invisible) == 0 && IsWord(word)
    ensures WrapText(invisible + [SPACE] + word, width) == invisible + word
    ensures Words(WrapText(invisible + [SPACE] + word, width)) != Words(invisible + [SPACE] + word)
  {
    WordsConcat(invisible, SPACE, word);
    WordsOfWord(invisible);
    WordsOfWord(word);
    assert [invisible] + [word] == [invisible, word] && [invisible, word][1..] == [word];
    var s := AddWord(Wrapping([], [], 0), invisible, width);
    assert [] + invisible == invisible;
    assert AddWords(s, [word], width) == AddWord(s, word, width);
    WordsOfWord(invisible + word);
  }

  // ---- Fitting a whole text ----

  /** All words of the paragraphs are visible. */
  predicate VisibleText(text: Text) {
    forall w | w in Words(text) :: VisibleWidth(w) > 0
  }

  lemma {:induction false} SplitOfJoin(ts: seq<Text>)
    requires ts != []
    ensures Split(Join(ts, [NEWLINE]), NEWLINE) == SplitAll(ts)
  {
    if |ts| > 1 {
      SplitConcat(ts[0], NEWLINE, Join(ts[1..], [NEWLINE]));
      SplitOfJoin(ts[1..]);
    } else {
      assert SplitAll(ts) == Split(ts[0], NEWLINE) + [];
    }
  }

  /** The lines of several texts, one text after the other. */
  function SplitAll(ts: seq<Text>): seq<Text> {
    if ts == [] then [] else Split(ts[0], NEWLINE) + SplitAll(ts[1..])
  }

  lemma {:induction false} PaddingOfBlank(padding: Text, rest: Text)
    requires IsBlank(padding) && (rest == [] || !IsSpace(rest[0]))
    ensures PaddingLength(padding + rest) == |padding|
  {
    if padding == [] {
      assert padding + rest == rest;
    } else {
      assert (padding + rest)[1..] == padding[1..] + rest;
      PaddingOfBlank(padding[1..], rest);
    }
  }

  lemma {:induction false} PaddingIsBlank(line: Text)
    ensures IsBlank(Padding(line))
    ensures var rest := line[PaddingLength(line)..]; rest == [] || !IsSpace(rest[0])
  {
    if line != [] && IsSpace(line[0]) {
      PaddingIsBlank(line[1..]);
      assert Padding(line) == [line[0]] + Padding(line[1..]);
      assert line[PaddingLength(line)..] == line[1..][PaddingLength(line[1..])..];
    }
  }

  lemma {:induction false} BodyOfPlain(t: Text)
    requires forall c | c in t :: !IsLineTerminator(c)
    ensures BodyLength(t) == |t|
  {
    if t != [] {
      BodyOfPlain(t[1..]);
    }
  }

  lemma {:induction false} LineCharacters(words: seq<Text>)
    requires forall w | w in words :: IsWord(w)
    ensures forall c | c in LineOf(words) :: c == SPACE || !IsSpace(c)
  {
    if words != [] {
      assert IsWord(words[0]);
      assert forall c | c in words[0] :: !IsSpace(c);
      LineCharacters(words[1..]);
    }
  }

  lemma {:induction false} NarrowIsOneLine(line: seq<Text>, rest: seq<Text>, width: int)
    requires line != [] && (rest != [] ==> Measure(line + rest) < width)
    ensures Break(line, rest, width) == [line + rest]
    decreases rest
  {
    if rest == [] {
      assert line + rest == line;
    } else {
      var next := line + [rest[0]];
      assert next + rest[1..] == line + rest;
      PrefixIsNarrower(line + rest, |next|);
      assert (line + rest)[..|next|] == next;
      MeasureLast(line, rest[0]);
      NarrowIsOneLine(next, rest[1..], width);
    }
  }

  /** A line that wrapping produced, with any padding before it, is left as it is. */
  lemma FittedLineIsStable(padding: Text, words: seq<Text>, width: int)
    requires IsBlank(padding) && Visible(words) && (words != [] ==> GoodLine(words, width))
    ensures FitLine(padding + LineOf(words), width) == padding + LineOf(words)
  {
    var line := LineOf(words);
    var whole := padding + line;
    if words != [] {
      LineOfWord(words);
      assert [words[0]] + words[1..] == words;
      NarrowIsOneLine([words[0]], words[1..], width);
    }
    PaddingOfBlank(padding, line);
    LineCharacters(words);
    BodyOfPlain(line);
    assert whole[..|padding|] == padding && whole[|padding|..] == line && line[..|line|] == line;
    WordsOfLine(words);
    WrapIsGreedy(line, width);
    assert LinesOf(Greedy(words, width)) == if words == [] then [] else [line];
  }

  /** The lines that one paragraph becomes. */
  function Pieces(line: Text, width: int): seq<seq<Text>> {
    var lines := Greedy(Words(Body(line)), width);
    if lines == [] then [[]] else lines
  }

  lemma PiecesAreGood(line: Text, width: int)
    requires Visible(Words(Body(line)))
    ensures forall g | g in Pieces(line, width) :: Visible(g) && (g != [] ==> GoodLine(g, width))
  {
    var words := Words(Body(line));
    var lines := Greedy(words, width);
    GreedyKeepsWords(words, width);
    forall i | 0 <= i < |lines| ensures Visible(lines[i]) && GoodLine(lines[i], width) {
      FlattenHolds(lines, i);
    }
  }

  lemma FitLineShape(line: Text, width: int)
    requires NEWLINE !in line && Visible(Words(Body(line)))
    ensures Split(FitLine(line, width), NEWLINE) == Prepend(Padding(line), LinesOf(Pieces(line, width)))
  {
    var pieces := Pieces(line, width);
    var texts := LinesOf(pieces);
    VisibleIsSolid(Words(Body(line)), width);
    WrapIsGreedy(Body(line), width);
    PiecesAreGood(line, width);
    assert Join(texts, [NEWLINE]) == WrapText(Body(line), width);
    JoinPrepend(Padding(line), texts, [NEWLINE]);
    forall i | 0 <= i < |texts| ensures NEWLINE !in texts[i] {
      LinesOfAt(pieces, i);
      assert pieces[i] in pieces;
      LineCharacters(pieces[i]);
    }
    var all := Prepend(Padding(line), texts);
    forall i | 0 <= i < |all| ensures NEWLINE !in all[i] {
      assert i > 0 ==> all[i] == all[1..][i - 1] == texts[1..][i - 1];
    }
    SplitJoin(all, NEWLINE);
  }

  lemma FittedLinesAreStable(line: Text, width: int)
    requires NEWLINE !in line && Visible(Words(Body(line)))
    ensures var out := Split(FitLine(line, width), NEWLINE); FitLines(out, width) == out
  {
    var out := Split(FitLine(line, width), NEWLINE);
    FitLineShape(line, width);
    PiecesAreGood(line, width);
    PaddingIsBlank(line);
    var pieces := Pieces(line, width);
    forall i | 0 <= i < |out| ensures FitLines(out, width)[i] == out[i] {
      LinesOfAt(pieces, i);
      assert pieces[i] in pieces;
      var padding := if i == 0 then Padding(line) else [];
      FittedLineIsStable(padding, pieces[i], width);
      assert out[i] == padding + LineOf(pieces[i]) by {
        assert i > 0 ==> out[i] == out[1..][i - 1] == LinesOf(pieces)[1..][i - 1];
        assert i > 0 ==> [] + LineOf(pieces[i]) == LineOf(pieces[i]);
      }
    }
  }

  lemma {:induction false} FitLinesConcat(a: seq<Text>, b: seq<Text>, width: int)
    ensures FitLines(a + b, width) == FitLines(a, width) + FitLines(b, width)
  {
    if a == [] {
      assert a + b == b;
    } else {
      assert (a + b)[1..] == a[1..] + b;
      FitLinesConcat(a[1..], b, width);
    }
  }

  predicate FittableLines(lines: seq<Text>) {
    forall i | 0 <= i < |lines| :: NEWLINE !in lines[i] && Visible(Words(Body(lines[i])))
  }

  lemma {:induction false} AllFittedLinesAreStable(lines: seq<Text>, width: int)
    requires FittableLines(lines)
    ensures var out := SplitAll(FitLines(lines, width)); FitLines(out, width) == out
  {
    if lines != [] {
      FittedLinesAreStable(lines[0], width);
      AllFittedLinesAreStable(lines[1..], width);
      assert FitLines(lines, width)[1..] == FitLines(lines[1..], width);
      FitLinesConcat(Split(FitLine(lines[0], width), NEWLINE), SplitAll(FitLines(lines[1..], width)), width);
    }
  }

  /** The words of a line are those `(.*)` matches followed by those it does not. */
  lemma WordsOfGroups(line: Text)
    ensures Words(line) == Words(Body(line)) + Words(Unmatched(line))
  {
    var padding, body, unmatched := Padding(line), Body(line), Unmatched(line);
    var rest := line[PaddingLength(line)..];
    PaddingIsBlank(line);
    WordsAfterBlank(padding, rest);
    assert line == padding + rest && rest == body + unmatched;
    if unmatched != [] {
      UnmatchedStart(rest);
      WordsAround(body, unmatched);
    } else {
      assert rest == body && Words(body) + [] == Words(body);
    }
  }

  lemma WordsAround(body: Text, unmatched: Text)
    requires unmatched != [] && IsSpace(unmatched[0])
    ensures Words(body + unmatched) == Words(body) + Words(unmatched)
  {
    WordsConcat(body, unmatched[0], unmatched[1..]);
    assert body + [unmatched[0]] + unmatched[1..] == body + unmatched;
  }

  lemma {:induction false} WordsAfterBlank(padding: Text, rest: Text)
    requires IsBlank(padding)
    ensures Words(padding + rest) == Words(rest)
  {
    if padding == [] {
      assert padding + rest == rest;
    } else {
      assert (padding + rest)[1..] == padding[1..] + rest;
      WordsAfterBlank(padding[1..], rest);
    }
  }

  lemma {:induction false} UnmatchedStart(t: Text)
    ensures BodyLength(t) < |t| ==> IsLineTerminator(t[BodyLength(t)])
  {
    if t != [] && !IsLineTerminator(t[0]) {
      UnmatchedStart(t[1..]);
    }
  }

  lemma {:induction false} LinesHoldWords(lines: seq<Text>, i: nat)
    requires i < |lines|
    ensures forall w | w in Words(lines[i]) :: w in WordsOfAll(lines)
  {
    if i > 0 {
      LinesHoldWords(lines[1..], i - 1);
      assert lines[1..][i - 1] == lines[i];
    }
  }

  lemma TextIsFittable(text: Text)
    requires VisibleText(text)
    ensures FittableLines(Split(text, NEWLINE))
  {
    var lines := Split(text, NEWLINE);
    JoinSplit(text, NEWLINE);
    WordsOfJoin(lines);
    SplitParts(text, NEWLINE);
    forall i | 0 <= i < |lines| ensures Visible(Words(Body(lines[i]))) {
      LinesHoldWords(lines, i);
      WordsOfGroups(lines[i]);
      WordsAreWords(Body(lines[i]));
    }
  }

  /** Fitting is idempotent. */
  lemma FittingIsIdempotent(text: Text, width: Width)
    requires VisibleText(text)
    ensures FittedText(FittedText(text, width), width) == FittedText(text, width)
  {
    if width.Terminal? && width.columns > 20 {
      var lines := Split(text, NEWLINE);
      TextIsFittable(text);
      AllFittedLinesAreStable(lines, width.columns);
      SplitOfJoin(FitLines(lines, width.columns));
      JoinSplit(FittedText(text, width), NEWLINE);
    }
  }

  /** The padding of a paragraph opens its first line, and nothing else does. */
  lemma PaddingIsKept(line: Text, width: int)
    requires NEWLINE !in line && Visible(Words(Body(line)))
    ensures Padding(line) <= FitLine(line, width)
    ensures Words(Body(line)) != [] ==> Padding(FitLine(line, width)) == Padding(line)
    ensures forall i | 1 <= i < |Split(FitLine(line, width), NEWLINE)| ::
              Padding(Split(FitLine(line, width), NEWLINE)[i]) == []
  {
    FitLineShape(line, width);
    PiecesAreGood(line, width);
    PaddingIsBlank(line);
    var out, pieces := Split(FitLine(line, width), NEWLINE), Pieces(line, width);
    forall i | 1 <= i < |out| ensures Padding(out[i]) == [] {
      GreedyKeepsWords(Words(Body(line)), width);
      LinesOfAt(pieces, i);
      assert pieces[i] in pieces && GoodLine(pieces[i], width);
      LineOfWord(pieces[i]);
      assert out[i] == out[1..][i - 1] == LinesOf(pieces)[1..][i - 1];
    }
    if Words(Body(line)) != [] {
      VisibleIsSolid(Words(Body(line)), width);
      WrapIsGreedy(Body(line), width);
      WrapKeepsWords(Body(line), width);
      GreedyKeepsWords(Words(Body(line)), width);
      var wrapped := WrapText(Body(line), width);
      assert LineOf(pieces[0]) <= wrapped;
      assert pieces[0] in pieces;
      LineOfWord(pieces[0]);
      PaddingOfBlank(Padding(line), wrapped);
    }
  }

  lemma WordsOfFitLine(line: Text, width: int)
    requires Visible(Words(Body(line)))
    ensures Words(FitLine(line, width)) == Words(Body(line))
  {
    WrapKeepsWords(Body(line), width);
    PaddingIsBlank(line);
    WordsAfterBlank(Padding(line), WrapText(Body(line), width));
  }

  lemma CancelHead(head: seq<Text>, extra: seq<Text>, a: seq<Text>, b: seq<Text>)
    requires |a| <= |b|
    ensures head + a == head + extra + b <==> extra == [] && a == b
  {
    if head + a == head + extra + b {
      assert |extra| == 0;
      assert a == (head + a)[|head|..] == (head + extra + b)[|head|..] == b;
    }
  }

  /** Every line has all its words in its body. */
  predicate AllMatched(lines: seq<Text>) {
    forall line | line in lines :: IsBlank(Unmatched(line))
  }

  lemma {:induction false} FittedWords(lines: seq<Text>, width: int)
    requires FittableLines(lines)
    ensures |WordsOfAll(FitLines(lines, width))| <= |WordsOfAll(lines)|
    ensures WordsOfAll(FitLines(lines, width)) == WordsOfAll(lines) <==> AllMatched(lines)
  {
    if lines != [] {
      var line, more := lines[0], lines[1..];
      WordsOfGroups(line);
      WordsAreWords(Unmatched(line));
      WordsOfFitLine(line, width);
      FittedWords(more, width);
      assert FitLines(lines, width)[1..] == FitLines(more, width);
      CancelHead(Words(Body(line)), Words(Unmatched(line)), WordsOfAll(FitLines(more, width)), WordsOfAll(more));
    }
  }

  /** Fitting keeps the words of the text exactly when no line has a word after a carriage return or a Unicode
      line or paragraph separator: whatever follows those in a line is dropped. */
  lemma FittingKeepsWords(text: Text, width: Width)
    requires VisibleText(text) && width.Terminal? && width.columns > 20
    ensures Words(FittedText(text, width)) == Words(text) <==> AllMatched(Split(text, NEWLINE))
  {
    var lines := Split(text, NEWLINE);
    TextIsFittable(text);
    JoinSplit(text, NEWLINE);
    WordsOfJoin(lines);
    WordsOfJoin(FitLines(lines, width.columns));
    FittedWords(lines, width.columns);
  }
}
