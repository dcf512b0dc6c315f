/** What wrapping promises for words of positive visible width: it keeps the words, no line it could avoid
    is too wide, no other split into lines is shorter, and wrapping wrapped text changes nothing. */
module GreedyWrapping {
  import opened Texts
  import opened Formatting

  /** A line of words and its width as `wrap` counts it. */
  function LineOf(words: seq<Text>): Text {
    Join(words, [SPACE])
  }

  function Measure(words: seq<Text>): nat {
    if words == [] then 0
    else if |words| == 1 then VisibleWidth(words[0])
    else Measure(words[..|words| - 1]) + 1 + VisibleWidth(words[|words| - 1])
  }

  function LinesOf(lines: seq<seq<Text>>): (r: seq<Text>)
    ensures |r| == |lines|
  {
    if lines == [] then [] else [LineOf(lines[0])] + LinesOf(lines[1..])
  }

  function Flatten(lines: seq<seq<Text>>): seq<Text> {
    if lines == [] then [] else lines[0] + Flatten(lines[1..])
  }

  /** A line may be too wide only when it is a single word. */
  predicate GoodLine(words: seq<Text>, width: int) {
    words != [] && (|words| > 1 ==> Measure(words) < width)
  }

  predicate GoodLines(lines: seq<seq<Text>>, width: int) {
    forall i | 0 <= i < |lines| :: GoodLine(lines[i], width)
  }

  predicate Visible(words: seq<Text>) {
    forall w | w in words :: IsWord(w) && VisibleWidth(w) > 0
  }

  /** The greedy split, with `line` the words already placed on the current line. */
  function Break(line: seq<Text>, rest: seq<Text>, width: int): seq<seq<Text>>
    decreases rest
  {
    if rest == [] then [line]
    else if Measure(line) + 1 + VisibleWidth(rest[0]) >= width then [line] + Break([rest[0]], rest[1..], width)
    else Break(line + [rest[0]], rest[1..], width)
  }

  function Greedy(words: seq<Text>, width: int): seq<seq<Text>> {
    if words == [] then [] else Break([words[0]], words[1..], width)
  }

  lemma MeasureLast(line: seq<Text>, word: Text)
    requires line != []
    ensures Measure(line + [word]) == Measure(line) + 1 + VisibleWidth(word)
  {
    assert (line + [word])[..|line|] == line;
  }

  lemma {:induction false} BreakIsGood(line: seq<Text>, rest: seq<Text>, width: int)
    requires GoodLine(line, width)
    ensures GoodLines(Break(line, rest, width), width)
    ensures Flatten(Break(line, rest, width)) == line + rest
    decreases rest
  {
    if rest != [] {
      var word, more := rest[0], rest[1..];
      assert rest == [word] + more;
      if Measure(line) + 1 + VisibleWidth(word) >= width {
        BreakIsGood([word], more, width);
        assert Break(line, rest, width)[1..] == Break([word], more, width);
      } else {
        MeasureLast(line, word);
        BreakIsGood(line + [word], more, width);
        assert line + [word] + more == line + rest;
      }
    }
  }

  // ---- Optimality ----

  /** Some split of the same words whose first line starts with `done`. */
  predicate Rival(lines: seq<seq<Text>>, done: seq<Text>, rest: seq<Text>, width: int) {
    && lines != [] && GoodLines(lines, width)
    && done != [] && done <= lines[0]
    && Flatten(lines) == done + rest
  }

  /** How the rival goes on: it puts the next word on the same line or starts another with it. */
  lemma RivalStep(lines: seq<seq<Text>>, done: seq<Text>, rest: seq<Text>, width: int) returns (stays: bool)
    requires Rival(lines, done, rest, width) && rest != []
    ensures stays ==> Rival(lines, done + [rest[0]], rest[1..], width)
                      && Measure(done) + 1 + VisibleWidth(rest[0]) < width
    ensures !stays ==> |lines| > 1 && Rival(lines[1..], [rest[0]], rest[1..], width)
  {
    var word, more := rest[0], rest[1..];
    var flat := Flatten(lines);
    assert rest == [word] + more;
    stays := |lines[0]| > |done|;
    if stays {
      assert lines[0][|done|] == flat[|done|] == word;
      assert done + [word] <= lines[0];
      assert done + [word] + more == done + rest;
      MeasureLast(done, word);
      PrefixIsNarrower(lines[0], |done| + 1);
      assert lines[0][..|done| + 1] == done + [word];
    } else {
      assert lines[0] == done;
      var tail := Flatten(lines[1..]);
      assert flat == done + tail;
      assert tail == flat[|done|..] == rest;
      assert lines[1][0] == tail[0];
      assert [word] + more == rest;
    }
  }

  lemma {:induction false} PrefixIsNarrower(line: seq<Text>, k: nat)
    requires 1 <= k <= |line|
    ensures Measure(line[..k]) <= Measure(line)
    decreases |line|
  {
    if k < |line| {
      var shorter := line[..|line| - 1];
      PrefixIsNarrower(shorter, k);
      assert shorter[..k] == line[..k];
    } else {
      assert line[..k] == line;
    }
  }

  /** Greedy stays ahead of any rival: never more lines when its current line is no wider, and never more than
      one line more otherwise. */
  lemma {:induction false} GreedyStaysAhead(
      line: seq<Text>, rest: seq<Text>, lines: seq<seq<Text>>, done: seq<Text>, width: int)
    requires line != [] && Rival(lines, done, rest, width)
    ensures |Break(line, rest, width)| <= |lines| + 1
    ensures Measure(line) <= Measure(done) ==> |Break(line, rest, width)| <= |lines|
    decreases rest
  {
    if rest != [] {
      var word, more := rest[0], rest[1..];
      var stays := RivalStep(lines, done, rest, width);
      var lines', done' := if stays then lines else lines[1..], if stays then done + [word] else [word];
      MeasureLast(line, word);
      MeasureLast(done, word);
      GreedyStaysAhead(line + [word], more, lines', done', width);
      GreedyStaysAhead([word], more, lines', done', width);
    }
  }

  /** No split of the same words into good lines has fewer lines than the greedy one. */
  lemma GreedyIsOptimal(words: seq<Text>, lines: seq<seq<Text>>, width: int)
    requires GoodLines(lines, width) && Flatten(lines) == words
    ensures |Greedy(words, width)| <= |lines|
  {
    if words != [] {
      assert lines != [];
      assert lines[0][0] == words[0];
      assert words == [words[0]] + words[1..];
      GreedyStaysAhead([words[0]], words[1..], lines, [words[0]], width);
    }
  }

  // ---- wrap is the greedy split ----

  /** Every line starts with a visible word, but for a last line of one word. */
  predicate Solid(lines: seq<seq<Text>>) {
    lines == [] ||
    (lines[0] != []
     && (VisibleWidth(lines[0][0]) > 0 || (|lines| == 1 && |lines[0]| == 1))
     && Solid(lines[1..]))
  }

  /** The first line of a split starts with the words placed so far, and takes more of them or is not the last. */
  lemma {:induction false} BreakStarts(line: seq<Text>, rest: seq<Text>, width: int)
    requires line != []
    ensures
      var lines := Break(line, rest, width);
      lines != [] && line <= lines[0] && (rest != [] ==> |lines| > 1 || |lines[0]| > |line|)
    decreases rest
  {
    if rest != [] {
      if Measure(line) + 1 + VisibleWidth(rest[0]) >= width {
        BreakStarts([rest[0]], rest[1..], width);
      } else {
        BreakStarts(line + [rest[0]], rest[1..], width);
        var first := Break(line + [rest[0]], rest[1..], width)[0];
        assert first[..|line|] == (line + [rest[0]])[..|line|] == line;
      }
    }
  }

  lemma MeasureHead(line: seq<Text>)
    requires line != []
    ensures Measure(line) >= VisibleWidth(line[0])
  {
    if |line| > 1 {
      MeasureHead(line[..|line| - 1]);
    }
  }

  /** How being solid goes on when the next word starts a line, or does not. */
  lemma SolidStep(line: seq<Text>, rest: seq<Text>, width: int)
    requires line != [] && rest != []
    ensures
      var next := if Measure(line) + 1 + VisibleWidth(rest[0]) >= width then [rest[0]] else line + [rest[0]];
      Solid(Break(line, rest, width)) <==> VisibleWidth(line[0]) > 0 && Solid(Break(next, rest[1..], width))
  {
    var lines := Break(line, rest, width);
    BreakStarts(line, rest, width);
    if Measure(line) + 1 + VisibleWidth(rest[0]) >= width {
      assert lines[1..] == Break([rest[0]], rest[1..], width);
      BreakStarts([rest[0]], rest[1..], width);
    } else {
      assert lines[0][0] == line[0];
    }
  }

  /** One word onto a line that starts with a visible one. */
  lemma AddWordStep(lines: seq<Text>, line: seq<Text>, word: Text, width: int)
    requires line != [] && VisibleWidth(line[0]) > 0
    ensures AddWord(Wrapping(lines, LineOf(line), Measure(line)), word, width)
         == if Measure(line) + 1 + VisibleWidth(word) >= width
            then Wrapping(lines + [LineOf(line)], LineOf([word]), Measure([word]))
            else Wrapping(lines, LineOf(line + [word]), Measure(line + [word]))
  {
    MeasureHead(line);
    MeasureLast(line, word);
    JoinLast(line, word, [SPACE]);
  }

  lemma {:induction false} AddWordsIsBreak(lines: seq<Text>, line: seq<Text>, rest: seq<Text>, width: int)
    requires line != [] && Solid(Break(line, rest, width))
    ensures
      var s := AddWords(Wrapping(lines, LineOf(line), Measure(line)), rest, width);
      s.lines + [s.line] == lines + LinesOf(Break(line, rest, width))
    decreases rest
  {
    if rest != [] {
      var word, more := rest[0], rest[1..];
      SolidStep(line, rest, width);
      AddWordStep(lines, line, word, width);
      if Measure(line) + 1 + VisibleWidth(word) >= width {
        AddWordsIsBreak(lines + [LineOf(line)], [word], more, width);
        var tail := LinesOf(Break([word], more, width));
        assert Break(line, rest, width)[1..] == Break([word], more, width);
        assert lines + [LineOf(line)] + tail == lines + ([LineOf(line)] + tail);
      } else {
        AddWordsIsBreak(lines, line + [word], more, width);
      }
    }
  }

  lemma {:induction false} VisibleBreakIsSolid(line: seq<Text>, rest: seq<Text>, width: int)
    requires line != [] && VisibleWidth(line[0]) > 0 && forall w | w in rest :: VisibleWidth(w) > 0
    ensures Solid(Break(line, rest, width))
    decreases rest
  {
    if rest != [] {
      SolidStep(line, rest, width);
      assert rest[0] in rest;
      if Measure(line) + 1 + VisibleWidth(rest[0]) >= width {
        VisibleBreakIsSolid([rest[0]], rest[1..], width);
      } else {
        VisibleBreakIsSolid(line + [rest[0]], rest[1..], width);
      }
    }
  }

  lemma VisibleIsSolid(words: seq<Text>, width: int)
    requires Visible(words)
    ensures Solid(Greedy(words, width))
  {
    if words != [] {
      assert words[0] in words;
      VisibleBreakIsSolid([words[0]], words[1..], width);
    }
  }

  lemma LineOfWord(line: seq<Text>)
    requires line != [] && forall w | w in line :: IsWord(w)
    ensures LineOf(line) != [] && !IsSpace(LineOf(line)[0])
  {
    assert IsWord(line[0]);
    if |line| > 1 {
      assert LineOf(line) == line[0] + [SPACE] + LineOf(line[1..]);
    }
  }

  lemma FirstWordStarts(words: seq<Text>, width: int)
    requires words != []
    ensures AddWords(Wrapping([], [], 0), words, width)
         == AddWords(Wrapping([], LineOf([words[0]]), Measure([words[0]])), words[1..], width)
  {
    assert [] + words[0] == words[0];
    assert AddWord(Wrapping([], [], 0), words[0], width) == Wrapping([], LineOf([words[0]]), Measure([words[0]]));
  }

  lemma LinesOfWords(words: seq<Text>, width: int)
    requires words != [] && (forall w | w in words :: IsWord(w)) && Solid(Greedy(words, width))
    ensures
      var s := AddWords(Wrapping([], [], 0), words, width);
      s.line != [] && s.lines + [s.line] == LinesOf(Greedy(words, width))
  {
    var first, rest := words[0], words[1..];
    assert words == [first] + rest;
    FirstWordStarts(words, width);
    AddWordsIsBreak([], [first], rest, width);
    LastLineIsText(AddWords(Wrapping([], [], 0), words, width), [first], rest, width);
    assert [] + LinesOf(Greedy(words, width)) == LinesOf(Greedy(words, width));
  }

  lemma WrapIsGreedy(text: Text, width: int)
    requires forall w | w in Words(text) :: IsWord(w)
    requires Solid(Greedy(Words(text), width))
    ensures WrapLines(text, width) == LinesOf(Greedy(Words(text), width))
  {
    if Words(text) == [] {
      assert AddWords(Wrapping([], [], 0), [[]], width) == AddWord(Wrapping([], [], 0), [], width);
    } else {
      LinesOfWords(Words(text), width);
    }
  }

  lemma LastLineIsText(s: Wrapping, line: seq<Text>, rest: seq<Text>, width: int)
    requires GoodLine(line, width) && forall w | w in line + rest :: IsWord(w)
    requires s.lines + [s.line] == [] + LinesOf(Break(line, rest, width))
    ensures s.line != []
  {
    BreakIsGood(line, rest, width);
    var lines := Break(line, rest, width);
    var last := lines[|lines| - 1];
    LinesOfAt(lines, |lines| - 1);
    var all := s.lines + [s.line];
    assert s.line == all[|all| - 1] == LineOf(last);
    FlattenHolds(lines, |lines| - 1);
    LineOfWord(last);
  }

  lemma {:induction false} LinesOfAt(lines: seq<seq<Text>>, i: nat)
    requires i < |lines|
    ensures LinesOf(lines)[i] == LineOf(lines[i])
  {
    if i > 0 {
      LinesOfAt(lines[1..], i - 1);
    }
  }

  lemma {:induction false} FlattenHolds(lines: seq<seq<Text>>, i: nat)
    requires i < |lines|
    ensures forall w | w in lines[i] :: w in Flatten(lines)
  {
    if i > 0 {
      FlattenHolds(lines[1..], i - 1);
      assert lines[1..][i - 1] == lines[i];
    }
  }
}
