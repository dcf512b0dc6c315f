/** What the layouts look like, said in code units: which texts force which layout, where lines break, which lines are
    blank, and how deep entries are indented. 10 is the line break, 32 the space, 44 the comma, 46 the dot, 47 the
    slash, 42 the asterisk, 61 the equals sign, 91 and 123 the opening bracket and brace. */
module LayoutShape {
  import opened Texts
  import opened ExpressionLayouts
  import opened TsFile
  import LayoutWidth
  import LayoutMeaning

  // ---- What the texts of the entries decide ----

  /** A comment opener or an assignment stands somewhere in the text. */
  ghost predicate Marked(t: Text) {
    || (exists i | 0 <= i < |t| - 1 :: t[i] == 47 && t[i + 1] in {42, 47})
    || (exists i | 0 <= i < |t| - 2 :: t[i] == 32 && t[i + 1] == 61 && t[i + 2] == 32)
  }

  lemma OccursPair(t: Text, a: CodeUnit, b: CodeUnit)
    ensures Contains(t, [a, b]) <==> exists i | 0 <= i < |t| - 1 :: t[i] == a && t[i + 1] == b
  {
    if Contains(t, [a, b]) {
      var i :| 0 <= i <= |t| && OccursAt(t, [a, b], i);
      assert t[i] == t[i..i + 2][0] && t[i + 1] == t[i..i + 2][1];
    }
    if i :| 0 <= i < |t| - 1 && t[i] == a && t[i + 1] == b {
      assert t[i..i + 2] == [a, b];
      assert OccursAt(t, [a, b], i);
    }
  }

  lemma OccursTriple(t: Text, a: CodeUnit, b: CodeUnit, c: CodeUnit)
    ensures Contains(t, [a, b, c]) <==> exists i | 0 <= i < |t| - 2 :: t[i] == a && t[i + 1] == b && t[i + 2] == c
  {
    if Contains(t, [a, b, c]) {
      var i :| 0 <= i <= |t| && OccursAt(t, [a, b, c], i);
      assert t[i] == t[i..i + 3][0] && t[i + 1] == t[i..i + 3][1] && t[i + 2] == t[i..i + 3][2];
    }
    if i :| 0 <= i < |t| - 2 && t[i] == a && t[i + 1] == b && t[i + 2] == c {
      assert t[i..i + 3] == [a, b, c];
      assert OccursAt(t, [a, b, c], i);
    }
  }

  lemma MarkedIff(t: Text)
    ensures ForcesVerbose(t) <==> Marked(t)
  {
    OccursPair(t, 47, 42);
    OccursPair(t, 47, 47);
    OccursTriple(t, 32, 61, 32);
  }

  ghost predicate AnyMarked(texts: seq<Text>) {
    exists i | 0 <= i < |texts| :: Marked(texts[i])
  }

  ghost predicate AnyBroken(texts: seq<Text>) {
    exists i | 0 <= i < |texts| :: 10 in texts[i]
  }

  lemma AnyMarkedIff(texts: seq<Text>)
    ensures AnyForcesVerbose(texts) <==> AnyMarked(texts)
    ensures AllSingle(texts) <==> !AnyBroken(texts)
  {
    forall i | 0 <= i < |texts| ensures ForcesVerbose(texts[i]) <==> Marked(texts[i]) {
      MarkedIff(texts[i]);
    }
  }

  /** The length of the line that holds all entries, with two columns for the spaces inside braces or brackets. */
  function OneLineLength(prefix: Text, suffix: Text, linePrefix: Text, texts: seq<Text>): nat {
    |linePrefix| + |prefix| + |suffix|
    + (if prefix != [] && prefix[|prefix| - 1] in {91, 123} then 2 else 0)
    + |Join(TrimAll(texts), [44, 32])|
  }

  /** Exactly when a block gets which layout. */
  lemma LayoutIff(prefix: Text, suffix: Text, linePrefix: Text, texts: seq<Text>)
    ensures
      var layout := LayoutOf(Adornment(prefix, suffix, linePrefix), prefix, texts);
      var brace := prefix != [] && prefix[|prefix| - 1] == 123;
      var fits := OneLineLength(prefix, suffix, linePrefix, texts) < if |texts| == 1 then 124 else 120;
      && (layout == None <==> texts == [])
      && (layout == Verbose <==> AnyMarked(texts) || (AnyBroken(texts) && (brace || |texts| > 1)))
      && (layout == SingleNested <==> !AnyMarked(texts) && AnyBroken(texts) && !brace && |texts| == 1)
      && (layout == SingleLine <==> !AnyMarked(texts) && !AnyBroken(texts) && texts != [] && fits)
      && (layout == MultipleLines <==> !AnyMarked(texts) && !AnyBroken(texts) && texts != [] && !fits)
  {
    AnyMarkedIff(texts);
    LayoutWidth.LineWidthIsLength(texts);
  }

  // ---- Lines ----

  /** `part` stands on lines of its own in `text`; `last` when nothing follows. */
  ghost predicate OnOwnLines(text: Text, part: Text, last: bool) {
    exists before: Text, after: Text :: StandsBetween(text, before, part, after, last)
  }

  predicate StandsBetween(text: Text, before: Text, part: Text, after: Text, last: bool) {
    && text == before + part + after
    && (before == [] || before[|before| - 1] == 10)
    && (if last then after == [] else after != [] && after[0] == 10)
  }

  lemma {:induction false} JoinedPartStands(parts: seq<Text>, k: nat)
    requires k < |parts|
    ensures OnOwnLines(Join(parts, [10]), parts[k], k == |parts| - 1)
    decreases k
  {
    var rest := parts[1..];
    if k == 0 {
      var after := if |parts| == 1 then [] else [10] + Join(rest, [10]);
      assert StandsBetween(Join(parts, [10]), [], parts[0], after, |parts| == 1);
    } else {
      JoinedPartStands(rest, k - 1);
      var before: Text, after: Text :| StandsBetween(Join(rest, [10]), before, rest[k - 1], after, k == |parts| - 1);
      PutBefore(parts[0], before, parts[k], after, k == |parts| - 1);
      assert Join(parts, [10]) == parts[0] + [10] + Join(rest, [10]);
    }
  }

  lemma PutBefore(first: Text, before: Text, part: Text, after: Text, last: bool)
    requires StandsBetween(before + part + after, before, part, after, last)
    ensures OnOwnLines(first + [10] + (before + part + after), part, last)
  {
    var longer := first + [10] + before;
    assert longer[|longer| - 1] == if before == [] then 10 else before[|before| - 1];
    assert first + [10] + (before + part + after) == longer + part + after;
    assert StandsBetween(first + [10] + (before + part + after), longer, part, after, last);
  }

  // ---- The verbose layout ----

  /** An entry with at least five line breaks, unless it may be grouped. */
  ghost predicate Big(item: Item) {
    Breaks(item.text + item.delimiter) >= 5 && !item.entry.grouped
  }

  function Breaks(t: Text): nat {
    if t == [] then 0 else (if t[0] == 10 then 1 else 0) + Breaks(t[1..])
  }

  lemma {:induction false} BreaksCount(t: Text)
    ensures |Split(t, 10)| == Breaks(t) + 1
  {
    if t != [] {
      BreaksCount(t[1..]);
    }
  }

  lemma BigIff(item: Item)
    ensures IsLarge(item) <==> Big(item)
  {
    BreaksCount(item.text + item.delimiter);
  }

  /** The lines of the items from the `k`-th on: a blank one before every item that is big or follows a big one. */
  ghost function LinesFrom(items: seq<Item>, k: nat): seq<Text>
    requires k <= |items|
    decreases |items| - k
  {
    if k == |items| then []
    else
      (if k > 0 && (Big(items[k]) || Big(items[k - 1])) then [[]] else [])
      + [items[k].text + items[k].delimiter] + LinesFrom(items, k + 1)
  }

  lemma {:induction false} SpacedIsLines(items: seq<Item>, k: nat)
    requires k <= |items|
    ensures Spaced(items[k..], k == 0, k > 0 && IsLarge(items[k - 1])) == LinesFrom(items, k)
    decreases |items| - k
  {
    if k < |items| {
      SpacedIsLines(items, k + 1);
      assert items[k..][0] == items[k] && items[k..][1..] == items[k + 1..];
      BigIff(items[k]);
      if k > 0 {
        BigIff(items[k - 1]);
      }
      var entry := items[k].text + items[k].delimiter;
      assert [[]] + [entry] == [[], entry] && [] + [entry] == [entry];
    }
  }

  /** Exactly what the verbose layout of a block with items is, line by line. */
  lemma VerboseLines(prefix: Text, suffix: Text, items: seq<Item>, linePrefix: Text)
    requires items != []
    ensures VerboseText(prefix, suffix, items, linePrefix)
         == Join((if prefix != [] then [linePrefix + prefix] else []) + LinesFrom(items, 0)
                 + (if suffix != [] then [linePrefix + suffix] else []), [10])
  {
    assert items[0..] == items;
    SpacedIsLines(items, 0);
    assert |LinesFrom(items, 0)| >= 1;
  }

  /** A block without items: prefix and suffix directly after each other, both with the indent, or the one there is. */
  lemma EmptyBlock(prefix: Text, suffix: Text, linePrefix: Text)
    ensures VerboseText(prefix, suffix, [], linePrefix)
         == (if prefix != [] then linePrefix + prefix else []) + (if suffix != [] then linePrefix + suffix else [])
  {
    var a, b := linePrefix + prefix, linePrefix + suffix;
    assert a + [] == a && [] + b == b && [a, b][1..] == [b] && [b][1..] == [];
    assert Join([a, b], []) == a + [] + Join([b], []);
    assert [] + [] + [b] == [b] && [a] + [] + [] == [a] && [a] + [] + [b] == [a, b];
  }

  lemma {:induction false} ItemIsALine(items: seq<Item>, k: nat, j: nat) returns (at: nat)
    requires k <= j < |items|
    ensures at < |LinesFrom(items, k)| && LinesFrom(items, k)[at] == items[j].text + items[j].delimiter
    ensures at == |LinesFrom(items, k)| - 1 <==> j == |items| - 1
    decreases |items| - k
  {
    var blank: seq<Text> := if k > 0 && (Big(items[k]) || Big(items[k - 1])) then [[]] else [];
    if k == j {
      at := |blank|;
      assert |LinesFrom(items, k + 1)| >= |items| - k - 1 by { AtLeastItems(items, k + 1); }
    } else {
      var later := ItemIsALine(items, k + 1, j);
      at := |blank| + 1 + later;
    }
  }

  lemma {:induction false} AtLeastItems(items: seq<Item>, k: nat)
    requires k <= |items|
    ensures |LinesFrom(items, k)| >= |items| - k
    decreases |items| - k
  {
    if k < |items| {
      AtLeastItems(items, k + 1);
    }
  }

  lemma VerboseBreaksLines(prefix: Text, suffix: Text, items: seq<Item>, linePrefix: Text, k: nat)
    requires k < |items|
    ensures OnOwnLines(VerboseText(prefix, suffix, items, linePrefix),
                       items[k].text + items[k].delimiter, suffix == [] && k == |items| - 1)
  {
    VerboseLines(prefix, suffix, items, linePrefix);
    var head := if prefix != [] then [linePrefix + prefix] else [];
    var tail := if suffix != [] then [linePrefix + suffix] else [];
    var parts := head + LinesFrom(items, 0) + tail;
    var at := ItemIsALine(items, 0, k);
    assert parts[|head| + at] == items[k].text + items[k].delimiter;
    JoinedPartStands(parts, |head| + at);
  }

  lemma MarkedBlockIsVerbose(prefix: Text, suffix: Text, items: seq<Item>, nested: Text, linePrefix: Text)
    requires AnyMarked(TextsOf(items))
    ensures ExpressionText(prefix, suffix, items, nested, linePrefix) == VerboseText(prefix, suffix, items, linePrefix)
  {
    LayoutIff(prefix, suffix, linePrefix, TextsOf(items));
  }

  /** When some entry holds a comment opener or an assignment, every entry stands on lines of its own, with its
      delimiter; a line break follows it if another entry or a suffix does, so a line comment swallows nothing. */
  lemma MarkedBlockBreaksLines(prefix: Text, suffix: Text, items: seq<Item>, nested: Text, linePrefix: Text, k: nat)
    requires k < |items| && AnyMarked(TextsOf(items))
    ensures OnOwnLines(ExpressionText(prefix, suffix, items, nested, linePrefix),
                       items[k].text + items[k].delimiter, suffix == [] && k == |items| - 1)
  {
    MarkedBlockIsVerbose(prefix, suffix, items, nested, linePrefix);
    VerboseBreaksLines(prefix, suffix, items, linePrefix, k);
  }

  // ---- The other layouts ----

  lemma OneLineIs(prefix: Text, texts: seq<Text>)
    ensures
      var line := Join(TrimAll(texts), [44, 32]);
      var pad := if prefix != [] && prefix[|prefix| - 1] == 123 && !(line != [] && line[0] == 123) then [32] else [];
      OneLine(prefix, texts) == pad + line + pad
  {
    var line := Join(TrimAll(texts), [44, 32]);
    assert [] + line + [] == line;
  }

  lemma PlainBlockIsSingleLine(prefix: Text, suffix: Text, items: seq<Item>, nested: Text, linePrefix: Text)
    requires items != [] && !AnyMarked(TextsOf(items)) && !AnyBroken(TextsOf(items))
    requires OneLineLength(prefix, suffix, linePrefix, TextsOf(items)) < if |items| == 1 then 124 else 120
    ensures ExpressionText(prefix, suffix, items, nested, linePrefix)
         == linePrefix + prefix + OneLine(prefix, TextsOf(items)) + suffix
  {
    LayoutIff(prefix, suffix, linePrefix, TextsOf(items));
  }

  /** With neither of these, no line break and a line that fits, the block is that line: inside braces with a space at
      both ends, unless its first entry opens a brace. */
  lemma PlainBlockIsOneLine(prefix: Text, suffix: Text, items: seq<Item>, nested: Text, linePrefix: Text)
    requires items != [] && !AnyMarked(TextsOf(items)) && !AnyBroken(TextsOf(items))
    requires OneLineLength(prefix, suffix, linePrefix, TextsOf(items)) < if |items| == 1 then 124 else 120
    ensures
      var line := Join(TrimAll(TextsOf(items)), [44, 32]);
      var pad := if prefix != [] && prefix[|prefix| - 1] == 123 && !(line != [] && line[0] == 123) then [32] else [];
      ExpressionText(prefix, suffix, items, nested, linePrefix) == linePrefix + prefix + (pad + line + pad) + suffix
  {
    PlainBlockIsSingleLine(prefix, suffix, items, nested, linePrefix);
    OneLineIs(prefix, TextsOf(items));
  }

  /** If the line does not fit, each entry is a line: between the line of the prefix and that of the suffix, all but the
      last with a comma. */
  lemma LongBlockIsALineEach(prefix: Text, suffix: Text, items: seq<Item>, nested: Text, linePrefix: Text)
    requires items != [] && !AnyMarked(TextsOf(items)) && !AnyBroken(TextsOf(items))
    requires OneLineLength(prefix, suffix, linePrefix, TextsOf(items)) >= if |items| == 1 then 124 else 120
    ensures ExpressionText(prefix, suffix, items, nested, linePrefix)
         == linePrefix + prefix + [10] + Join(TextsOf(items), [44, 10]) + [10] + linePrefix + suffix
  {
    LayoutIff(prefix, suffix, linePrefix, TextsOf(items));
  }

  /** A single entry with a line break is nested between prefix and suffix, at the indent of the block itself, unless
      the prefix opens a brace. */
  lemma SoleEntryIsNested(prefix: Text, suffix: Text, items: seq<Item>, nested: Text, linePrefix: Text)
    requires |items| == 1 && !AnyMarked(TextsOf(items)) && 10 in items[0].text
    requires prefix != [] ==> prefix[|prefix| - 1] != 123
    ensures ExpressionText(prefix, suffix, items, nested, linePrefix) == linePrefix + prefix + Trim(nested) + suffix
  {
    assert TextsOf(items)[0] == items[0].text;
    LayoutIff(prefix, suffix, linePrefix, TextsOf(items));
  }

  // ---- Indents ----

  lemma {:induction false} PrefixedAt(lines: seq<Text>, linePrefix: Text, i: nat)
    requires i < |lines|
    ensures Prefixed(lines, linePrefix)[i] == linePrefix + lines[i]
  {
    if i > 0 {
      PrefixedAt(lines[1..], linePrefix, i - 1);
      assert Prefixed(lines, linePrefix)[i] == Prefixed(lines[1..], linePrefix)[i - 1];
    }
  }

  /** Every line of an atom gets the indent. */
  lemma AtomIsIndented(text: Text, grouped: bool, linePrefix: Text)
    requires 10 !in linePrefix
    ensures
      var lines, out := Split(text, 10), Split(Serialize(Atom(text, grouped), linePrefix), 10);
      |out| == |lines| && forall i | 0 <= i < |out| :: out[i] == linePrefix + lines[i]
  {
    var lines := Split(text, 10);
    var prefixed := Prefixed(lines, linePrefix);
    SplitParts(text, 10);
    forall i | 0 <= i < |lines| ensures prefixed[i] == linePrefix + lines[i] && 10 !in prefixed[i] {
      PrefixedAt(lines, linePrefix, i);
    }
    SplitJoin(prefixed, 10);
  }

  /** The entries of a block are rendered four spaces deeper, and start with that indent. */
  lemma EntriesAreIndented(prefix: Text, suffix: Text, es: seq<Entry>, grouped: bool, linePrefix: Text, i: nat)
    requires i < |es| && forall c | c in es :: LayoutMeaning.WellFormed(c)
    ensures
      var texts := SerializeAll(es, linePrefix + [32, 32, 32, 32]);
      Serialize(Expressions(prefix, suffix, es, grouped), linePrefix)
      == ExpressionText(prefix, suffix, Items(es, texts), Serialize(es[0], linePrefix), linePrefix)
      && linePrefix + [32, 32, 32, 32] <= texts[i]
  {
    LayoutMeaning.AllStart(es, linePrefix + [32, 32, 32, 32]);
  }

  // ---- Builders ----

  /** A builder of two entries is one line exactly when both are and the line has fewer than 120 columns, not counting
      the indent twice; otherwise the second goes to a line of its own, four spaces deeper and after a dot. */
  lemma BuilderOfTwo(a: Entry, b: Entry, grouped: bool, linePrefix: Text)
    ensures
      var first, second := Serialize(a, linePrefix), Serialize(b, []);
      var inner := linePrefix + [32, 32, 32, 32];
      Serialize(Builder([a, b], grouped), linePrefix)
      == if 10 !in first && 10 !in second && |first| + |second| + 1 < 120
         then first + [46] + second
         else first + [10] + (inner + [46] + Slice(Serialize(b, inner), |inner|))
  {
    var inner := linePrefix + [32, 32, 32, 32];
    var es := [a, b];
    assert es[1..] == [b] && [b][1..] == [];
    assert SerializeAll([b], inner) == [Serialize(b, inner)];
    var link := inner + [46] + Slice(Serialize(b, inner), |inner|);
    assert [Serialize(b, inner)][1..] == [];
    assert Chained([Serialize(b, inner)], inner) == [link];
    var first := Serialize(a, linePrefix);
    assert [first] + [link] == [first, link] && [first, link][1..] == [link];
    assert Join([first, link], [10]) == first + [10] + link;
  }

  lemma {:induction false} LinkAt(texts: seq<Text>, linePrefix: Text, i: nat)
    requires i < |texts|
    ensures Chained(texts, linePrefix)[i] == linePrefix + [46] + Slice(texts[i], |linePrefix|)
  {
    if i > 0 {
      LinkAt(texts[1..], linePrefix, i - 1);
      assert Chained(texts, linePrefix)[i] == Chained(texts[1..], linePrefix)[i - 1];
    }
  }

  lemma {:induction false} SerializedAt(es: seq<Entry>, linePrefix: Text, i: nat)
    requires i < |es|
    ensures SerializeAll(es, linePrefix)[i] == Serialize(es[i], linePrefix)
  {
    if i > 0 {
      SerializedAt(es[1..], linePrefix, i - 1);
      assert SerializeAll(es, linePrefix)[i] == SerializeAll(es[1..], linePrefix)[i - 1];
    }
  }

  /** In a builder of three or more every entry but the first stands on lines of its own, four spaces deeper and after
      a dot that takes the place of its indent. */
  lemma LongerBuilderBreaksLines(es: seq<Entry>, grouped: bool, linePrefix: Text, i: nat)
    requires |es| >= 3 && 1 <= i < |es|
    ensures
      var inner := linePrefix + [32, 32, 32, 32];
      OnOwnLines(Serialize(Builder(es, grouped), linePrefix),
                 inner + [46] + Slice(Serialize(es[i], inner), |inner|), i == |es| - 1)
  {
    var inner := linePrefix + [32, 32, 32, 32];
    var chain := Chained(SerializeAll(es[1..], inner), inner);
    var parts := [Serialize(es[0], linePrefix)] + chain;
    LinkAt(SerializeAll(es[1..], inner), inner, i - 1);
    SerializedAt(es[1..], inner, i - 1);
    assert parts[i] == chain[i - 1] && es[1..][i - 1] == es[i];
    JoinedPartStands(parts, i);
  }
}
