/** What the single-line layout promises about columns and line breaks. */
module LayoutWidth {
  import opened Texts
  import opened ExpressionLayouts
  import opened TsFile

  lemma {:induction false} TrimAllLast(ts: seq<Text>, last: Text)
    ensures TrimAll(ts + [last]) == TrimAll(ts) + [Trim(last)]
  {
    if ts != [] {
      assert (ts + [last])[1..] == ts[1..] + [last];
      TrimAllLast(ts[1..], last);
    }
  }

  /** The scan counts exactly the columns of the comma-separated line. */
  lemma {:induction false} LineWidthIsLength(entries: seq<Text>)
    ensures LineWidth(entries) == |Join(TrimAll(entries), [COMMA, SPACE])|
    decreases |entries|
  {
    if |entries| > 1 {
      var init, last := entries[..|entries| - 1], entries[|entries| - 1];
      assert entries == init + [last];
      TrimAllLast(init, last);
      JoinLast(TrimAll(init), Trim(last), [COMMA, SPACE]);
      LineWidthIsLength(init);
    }
  }

  lemma {:induction false} TrimStartSubset(t: Text)
    ensures forall c | c in TrimStart(t) :: c in t
  {
    if t != [] && IsSpace(t[0]) {
      TrimStartSubset(t[1..]);
    }
  }

  lemma {:induction false} TrimEndSubset(t: Text)
    ensures forall c | c in TrimEnd(t) :: c in t
  {
    if t != [] && IsSpace(t[|t| - 1]) {
      TrimEndSubset(t[..|t| - 1]);
    }
  }

  lemma {:induction false} JoinedLineHasNoBreak(texts: seq<Text>)
    requires AllSingle(texts)
    ensures NEWLINE !in Join(TrimAll(texts), [COMMA, SPACE])
  {
    if texts != [] {
      TrimStartSubset(texts[0]);
      TrimEndSubset(TrimStart(texts[0]));
      JoinedLineHasNoBreak(texts[1..]);
      assert TrimAll(texts)[1..] == TrimAll(texts[1..]);
    }
  }

  /** In the single-line layout the text takes no more columns than the scan counted, so fewer than 124 for one
      entry and fewer than 120 for several; and it breaks the line only where its prefix or suffix does. */
  lemma SingleLineIsBounded(prefix: Text, suffix: Text, items: seq<Item>, nested: Text, linePrefix: Text)
    requires LayoutOf(Adornment(prefix, suffix, linePrefix), prefix, TextsOf(items)) == SingleLine
    ensures
      var text := ExpressionText(prefix, suffix, items, nested, linePrefix);
      && |text| <= Adornment(prefix, suffix, linePrefix) + LineWidth(TextsOf(items))
      && |text| < (if |items| == 1 then 124 else 120)
      && (NEWLINE in text <==> NEWLINE in linePrefix || NEWLINE in prefix || NEWLINE in suffix)
  {
    var texts := TextsOf(items);
    LineWidthIsLength(texts);
    JoinedLineHasNoBreak(texts);
    var line := OneLine(prefix, texts);
    assert NEWLINE !in line;
    var text := linePrefix + prefix + line + suffix;
    assert forall c :: c in text <==> c in linePrefix || c in prefix || c in line || c in suffix;
  }

  /** Single-line is chosen whenever it would fit: any other layout means a break, a comment or an assignment in an
      entry, or a line that is too long. */
  lemma SingleLineIsPreferred(prefix: Text, suffix: Text, items: seq<Item>, linePrefix: Text)
    requires items != []
    ensures
      var texts := TextsOf(items);
      LayoutOf(Adornment(prefix, suffix, linePrefix), prefix, texts) != SingleLine <==>
        || (exists i | 0 <= i < |texts| :: NEWLINE in texts[i] || ForcesVerbose(texts[i]))
        || Adornment(prefix, suffix, linePrefix) + |Join(TrimAll(texts), [COMMA, SPACE])|
             >= (if |items| == 1 then 124 else 120)
  {
    LineWidthIsLength(TextsOf(items));
  }
}
