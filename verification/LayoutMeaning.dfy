/** No layout changes what is written: the text of an entry with its white space erased does not depend on the
    indent, on the widths, or on the layout chosen at any level. */
module LayoutMeaning {
  import opened Texts
  import opened ExpressionLayouts
  import opened TsFile

  /** What an entry says: its children joined by commas, or by dots for a builder, with no white space. */
  function Meaning(e: Entry): Text
    decreases e
  {
    match e
    case Atom(text, _) => Strip(text)
    case Expressions(prefix, suffix, es, _) => Strip(prefix) + Join(Meanings(es), [COMMA]) + Strip(suffix)
    case Builder(es, _) => Join(Meanings(es), [DOT])
  }

  function Meanings(es: seq<Entry>): (r: seq<Text>)
    ensures |r| == |es|
    decreases es
  {
    if es == [] then [] else [Meaning(es[0])] + Meanings(es[1..])
  }

  /** No builder in the tree is empty. */
  predicate WellFormed(e: Entry)
    decreases e
  {
    match e
    case Atom(_, _) => true
    case Expressions(_, _, es, _) => forall c | c in es :: WellFormed(c)
    case Builder(es, _) => es != [] && forall c | c in es :: WellFormed(c)
  }

  // ---- Every text starts with the indent it was rendered at ----

  lemma JoinStarts(parts: seq<Text>, separator: Text)
    requires parts != []
    ensures parts[0] <= Join(parts, separator)
  {}

  lemma PrefixesChain(a: Text, b: Text, c: Text)
    requires a <= b <= c
    ensures a <= c
  {}

  lemma IndentStarts(text: Text, linePrefix: Text)
    ensures linePrefix <= IndentLines(text, linePrefix)
  {
    var lines := Prefixed(Split(text, NEWLINE), linePrefix);
    JoinStarts(lines, [NEWLINE]);
    PrefixesChain(linePrefix, lines[0], IndentLines(text, linePrefix));
  }

  lemma VerboseStarts(prefix: Text, suffix: Text, items: seq<Item>, linePrefix: Text)
    requires items != [] && linePrefix <= items[0].text
    ensures linePrefix <= VerboseText(prefix, suffix, items, linePrefix)
  {
    var parts := (if prefix != [] then [linePrefix + prefix] else [])
                 + Spaced(items, true, false)
                 + (if suffix != [] then [linePrefix + suffix] else []);
    assert Spaced(items, true, false)[0] == items[0].text + items[0].delimiter;
    assert linePrefix <= parts[0];
    JoinStarts(parts, []);
    JoinStarts(parts, [NEWLINE]);
  }

  lemma FrameStarts(linePrefix: Text, a: Text, b: Text, c: Text)
    ensures linePrefix <= linePrefix + a + b && linePrefix <= linePrefix + a + b + c
  {
    assert (linePrefix + a + b)[..|linePrefix|] == linePrefix;
    assert (linePrefix + a + b + c)[..|linePrefix|] == linePrefix;
  }

  lemma ExpressionStarts(prefix: Text, suffix: Text, items: seq<Item>, nested: Text, linePrefix: Text)
    requires items != [] ==> linePrefix <= items[0].text
    ensures linePrefix <= ExpressionText(prefix, suffix, items, nested, linePrefix)
  {
    var texts := TextsOf(items);
    match LayoutOf(Adornment(prefix, suffix, linePrefix), prefix, texts)
    case None =>
      FrameStarts(linePrefix, prefix, suffix, []);
    case SingleNested =>
      FrameStarts(linePrefix, prefix, Trim(nested), suffix);
    case SingleLine =>
      FrameStarts(linePrefix, prefix, OneLine(prefix, texts), suffix);
    case MultipleLines =>
      var head := linePrefix + prefix + [NEWLINE] + Join(texts, [COMMA, NEWLINE]);
      FrameStarts(linePrefix, prefix, [NEWLINE], Join(texts, [COMMA, NEWLINE]));
      FrameStarts(head, [NEWLINE], linePrefix, suffix);
      PrefixesChain(linePrefix, head, head + [NEWLINE] + linePrefix + suffix);
    case Verbose =>
      VerboseStarts(prefix, suffix, items, linePrefix);
  }

  lemma ItemsStart(es: seq<Entry>, texts: seq<Text>, linePrefix: Text)
    requires |es| == |texts|
    requires forall i | 0 <= i < |texts| :: linePrefix <= texts[i]
    ensures Items(es, texts) != [] ==> linePrefix <= Items(es, texts)[0].text
  {
    if es != [] {
      ItemsStart(es[1..], texts[1..], linePrefix);
    }
  }

  lemma BuilderStarts(first: Text, others: seq<Text>, linePrefix: Text)
    requires linePrefix <= first
    ensures linePrefix <= Join([first] + others, [NEWLINE])
  {
    JoinStarts([first] + others, [NEWLINE]);
    PrefixesChain(linePrefix, first, Join([first] + others, [NEWLINE]));
  }

  lemma {:induction false} SerializeStarts(e: Entry, linePrefix: Text)
    requires WellFormed(e)
    ensures linePrefix <= Serialize(e, linePrefix)
    decreases e
  {
    match e
    case Atom(text, _) =>
      IndentStarts(text, linePrefix);
    case Expressions(prefix, suffix, es, _) =>
      var inner := linePrefix + INDENT;
      var texts := SerializeAll(es, inner);
      AllStart(es, inner);
      forall i | 0 <= i < |texts| ensures linePrefix <= texts[i] {
        PrefixesChain(linePrefix, inner, texts[i]);
      }
      ItemsStart(es, texts, linePrefix);
      ExpressionStarts(prefix, suffix, Items(es, texts), if es == [] then [] else Serialize(es[0], linePrefix), linePrefix);
    case Builder(es, _) =>
      SerializeStarts(es[0], linePrefix);
      if |es| > 1 {
        var inner := linePrefix + INDENT;
        BuilderStarts(Serialize(es[0], linePrefix), Chained(SerializeAll(es[1..], inner), inner), linePrefix);
      }
  }

  lemma {:induction false} AllStart(es: seq<Entry>, linePrefix: Text)
    requires forall c | c in es :: WellFormed(c)
    ensures forall i | 0 <= i < |es| :: linePrefix <= SerializeAll(es, linePrefix)[i]
    decreases es
  {
    if es != [] {
      SerializeStarts(es[0], linePrefix);
      AllStart(es[1..], linePrefix);
    }
  }

  // ---- Erasing white space from each piece of a layout ----

  lemma {:induction false} StripTrimAll(ts: seq<Text>)
    ensures StripAll(TrimAll(ts)) == StripAll(ts)
  {
    if ts != [] {
      StripTrim(ts[0]);
      StripTrimAll(ts[1..]);
    }
  }

  lemma {:induction false} StripPrefixed(lines: seq<Text>, linePrefix: Text)
    requires IsBlank(linePrefix)
    ensures StripAll(Prefixed(lines, linePrefix)) == StripAll(lines)
  {
    if lines != [] {
      StripConcat(linePrefix, lines[0]);
      StripBlank(linePrefix);
      assert Strip(linePrefix + lines[0]) == Strip(lines[0]);
      StripPrefixed(lines[1..], linePrefix);
      assert Prefixed(lines, linePrefix)[1..] == Prefixed(lines[1..], linePrefix);
    }
  }

  lemma StripIndented(text: Text, linePrefix: Text)
    requires IsBlank(linePrefix)
    ensures Strip(IndentLines(text, linePrefix)) == Strip(text)
  {
    var lines := Split(text, NEWLINE);
    StripJoin(Prefixed(lines, linePrefix), [NEWLINE]);
    StripPrefixed(lines, linePrefix);
    StripJoin(lines, [NEWLINE]);
    JoinSplit(text, NEWLINE);
  }

  lemma StripFramed(linePrefix: Text, prefix: Text, line: Text, suffix: Text)
    requires IsBlank(linePrefix)
    ensures Strip(linePrefix + prefix + line + suffix) == Strip(prefix) + Strip(line) + Strip(suffix)
  {
    StripConcat3(linePrefix + prefix, line, suffix);
    StripConcat(linePrefix, prefix);
    StripBlank(linePrefix);
  }

  lemma StripSeparator(blank: CodeUnit)
    requires IsSpace(blank)
    ensures Strip([COMMA, blank]) == [COMMA]
  {
    StripBlank([blank]);
    assert [COMMA, blank][1..] == [blank];
  }

  lemma StripOneLine(prefix: Text, texts: seq<Text>)
    ensures Strip(OneLine(prefix, texts)) == Join(StripAll(texts), [COMMA])
  {
    var line := Join(TrimAll(texts), [COMMA, SPACE]);
    StripJoin(TrimAll(texts), [COMMA, SPACE]);
    StripTrimAll(texts);
    StripSeparator(SPACE);
    StripConcat3([SPACE], line, [SPACE]);
    StripBlank([SPACE]);
    assert Strip([SPACE] + line + [SPACE]) == Strip(line);
  }

  lemma StripMultipleLines(linePrefix: Text, prefix: Text, texts: seq<Text>, suffix: Text)
    requires IsBlank(linePrefix)
    ensures Strip(linePrefix + prefix + [NEWLINE] + Join(texts, [COMMA, NEWLINE]) + [NEWLINE] + linePrefix + suffix)
         == Strip(prefix) + Join(StripAll(texts), [COMMA]) + Strip(suffix)
  {
    var body := Join(texts, [COMMA, NEWLINE]);
    var a := linePrefix + prefix + [NEWLINE];
    var b := a + body + [NEWLINE];
    StripConcat3(b, linePrefix, suffix);
    StripConcat3(a, body, [NEWLINE]);
    StripConcat3(linePrefix, prefix, [NEWLINE]);
    StripBlank(linePrefix);
    StripBlank([NEWLINE]);
    StripJoin(texts, [COMMA, NEWLINE]);
    StripSeparator(NEWLINE);
  }

  // ---- The verbose layout ----

  /** The pieces glued together with nothing between them. */
  function Glue(parts: seq<Text>): Text {
    Join(parts, [])
  }

  lemma GlueCons(part: Text, parts: seq<Text>)
    ensures Glue([part] + parts) == part + Glue(parts)
  {
    if parts != [] {
      assert ([part] + parts)[1..] == parts;
    }
  }

  lemma {:induction false} GlueConcat(a: seq<Text>, b: seq<Text>)
    ensures Glue(a + b) == Glue(a) + Glue(b)
  {
    if a == [] {
      assert a + b == b;
    } else {
      GlueCons(a[0], a[1..] + b);
      GlueCons(a[0], a[1..]);
      assert [a[0]] + (a[1..] + b) == a + b && [a[0]] + a[1..] == a;
      GlueConcat(a[1..], b);
    }
  }

  lemma {:induction false} StripGlue(parts: seq<Text>)
    ensures Glue(StripAll(parts)) == Strip(Glue(parts))
  {
    StripJoin(parts, []);
  }

  lemma StripLines(item: Item, first: bool, needSpace: bool)
    ensures Strip(Glue(Lines(item, first, needSpace))) == Strip(item.text) + Strip(item.delimiter)
  {
    var entry := item.text + item.delimiter;
    StripConcat(item.text, item.delimiter);
    GlueCons([], [entry]);
    assert [[]] + [entry] == [[], entry] && [] + Glue([entry]) == entry;
  }

  /** What the items say, each with its delimiter. */
  function Said(items: seq<Item>): Text {
    if items == [] then [] else Strip(items[0].text) + Strip(items[0].delimiter) + Said(items[1..])
  }

  lemma {:induction false} StripSpaced(items: seq<Item>, first: bool, needSpace: bool)
    ensures Strip(Glue(Spaced(items, first, needSpace))) == Said(items)
  {
    if items != [] {
      var lines := Lines(items[0], first, needSpace);
      var rest := Spaced(items[1..], false, IsLarge(items[0]));
      GlueConcat(lines, rest);
      StripConcat(Glue(lines), Glue(rest));
      StripLines(items[0], first, needSpace);
      StripSpaced(items[1..], false, IsLarge(items[0]));
    }
  }

  lemma StripComma()
    ensures Strip([COMMA]) == [COMMA] && Strip([]) == []
  {
  }

  /** All items but the last are followed by a comma; the last is, or is not. */
  predicate Separated(items: seq<Item>, trailing: bool) {
    forall i | 0 <= i < |items| :: items[i].delimiter == if i + 1 < |items| || trailing then [COMMA] else []
  }

  lemma {:induction false} SaidSeparated(items: seq<Item>, trailing: bool)
    requires Separated(items, trailing)
    ensures Said(items) == Join(StripAll(TextsOf(items)), [COMMA]) + if trailing && items != [] then [COMMA] else []
  {
    if items != [] {
      var t, rest := Strip(items[0].text), items[1..];
      SaidSeparated(rest, trailing);
      StripComma();
      assert TextsOf(items)[1..] == TextsOf(rest);
      assert StripAll(TextsOf(items))[1..] == StripAll(TextsOf(rest));
      if rest != [] {
        var said := Join(StripAll(TextsOf(rest)), [COMMA]);
        assert t + [COMMA] + (said + if trailing then [COMMA] else [])
            == t + [COMMA] + said + if trailing then [COMMA] else [];
      }
    }
  }

  /** The optional line that holds the prefix or the suffix. */
  lemma StripEdge(linePrefix: Text, edge: Text)
    requires IsBlank(linePrefix)
    ensures Strip(Glue(if edge != [] then [linePrefix + edge] else [])) == Strip(edge)
  {
    StripConcat(linePrefix, edge);
    StripBlank(linePrefix);
    assert [] + Strip(edge) == Strip(edge);
  }

  lemma StripParts(head: seq<Text>, middle: seq<Text>, tail: seq<Text>)
    ensures Strip(Join(head + middle + tail, [NEWLINE])) == Strip(Glue(head)) + Strip(Glue(middle)) + Strip(Glue(tail))
    ensures Strip(Glue(head + middle + tail)) == Strip(Glue(head)) + Strip(Glue(middle)) + Strip(Glue(tail))
  {
    StripJoin(head + middle + tail, [NEWLINE]);
    StripBlank([NEWLINE]);
    StripGlue(head + middle + tail);
    GlueConcat(head + middle, tail);
    GlueConcat(head, middle);
    StripConcat3(Glue(head), Glue(middle), Glue(tail));
  }

  lemma StripVerbose(prefix: Text, suffix: Text, items: seq<Item>, linePrefix: Text)
    requires IsBlank(linePrefix)
    ensures Strip(VerboseText(prefix, suffix, items, linePrefix)) == Strip(prefix) + Said(items) + Strip(suffix)
  {
    var head := if prefix != [] then [linePrefix + prefix] else [];
    var tail := if suffix != [] then [linePrefix + suffix] else [];
    StripParts(head, Spaced(items, true, false), tail);
    StripSpaced(items, true, false);
    StripEdge(linePrefix, prefix);
    StripEdge(linePrefix, suffix);
  }

  lemma SameSides(a: Text, b: Text, c: Text, d: Text)
    ensures a + b + d == a + c + d <==> b == c
  {
    if a + b + d == a + c + d {
      assert |b| == |c|;
      assert b == (a + b + d)[|a|..|a| + |b|] == (a + c + d)[|a|..|a| + |c|] == c;
    }
  }

  /** When a block layout keeps the texts of its items, in order and comma-separated. */
  lemma BlockSays(
      prefix: Text, suffix: Text, items: seq<Item>, nested: Text, linePrefix: Text, trailing: bool, meanings: seq<Text>)
    requires IsBlank(linePrefix) && Separated(items, trailing) && StripAll(TextsOf(items)) == meanings
    ensures
      Strip(ExpressionText(prefix, suffix, items, nested, linePrefix))
      == Strip(prefix) + Join(meanings, [COMMA]) + Strip(suffix)
      <==>
      match LayoutOf(Adornment(prefix, suffix, linePrefix), prefix, TextsOf(items))
      case SingleNested => Strip(nested) == meanings[0]
      case Verbose => !trailing
      case _ => true
  {
    var texts := TextsOf(items);
    match LayoutOf(Adornment(prefix, suffix, linePrefix), prefix, texts)
    case None =>
      StripFramed(linePrefix, prefix, [], suffix);
      assert linePrefix + prefix + [] == linePrefix + prefix;
    case SingleNested =>
      StripFramed(linePrefix, prefix, Trim(nested), suffix);
      StripTrim(nested);
      SameSides(Strip(prefix), Strip(nested), meanings[0], Strip(suffix));
    case SingleLine =>
      StripFramed(linePrefix, prefix, OneLine(prefix, texts), suffix);
      StripOneLine(prefix, texts);
    case MultipleLines =>
      StripMultipleLines(linePrefix, prefix, texts, suffix);
    case Verbose =>
      StripVerbose(prefix, suffix, items, linePrefix);
      SaidSeparated(items, trailing);
      SameSides(Strip(prefix), Said(items), Join(meanings, [COMMA]), Strip(suffix));
  }

  lemma StripExpression(prefix: Text, suffix: Text, items: seq<Item>, nested: Text, linePrefix: Text)
    requires IsBlank(linePrefix) && Separated(items, false)
    requires |items| == 1 ==> Strip(nested) == Strip(items[0].text)
    ensures Strip(ExpressionText(prefix, suffix, items, nested, linePrefix))
         == Strip(prefix) + Join(StripAll(TextsOf(items)), [COMMA]) + Strip(suffix)
  {
    BlockSays(prefix, suffix, items, nested, linePrefix, false, StripAll(TextsOf(items)));
  }

  /** When no child renders to the empty text none is dropped. */
  lemma {:induction false} ItemsComplete(es: seq<Entry>, texts: seq<Text>)
    requires |es| == |texts| && forall i | 0 <= i < |es| :: texts[i] != []
    ensures TextsOf(Items(es, texts)) == texts && Separated(Items(es, texts), false)
  {
    if es != [] {
      ItemsComplete(es[1..], texts[1..]);
      var rest := Items(es[1..], texts[1..]);
      assert Items(es, texts)[1..] == rest;
      assert texts == [texts[0]] + texts[1..];
    }
  }

  // ---- Builders ----

  lemma StripLink(linePrefix: Text, rest: Text)
    requires IsBlank(linePrefix)
    ensures Strip(linePrefix + [DOT] + rest) == [DOT] + Strip(linePrefix + rest)
  {
    StripConcat(linePrefix, rest);
    StripConcat3(linePrefix, [DOT], rest);
    StripBlank(linePrefix);
    StripDot();
    assert [] + Strip(rest) == Strip(rest);
  }

  lemma StripDot()
    ensures Strip([DOT]) == [DOT]
  {
  }

  lemma {:induction false} StripChained(texts: seq<Text>, linePrefix: Text)
    requires texts != []
    requires IsBlank(linePrefix) && forall i | 0 <= i < |texts| :: linePrefix <= texts[i]
    ensures Glue(StripAll(Chained(texts, linePrefix))) == [DOT] + Join(StripAll(texts), [DOT])
  {
    var t, chain := texts[0], Chained(texts, linePrefix);
    StripLink(linePrefix, Slice(t, |linePrefix|));
    assert linePrefix + Slice(t, |linePrefix|) == t;
    assert chain[1..] == Chained(texts[1..], linePrefix);
    if |texts| > 1 {
      StripChained(texts[1..], linePrefix);
      GlueCons(Strip(chain[0]), StripAll(chain[1..]));
      var rest := Join(StripAll(texts[1..]), [DOT]);
      assert Join(StripAll(texts), [DOT]) == Strip(t) + [DOT] + rest;
      assert [DOT] + Strip(t) + ([DOT] + rest) == [DOT] + (Strip(t) + [DOT] + rest);
    }
  }

  lemma JoinFirst(first: Text, others: seq<Text>)
    requires others != []
    ensures Join([first] + others, [DOT]) == first + [DOT] + Join(others, [DOT])
  {
    assert ([first] + others)[1..] == others;
  }

  lemma StripAllCons(t: Text, ts: seq<Text>)
    ensures StripAll([t] + ts) == [Strip(t)] + StripAll(ts)
  {
    assert ([t] + ts)[1..] == ts;
  }

  lemma StripChainParts(first: Text, chain: seq<Text>)
    ensures Strip(Join([first] + chain, [NEWLINE])) == Strip(first) + Glue(StripAll(chain))
  {
    StripJoin([first] + chain, [NEWLINE]);
    StripBlank([NEWLINE]);
    StripAllCons(first, chain);
    GlueCons(Strip(first), StripAll(chain));
  }

  lemma StripChain(first: Text, texts: seq<Text>, linePrefix: Text)
    requires texts != []
    requires IsBlank(linePrefix) && forall i | 0 <= i < |texts| :: linePrefix <= texts[i]
    ensures Strip(Join([first] + Chained(texts, linePrefix), [NEWLINE]))
         == Join([Strip(first)] + StripAll(texts), [DOT])
  {
    StripChainParts(first, Chained(texts, linePrefix));
    StripChained(texts, linePrefix);
    JoinFirst(Strip(first), StripAll(texts));
    Associate(Strip(first), [DOT], Join(StripAll(texts), [DOT]));
  }

  // ---- The theorem ----

  lemma {:induction false} ChildrenKeepMeaning(es: seq<Entry>, linePrefix: Text)
    requires IsBlank(linePrefix) && forall c | c in es :: WellFormed(c)
    ensures StripAll(SerializeAll(es, linePrefix)) == Meanings(es)
    decreases es
  {
    if es != [] {
      LayoutKeepsMeaning(es[0], linePrefix);
      ChildrenKeepMeaning(es[1..], linePrefix);
      assert SerializeAll(es, linePrefix)[1..] == SerializeAll(es[1..], linePrefix);
    }
  }

  lemma {:induction false} LayoutKeepsMeaning(e: Entry, linePrefix: Text)
    requires WellFormed(e) && IsBlank(linePrefix)
    ensures Strip(Serialize(e, linePrefix)) == Meaning(e)
    decreases e
  {
    match e
    case Atom(text, _) =>
      StripIndented(text, linePrefix);
    case Expressions(prefix, suffix, es, _) =>
      var inner := linePrefix + INDENT;
      var texts := SerializeAll(es, inner);
      ChildrenKeepMeaning(es, inner);
      AllStart(es, inner);
      ItemsComplete(es, texts);
      var items := Items(es, texts);
      var nested := if es == [] then [] else Serialize(es[0], linePrefix);
      if es != [] {
        LayoutKeepsMeaning(es[0], linePrefix);
        assert items[0].text == TextsOf(items)[0] == texts[0];
        assert StripAll(texts)[0] == Strip(texts[0]);
      }
      StripExpression(prefix, suffix, items, nested, linePrefix);
    case Builder(es, _) =>
      var first := Serialize(es[0], linePrefix);
      LayoutKeepsMeaning(es[0], linePrefix);
      if |es| > 1 {
        var second := Serialize(es[1], []);
        if |es| == 2 && ChainFits(first, second) {
          LayoutKeepsMeaning(es[1], []);
          StripConcat3(first, [DOT], second);
          assert Strip([DOT]) == [DOT];
          assert es[1..][0] == es[1] && Meanings(es)[1..] == Meanings(es[1..]);
          assert Join(Meanings(es), [DOT]) == Meaning(es[0]) + [DOT] + Meaning(es[1]);
          assert Serialize(e, linePrefix) == first + [DOT] + second;
        } else {
          var inner := linePrefix + INDENT;
          ChildrenKeepMeaning(es[1..], inner);
          AllStart(es[1..], inner);
          StripChain(first, SerializeAll(es[1..], inner), inner);
        }
      }
  }

  // ---- Blocks with empty builders ----

  predicate Hollow(e: Entry) {
    e.Builder? && e.entries == []
  }

  /** The children that have something to say. */
  function Kept(es: seq<Entry>): seq<Entry> {
    if es == [] then [] else (if Hollow(es[0]) then [] else [es[0]]) + Kept(es[1..])
  }

  ghost predicate HollowOrWellFormed(es: seq<Entry>) {
    forall c | c in es :: Hollow(c) || WellFormed(c)
  }

  lemma {:induction false} KeptAreWellFormed(es: seq<Entry>)
    requires HollowOrWellFormed(es)
    ensures forall c | c in Kept(es) :: WellFormed(c) && c in es
  {
    if es != [] {
      KeptAreWellFormed(es[1..]);
      assert es[0] in es && forall c | c in es[1..] :: c in es;
    }
  }

  lemma SayingIsText(e: Entry, linePrefix: Text)
    requires WellFormed(e) && linePrefix != []
    ensures Serialize(e, linePrefix) != []
  {
    SerializeStarts(e, linePrefix);
  }

  lemma ItemsStep(es: seq<Entry>, linePrefix: Text)
    requires es != [] && linePrefix != [] && (Hollow(es[0]) || WellFormed(es[0]))
    ensures
      var later := Items(es[1..], SerializeAll(es[1..], linePrefix));
      Items(es, SerializeAll(es, linePrefix))
      == if Hollow(es[0]) then later
         else [Item(es[0], Serialize(es[0], linePrefix), if |es| > 1 then [COMMA] else [])] + later
  {
    assert SerializeAll(es, linePrefix)[1..] == SerializeAll(es[1..], linePrefix);
    if !Hollow(es[0]) {
      SayingIsText(es[0], linePrefix);
    }
  }

  lemma {:induction false} KeptTexts(es: seq<Entry>, linePrefix: Text)
    requires HollowOrWellFormed(es) && linePrefix != []
    ensures
      var items := Items(es, SerializeAll(es, linePrefix));
      |items| == |Kept(es)| && TextsOf(items) == SerializeAll(Kept(es), linePrefix)
  {
    if es != [] {
      assert es[0] in es && forall c | c in es[1..] :: c in es;
      KeptTexts(es[1..], linePrefix);
      ItemsStep(es, linePrefix);
      if Hollow(es[0]) {
        assert Kept(es) == Kept(es[1..]);
      } else {
        assert Kept(es) == [es[0]] + Kept(es[1..]) && Kept(es)[1..] == Kept(es[1..]);
        assert Items(es, SerializeAll(es, linePrefix))[1..] == Items(es[1..], SerializeAll(es[1..], linePrefix));
      }
    }
  }

  predicate EndsHollow(es: seq<Entry>) {
    es != [] && Hollow(es[|es| - 1])
  }

  /** Empty builders are dropped from the items; but one that is the last child leaves a comma behind the others. */
  lemma {:induction false} KeptCommas(es: seq<Entry>, linePrefix: Text)
    requires HollowOrWellFormed(es) && linePrefix != []
    ensures Separated(Items(es, SerializeAll(es, linePrefix)), EndsHollow(es))
  {
    if es != [] {
      var rest := es[1..];
      var later := Items(rest, SerializeAll(rest, linePrefix));
      assert es[0] in es && forall c | c in rest :: c in es;
      KeptCommas(rest, linePrefix);
      KeptTexts(rest, linePrefix);
      KeptOfNone(rest);
      ItemsStep(es, linePrefix);
      assert rest != [] ==> EndsHollow(es) == EndsHollow(rest);
      if Hollow(es[0]) {
        assert rest == [] ==> later == [];
      } else {
        OneMoreSeparated(Item(es[0], Serialize(es[0], linePrefix), if |es| > 1 then [COMMA] else []), later,
                         rest != [], EndsHollow(es));
      }
    }
  }

  lemma OneMoreSeparated(item: Item, later: seq<Item>, more: bool, trailing: bool)
    requires Separated(later, trailing) && item.delimiter == (if more then [COMMA] else [])
    requires later != [] ==> more
    requires more && later == [] ==> trailing
    requires trailing ==> more
    ensures Separated([item] + later, trailing)
  {
  }

  lemma {:induction false} KeptOfNone(es: seq<Entry>)
    ensures Kept(es) == [] && es != [] ==> Hollow(es[|es| - 1])
    ensures Kept(es) != [] ==> es != []
  {
    if es != [] {
      KeptOfNone(es[1..]);
    }
  }

  /** The layout of a block depends on the children that have something to say. */
  function BlockLayout(prefix: Text, suffix: Text, es: seq<Entry>, linePrefix: Text): Layout {
    LayoutOf(Adornment(prefix, suffix, linePrefix), prefix, SerializeAll(Kept(es), linePrefix + INDENT))
  }

  /** When empty builders do no harm: unless a multi-line child is nested, which takes the text of the first child even
      if that is an empty builder, or the verbose layout ends with the comma before one. */
  predicate Harmless(prefix: Text, suffix: Text, es: seq<Entry>, linePrefix: Text) {
    match BlockLayout(prefix, suffix, es, linePrefix)
    case SingleNested => es != [] && (!Hollow(es[0]) || (Kept(es) != [] && Meaning(Kept(es)[0]) == []))
    case Verbose => !EndsHollow(es)
    case _ => true
  }

  /** Exactly when a block with empty builders among its children says what it says without them. */
  lemma EmptyBuildersAreHarmlessIff(prefix: Text, suffix: Text, es: seq<Entry>, grouped: bool, linePrefix: Text)
    requires HollowOrWellFormed(es) && IsBlank(linePrefix)
    ensures Strip(Serialize(Expressions(prefix, suffix, es, grouped), linePrefix))
            == Meaning(Expressions(prefix, suffix, Kept(es), grouped))
       <==> Harmless(prefix, suffix, es, linePrefix)
  {
    var inner := linePrefix + INDENT;
    var items, kept := Items(es, SerializeAll(es, inner)), Kept(es);
    KeptTexts(es, inner);
    KeptCommas(es, inner);
    KeptAreWellFormed(es);
    ChildrenKeepMeaning(kept, inner);
    NestedText(es, linePrefix);
    BlockSays(prefix, suffix, items, FirstText(es, linePrefix), linePrefix, EndsHollow(es), Meanings(kept));
    BlockText(prefix, suffix, es, grouped, linePrefix);
    NestedLayout(prefix, suffix, es, linePrefix);
    KeptOfNone(es);
  }

  function FirstText(es: seq<Entry>, linePrefix: Text): Text {
    if es == [] then [] else Serialize(es[0], linePrefix)
  }

  lemma BlockText(prefix: Text, suffix: Text, es: seq<Entry>, grouped: bool, linePrefix: Text)
    ensures Serialize(Expressions(prefix, suffix, es, grouped), linePrefix)
         == ExpressionText(prefix, suffix, Items(es, SerializeAll(es, linePrefix + INDENT)), FirstText(es, linePrefix), linePrefix)
  {
  }

  lemma NestedLayout(prefix: Text, suffix: Text, es: seq<Entry>, linePrefix: Text)
    ensures BlockLayout(prefix, suffix, es, linePrefix) == SingleNested ==> |Kept(es)| == 1
    ensures BlockLayout(prefix, suffix, es, linePrefix) == Verbose ==> Kept(es) != []
  {
  }

  /** What a nested first child says. */
  lemma NestedText(es: seq<Entry>, linePrefix: Text)
    requires HollowOrWellFormed(es) && IsBlank(linePrefix)
    ensures |Kept(es)| == 1 ==> es != []
    ensures |Kept(es)| == 1 ==>
      Strip(FirstText(es, linePrefix)) == if Hollow(es[0]) then [] else Meaning(Kept(es)[0])
  {
    if es != [] {
      assert es[0] in es;
      if !Hollow(es[0]) {
        LayoutKeepsMeaning(es[0], linePrefix);
        assert Kept(es)[0] == es[0];
      }
    }
  }

  /** Empty builders are outside the theorem. One placed before a sibling that renders to several lines makes an
      array-like block re-serialise the builder in the sibling's stead: nothing of the sibling is written. */
  lemma EmptyBuilderLosesItsSibling(prefix: Text, suffix: Text, sibling: Entry, linePrefix: Text)
    requires !EndsWith(prefix, OPEN_BRACE)
    requires NEWLINE in Serialize(sibling, linePrefix + INDENT)
    requires !ForcesVerbose(Serialize(sibling, linePrefix + INDENT))
    ensures Serialize(Expressions(prefix, suffix, [Builder([], false), sibling], false), linePrefix)
         == linePrefix + prefix + suffix
  {
    var text := Serialize(sibling, linePrefix + INDENT);
    var item := Item(sibling, text, []);
    BuilderIsDropped(sibling, linePrefix + INDENT);
    assert TextsOf([item]) == [text];
    SoleMultiline(Adornment(prefix, suffix, linePrefix), prefix, text);
    assert linePrefix + prefix + [] == linePrefix + prefix;
  }

  lemma SoleMultiline(adornment: nat, prefix: Text, text: Text)
    requires !EndsWith(prefix, OPEN_BRACE) && NEWLINE in text && !ForcesVerbose(text)
    ensures LayoutOf(adornment, prefix, [text]) == SingleNested
  {
    assert [text][0] == text;
  }

  lemma BuilderIsDropped(sibling: Entry, inner: Text)
    requires Serialize(sibling, inner) != []
    ensures
      var es := [Builder([], false), sibling];
      Items(es, SerializeAll(es, inner)) == [Item(sibling, Serialize(sibling, inner), [])]
  {
    var es := [Builder([], false), sibling];
    assert es[1..] == [sibling];
    var texts := SerializeAll(es, inner);
    assert texts[1..] == SerializeAll([sibling], inner) == [Serialize(sibling, inner)];
    assert es[0] == Builder([], false) && Serialize(es[0], inner) == [];
    assert Items([sibling], texts[1..]) == [Item(sibling, Serialize(sibling, inner), [])] by {
      assert Items([sibling][1..], texts[1..][1..]) == [];
    }
  }

  lemma AtomLines(a: CodeUnit, b: CodeUnit)
    requires a != NEWLINE && b != NEWLINE
    ensures IndentLines([a, NEWLINE, b], INDENT) == INDENT + [a] + [NEWLINE] + (INDENT + [b])
  {
    SplitConcat([a], NEWLINE, [b]);
    SplitWhole([a], NEWLINE);
    SplitWhole([b], NEWLINE);
    assert [a, NEWLINE, b] == [a] + [NEWLINE] + [b];
    var lines := [[a]] + [[b]];
    assert lines[0] == [a] && lines[1..] == [[b]] && [[b]][1..] == [];
    assert Prefixed([[b]], INDENT)[0] == INDENT + [b];
    var prefixed := Prefixed(lines, INDENT);
    assert prefixed[1..] == Prefixed([[b]], INDENT);
    assert Join(prefixed[1..], [NEWLINE]) == INDENT + [b];
    assert Split([a, NEWLINE, b], NEWLINE) == lines;
  }

  lemma NoPattern(t: Text)
    requires SLASH !in t && 61 !in t
    ensures !ForcesVerbose(t)
  {
    forall pattern: Text, i: nat | OccursAt(t, pattern, i) && |pattern| >= 2
      ensures pattern[0] in t && pattern[1] in t
    {
      assert pattern[0] == t[i] && pattern[1] == t[i + 1];
    }
  }

  /** The smallest such loss: the array of an empty builder and a two-line atom renders as "[]". */
  lemma EmptyBuilderExample()
    ensures
      var e := Expressions([OPEN_BRACKET], [93], [Builder([], false), Atom([97, NEWLINE, 98], false)], false);
      Serialize(e, []) == [OPEN_BRACKET, 93] && Strip(Serialize(e, [])) != Meaning(e)
  {
    var atom := Atom([97, NEWLINE, 98], false);
    assert [] + INDENT == INDENT;
    AtomLines(97, 98);
    var text := Serialize(atom, INDENT);
    assert text[5] == NEWLINE;
    NoPattern(text);
    EmptyBuilderLosesItsSibling([OPEN_BRACKET], [93], atom, []);
    var es := [Builder([], false), atom];
    assert |Meanings(es)| == 2 && COMMA in Join(Meanings(es), [COMMA]);
  }
}
