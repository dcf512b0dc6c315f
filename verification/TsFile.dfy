/** The pretty-printer of the code generator (TsFile.ts): undocumented atoms, comma-separated expression
    blocks and dot-chained builder blocks, rendered at any indent. */
module TsFile {
  import opened Texts
  import opened ExpressionLayouts

  datatype Entry =
    | Atom(text: Text, grouped: bool)
    | Expressions(prefix: Text, suffix: Text, entries: seq<Entry>, grouped: bool)
    | Builder(entries: seq<Entry>, grouped: bool)

  /** An entry of a block that is about to be laid out: its own text and the delimiter that follows it. */
  datatype Item = Item(entry: Entry, text: Text, delimiter: Text)

  function Prefixed(lines: seq<Text>, linePrefix: Text): (r: seq<Text>)
    ensures |r| == |lines|
  {
    if lines == [] then [] else [linePrefix + lines[0]] + Prefixed(lines[1..], linePrefix)
  }

  function IndentLines(text: Text, linePrefix: Text): Text {
    Join(Prefixed(Split(text, NEWLINE), linePrefix), [NEWLINE])
  }

  function Serialize(e: Entry, linePrefix: Text): Text
    decreases e
  {
    match e
    case Atom(text, _) => IndentLines(text, linePrefix)
    case Expressions(prefix, suffix, es, _) =>
      var texts := SerializeAll(es, linePrefix + INDENT);
      var nested := if es == [] then [] else Serialize(es[0], linePrefix);
      ExpressionText(prefix, suffix, Items(es, texts), nested, linePrefix)
    case Builder(es, _) =>
      if es == [] then []
      else
        var first := Serialize(es[0], linePrefix);
        if |es| == 1 then first
        else
          var second := Serialize(es[1], []);
          if |es| == 2 && ChainFits(first, second) then first + [DOT] + second
          else
            var inner := linePrefix + INDENT;
            Join([first] + Chained(SerializeAll(es[1..], inner), inner), [NEWLINE])
  }

  function SerializeAll(es: seq<Entry>, linePrefix: Text): (r: seq<Text>)
    ensures |r| == |es|
    decreases es
  {
    if es == [] then [] else [Serialize(es[0], linePrefix)] + SerializeAll(es[1..], linePrefix)
  }

  predicate ChainFits(first: Text, second: Text) {
    NEWLINE !in first && NEWLINE !in second && |first| + |second| + 1 < WRAP_WIDTH
  }

  /** `text.slice(n)`. */
  function Slice(t: Text, n: nat): Text {
    if n <= |t| then t[n..] else []
  }

  function Chained(texts: seq<Text>, linePrefix: Text): (r: seq<Text>)
    ensures |r| == |texts|
  {
    if texts == [] then []
    else [linePrefix + [DOT] + Slice(texts[0], |linePrefix|)] + Chained(texts[1..], linePrefix)
  }

  /** The entries that are laid out: nested blocks without text are dropped, and every entry that has a
      successor in the block, dropped or not, is followed by a comma. */
  function Items(es: seq<Entry>, texts: seq<Text>): seq<Item>
    requires |es| == |texts|
  {
    if es == [] then []
    else
      var rest := Items(es[1..], texts[1..]);
      if !es[0].Atom? && texts[0] == [] then rest
      else [Item(es[0], texts[0], if |es| > 1 then [COMMA] else [])] + rest
  }

  function TextsOf(items: seq<Item>): (r: seq<Text>)
    ensures |r| == |items|
  {
    if items == [] then [] else [items[0].text] + TextsOf(items[1..])
  }

  function TrimAll(ts: seq<Text>): (r: seq<Text>)
    ensures |r| == |ts|
  {
    if ts == [] then [] else [Trim(ts[0])] + TrimAll(ts[1..])
  }

  function Adornment(prefix: Text, suffix: Text, linePrefix: Text): nat {
    |linePrefix| + |prefix| + |suffix| + if IsArrayOrObject(prefix) then 2 else 0
  }

  function OneLine(prefix: Text, texts: seq<Text>): Text {
    var line := Join(TrimAll(texts), [COMMA, SPACE]);
    if IsArrayOrObject(prefix) && !EndsWith(prefix, OPEN_BRACKET) && !(line != [] && line[0] == OPEN_BRACE)
    then [SPACE] + line + [SPACE]
    else line
  }

  function ExpressionText(prefix: Text, suffix: Text, items: seq<Item>, nested: Text, linePrefix: Text): Text {
    var texts := TextsOf(items);
    match LayoutOf(Adornment(prefix, suffix, linePrefix), prefix, texts)
    case None => linePrefix + prefix + suffix
    case SingleNested => linePrefix + prefix + Trim(nested) + suffix
    case SingleLine => linePrefix + prefix + OneLine(prefix, texts) + suffix
    case MultipleLines =>
      linePrefix + prefix + [NEWLINE] + Join(texts, [COMMA, NEWLINE]) + [NEWLINE] + linePrefix + suffix
    case Verbose => VerboseText(prefix, suffix, items, linePrefix)
  }

  predicate IsLarge(item: Item) {
    |Split(item.text + item.delimiter, NEWLINE)| > 5 && !item.entry.grouped
  }

  /** The parts that one item contributes: a blank line when it or its predecessor is large, then itself. */
  function Lines(item: Item, first: bool, needSpace: bool): seq<Text> {
    var entry := item.text + item.delimiter;
    if (if IsLarge(item) then !first else needSpace) then [[], entry] else [entry]
  }

  function Spaced(items: seq<Item>, first: bool, needSpace: bool): seq<Text> {
    if items == [] then []
    else Lines(items[0], first, needSpace) + Spaced(items[1..], false, IsLarge(items[0]))
  }

  lemma SpacedStep(head: seq<Text>, items: seq<Item>, i: nat, needSpace: bool)
    requires i < |items|
    ensures head + Lines(items[i], i == 0, needSpace) + Spaced(items[i + 1..], false, IsLarge(items[i]))
         == head + Spaced(items[i..], i == 0, needSpace)
  {
    var a, b := Lines(items[i], i == 0, needSpace), Spaced(items[i + 1..], false, IsLarge(items[i]));
    assert items[i..][0] == items[i] && items[i..][1..] == items[i + 1..];
    assert head + a + b == head + (a + b);
  }

  lemma PartsStep(parts: seq<Text>, item: Item, first: bool, needSpace: bool)
    ensures
      var entry := [item.text + item.delimiter];
      parts + Lines(item, first, needSpace)
      == if (if IsLarge(item) then !first else needSpace) then parts + [[]] + entry else parts + entry
  {
    assert parts + ([[]] + [item.text + item.delimiter]) == parts + [[]] + [item.text + item.delimiter];
  }

  lemma SpacedEnd(parts: seq<Text>, items: seq<Item>, needSpace: bool)
    ensures parts + Spaced(items[|items|..], items == [], needSpace) == parts
    ensures items[0..] == items
  {
  }

  function VerboseText(prefix: Text, suffix: Text, items: seq<Item>, linePrefix: Text): Text {
    var parts := (if prefix != [] then [linePrefix + prefix] else [])
                 + Spaced(items, true, false)
                 + (if suffix != [] then [linePrefix + suffix] else []);
    if suffix != [] && prefix != [] && |parts| == 2 then Join(parts, []) else Join(parts, [NEWLINE])
  }

  // ---- The same computations as the source performs them, with loops ----

  method LayOutEntries(prefix: Text, suffix: Text, items: seq<Item>, linePrefix: Text) returns (text: Text)
    ensures text == VerboseText(prefix, suffix, items, linePrefix)
  {
    var parts: seq<Text> := if prefix != [] then [linePrefix + prefix] else [];
    ghost var all := parts + Spaced(items, true, false);
    var needSpace := false;
    SpacedEnd(parts, items, needSpace);
    for i := 0 to |items|
      invariant parts + Spaced(items[i..], i == 0, needSpace) == all
    {
      SpacedStep(parts, items, i, needSpace);
      PartsStep(parts, items[i], i == 0, needSpace);
      if IsLarge(items[i]) {
        if i > 0 {
          parts := parts + [[]];
        }
        needSpace := true;
      } else if needSpace {
        parts := parts + [[]];
        needSpace := false;
      }
      parts := parts + [items[i].text + items[i].delimiter];
    }
    SpacedEnd(parts, items, needSpace);
    if suffix != [] {
      parts := parts + [linePrefix + suffix];
      if prefix != [] && |parts| == 2 {
        return Join(parts, []);
      }
    }
    text := Join(parts, [NEWLINE]);
  }

  method LayOutExpressions(prefix: Text, suffix: Text, items: seq<Item>, nested: Text, linePrefix: Text)
    returns (text: Text)
    ensures text == ExpressionText(prefix, suffix, items, nested, linePrefix)
  {
    var adornment := |linePrefix| + |prefix| + |suffix|;
    if IsArrayOrObject(prefix) {
      adornment := adornment + 2;
    }
    var texts := TextsOf(items);
    var layout := ChooseExpressionLayout(adornment, prefix, texts);
    match layout {
      case None =>
        text := linePrefix + prefix + suffix;
      case SingleNested =>
        text := linePrefix + prefix + Trim(nested) + suffix;
      case SingleLine =>
        text := linePrefix + prefix + OneLine(prefix, texts) + suffix;
      case MultipleLines =>
        text := linePrefix + prefix + [NEWLINE] + Join(texts, [COMMA, NEWLINE]) + [NEWLINE] + linePrefix + suffix;
      case Verbose =>
        text := LayOutEntries(prefix, suffix, items, linePrefix);
    }
  }

  lemma ChainedCons(t: Text, rest: seq<Text>, inner: Text)
    ensures Chained([t] + rest, inner) == [inner + [DOT] + Slice(t, |inner|)] + Chained(rest, inner)
  {
    assert ([t] + rest)[1..] == rest;
  }

  lemma Associate<T>(a: seq<T>, b: seq<T>, c: seq<T>)
    ensures a + b + c == a + (b + c)
  {
  }

  lemma ChainStep(result: seq<Text>, es: seq<Entry>, i: nat, inner: Text)
    requires i < |es|
    ensures result + Chained(SerializeAll(es[i..], inner), inner)
         == result + [inner + [DOT] + Slice(Serialize(es[i], inner), |inner|)]
            + Chained(SerializeAll(es[i + 1..], inner), inner)
  {
    assert es[i..][0] == es[i] && es[i..][1..] == es[i + 1..];
    var t, rest := Serialize(es[i], inner), SerializeAll(es[i + 1..], inner);
    ChainedCons(t, rest, inner);
    Associate(result, [inner + [DOT] + Slice(t, |inner|)], Chained(rest, inner));
  }

  method Render(e: Entry, linePrefix: Text) returns (text: Text)
    ensures text == Serialize(e, linePrefix)
    decreases e
  {
    match e
    case Atom(t, _) =>
      text := IndentLines(t, linePrefix);
    case Expressions(prefix, suffix, es, _) =>
      var texts := RenderAll(es, linePrefix + INDENT);
      var nested: Text := [];
      if es != [] {
        nested := Render(es[0], linePrefix);
      }
      text := LayOutExpressions(prefix, suffix, Items(es, texts), nested, linePrefix);
    case Builder(es, _) =>
      if es == [] {
        return [];
      }
      var first := Render(es[0], linePrefix);
      if |es| == 1 {
        return first;
      }
      if |es| == 2 && NEWLINE !in first {
        var second := Render(es[1], []);
        if NEWLINE !in second && |first| + |second| + 1 < WRAP_WIDTH {
          return first + [DOT] + second;
        }
      }
      var inner := linePrefix + INDENT;
      ghost var chain := Chained(SerializeAll(es[1..], inner), inner);
      var result := [first];
      for i := 1 to |es|
        invariant result + Chained(SerializeAll(es[i..], inner), inner) == [first] + chain
      {
        var t := Render(es[i], inner);
        ChainStep(result, es, i, inner);
        result := result + [inner + [DOT] + Slice(t, |inner|)];
      }
      assert es[|es|..] == [] && result == [first] + chain;
      text := Join(result, [NEWLINE]);
  }

  method RenderAll(es: seq<Entry>, linePrefix: Text) returns (texts: seq<Text>)
    ensures texts == SerializeAll(es, linePrefix)
    decreases es
  {
    texts := [];
    for i := 0 to |es|
      invariant texts + SerializeAll(es[i..], linePrefix) == SerializeAll(es, linePrefix)
    {
      var t := Render(es[i], linePrefix);
      assert es[i..][0] == es[i] && es[i..][1..] == es[i + 1..];
      texts := texts + [t];
    }
    assert es[|es|..] == [];
  }
}
