/** How an expression block decides between its five layouts (TsFile.ts). */
module ExpressionLayouts {
  import opened Texts

  const INDENT: Text := [SPACE, SPACE, SPACE, SPACE]
  const WRAP_WIDTH := 120
  const OPEN_BRACE: CodeUnit := 123
  const OPEN_BRACKET: CodeUnit := 91

  datatype Layout = None | SingleLine | SingleNested | MultipleLines | Verbose

  /** A comment opener or an assignment, anywhere in the text. */
  predicate ForcesVerbose(t: Text) {
    Contains(t, [SLASH, 42]) || Contains(t, [SLASH, SLASH]) || Contains(t, [SPACE, 61, SPACE])
  }

  predicate EndsWith(t: Text, c: CodeUnit) {
    t != [] && t[|t| - 1] == c
  }

  predicate IsArrayOrObject(prefix: Text) {
    EndsWith(prefix, OPEN_BRACE) || EndsWith(prefix, OPEN_BRACKET)
  }

  /** The columns the entries take when they stand on one line, trimmed and separated by a comma and a space. */
  function LineWidth(entries: seq<Text>): nat {
    if entries == [] then 0
    else if |entries| == 1 then |Trim(entries[0])|
    else LineWidth(entries[..|entries| - 1]) + 2 + |Trim(entries[|entries| - 1])|
  }

  predicate FitsOnOneLine(adornment: nat, entries: seq<Text>) {
    adornment + LineWidth(entries) < if |entries| == 1 then WRAP_WIDTH + |INDENT| else WRAP_WIDTH
  }

  predicate AllSingle(entries: seq<Text>) {
    forall i | 0 <= i < |entries| :: NEWLINE !in entries[i]
  }

  predicate AnyForcesVerbose(entries: seq<Text>) {
    exists i | 0 <= i < |entries| :: ForcesVerbose(entries[i])
  }

  /** Which layout a block gets, said without the scan: by what the entries are, not in which order they are met. */
  function LayoutOf(adornment: nat, prefix: Text, entries: seq<Text>): Layout {
    if entries == [] then None
    else if AnyForcesVerbose(entries) then Verbose
    else if AllSingle(entries) then
      if FitsOnOneLine(adornment, entries) then SingleLine else MultipleLines
    else if |entries| == 1 && !EndsWith(prefix, OPEN_BRACE) then SingleNested
    else Verbose
  }

  /** More entries never make a line fit that did not fit before. */
  lemma FitShrinks(adornment: nat, entries: seq<Text>, k: nat)
    requires 1 <= k <= |entries|
    requires FitsOnOneLine(adornment, entries)
    ensures FitsOnOneLine(adornment, entries[..k])
    decreases |entries|
  {
    if k < |entries| {
      var shorter := entries[..|entries| - 1];
      assert FitsOnOneLine(adornment, shorter);
      FitShrinks(adornment, shorter, k);
      assert shorter[..k] == entries[..k];
    } else {
      assert entries[..k] == entries;
    }
  }

  lemma VerboseIsFinal(adornment: nat, prefix: Text, entries: seq<Text>, k: nat)
    requires 1 <= k <= |entries|
    requires
      || LayoutOf(adornment, prefix, entries[..k]) == Verbose
      || (k < |entries| && LayoutOf(adornment, prefix, entries[..k]) == SingleNested)
    ensures LayoutOf(adornment, prefix, entries) == Verbose
  {
    var head := entries[..k];
    if AnyForcesVerbose(head) {
      var i :| 0 <= i < |head| && ForcesVerbose(head[i]);
      assert ForcesVerbose(entries[i]);
    } else {
      var i :| 0 <= i < |head| && NEWLINE in head[i];
      assert NEWLINE in entries[i];
    }
  }

  /** How one more entry changes the layout. */
  lemma LayoutStep(adornment: nat, prefix: Text, entries: seq<Text>, i: nat)
    requires i < |entries| && !ForcesVerbose(entries[i])
    ensures
      var before, now := LayoutOf(adornment, prefix, entries[..i]), LayoutOf(adornment, prefix, entries[..i + 1]);
      var fits := FitsOnOneLine(adornment, entries[..i + 1]);
      now == match before
        case None =>
          if NEWLINE in entries[i] then if EndsWith(prefix, OPEN_BRACE) then Verbose else SingleNested
          else if fits then SingleLine else MultipleLines
        case SingleLine => if NEWLINE in entries[i] then Verbose else if fits then SingleLine else MultipleLines
        case MultipleLines => if NEWLINE in entries[i] then Verbose else MultipleLines
        case _ => Verbose
  {
    var entry := entries[i];
    var before, now := entries[..i], entries[..i + 1];
    assert now == before + [entry] && now[..i] == before;
    if LayoutOf(adornment, prefix, before) in {Verbose, SingleNested} {
      VerboseIsFinal(adornment, prefix, now, i);
    }
    assert AllSingle(now) <==> AllSingle(before) && NEWLINE !in entry by {
      assert now[i] == entry;
      assert forall j | 0 <= j < i :: now[j] == before[j];
    }
    assert AnyForcesVerbose(now) <==> AnyForcesVerbose(before) by {
      assert forall j | 0 <= j < i :: now[j] == before[j];
    }
    if LayoutOf(adornment, prefix, before) == MultipleLines && FitsOnOneLine(adornment, now) {
      FitShrinks(adornment, now, i);
    }
  }

  lemma OpenerIsFinal(adornment: nat, prefix: Text, entries: seq<Text>, i: nat)
    requires i < |entries| && ForcesVerbose(entries[i])
    ensures LayoutOf(adornment, prefix, entries) == Verbose
  {
  }

  lemma WidthStep(entries: seq<Text>, i: nat)
    requires i < |entries|
    ensures LineWidth(entries[..i + 1])
         == if i == 0 then |Trim(entries[0])| else LineWidth(entries[..i]) + |Trim(entries[i])| + 2
  {
    assert entries[..i + 1][..i] == entries[..i];
  }

  /** The scan of the source computes exactly the layout above. */
  method ChooseExpressionLayout(adornment: nat, prefix: Text, entries: seq<Text>) returns (layout: Layout)
    ensures layout == LayoutOf(adornment, prefix, entries)
  {
    layout := None;
    var lineLength := adornment;
    for i := 0 to |entries|
      invariant layout == LayoutOf(adornment, prefix, entries[..i])
      invariant layout == None ==> i == 0
      invariant layout in {None, SingleLine} ==> lineLength == adornment + LineWidth(entries[..i])
    {
      var entry := entries[i];
      if ForcesVerbose(entry) {
        OpenerIsFinal(adornment, prefix, entries, i);
        return Verbose;
      }
      LayoutStep(adornment, prefix, entries, i);
      WidthStep(entries, i);
      match layout {
        case None =>
          if NEWLINE in entry {
            layout := if EndsWith(prefix, OPEN_BRACE) then Verbose else SingleNested;
          } else {
            lineLength := lineLength + |Trim(entry)|;
            layout := if lineLength >= WRAP_WIDTH + |INDENT| then MultipleLines else SingleLine;
          }
        case SingleNested =>
          VerboseIsFinal(adornment, prefix, entries, i + 1);
          return Verbose;
        case SingleLine =>
          if NEWLINE in entry {
            VerboseIsFinal(adornment, prefix, entries, i + 1);
            return Verbose;
          }
          lineLength := lineLength + |Trim(entry)| + 2;
          if lineLength >= WRAP_WIDTH {
            layout := MultipleLines;
          }
        case MultipleLines =>
          if NEWLINE in entry {
            VerboseIsFinal(adornment, prefix, entries, i + 1);
            return Verbose;
          }
        case Verbose =>
      }
    }
    assert entries[..|entries|] == entries;
  }
}
