/** Text as JavaScript sees it: a sequence of UTF-16 code units, with the string operations
    (split, join, trim, white space) that the modelled files share. */
module Texts {

  newtype CodeUnit = x: int | 0 <= x < 0x10000
  type Text = seq<CodeUnit>

  const NEWLINE: CodeUnit := 10
  const SPACE: CodeUnit := 32
  const COMMA: CodeUnit := 44
  const DOT: CodeUnit := 46
  const SLASH: CodeUnit := 47

  /** The characters that `\s` matches and `trim` removes. */
  predicate IsSpace(c: CodeUnit) {
    || 9 <= c <= 13
    || c in {32, 0xa0, 0x1680, 0x2028, 0x2029, 0x202f, 0x205f, 0x3000, 0xfeff}
    || 0x2000 <= c <= 0x200a
  }

  /** White space, by its code units. */
  lemma SpaceIff(c: CodeUnit)
    ensures IsSpace(c) <==>
              c in {9, 10, 11, 12, 13, 32, 160, 5760, 8192, 8193, 8194, 8195, 8196, 8197, 8198, 8199, 8200, 8201, 8202,
                    8232, 8233, 8239, 8287, 12288, 65279}
  {
  }

  predicate IsBlank(t: Text) {
    forall i | 0 <= i < |t| :: IsSpace(t[i])
  }

  /** The text with every white-space character erased: what is left of it whatever the layout. */
  function Strip(t: Text): Text {
    if t == [] then [] else (if IsSpace(t[0]) then [] else [t[0]]) + Strip(t[1..])
  }

  function StripAll(ts: seq<Text>): (r: seq<Text>)
    ensures |r| == |ts|
  {
    if ts == [] then [] else [Strip(ts[0])] + StripAll(ts[1..])
  }

  function TrimStart(t: Text): Text {
    if t != [] && IsSpace(t[0]) then TrimStart(t[1..]) else t
  }

  function TrimEnd(t: Text): Text {
    if t != [] && IsSpace(t[|t| - 1]) then TrimEnd(t[..|t| - 1]) else t
  }

  function Trim(t: Text): Text {
    TrimEnd(TrimStart(t))
  }

  lemma {:induction false} TrimStartIs(t: Text) returns (a: Text)
    ensures t == a + TrimStart(t) && IsBlank(a) && (TrimStart(t) != [] ==> !IsSpace(TrimStart(t)[0]))
  {
    if t != [] && IsSpace(t[0]) {
      var rest := TrimStartIs(t[1..]);
      a := [t[0]] + rest;
      assert t == [t[0]] + t[1..];
    } else {
      a := [];
    }
  }

  lemma {:induction false} TrimEndIs(t: Text) returns (b: Text)
    ensures t == TrimEnd(t) + b && IsBlank(b) && (TrimEnd(t) != [] ==> !IsSpace(TrimEnd(t)[|TrimEnd(t)| - 1]))
    ensures TrimEnd(t) != [] ==> TrimEnd(t)[0] == t[0]
  {
    if t != [] && IsSpace(t[|t| - 1]) {
      var rest := TrimEndIs(t[..|t| - 1]);
      b := rest + [t[|t| - 1]];
      assert t == t[..|t| - 1] + [t[|t| - 1]];
    } else {
      b := [];
    }
  }

  /** Trimming takes the white space off both ends, and nothing else. */
  lemma TrimIs(t: Text) returns (a: Text, b: Text)
    ensures t == a + Trim(t) + b && IsBlank(a) && IsBlank(b)
    ensures Trim(t) != [] ==> !IsSpace(Trim(t)[0]) && !IsSpace(Trim(t)[|Trim(t)| - 1])
  {
    a := TrimStartIs(t);
    b := TrimEndIs(TrimStart(t));
    assert t == a + (Trim(t) + b);
  }

  function Join(parts: seq<Text>, separator: Text): Text {
    if parts == [] then []
    else if |parts| == 1 then parts[0]
    else parts[0] + separator + Join(parts[1..], separator)
  }

  predicate OccursAt<T(==)>(t: seq<T>, pattern: seq<T>, i: nat) {
    i + |pattern| <= |t| && t[i..i + |pattern|] == pattern
  }

  predicate Contains<T(==)>(t: seq<T>, pattern: seq<T>) {
    exists i | 0 <= i <= |t| :: OccursAt(t, pattern, i)
  }

  /** `text.split(c)`: always at least one part. */
  function Split(t: Text, c: CodeUnit): (parts: seq<Text>)
    ensures |parts| >= 1
  {
    if t == [] then [[]]
    else
      var rest := Split(t[1..], c);
      if t[0] == c then [[]] + rest else Prepend([t[0]], rest)
  }

  lemma {:induction false} StripConcat(a: Text, b: Text)
    ensures Strip(a + b) == Strip(a) + Strip(b)
  {
    if a == [] {
      assert a + b == b;
    } else {
      assert (a + b)[1..] == a[1..] + b;
      StripConcat(a[1..], b);
    }
  }

  lemma StripConcat3(a: Text, b: Text, c: Text)
    ensures Strip(a + b + c) == Strip(a) + Strip(b) + Strip(c)
  {
    StripConcat(a + b, c);
    StripConcat(a, b);
  }

  lemma {:induction false} StripBlank(t: Text)
    requires IsBlank(t)
    ensures Strip(t) == []
  {
    if t != [] {
      StripBlank(t[1..]);
    }
  }

  lemma {:induction false} StripTrimStart(t: Text)
    ensures Strip(TrimStart(t)) == Strip(t)
  {
    if t != [] && IsSpace(t[0]) {
      StripTrimStart(t[1..]);
    }
  }

  lemma {:induction false} StripTrimEnd(t: Text)
    ensures Strip(TrimEnd(t)) == Strip(t)
  {
    if t != [] && IsSpace(t[|t| - 1]) {
      StripTrimEnd(t[..|t| - 1]);
      assert t == t[..|t| - 1] + [t[|t| - 1]];
      StripConcat(t[..|t| - 1], [t[|t| - 1]]);
    }
  }

  lemma StripTrim(t: Text)
    ensures Strip(Trim(t)) == Strip(t)
  {
    StripTrimStart(t);
    StripTrimEnd(TrimStart(t));
  }

  lemma {:induction false} StripJoin(parts: seq<Text>, separator: Text)
    ensures Strip(Join(parts, separator)) == Join(StripAll(parts), Strip(separator))
  {
    if |parts| > 1 {
      StripConcat3(parts[0], separator, Join(parts[1..], separator));
      StripJoin(parts[1..], separator);
      assert StripAll(parts)[1..] == StripAll(parts[1..]);
    }
  }

  // ---- Joining and splitting ----

  lemma {:induction false} JoinLast(parts: seq<Text>, last: Text, separator: Text)
    requires parts != []
    ensures Join(parts + [last], separator) == Join(parts, separator) + separator + last
  {
    var all := parts + [last];
    assert all[1..] == parts[1..] + [last];
    if |parts| > 1 {
      JoinLast(parts[1..], last, separator);
      var rest := Join(parts[1..], separator);
      assert parts[0] + separator + (rest + separator + last) == parts[0] + separator + rest + separator + last;
    }
  }

  /** The parts with `t` put in front of the first. */
  function Prepend(t: Text, parts: seq<Text>): (r: seq<Text>)
    requires parts != []
    ensures |r| == |parts| && r[0] == t + parts[0] && r[1..] == parts[1..]
  {
    [t + parts[0]] + parts[1..]
  }

  lemma JoinPrepend(t: Text, parts: seq<Text>, separator: Text)
    requires parts != []
    ensures Join(Prepend(t, parts), separator) == t + Join(parts, separator)
  {
    if |parts| > 1 {
      var rest := Join(parts[1..], separator);
      assert t + parts[0] + separator + rest == t + (parts[0] + separator + rest);
    }
  }

  lemma {:induction false} JoinSplit(t: Text, c: CodeUnit)
    ensures Join(Split(t, c), [c]) == t
  {
    if t != [] {
      var rest := Split(t[1..], c);
      JoinSplit(t[1..], c);
      assert [t[0]] + t[1..] == t;
      if t[0] == c {
        assert ([[]] + rest)[1..] == rest;
        assert [] + [c] + t[1..] == t;
      } else {
        JoinPrepend([t[0]], rest, [c]);
      }
    }
  }

  lemma {:induction false} SplitParts(t: Text, c: CodeUnit)
    ensures forall i | 0 <= i < |Split(t, c)| :: c !in Split(t, c)[i]
  {
    if t != [] {
      SplitParts(t[1..], c);
    }
  }

  lemma {:induction false} SplitWhole(t: Text, c: CodeUnit)
    requires c !in t
    ensures Split(t, c) == [t]
  {
    if t != [] {
      SplitWhole(t[1..], c);
      assert [t[0]] + t[1..] == t;
    }
  }

  lemma PrependConcat(t: Text, a: seq<Text>, b: seq<Text>)
    requires a != []
    ensures Prepend(t, a + b) == Prepend(t, a) + b
  {
  }

  lemma SplitStep(t: Text, c: CodeUnit)
    requires t != []
    ensures Split(t, c) == if t[0] == c then [[]] + Split(t[1..], c) else Prepend([t[0]], Split(t[1..], c))
  {
  }

  lemma {:induction false} SplitConcat(a: Text, c: CodeUnit, b: Text)
    ensures Split(a + [c] + b, c) == Split(a, c) + Split(b, c)
  {
    var t := a + [c] + b;
    SplitStep(t, c);
    if a == [] {
      assert t[1..] == b;
    } else {
      assert t[1..] == a[1..] + [c] + b && t[0] == a[0];
      SplitConcat(a[1..], c, b);
      SplitStep(a, c);
      var ra, rb := Split(a[1..], c), Split(b, c);
      if a[0] == c {
        assert [[]] + (ra + rb) == [[]] + ra + rb;
      } else {
        PrependConcat([a[0]], ra, rb);
      }
    }
  }

  /** Splitting undoes joining when no part holds the separator. */
  lemma {:induction false} SplitJoin(parts: seq<Text>, c: CodeUnit)
    requires parts != []
    requires forall i | 0 <= i < |parts| :: c !in parts[i]
    ensures Split(Join(parts, [c]), c) == parts
  {
    SplitWhole(parts[0], c);
    if |parts| > 1 {
      SplitConcat(parts[0], c, Join(parts[1..], [c]));
      SplitJoin(parts[1..], c);
    }
  }
}
