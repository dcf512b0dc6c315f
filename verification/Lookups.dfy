/** What single lookups lead to, and when one that may fail is answered by undefined (location.ts). */
module Lookups {
  import opened Texts
  import opened Locations

  // ---- Missing definitions ----

  /** Only "." and ".." lead to a directory, and that directory lacks the one name that follows. */
  predicate IsMissing(l: Location, segments: seq<Text>) {
    && segments != []
    && (forall i | 0 <= i < |segments| - 1 :: segments[i] in {[46], [46, 46]})
    && var name, o := segments[|segments| - 1], Walk(l, segments[..|segments| - 1]);
       name !in {[46], [46, 46]} && o.Found? && o.location.node.Directory? && name !in o.location.node.children
  }

  lemma MissingOneOn(l: Location, segments: seq<Text>)
    requires l.node.Directory? && |segments| > 1
    ensures segments[0] == CURRENT ==> (IsMissing(l, segments) <==> IsMissing(l, segments[1..]))
    ensures segments[0] == UP ==> (IsMissing(l, segments) <==> IsMissing(ParentOr(l), segments[1..]))
    ensures segments[0] != CURRENT && segments[0] != UP ==> !IsMissing(l, segments)
  {
    var next := segments[1..];
    assert segments[..|segments| - 1][1..] == next[..|next| - 1];
    assert forall i | 0 <= i < |next| :: next[i] == segments[i + 1];
    assert (forall i | 0 <= i < |segments| - 1 :: segments[i] in {[46], [46, 46]}) ==>
        forall i | 0 <= i < |next| - 1 :: next[i] in {[46], [46, 46]};
    assert segments[0] in {[46], [46, 46]} && (forall i | 0 <= i < |next| - 1 :: next[i] in {[46], [46, 46]}) ==>
        forall i | 0 < i < |segments| - 1 :: segments[i] in {[46], [46, 46]} by {
      assert forall i | 0 < i < |segments| - 1 :: segments[i] == next[i - 1];
    }
  }

  lemma {:induction false} MissingBehindDots(l: Location, segments: seq<Text>)
    requires l.node.Directory? && NoEmpty(segments)
    ensures IsMissing(l, SkipDots(segments)) <==> IsMissing(l, segments)
  {
    if segments != [] && segments[0] == CURRENT {
      if |segments| > 1 {
        MissingOneOn(l, segments);
      }
      MissingBehindDots(l, segments[1..]);
    }
  }

  lemma MissingAlone(l: Location, name: Text)
    requires l.node.Directory?
    ensures IsMissing(l, [name]) <==> name != CURRENT && name != UP && name !in l.node.children
  {
    assert [name][..0] == [];
  }

  /** What `maybeAt` does with the first segment that is no dot. */
  lemma UndefinedStep(l: Location, path: Text) returns (rest: seq<Text>, remaining: Text)
    requires l.node.Directory? && NoEmpty(Split(path, SLASH)) && path != []
    ensures rest == SkipDots(Split(path, SLASH))
    ensures rest == [] ==> !MaybeAt(l, path).Undefined?
    ensures |rest| == 1 ==> (MaybeAt(l, path).Undefined? <==> rest[0] != UP && rest[0] !in l.node.children)
    ensures |rest| > 1 ==>
              && |remaining| < |path| && Split(remaining, SLASH) == rest[1..]
              && (MaybeAt(l, path).Undefined? <==> rest[0] == UP && MaybeAt(ParentOr(l), remaining).Undefined?)
  {
    rest := SkipDots(Split(path, SLASH));
    remaining := [];
    if rest != [] {
      remaining := Remaining(path);
    }
  }

  lemma RestHasNoEmpty(segments: seq<Text>)
    requires NoEmpty(segments)
    ensures NoEmpty(SkipDots(segments))
    ensures SkipDots(segments) != [] ==> NoEmpty(SkipDots(segments)[1..]) && SkipDots(segments)[0] != CURRENT
  {
  }

  lemma {:induction false} UndefinedWhenMissing(l: Location, path: Text)
    requires Valid(l) && NoEmpty(Split(path, SLASH))
    ensures MaybeAt(l, path).Undefined? <==> IsMissing(l, Split(path, SLASH))
    decreases |path|
  {
    if l.node.Directory? {
      var rest, remaining := UndefinedStep(l, path);
      RestHasNoEmpty(Split(path, SLASH));
      MissingBehindDots(l, Split(path, SLASH));
      if |rest| == 1 {
        MissingAlone(l, rest[0]);
        assert rest == [rest[0]];
      } else if |rest| > 1 {
        MissingOneOn(l, rest);
        if rest[0] == UP {
          UndefinedWhenMissing(ParentOr(l), remaining);
        }
      }
    }
  }

  /** A lookup that may fail is answered by undefined exactly when the last name alone is missing and only dots come
      before it; a name missing further down is an error. */
  lemma UndefinedIff(l: Location, path: Text)
    requires Valid(l) && NoEmpty(Split(path, SLASH))
    ensures MaybeAt(l, path) == if IsMissing(l, Split(path, SLASH)) then Undefined else Walk(l, Split(path, SLASH))
  {
    ResolutionIsAWalk(l, path);
    UndefinedWhenMissing(l, path);
  }

  // ---- Single steps ----

  lemma OnePart(l: Location, part: Text)
    requires Valid(l) && part != [] && 47 !in part
    ensures At(l, part) == Walk(l, [part])
  {
    SplitJoin([part], SLASH);
    ResolutionIsAWalk(l, part);
  }

  lemma WalkOne(l: Location, part: Text)
    requires l.node.Directory?
    ensures Walk(l, [part]) ==
              if part == [46] then Found(l)
              else if part == [46, 46] then Found(if l.Child? then l.parent else l)
              else if part in l.node.children then Found(Child(l, part, l.node.children[part]))
              else NotFound
  {
    assert [part][1..] == [];
  }

  /** From a directory, two dots lead to its parent, from the root to itself; a name leads to what the directory holds
      under it. */
  lemma OneStep(l: Location, part: Text)
    requires Valid(l) && l.node.Directory? && part != [] && 47 !in part
    ensures At(l, part) ==
              if part == [46] then Found(l)
              else if part == [46, 46] then Found(if l.Child? then l.parent else l)
              else if part in l.node.children then Found(Child(l, part, l.node.children[part]))
              else NotFound
  {
    OnePart(l, part);
    WalkOne(l, part);
  }

  /** The path of the root is a slash; below it, each location adds a slash and its name. */
  lemma PathGrows(l: Location)
    ensures l.Root? ==> PathOf(l) == [47]
    ensures l.Child? && l.parent.Root? ==> PathOf(l) == [47] + l.basename
    ensures l.Child? && l.parent.Child? ==> PathOf(l) == PathOf(l.parent) + [47] + l.basename
  {
    if l.Child? {
      SlashedConcat(Names(l.parent), [l.basename]);
      assert Slashed([l.basename]) == [47] + l.basename;
    }
  }
}
