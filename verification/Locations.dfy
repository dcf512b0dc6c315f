/** The virtual file system of the command line tool (location.ts): locations, and the resolution of paths from
    them. URI decoding is the identity and promises are resolved at once. */
module Locations {
  import opened Texts

  /** What a definition offers: a directory its sub-definitions, undefined and null ones left out. */
  datatype Node = Directory(children: map<Text, Node>) | File

  datatype Location =
    | Root(node: Node)
    | Child(parent: Location, basename: Text, node: Node)

  datatype Outcome = Found(location: Location) | Undefined | NotFound | NotADirectory

  const CURRENT: Text := [DOT]
  const UP: Text := [DOT, DOT]

  function RootOf(l: Location): (r: Location)
    ensures r.Root?
    decreases l
  {
    if l.Child? then RootOf(l.parent) else l
  }

  function ParentOr(l: Location): Location {
    if l.Child? then l.parent else l
  }

  /** The segments without the empty and "." ones at their head. */
  function SkipDots(segments: seq<Text>): (r: seq<Text>)
    ensures |r| <= |segments| && r == segments[|segments| - |r|..]
    ensures r != [] ==> r[0] != [] && r[0] != CURRENT
  {
    if segments != [] && (segments[0] == [] || segments[0] == CURRENT) then SkipDots(segments[1..]) else segments
  }

  // ---- Joining the segments that are left gives a shorter path ----

  lemma {:induction false} JoinGrows(parts: seq<Text>, k: nat)
    requires k <= |parts|
    ensures |Join(parts[k..], [SLASH])| <= |Join(parts, [SLASH])|
    ensures 1 <= k && |parts| > 1 ==> |Join(parts[k..], [SLASH])| < |Join(parts, [SLASH])|
  {
    if k > 0 {
      JoinGrows(parts[1..], k - 1);
      assert parts[1..][k - 1..] == parts[k..];
    } else {
      assert parts[0..] == parts;
    }
  }

  lemma RestIsShorter(path: Text, k: nat)
    requires path != [] && 1 <= k <= |Split(path, SLASH)|
    ensures |Join(Split(path, SLASH)[k..], [SLASH])| < |path|
  {
    var segments := Split(path, SLASH);
    JoinSplit(path, SLASH);
    JoinGrows(segments, k);
    if |segments| == 1 {
      assert segments[k..] == [];
    }
  }

  lemma RestSplits(path: Text, k: nat)
    requires k < |Split(path, SLASH)|
    ensures Split(Join(Split(path, SLASH)[k..], [SLASH]), SLASH) == Split(path, SLASH)[k..]
  {
    SplitParts(path, SLASH);
    SplitJoin(Split(path, SLASH)[k..], SLASH);
  }

  // ---- maybeAt and at ----

  function MaybeAt(l: Location, path: Text): Outcome
    decreases |path|
  {
    if l.node.File? then NotADirectory
    else if path == [] then Found(l)
    else
      var segments := Split(path, SLASH);
      if segments[0] == [] then
        RestIsShorter(path, 1);
        MaybeAt(RootOf(l), Join(segments[1..], [SLASH]))
      else
        var rest := SkipDots(segments);
        if rest == [] then Found(l)
        else
          RestIsShorter(path, |segments| - |rest| + 1);
          assert segments[|segments| - |rest| + 1..] == rest[1..];
          var remaining := Join(rest[1..], [SLASH]);
          if rest[0] == UP then MaybeAt(ParentOr(l), remaining)
          else if rest[0] !in l.node.children then (if |rest| > 1 then NotFound else Undefined)
          else
            var sublocation := Child(l, rest[0], l.node.children[rest[0]]);
            if |rest| == 1 then Found(sublocation) else Defined(MaybeAt(sublocation, remaining))
  }

  function Defined(o: Outcome): Outcome {
    if o.Undefined? then NotFound else o
  }

  function At(l: Location, path: Text): Outcome {
    Defined(MaybeAt(l, path))
  }

  // ---- The same with the loops of the source ----

  method FindRoot(l: Location) returns (location: Location)
    ensures location == RootOf(l)
  {
    location := l;
    while location.Child?
      invariant RootOf(location) == RootOf(l)
      decreases location
    {
      location := location.parent;
    }
  }

  method ShiftDots(all: seq<Text>) returns (segments: seq<Text>)
    ensures segments == SkipDots(all)
  {
    segments := all;
    while segments != [] && (segments[0] == [] || segments[0] == CURRENT)
      invariant SkipDots(segments) == SkipDots(all)
    {
      segments := segments[1..];
    }
  }

  method Resolve(l: Location, path: Text) returns (o: Outcome)
    ensures o == MaybeAt(l, path)
    decreases |path|
  {
    if l.node.File? {
      return NotADirectory;
    }
    if path == [] {
      return Found(l);
    }
    var all := Split(path, SLASH);
    if all[0] == [] {
      var location := FindRoot(l);
      RestIsShorter(path, 1);
      o := Resolve(location, Join(all[1..], [SLASH]));
      return;
    }
    var segments := ShiftDots(all);
    if segments == [] {
      return Found(l);
    }
    RestIsShorter(path, |all| - |segments| + 1);
    assert all[|all| - |segments| + 1..] == segments[1..];
    var remaining := Join(segments[1..], [SLASH]);
    if segments[0] == UP {
      o := Resolve(ParentOr(l), remaining);
    } else if segments[0] !in l.node.children {
      o := if |segments| > 1 then NotFound else Undefined;
    } else {
      var sublocation := Child(l, segments[0], l.node.children[segments[0]]);
      if |segments| == 1 {
        return Found(sublocation);
      }
      o := Resolve(sublocation, remaining);
      o := Defined(o);
    }
  }

  function Names(l: Location): seq<Text>
    decreases l
  {
    if l.Root? then [] else Names(l.parent) + [l.basename]
  }

  /** Each name with a slash before it. */
  function Slashed(names: seq<Text>): Text {
    if names == [] then [] else [SLASH] + names[0] + Slashed(names[1..])
  }

  function PathOf(l: Location): Text {
    if l.Root? then [SLASH] else Slashed(Names(l))
  }

  lemma {:induction false} SlashedConcat(a: seq<Text>, b: seq<Text>)
    ensures Slashed(a + b) == Slashed(a) + Slashed(b)
  {
    if a == [] {
      assert a + b == b;
    } else {
      assert (a + b)[1..] == a[1..] + b;
      SlashedConcat(a[1..], b);
    }
  }

  /** The `path` getter. */
  method Path(l: Location) returns (path: Text)
    ensures path == PathOf(l)
  {
    if l.Root? {
      return [SLASH];
    }
    path := [];
    var location := l;
    while location.Child?
      invariant Slashed(Names(location)) + path == Slashed(Names(l))
      decreases location
    {
      SlashedConcat(Names(location.parent), [location.basename]);
      assert Slashed([location.basename]) == [SLASH] + location.basename;
      path := [SLASH] + location.basename + path;
      location := location.parent;
    }
    assert Slashed([]) + path == path;
  }

  // ---- The plain walk ----

  /** One segment after the other: "." stays, ".." goes up but not above the root, a name goes down. */
  function Walk(l: Location, segments: seq<Text>): Outcome
    decreases segments
  {
    if segments == [] then Found(l)
    else if l.node.File? then NotADirectory
    else if segments[0] == CURRENT then Walk(l, segments[1..])
    else if segments[0] == UP then Walk(ParentOr(l), segments[1..])
    else if segments[0] !in l.node.children then NotFound
    else Walk(Child(l, segments[0], l.node.children[segments[0]]), segments[1..])
  }

  /** A location as navigation makes it: below the root every parent is the directory that lists the child. */
  predicate Valid(l: Location)
    decreases l
  {
    l.Child? ==>
      && Valid(l.parent)
      && l.parent.node.Directory?
      && l.basename in l.parent.node.children
      && l.parent.node.children[l.basename] == l.node
  }

  predicate NoEmpty(segments: seq<Text>) {
    forall i | 0 <= i < |segments| :: segments[i] != []
  }

  function Then(o: Outcome, path: Text): Outcome {
    if o.Found? then At(o.location, path) else o
  }

  lemma {:induction false} WalkConcat(l: Location, a: seq<Text>, b: seq<Text>)
    ensures Walk(l, a + b) == var o := Walk(l, a); if o.Found? then Walk(o.location, b) else o
    decreases a
  {
    if a == [] {
      assert a + b == b;
    } else {
      assert (a + b)[1..] == a[1..] + b;
      if l.node.Directory? {
        if a[0] == CURRENT {
          WalkConcat(l, a[1..], b);
        } else if a[0] == UP {
          WalkConcat(ParentOr(l), a[1..], b);
        } else if a[0] in l.node.children {
          WalkConcat(Child(l, a[0], l.node.children[a[0]]), a[1..], b);
        }
      }
    }
  }

  lemma {:induction false} WalkKeepsValid(l: Location, segments: seq<Text>)
    requires Valid(l)
    ensures Walk(l, segments).Found? ==>
              Valid(Walk(l, segments).location) && RootOf(Walk(l, segments).location) == RootOf(l)
    decreases segments
  {
    if segments != [] && l.node.Directory? {
      if segments[0] == CURRENT {
        WalkKeepsValid(l, segments[1..]);
      } else if segments[0] == UP {
        WalkKeepsValid(ParentOr(l), segments[1..]);
      } else if segments[0] in l.node.children {
        WalkKeepsValid(Child(l, segments[0], l.node.children[segments[0]]), segments[1..]);
      }
    }
  }

  lemma {:induction false} WalkSkipsDots(l: Location, segments: seq<Text>)
    requires NoEmpty(segments) && l.node.Directory?
    ensures Walk(l, SkipDots(segments)) == Walk(l, segments)
    decreases segments
  {
    if segments != [] && segments[0] == CURRENT {
      WalkSkipsDots(l, segments[1..]);
    }
  }

  /** What `maybeAt` does once the leading dots are gone, in terms of the segments that are left. */
  lemma AtStep(l: Location, path: Text)
    requires l.node.Directory? && path != [] && Split(path, SLASH)[0] != []
    ensures
      var rest := SkipDots(Split(path, SLASH));
      At(l, path) ==
        if rest == [] then Found(l)
        else if rest[0] == UP then At(ParentOr(l), Join(rest[1..], [SLASH]))
        else if rest[0] !in l.node.children then NotFound
        else
          var sublocation := Child(l, rest[0], l.node.children[rest[0]]);
          if |rest| == 1 then Found(sublocation) else At(sublocation, Join(rest[1..], [SLASH]))
  {}

  /** What is left after the first proper segment is a shorter path with just the other segments. */
  lemma Remaining(path: Text) returns (remaining: Text)
    requires path != [] && SkipDots(Split(path, SLASH)) != []
    ensures remaining == Join(SkipDots(Split(path, SLASH))[1..], [SLASH]) && |remaining| < |path|
    ensures |SkipDots(Split(path, SLASH))| > 1 ==> Split(remaining, SLASH) == SkipDots(Split(path, SLASH))[1..]
  {
    var segments := Split(path, SLASH);
    var rest := SkipDots(segments);
    var k := |segments| - |rest| + 1;
    assert rest[1..] == segments[k..];
    remaining := Join(rest[1..], [SLASH]);
    RestIsShorter(path, k);
    if |rest| > 1 {
      RestSplits(path, k);
    }
  }

  /** On paths without empty segments resolution is the plain walk. */
  lemma {:induction false} ResolutionIsAWalk(l: Location, path: Text)
    requires Valid(l) && NoEmpty(Split(path, SLASH))
    ensures At(l, path) == Walk(l, Split(path, SLASH))
    decreases |path|
  {
    assert path != [];
    if l.node.Directory? {
      var rest := SkipDots(Split(path, SLASH));
      AtStep(l, path);
      WalkSkipsDots(l, Split(path, SLASH));
      if rest != [] {
        var remaining := Remaining(path);
        var next := if rest[0] == UP then ParentOr(l)
                    else if rest[0] in l.node.children then Child(l, rest[0], l.node.children[rest[0]])
                    else l;
        if |rest| > 1 {
          ResolutionIsAWalk(next, remaining);
        }
      }
    }
  }

  /** Resolving "p/q" is resolving p and then q from there. */
  lemma ResolutionComposes(l: Location, p: Text, q: Text)
    requires Valid(l) && NoEmpty(Split(p, SLASH)) && NoEmpty(Split(q, SLASH))
    ensures At(l, p + [SLASH] + q) == Then(At(l, p), q)
  {
    SplitConcat(p, SLASH, q);
    ResolutionIsAWalk(l, p);
    ResolutionIsAWalk(l, p + [SLASH] + q);
    WalkConcat(l, Split(p, SLASH), Split(q, SLASH));
    var o := Walk(l, Split(p, SLASH));
    if o.Found? {
      WalkKeepsValid(l, Split(p, SLASH));
      ResolutionIsAWalk(o.location, q);
    }
  }

  lemma AbsolutePath(l: Location, path: Text)
    requires l.node.Directory?
    ensures At(l, [SLASH] + path) == At(RootOf(l), path)
  {
    SplitConcat([], SLASH, path);
    assert [] + [SLASH] + path == [SLASH] + path;
    assert Split([SLASH] + path, SLASH)[1..] == Split(path, SLASH);
    JoinSplit(path, SLASH);
  }

  lemma {:induction false} JoinConcat(a: seq<Text>, b: seq<Text>, separator: Text)
    requires a != [] && b != []
    ensures Join(a + b, separator) == Join(a, separator) + separator + Join(b, separator)
  {
    assert (a + b)[1..] == a[1..] + b;
    if |a| > 1 {
      JoinConcat(a[1..], b, separator);
      var ja, jb := Join(a[1..], separator), Join(b, separator);
      assert a[0] + separator + (ja + separator + jb) == a[0] + separator + ja + separator + jb;
    } else {
      assert a[1..] + b == b;
    }
  }

  lemma {:induction false} SkipDotsConcat(a: seq<Text>, b: seq<Text>)
    requires a != [] && NoEmpty(a) && a[|a| - 1] != CURRENT
    ensures SkipDots(a) != [] && SkipDots(a + b) == SkipDots(a) + b
  {
    if a[0] == CURRENT {
      assert (a + b)[1..] == a[1..] + b;
      SkipDotsConcat(a[1..], b);
    }
  }

  lemma NextStep(l: Location, p: Text, path: Text)
    requires l.node.Directory?
    requires p != [] && Split(p, SLASH)[0] != [] && path != [] && Split(path, SLASH)[0] != []
    requires
      var a, b := SkipDots(Split(p, SLASH)), SkipDots(Split(path, SLASH));
      a != [] && b != [] && a[0] == b[0] && |b| > 1
    ensures
      var a, b := SkipDots(Split(p, SLASH)), SkipDots(Split(path, SLASH));
      var next := if a[0] == UP then ParentOr(l)
                  else if a[0] in l.node.children then Child(l, a[0], l.node.children[a[0]])
                  else l;
      if a[0] == UP || a[0] in l.node.children
      then At(l, path) == At(next, Join(b[1..], [SLASH]))
           && (|a| > 1 ==> At(l, p) == At(next, Join(a[1..], [SLASH])))
           && (|a| == 1 ==> At(l, p) == if a[0] == UP then At(next, []) else Found(next))
      else At(l, path) == At(l, p) == NotFound
  {
    AtStep(l, p);
    AtStep(l, path);
  }

  /** The segments of "p/rest" after the first proper one. */
  lemma RemainingOfConcat(a: seq<Text>, rest: Text)
    requires a != []
    ensures Join((a + Split(rest, SLASH))[1..], [SLASH])
         == if |a| == 1 then rest else Join(a[1..], [SLASH]) + [SLASH] + rest
  {
    var rs := Split(rest, SLASH);
    JoinSplit(rest, SLASH);
    assert (a + rs)[1..] == a[1..] + rs;
    if |a| > 1 {
      JoinConcat(a[1..], rs, [SLASH]);
    } else {
      assert a[1..] + rs == rs;
    }
  }

  predicate EndsInName(p: Text) {
    NoEmpty(Split(p, SLASH)) && Split(p, SLASH)[|Split(p, SLASH)| - 1] != CURRENT
  }

  lemma SkippedEndsInName(segments: seq<Text>)
    requires segments != [] && NoEmpty(segments) && segments[|segments| - 1] != CURRENT
    ensures
      var a := SkipDots(segments);
      a != [] && NoEmpty(a) && a[|a| - 1] != CURRENT
  {
    SkipDotsConcat(segments, []);
    EndIsKept(segments, |segments| - |SkipDots(segments)|);
  }

  lemma RemainingEndsInName(p: Text) returns (remaining: Text)
    requires EndsInName(p)
    ensures p != [] && SkipDots(Split(p, SLASH)) != []
    ensures remaining == Join(SkipDots(Split(p, SLASH))[1..], [SLASH]) && |remaining| < |p|
    ensures |SkipDots(Split(p, SLASH))| > 1 ==> EndsInName(remaining)
  {
    SkippedEndsInName(Split(p, SLASH));
    remaining := Remaining(p);
    if |SkipDots(Split(p, SLASH))| > 1 {
      EndIsKept(SkipDots(Split(p, SLASH)), 1);
    }
  }

  lemma EndIsKept(segments: seq<Text>, k: nat)
    requires k < |segments| && NoEmpty(segments)
    ensures NoEmpty(segments[k..]) && segments[k..][|segments| - k - 1] == segments[|segments| - 1]
  {
  }

  /** When `p` does not end in ".", whatever follows its slash is resolved from where `p` leads: an empty segment
      there makes the rest an absolute path. */
  lemma {:induction false} ResolutionGoesOn(l: Location, p: Text, rest: Text)
    requires Valid(l) && EndsInName(p)
    ensures At(l, p + [SLASH] + rest) == Then(At(l, p), rest)
    decreases |p|
  {
    if l.node.Directory? {
      var path := p + [SLASH] + rest;
      SplitConcat(p, SLASH, rest);
      SkipDotsConcat(Split(p, SLASH), Split(rest, SLASH));
      var a := SkipDots(Split(p, SLASH));
      var remaining := RemainingEndsInName(p);
      NextStep(l, p, path);
      RemainingOfConcat(a, rest);
      var next := if a[0] == UP then ParentOr(l)
                  else if a[0] in l.node.children then Child(l, a[0], l.node.children[a[0]])
                  else l;
      if |a| > 1 {
        ResolutionGoesOn(next, remaining, rest);
      }
    }
  }

  /** So "p//q" leads where "/q" leads from the root, if `p` leads to a directory. */
  lemma DoubleSlashIsAbsolute(l: Location, p: Text, q: Text)
    requires Valid(l) && EndsInName(p)
    requires At(l, p).Found? && At(l, p).location.node.Directory?
    ensures At(l, p + [SLASH, SLASH] + q) == At(RootOf(l), q)
  {
    assert p + [SLASH, SLASH] + q == p + [SLASH] + ([SLASH] + q);
    ResolutionGoesOn(l, p, [SLASH] + q);
    AbsolutePath(At(l, p).location, q);
    ResolutionIsAWalk(l, p);
    WalkKeepsValid(l, Split(p, SLASH));
  }

  // ---- The path of a location leads back to it ----

  predicate ProperName(name: Text) {
    name != [] && SLASH !in name && name != CURRENT && name != UP
  }

  lemma {:induction false} SlashedIsJoin(names: seq<Text>)
    requires names != []
    ensures Slashed(names) == [SLASH] + Join(names, [SLASH])
  {
    if |names| > 1 {
      SlashedIsJoin(names[1..]);
      var rest := Join(names[1..], [SLASH]);
      assert [SLASH] + names[0] + ([SLASH] + rest) == [SLASH] + (names[0] + [SLASH] + rest);
    } else {
      assert names[1..] == [] && [SLASH] + names[0] + [] == [SLASH] + names[0];
    }
  }

  lemma {:induction false} WalkAlongNames(l: Location)
    requires Valid(l) && forall n | n in Names(l) :: ProperName(n)
    ensures Walk(RootOf(l), Names(l)) == Found(l)
    decreases l
  {
    if l.Child? {
      assert forall n | n in Names(l.parent) :: n in Names(l);
      WalkAlongNames(l.parent);
      WalkConcat(RootOf(l), Names(l.parent), [l.basename]);
      assert l.basename in Names(l);
      assert Walk(l, []) == Found(l);
    }
  }

  lemma NamesSplit(names: seq<Text>)
    requires names != [] && forall n | n in names :: ProperName(n)
    ensures Split(Join(names, [SLASH]), SLASH) == names && NoEmpty(names)
  {
    assert forall i | 0 <= i < |names| :: ProperName(names[i]);
    SplitJoin(names, SLASH);
  }

  lemma RootIsValid(l: Location)
    ensures Valid(RootOf(l)) && RootOf(RootOf(l)) == RootOf(l)
  {}

  lemma PathLeadsBack(l: Location, from: Location)
    requires Valid(l) && forall n | n in Names(l) :: ProperName(n)
    requires from.node.Directory? && RootOf(from) == RootOf(l) && RootOf(l).node.Directory?
    ensures At(from, PathOf(l)) == Found(l)
  {
    var names := Names(l);
    var relative := Join(names, [SLASH]);
    AbsolutePath(from, relative);
    if l.Root? {
      assert [SLASH] + [] == [SLASH];
    } else {
      SlashedIsJoin(names);
      NamesSplit(names);
      RootIsValid(l);
      ResolutionIsAWalk(RootOf(l), relative);
      WalkAlongNames(l);
    }
  }
}
