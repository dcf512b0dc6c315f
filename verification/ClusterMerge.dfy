/** The merge of equally identified elements in a complete cluster (generate-cluster.ts): the elements are sorted by
    ID, then one loop splices every element that has its predecessor's ID out of the array that it walks. */
module ClusterMerge {
  import opened Options

  type Id = Option<nat>

  // ---- Sorting by key ----

  /** The sort key `id ?? 0`. */
  function Key(id: Id): nat {
    if id.Some? then id.value else 0
  }

  /** A stable sort, as `Array.prototype.sort` is. */
  function StableSort<T>(xs: seq<T>, key: T -> nat): seq<T> {
    if xs == [] then [] else Insert(xs[0], StableSort(xs[1..], key), key)
  }

  function Insert<T>(x: T, xs: seq<T>, key: T -> nat): seq<T> {
    if xs == [] || key(x) <= key(xs[0]) then [x] + xs else [xs[0]] + Insert(x, xs[1..], key)
  }

  ghost predicate Sorted<T>(xs: seq<T>, key: T -> nat) {
    forall i, j | 0 <= i < j < |xs| :: key(xs[i]) <= key(xs[j])
  }

  function WithKey<T>(xs: seq<T>, key: T -> nat, k: nat): seq<T> {
    if xs == [] then [] else (if key(xs[0]) == k then [xs[0]] else []) + WithKey(xs[1..], key, k)
  }

  lemma {:induction false} InsertKeepsAll<T>(x: T, xs: seq<T>, key: T -> nat)
    ensures multiset(Insert(x, xs, key)) == multiset(xs) + multiset{x}
  {
    if xs == [] || key(x) <= key(xs[0]) {
    } else {
      InsertKeepsAll(x, xs[1..], key);
      assert xs == [xs[0]] + xs[1..];
    }
  }

  lemma {:induction false} InsertSorts<T>(x: T, xs: seq<T>, key: T -> nat)
    requires Sorted(xs, key)
    ensures Sorted(Insert(x, xs, key), key)
  {
    if xs == [] || key(x) <= key(xs[0]) {
    } else {
      var rest := Insert(x, xs[1..], key);
      InsertSorts(x, xs[1..], key);
      InsertKeepsAll(x, xs[1..], key);
      forall i | 0 <= i < |rest| ensures key(xs[0]) <= key(rest[i]) {
        assert rest[i] in multiset(rest);
        assert rest[i] == x || rest[i] in xs[1..];
      }
    }
  }

  lemma {:induction false} SortKeepsAll<T>(xs: seq<T>, key: T -> nat)
    ensures multiset(StableSort(xs, key)) == multiset(xs)
    ensures |StableSort(xs, key)| == |xs|
  {
    if xs != [] {
      SortKeepsAll(xs[1..], key);
      InsertKeepsAll(xs[0], StableSort(xs[1..], key), key);
      assert xs == [xs[0]] + xs[1..];
    }
    assert |multiset(StableSort(xs, key))| == |multiset(xs)|;
  }

  lemma {:induction false} SortSorts<T>(xs: seq<T>, key: T -> nat)
    ensures Sorted(StableSort(xs, key), key)
  {
    if xs != [] {
      SortSorts(xs[1..], key);
      InsertSorts(xs[0], StableSort(xs[1..], key), key);
    }
  }

  lemma {:induction false} InsertIsStable<T>(x: T, xs: seq<T>, key: T -> nat, k: nat)
    ensures WithKey(Insert(x, xs, key), key, k) == WithKey([x] + xs, key, k)
  {
    assert ([x] + xs)[1..] == xs;
    if xs == [] || key(x) <= key(xs[0]) {
    } else {
      InsertIsStable(x, xs[1..], key, k);
      assert ([x] + xs[1..])[1..] == xs[1..];
      assert Insert(x, xs, key)[1..] == Insert(x, xs[1..], key);
    }
  }

  lemma {:induction false} SortIsStable<T>(xs: seq<T>, key: T -> nat, k: nat)
    ensures WithKey(StableSort(xs, key), key, k) == WithKey(xs, key, k)
  {
    if xs != [] {
      var rest := StableSort(xs[1..], key);
      InsertIsStable(xs[0], rest, key, k);
      SortIsStable(xs[1..], key, k);
      assert ([xs[0]] + rest)[1..] == rest;
    }
  }

  // ---- The elements ----

  datatype Quality = Quality(text: string, nullable: bool)

  /** What the loop reads and relaxes, each by its textual form. */
  datatype Traits = Traits(conformance: string, constraint: string, quality: Quality)

  const OPTIONAL := "O"
  const UNCONSTRAINED := ""
  const PLAIN := Quality("", false)
  const NULLABLE := Quality("X", true)

  class Element {
    const id: Id
    const access: string
    var conformance: string
    var constraint: string
    var quality: Quality

    constructor (id: Id, access: string, traits: Traits)
      ensures this.id == id && this.access == access && View() == traits
    {
      this.id, this.access := id, access;
      conformance, constraint, quality := traits.conformance, traits.constraint, traits.quality;
    }

    function View(): Traits
      reads this
    {
      Traits(conformance, constraint, quality)
    }
  }

  /** What is left of an element's traits once it has been merged with the next one. */
  function Relaxed(prev: Traits, current: Traits): Traits {
    Traits(
      if prev.conformance != current.conformance then OPTIONAL else prev.conformance,
      if prev.constraint != current.constraint then UNCONSTRAINED else prev.constraint,
      if prev.quality.text == current.quality.text then prev.quality
      else if prev.quality.nullable || current.quality.nullable then NULLABLE else PLAIN)
  }

  function Views(s: seq<Element>): (views: seq<Traits>)
    reads s
    ensures |views| == |s| && forall k | 0 <= k < |s| :: views[k] == s[k].View()
  {
    if s == [] then [] else Views(s[..|s| - 1]) + [s[|s| - 1].View()]
  }

  /** The traits after merging the pairs of neighbours up to the position `end`: an element with its successor's ID is
      relaxed against it, once, by the traits that both had at first. */
  function Merged(views: seq<Traits>, ids: seq<Id>, end: nat): (r: seq<Traits>)
    requires |views| == |ids|
    ensures |r| == |views|
    ensures forall k | 0 <= k < |r| ::
              r[k] == if k + 1 < |ids| && k < end && ids[k] == ids[k + 1] then Relaxed(views[k], views[k + 1]) else views[k]
  {
    seq(|views|, k requires 0 <= k < |views| =>
      if k + 1 < |ids| && k < end && ids[k] == ids[k + 1] then Relaxed(views[k], views[k + 1]) else views[k])
  }

  // ---- Which positions survive ----

  function Ids(s: seq<Element>): (ids: seq<Id>)
    ensures |ids| == |s| && forall i | 0 <= i < |s| :: ids[i] == s[i].id
  {
    if s == [] then [] else Ids(s[..|s| - 1]) + [s[|s| - 1].id]
  }

  /** Whether the element at position `i` has another ID than its predecessor. */
  predicate Starts(ids: seq<Id>, i: nat)
    requires i < |ids|
  {
    i == 0 || ids[i] != ids[i - 1]
  }

  /** The positions that start a run of equal IDs, ascending. */
  function Firsts(ids: seq<Id>): (at: seq<nat>)
    ensures forall i | 0 <= i < |at| :: at[i] < |ids|
  {
    if ids == [] then []
    else
      var n := |ids| - 1;
      Firsts(ids[..n]) + if Starts(ids, n) then [n] else []
  }

  function Pick<T>(s: seq<T>, at: seq<nat>): (r: seq<T>)
    requires forall i | 0 <= i < |at| :: at[i] < |s|
    ensures |r| == |at| && forall i | 0 <= i < |at| :: r[i] == s[at[i]]
  {
    seq(|at|, i requires 0 <= i < |at| => s[at[i]])
  }

  /** Whether the element at `i` has its predecessor's ID but another access control. */
  predicate Clash(s: seq<Element>, i: nat)
    requires 1 <= i < |s|
  {
    s[i].id == s[i - 1].id && s[i].access != s[i - 1].access
  }

  /** The position of the first clash, or the length. */
  function FirstClash(s: seq<Element>, from: nat): (c: nat)
    requires 1 <= from <= |s|
    ensures from <= c <= |s| && (c < |s| ==> Clash(s, c))
    ensures forall i | from <= i < c :: !Clash(s, i)
    decreases |s| - from
  {
    if from == |s| || Clash(s, from) then from else FirstClash(s, from + 1)
  }

  /** The first element that differs from its predecessor in access control, but not in its ID. */
  lemma FirstClashIs(s: seq<Element>)
    requires s != []
    ensures
      var c := FirstClash(s, 1);
      && (c < |s| ==> s[c].id == s[c - 1].id && s[c].access != s[c - 1].access)
      && (c == |s| <==> forall i | 1 <= i < |s| :: s[i].id == s[i - 1].id ==> s[i].access == s[i - 1].access)
  {
    var c := FirstClash(s, 1);
    forall i | 1 <= i < c ensures s[i].id == s[i - 1].id ==> s[i].access == s[i - 1].access {
      assert !Clash(s, i);
    }
  }

  // ---- The loop ----

  predicate Distinct(s: seq<Element>) {
    forall i, j | 0 <= i < j < |s| :: s[i] != s[j]
  }

  method Relax(prev: Element, current: Element)
    requires prev != current
    modifies prev
    ensures prev.View() == old(Relaxed(prev.View(), current.View()))
  {
    if prev.conformance != current.conformance {
      prev.conformance := OPTIONAL;
    }
    if prev.constraint != current.constraint {
      prev.constraint := UNCONSTRAINED;
    }
    if prev.quality.text != current.quality.text {
      if prev.quality.nullable || current.quality.nullable {
        prev.quality := NULLABLE;
      } else {
        prev.quality := PLAIN;
      }
    }
  }

  /** `Relax` for two neighbours, seen from the whole sequence. */
  method RelaxNeighbour(prev: Element, current: Element, ghost sorted: seq<Element>, ghost j: nat)
    requires 1 <= j < |sorted| && prev == sorted[j - 1] && current == sorted[j]
    requires Distinct(sorted)
    modifies prev
    ensures
      var views := old(Views(sorted));
      Views(sorted) == views[j - 1 := Relaxed(views[j - 1], views[j])]
  {
    Relax(prev, current);
    assert forall k | 0 <= k < |sorted| && k != j - 1 :: sorted[k].View() == old(sorted[k].View());
  }

  /** What an element becomes when it is merged with the next one of its ID: optional, unconstrained, and nullable if
      one of them is, each only if they differ in it. */
  lemma NeighbourBecomes(views: seq<Traits>, ids: seq<Id>, p: nat)
    requires |views| == |ids| && p + 1 < |ids| && ids[p] == ids[p + 1]
    ensures
      var a, b, r := views[p], views[p + 1], Merged(views, ids, |ids|)[p];
      && r.conformance == (if a.conformance == b.conformance then a.conformance else "O")
      && r.constraint == (if a.constraint == b.constraint then a.constraint else "")
      && (if a.quality.text == b.quality.text then r.quality == a.quality
          else if a.quality.nullable || b.quality.nullable then r.quality == Quality("X", true)
          else r.quality == Quality("", false))
  {
    SurvivorTraits(views, ids, p);
  }

  lemma MergedStep(views: seq<Traits>, ids: seq<Id>, j: nat)
    requires 1 <= j < |ids| == |views|
    ensures
      var now, next := Merged(views, ids, j - 1), Merged(views, ids, j);
      next == if ids[j] == ids[j - 1] then now[j - 1 := Relaxed(now[j - 1], now[j])] else now
  {
  }

  /** The elements of `s` that survive among the first `j`, and all the later ones. */
  function Spliced(s: seq<Element>, j: nat): seq<Element>
    requires j <= |s|
  {
    Pick(s, Firsts(Ids(s)[..j])) + s[j..]
  }

  function Survivors(s: seq<Element>, j: nat): nat
    requires j <= |s|
  {
    |Firsts(Ids(s)[..j])|
  }

  /** What the loop does to two neighbours with the same ID; not `ok` when it throws. */
  method MergeInto(prev: Element, current: Element, ghost sorted: seq<Element>, ghost j: nat, ghost before: seq<Traits>)
    returns (ok: bool)
    requires 1 <= j < |sorted| == |before| && prev == sorted[j - 1] && current == sorted[j] && prev.id == current.id
    requires Distinct(sorted)
    requires Views(sorted) == Merged(before, Ids(sorted), j - 1)
    modifies prev
    ensures Views(sorted) == Merged(before, Ids(sorted), j)
    ensures ok == !Clash(sorted, j)
  {
    MergedStep(before, Ids(sorted), j);
    RelaxNeighbour(prev, current, sorted, j);
    ok := prev.access == current.access;
  }

  /** The variables of the loop. */
  datatype Cursor = Cursor(ordered: seq<Element>, prev: Element, i: nat)

  /** Their values before the `j`-th element is looked at, at index `i` of the spliced array. */
  function CursorAt(s: seq<Element>, j: nat): Cursor
    requires 1 <= j <= |s|
  {
    Cursor(Spliced(s, j), s[j - 1], Survivors(s, j))
  }

  lemma FirstClashStep(s: seq<Element>, j: nat)
    requires 1 <= j < |s|
    ensures FirstClash(s, j) == if Clash(s, j) then j else FirstClash(s, j + 1)
  {
  }

  /** One turn of the loop; not `ok` when it throws. */
  method Turn(c: Cursor, ghost sorted: seq<Element>, ghost j: nat, ghost before: seq<Traits>)
    returns (c': Cursor, ok: bool)
    requires 1 <= j <= |sorted| == |before| && c == CursorAt(sorted, j) && c.i < |c.ordered|
    requires Distinct(sorted) && Views(sorted) == Merged(before, Ids(sorted), j - 1)
    modifies c.prev
    ensures j < |sorted| && FirstClash(sorted, j) == if ok then FirstClash(sorted, j + 1) else j
    ensures ok ==> c' == CursorAt(sorted, j + 1)
    ensures Views(sorted) == Merged(before, Ids(sorted), j)
  {
    SplicedStep(sorted, j);
    FirstClashStep(sorted, j);
    var current := c.ordered[c.i];
    if current.id == c.prev.id {
      ok := MergeInto(c.prev, current, sorted, j, before);
      c' := Cursor(c.ordered[..c.i] + c.ordered[c.i + 1..], current, c.i);
    } else {
      MergedStep(before, Ids(sorted), j);
      c', ok := Cursor(c.ordered, current, c.i + 1), true;
    }
  }

  /** The loop over the sorted elements (of which there is one at least), and whether it ended without throwing. */
  method Merge(sorted: seq<Element>) returns (ordered: seq<Element>, ok: bool)
    requires sorted != [] && Distinct(sorted)
    modifies sorted
    ensures ok == (FirstClash(sorted, 1) == |sorted|)
    ensures ok ==> ordered == Pick(sorted, Firsts(Ids(sorted)))
    ensures Views(sorted) == Merged(old(Views(sorted)), Ids(sorted), FirstClash(sorted, 1))
  {
    ghost var before := Views(sorted);
    LoopStarts(before, sorted);
    var c := Cursor(sorted, sorted[0], 1);
    ghost var j: nat := 1;
    while c.i < |c.ordered|
      invariant 1 <= j <= |sorted| && c == CursorAt(sorted, j)
      invariant Views(sorted) == Merged(before, Ids(sorted), j - 1)
      invariant FirstClash(sorted, 1) == FirstClash(sorted, j)
      decreases |sorted| - j
    {
      c, ok := Turn(c, sorted, j, before);
      if !ok {
        return c.ordered, false;
      }
      j := j + 1;
    }
    LoopEnds(before, sorted, j);
    ordered, ok := c.ordered, true;
  }

  lemma LoopStarts(views: seq<Traits>, s: seq<Element>)
    requires 1 <= |s| == |views|
    ensures Survivors(s, 1) == 1 && s == Spliced(s, 1)
    ensures Merged(views, Ids(s), 0) == views
  {
    assert Ids(s)[..1][..0] == [];
    assert Firsts(Ids(s)[..1]) == [0];
  }

  lemma LoopEnds(views: seq<Traits>, s: seq<Element>, j: nat)
    requires 1 <= j <= |s| == |views| && |Spliced(s, j)| <= Survivors(s, j)
    ensures j == |s| && Spliced(s, j) == Pick(s, Firsts(Ids(s))) && FirstClash(s, j) == |s|
    ensures Merged(views, Ids(s), j - 1) == Merged(views, Ids(s), |s|)
  {
    SplicedStep(s, j);
    assert Ids(s)[..|s|] == Ids(s);
  }

  lemma SplicedStep(s: seq<Element>, j: nat)
    requires 1 <= j <= |s|
    ensures |Spliced(s, j)| == Survivors(s, j) + |s| - j
    ensures j < |s| ==> Spliced(s, j)[Survivors(s, j)] == s[j]
    ensures j < |s| && s[j].id == s[j - 1].id ==>
      Survivors(s, j + 1) == Survivors(s, j)
      && Spliced(s, j)[..Survivors(s, j)] + Spliced(s, j)[Survivors(s, j) + 1..] == Spliced(s, j + 1)
    ensures j < |s| && s[j].id != s[j - 1].id ==>
      Survivors(s, j + 1) == Survivors(s, j) + 1 && Spliced(s, j) == Spliced(s, j + 1)
  {
    if j < |s| {
      assert Ids(s)[..j + 1][..j] == Ids(s)[..j];
      assert s[j..] == [s[j]] + s[j + 1..];
    }
  }

  // ---- Which elements survive ----

  lemma {:induction false} FirstsStartRuns(ids: seq<Id>, p: nat)
    ensures p in Firsts(ids) <==> p < |ids| && Starts(ids, p)
  {
    if ids != [] {
      var n := |ids| - 1;
      FirstsStartRuns(ids[..n], p);
      assert p < n ==> Starts(ids[..n], p) == Starts(ids, p);
      assert p in Firsts(ids) <==> p in Firsts(ids[..n]) || (p == n && Starts(ids, n));
    }
  }

  lemma {:induction false} FirstsAscend(ids: seq<Id>)
    ensures forall i, j | 0 <= i < j < |Firsts(ids)| :: Firsts(ids)[i] < Firsts(ids)[j]
  {
    if ids != [] {
      FirstsAscend(ids[..|ids| - 1]);
    }
  }

  /** The start of the run of equal IDs around position `i`. */
  lemma {:induction false} RunStart(ids: seq<Id>, i: nat) returns (p: nat)
    requires i < |ids|
    ensures p <= i && p in Firsts(ids) && forall k | p <= k <= i :: ids[k] == ids[i]
    decreases i
  {
    if Starts(ids, i) {
      p := i;
      FirstsStartRuns(ids, i);
    } else {
      p := RunStart(ids, i - 1);
    }
  }

  /** Elements without an ID share the key 0 with an element whose ID is 0. */
  predicate Mixed(ids: seq<Id>) {
    None in ids && Some(0) in ids
  }

  ghost predicate StrictlyIncreasing(ids: seq<Id>) {
    forall i, j | 0 <= i < j < |ids| :: Key(ids[i]) < Key(ids[j])
  }

  /** No ID is lost, and an ID that survives was there. */
  lemma EveryIdSurvives(ids: seq<Id>, id: Id)
    ensures id in Pick(ids, Firsts(ids)) <==> id in ids
  {
    var left := Pick(ids, Firsts(ids));
    if id in ids {
      var i :| 0 <= i < |ids| && ids[i] == id;
      var p := RunStart(ids, i);
      var k :| 0 <= k < |Firsts(ids)| && Firsts(ids)[k] == p;
      assert left[k] == id;
    }
  }

  /** Of sorted IDs, the survivors increase strictly exactly when not both a missing ID and the ID 0 occur. */
  lemma SurvivorsIncrease(ids: seq<Id>)
    requires Sorted(ids, Key)
    ensures StrictlyIncreasing(Pick(ids, Firsts(ids))) <==> !Mixed(ids)
  {
    var left, at := Pick(ids, Firsts(ids)), Firsts(ids);
    if Mixed(ids) {
      EveryIdSurvives(ids, None);
      EveryIdSurvives(ids, Some(0));
      var i :| 0 <= i < |left| && left[i] == None;
      var j :| 0 <= j < |left| && left[j] == Some(0);
      assert Key(left[i]) == Key(left[j]);
    } else {
      FirstsAscend(ids);
      forall i, j | 0 <= i < j < |left| ensures Key(left[i]) < Key(left[j]) {
        RunStartsLater(ids, at[i], at[j]);
      }
    }
  }

  lemma RunStartsLater(ids: seq<Id>, p: nat, q: nat)
    requires Sorted(ids, Key) && !Mixed(ids)
    requires p < q < |ids| && q in Firsts(ids)
    ensures Key(ids[p]) < Key(ids[q])
  {
    FirstsStartRuns(ids, q);
    assert Key(ids[p]) <= Key(ids[q - 1]) <= Key(ids[q]);
    assert ids[q] in ids && ids[q - 1] in ids;
  }

  /** Without that mixture an ID keeps one element. */
  lemma OneSurvivorPerId(ids: seq<Id>)
    requires Sorted(ids, Key) && !Mixed(ids)
    ensures
      var left := Pick(ids, Firsts(ids));
      (forall i, j | 0 <= i < j < |left| :: left[i] != left[j])
      && forall id: Id :: id in left <==> id in ids
  {
    SurvivorsIncrease(ids);
    forall id: Id ensures id in Pick(ids, Firsts(ids)) <==> id in ids {
      EveryIdSurvives(ids, id);
    }
  }

  /** With it, elements without an ID need not even be neighbours: none of these is merged. */
  lemma MixedIdsStayApart()
    ensures Sorted([None, Some(0), None], Key)
    ensures Firsts([None, Some(0), None]) == [0, 1, 2]
  {
    var ids: seq<Id> := [None, Some(0), None];
    assert ids[..2][..1] == [None] && ids[..2] == [None, Some(0)];
    var one: seq<Id> := [None];
    assert one[..0] == [];
    assert Firsts(one) == [0] && Firsts(ids[..2]) == [0, 1];
  }

  lemma {:induction false} FirstWithKey<T>(xs: seq<T>, key: T -> nat, k: nat, p: nat)
    requires p < |xs| && key(xs[p]) == k && forall i | 0 <= i < p :: key(xs[i]) != k
    ensures WithKey(xs, key, k) != [] && WithKey(xs, key, k)[0] == xs[p]
    decreases xs
  {
    if p > 0 {
      FirstWithKey(xs[1..], key, k, p - 1);
    }
  }

  lemma {:induction false} HeadWithKey<T>(xs: seq<T>, key: T -> nat, k: nat)
    requires WithKey(xs, key, k) != []
    ensures exists p :: 0 <= p < |xs| && xs[p] == WithKey(xs, key, k)[0] && forall i | 0 <= i < p :: key(xs[i]) != k
    decreases xs
  {
    if key(xs[0]) != k {
      HeadWithKey(xs[1..], key, k);
      var p :| 0 <= p < |xs[1..]| && xs[1..][p] == WithKey(xs[1..], key, k)[0]
               && forall i | 0 <= i < p :: key(xs[1..][i]) != k;
      assert xs[1 + p] == xs[1..][p];
      assert forall i | 1 <= i < 1 + p :: xs[i] == xs[1..][i - 1];
    } else {
      assert xs[0] == WithKey(xs, key, k)[0];
    }
  }

  function ElementKey(e: Element): nat {
    Key(e.id)
  }

  /** Which element survives: of all collected elements with its ID, the one that was collected first. */
  lemma FirstCollectedSurvives(elements: seq<Element>, s: seq<Element>, p: nat)
    requires s == StableSort(elements, ElementKey) && !Mixed(Ids(s)) && p in Firsts(Ids(s))
    ensures p < |s|
    ensures exists q :: 0 <= q < |elements| && elements[q] == s[p] && forall i | 0 <= i < q :: elements[i].id != s[p].id
  {
    var ids, k := Ids(s), Key(Ids(s)[p]);
    SortSorts(elements, ElementKey);
    forall i, j | 0 <= i < j < |ids| ensures Key(ids[i]) <= Key(ids[j]) {
      assert ElementKey(s[i]) <= ElementKey(s[j]);
    }
    forall i | 0 <= i < p ensures ElementKey(s[i]) != k {
      RunStartsLater(ids, i, p);
    }
    FirstWithKey(s, ElementKey, k, p);
    SortIsStable(elements, ElementKey, k);
    HeadWithKey(elements, ElementKey, k);
  }

  // ---- What the survivor tolerates ----

  /** Equally identified neighbours, from `p` up to `end`. */
  ghost predicate Run(ids: seq<Id>, p: nat, end: nat) {
    p < end <= |ids| && forall m | p <= m < end :: ids[m] == ids[p]
  }

  /** Whether traits are no stricter than those of any element from `p` up to `end`. */
  ghost predicate ConformanceTolerant(views: seq<Traits>, t: Traits, p: nat, end: nat)
    requires p < end <= |views|
  {
    t.conformance == OPTIONAL || forall m | p <= m < end :: views[m].conformance == t.conformance
  }

  ghost predicate ConstraintTolerant(views: seq<Traits>, t: Traits, p: nat, end: nat)
    requires p < end <= |views|
  {
    t.constraint == UNCONSTRAINED || forall m | p <= m < end :: views[m].constraint == t.constraint
  }

  ghost predicate NullTolerant(views: seq<Traits>, t: Traits, p: nat, end: nat)
    requires p < end <= |views|
  {
    (exists m | p <= m < end :: views[m].quality.nullable) ==> t.quality.nullable
  }

  lemma SurvivorTraits(views: seq<Traits>, ids: seq<Id>, p: nat)
    requires |views| == |ids| && p + 1 < |ids| && ids[p] == ids[p + 1]
    ensures Merged(views, ids, |ids|)[p] == Relaxed(views[p], views[p + 1])
  {
  }

  lemma RelaxedTolerates(views: seq<Traits>, p: nat, end: nat)
    requires p + 1 < end <= |views|
    ensures
      ConformanceTolerant(views, Relaxed(views[p], views[p + 1]), p, end) <==>
        views[p + 1].conformance != views[p].conformance || views[p].conformance == OPTIONAL
        || forall m | p + 2 <= m < end :: views[m].conformance == views[p].conformance
  {
  }

  lemma RelaxedToleratesValues(views: seq<Traits>, p: nat, end: nat)
    requires p + 1 < end <= |views|
    ensures
      ConstraintTolerant(views, Relaxed(views[p], views[p + 1]), p, end) <==>
        views[p + 1].constraint != views[p].constraint || views[p].constraint == UNCONSTRAINED
        || forall m | p + 2 <= m < end :: views[m].constraint == views[p].constraint
  {
  }

  /** The survivor of a run is compared with the second element of the run only. It tolerates them all exactly when
      that one differs, or nothing does. */
  lemma SurvivorTolerates(views: seq<Traits>, ids: seq<Id>, p: nat, end: nat)
    requires |views| == |ids| && Run(ids, p, end) && p + 1 < end
    ensures
      ConformanceTolerant(views, Merged(views, ids, |ids|)[p], p, end) <==>
        views[p + 1].conformance != views[p].conformance || views[p].conformance == OPTIONAL
        || forall m | p + 2 <= m < end :: views[m].conformance == views[p].conformance
    ensures
      ConstraintTolerant(views, Merged(views, ids, |ids|)[p], p, end) <==>
        views[p + 1].constraint != views[p].constraint || views[p].constraint == UNCONSTRAINED
        || forall m | p + 2 <= m < end :: views[m].constraint == views[p].constraint
  {
    SurvivorTraits(views, ids, p);
    RelaxedTolerates(views, p, end);
    RelaxedToleratesValues(views, p, end);
  }

  lemma SurvivorToleratesNull(views: seq<Traits>, ids: seq<Id>, p: nat, end: nat)
    requires |views| == |ids| && Run(ids, p, end) && p + 1 < end
    ensures
      NullTolerant(views, Merged(views, ids, |ids|)[p], p, end) <==>
        views[p].quality.nullable
        || (views[p + 1].quality.nullable && views[p + 1].quality.text != views[p].quality.text)
        || forall m | p <= m < end :: !views[m].quality.nullable
  {
    SurvivorTraits(views, ids, p);
  }

  /** Two of a kind are always reconciled. */
  lemma PairIsReconciled(views: seq<Traits>, ids: seq<Id>, p: nat)
    requires |views| == |ids| && Run(ids, p, p + 2)
    requires views[p].quality.text == views[p + 1].quality.text ==> views[p].quality == views[p + 1].quality
    ensures
      var t := Merged(views, ids, |ids|)[p];
      ConformanceTolerant(views, t, p, p + 2) && ConstraintTolerant(views, t, p, p + 2) && NullTolerant(views, t, p, p + 2)
  {
    SurvivorTolerates(views, ids, p, p + 2);
    SurvivorToleratesNull(views, ids, p, p + 2);
  }

  /** Of three, a conflict of the last with the first goes to the second, which is dropped. */
  lemma ThirdConflictIsLost(id: Id)
    ensures
      var mandatory, optional := Traits("M", "", PLAIN), Traits("O", "", PLAIN);
      var views := [mandatory, mandatory, optional];
      var ids := [id, id, id];
      Firsts(ids) == [0] && Merged(views, ids, 3)[0] == mandatory
  {
    var ids := [id, id, id];
    assert ids[..2][..1] == [id] && ids[..2] == [id, id] && [id][..0] == [];
    assert Firsts([id]) == [0] && Firsts(ids[..2]) == [0];
  }
}
