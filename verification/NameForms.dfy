/** What the names of a scope look like, and which model comes first (GeneratorScope.ts). */
module NameForms {
  import opened GeneratorNames
  import opened Options

  predicate Ends(s: string, suffix: string) {
    exists n | 0 <= n <= |s| :: s == s[..n] + suffix
  }

  lemma EndsIff(s: string, suffix: string)
    ensures Ends(s, suffix) <==> HasSuffix(s, suffix)
  {
    if n :| 0 <= n <= |s| && s == s[..n] + suffix {
      SuffixOf(s[..n], suffix, suffix);
    }
    if HasSuffix(s, suffix) {
      assert s == s[..|s| - |suffix|] + suffix;
    }
  }

  lemma SuffixOf(stem: string, suffix: string, other: string)
    ensures HasSuffix(stem + suffix, suffix) && (stem + suffix)[..|stem|] == stem
    ensures suffix != [] && other != [] && suffix[|suffix| - 1] != other[|other| - 1] ==> !HasSuffix(stem + suffix, other)
  {
    var s := stem + suffix;
    assert s[|s| - |suffix|..] == suffix;
    if suffix != [] && other != [] && HasSuffix(s, other) {
      assert s[|s| - |other|..][|other| - 1] == s[|s| - 1] == suffix[|suffix| - 1];
    }
  }

  /** Words that end in different letters. */
  predicate Words(suffixes: seq<string>) {
    && (forall i | 0 <= i < |suffixes| :: suffixes[i] != [])
    && (forall i, j | 0 <= i < j < |suffixes| ::
          suffixes[i][|suffixes[i]| - 1] != suffixes[j][|suffixes[j]| - 1])
  }

  lemma {:induction false} WithoutWord(stem: string, suffixes: seq<string>, k: nat)
    requires Words(suffixes) && k < |suffixes|
    ensures Without(stem + suffixes[k], suffixes) == stem
  {
    SuffixOf(stem, suffixes[k], suffixes[0]);
    if k > 0 {
      assert Words(suffixes[1..]);
      WithoutWord(stem, suffixes[1..], k - 1);
    }
  }

  lemma {:induction false} WithoutNone(s: string, suffixes: seq<string>)
    requires forall i | 0 <= i < |suffixes| :: !Ends(s, suffixes[i])
    ensures Without(s, suffixes) == s
  {
    if suffixes != [] {
      EndsIff(s, suffixes[0]);
      WithoutNone(s, suffixes[1..]);
    }
  }

  /** The name is the stem and one of the words, or the stem alone, which ends in none of them. */
  predicate Stems(name: string, stem: string, words: seq<string>) {
    || (exists k | 0 <= k < |words| :: name == stem + words[k])
    || (name == stem && forall k | 0 <= k < |words| :: !Ends(stem, words[k]))
  }

  lemma StemIsLeft(name: string, stem: string, words: seq<string>)
    requires Words(words) && Stems(name, stem, words)
    ensures Without(name, words) == stem
  {
    if k :| 0 <= k < |words| && name == stem + words[k] {
      WithoutWord(stem, words, k);
    } else {
      WithoutNone(name, words);
    }
  }

  /** A name is never just "Type": the name of the parent comes before it. */
  function Untyped(name: string, m: Model): string {
    match (name, m.parentName)
    case ("Type", Some(parent)) => parent + "Type"
    case ("Type", None) => "undefinedType"
    case _ => name
  }

  /** The preferred name of a command says which way the command goes, whatever its own name says. */
  lemma CommandNames(m: Model, stem: string)
    requires m.tag.CommandTag? && Stems(m.camelName, stem, ["Request", "Response"])
    ensures Preferred(m) == stem + (if m.tag.isRequest then "Request" else "Response")
  {
    StemIsLeft(m.camelName, stem, ["Request", "Response"]);
    assert |stem + "Request"| > 4 && |stem + "Response"| > 4;
  }

  lemma EventNames(m: Model, stem: string)
    requires m.tag.EventTag? && Stems(m.camelName, stem, ["Event"])
    ensures Preferred(m) == stem + "Event"
  {
    if m.camelName == stem + "Event" {
      SuffixOf(stem, "Event", "Event");
    } else {
      assert m.camelName == stem && !Ends(stem, ["Event"][0]);
      EndsIff(stem, "Event");
    }
    assert |stem + "Event"| > 4;
  }

  /** The names of datatypes and clusters lose the word for their kind. */
  lemma DatatypeNames(m: Model, stem: string)
    requires m.tag.DatatypeTag? && Stems(m.camelName, stem, ["Enum", "Struct", "Bitmap"])
    ensures Preferred(m) == Untyped(stem, m)
  {
    StemIsLeft(m.camelName, stem, ["Enum", "Struct", "Bitmap"]);
    assert "undefined" + "Type" == "undefinedType";
  }

  lemma ClusterNames(m: Model, stem: string)
    requires m.tag.ClusterTag? && Stems(m.camelName, stem, ["Cluster"])
    ensures Preferred(m) == Untyped(stem, m)
  {
    StemIsLeft(m.camelName, stem, ["Cluster"]);
    assert "undefined" + "Type" == "undefinedType";
  }

  lemma OtherNames(m: Model)
    requires m.tag.AttributeTag? || m.tag.FieldTag? || m.tag.OtherTag?
    ensures Preferred(m) == Untyped(m.camelName, m)
  {
    assert "undefined" + "Type" == "undefinedType";
  }

  /** The word that tells a model from one whose name it would take. */
  function Told(m: Model, name: string): string {
    match (m.tag, m.metatype)
    case (AttributeTag, _) => name + "Attribute"
    case (ClusterTag, _) => name + "Namespace"
    case (DatatypeTag, ObjectType) => name + "Struct"
    case (DatatypeTag, EnumType) => name + "Enum"
    case (DatatypeTag, BitmapType) => name + "Bitmap"
    case (FieldTag, _) =>
      (match m.parentName
       case Some(parent) => if m.name == "Type" then name else parent + name
       case None => name)
    case _ => name
  }

  /** The second choice, and then the numbers from 2 on. */
  lemma SecondNames(m: Model, inUse: set<string>, name: string)
    requires name == Preferred(m) && name in inUse
    ensures Told(m, name) !in inUse ==> FreshName(m, inUse) == Told(m, name)
    ensures Told(m, name) in inUse && Told(m, name) + "2" !in inUse ==> FreshName(m, inUse) == Told(m, name) + "2"
    ensures {Told(m, name), Told(m, name) + "2"} <= inUse && Told(m, name) + "3" !in inUse ==>
              FreshName(m, inUse) == Told(m, name) + "3"
  {
    var told := Told(m, name);
    assert Fallback(m, name) == told;
    assert Decimal(2) == "2" && Decimal(3) == "3";
    if told in inUse {
      var n := FirstFree(told, inUse, 2);
      assert Candidate(told, 2) == told + "2" && Candidate(told, 3) == told + "3";
    }
  }

  /** The order of the slots: the local cluster, local enums, structs and bitmaps, clusters elsewhere, global
      definitions, attributes, commands and events. */
  lemma SlotOrder(order: seq<Location>)
    requires |order| == 9
    requires order[0].model.tag.ClusterTag? && order[0].isLocal
    requires forall i | 1 <= i <= 3 ::
               (order[i].model.tag.DatatypeTag? || order[i].model.tag.FieldTag?) && order[i].namespace.Some? && order[i].isLocal
    requires order[1].model.metatype.EnumType? && order[2].model.metatype.ObjectType? && order[3].model.metatype.BitmapType?
    requires order[4].model.tag.ClusterTag? && !order[4].isLocal
    requires order[5].model.tag.DatatypeTag? || order[5].model.tag.FieldTag?
    requires order[5].namespace.Some? && !order[5].isLocal && order[5].isGlobal
    requires order[6].model.tag.AttributeTag? && order[7].model.tag.CommandTag? && order[8].model.tag.EventTag?
    ensures forall i | 0 <= i < 9 :: Place(order[i]) == Slot(i, order[i].model)
  {
    forall i | 0 <= i < 9 ensures Place(order[i]) == Slot(i, order[i].model) {
      if 1 <= i <= 3 {
        assert order[i].model.tag.DatatypeTag? || order[i].model.tag.FieldTag?;
      }
    }
  }

  /** A definition in another cluster is represented by that cluster, and one in no hierarchy is an error. */
  lemma DefinitionElsewhere(l: Location)
    requires l.model.tag.DatatypeTag? || l.model.tag.FieldTag?
    ensures Place(l) == NoHierarchy <==> l.namespace.None?
    ensures l.namespace.Some? && !l.isLocal && !l.isGlobal ==> Place(l) == Slot(4, l.namespace.value)
  {
  }

  /** Exactly what gets no name: models of other kinds, and local definitions that are no struct, enum or bitmap. */
  lemma SkippedIff(l: Location)
    ensures Place(l) == Skipped <==>
              || l.model.tag.OtherTag?
              || ((l.model.tag.DatatypeTag? || l.model.tag.FieldTag?)
                  && l.namespace.Some? && l.isLocal && l.model.metatype.OtherType?)
  {
  }

  /** Of two models with the same preferred name, the one in a later slot never gets it. */
  lemma EarlierSlotDecides(locations: seq<Location>, slots: seq<seq<Model>>, p: nat, q: nat, m: Model, n: Model)
    requires Coherent(locations) && Collected(locations, slots) && p < q < |slots|
    requires m in slots[p] && n in slots[q] && Preferred(m) == Preferred(n)
    ensures n.id in AssignAll(Flatten(slots)).names && AssignAll(Flatten(slots)).names[n.id] != Preferred(n)
  {
    var all, names := Flatten(slots), AssignAll(Flatten(slots)).names;
    var i, j := FlattenedInOrder(slots, p, q, m, n);
    CollectedModelLosesItsName(locations, slots, i);
    CollectedModelLosesItsName(locations, slots, j);
    if names[m.id] != Preferred(m) {
      var k :| 0 <= k < i && names[all[k].id] == Preferred(m);
      assert k < j;
    }
  }

  lemma {:induction false} FlattenedInOrder(slots: seq<seq<Model>>, p: nat, q: nat, m: Model, n: Model) returns (i: nat, j: nat)
    requires p < q < |slots| && m in slots[p] && n in slots[q]
    ensures i < j < |Flatten(slots)| && Flatten(slots)[i] == m && Flatten(slots)[j] == n
  {
    var init, last := slots[..|slots| - 1], slots[|slots| - 1];
    if q == |slots| - 1 {
      InFlatten(init, m);
      assert init[p] == slots[p];
      i :| 0 <= i < |Flatten(init)| && Flatten(init)[i] == m;
      var k :| 0 <= k < |last| && last[k] == n;
      j := |Flatten(init)| + k;
    } else {
      assert init[p] == slots[p] && init[q] == slots[q];
      i, j := FlattenedInOrder(init, p, q, m, n);
    }
  }
}
