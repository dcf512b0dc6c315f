/** Removing the Zigbee-only elements of a Matter model (finalize-model.ts). Clusters are not nested. */
module ZigbeeEjection {
  import opened Texts

  datatype Conformance = Unspecified | Conforms(text: string)

  /** A model element; `isFeatureMap` marks the attribute whose children are the features of its cluster. */
  datatype Element = Element(
    name: string,
    conformance: Conformance,
    isCluster: bool,
    isFeatureMap: bool,
    children: seq<Element>)

  predicate DependsOn(text: string, feature: string) {
    text == feature || text == "[" + feature + "]"
  }

  /** Zigbee by its own conformance, or because it conforms to one of the given Zigbee features. */
  predicate IsZigbee(e: Element, features: seq<string>) {
    e.conformance.Conforms? &&
    (|| Contains(e.conformance.text, "Zigbee")
     || Contains(e.conformance.text, "zigbee")
     || exists f | f in features :: DependsOn(e.conformance.text, f))
  }

  function Features(children: seq<Element>): seq<Element> {
    if children == [] then []
    else if children[0].isFeatureMap then children[0].children
    else Features(children[1..])
  }

  function ZigbeeNames(features: seq<Element>): seq<string> {
    if features == [] then []
    else (if IsZigbee(features[0], []) then [features[0].name] else []) + ZigbeeNames(features[1..])
  }

  /** The features that make a child of `e` a Zigbee element, given those that reach `e` from above. */
  function FeaturesBelow(e: Element, features: seq<string>): seq<string> {
    if e.isCluster then features + ZigbeeNames(Features(e.children)) else features
  }

  function Eject(e: Element, features: seq<string>): Element
    decreases e
  {
    e.(children := EjectAll(e.children, FeaturesBelow(e, features)))
  }

  function EjectAll(children: seq<Element>, features: seq<string>): seq<Element>
    decreases children
  {
    if children == [] then []
    else
      var rest := EjectAll(children[1..], features);
      if IsZigbee(children[0], features) then rest else [Eject(children[0], features)] + rest
  }

  /** The loop over the features of a cluster. */
  method AddFeatures(model: Element, features: seq<string>) returns (zigbeeFeatures: seq<string>)
    ensures zigbeeFeatures == FeaturesBelow(model, features)
  {
    zigbeeFeatures := features;
    if model.isCluster {
      var all := Features(model.children);
      for i := 0 to |all|
        invariant zigbeeFeatures + ZigbeeNames(all[i..]) == features + ZigbeeNames(all)
      {
        assert all[i..][0] == all[i] && all[i..][1..] == all[i + 1..];
        if IsZigbee(all[i], []) {
          zigbeeFeatures := zigbeeFeatures + [all[i].name];
        }
      }
      assert all[|all|..] == [] && zigbeeFeatures + [] == zigbeeFeatures;
    }
  }

  method EjectZigbee(model: Element, features: seq<string>) returns (result: Element)
    ensures result == Eject(model, features)
    decreases model
  {
    var zigbeeFeatures := AddFeatures(model, features);
    var children := model.children;
    var filtered: seq<Element> := [];
    for i := 0 to |children|
      invariant filtered + EjectAll(children[i..], zigbeeFeatures) == EjectAll(children, zigbeeFeatures)
    {
      var child := children[i];
      assert children[i..][0] == child && children[i..][1..] == children[i + 1..];
      if IsZigbee(child, zigbeeFeatures) {
        continue;
      }
      var ejected := EjectZigbee(child, zigbeeFeatures);
      filtered := filtered + [ejected];
    }
    assert children[|children|..] == [] && filtered + [] == filtered;
    result := model.(children := filtered);
  }

  // ---- Exactly which elements stay ----

  /** An element without its children, at its depth: the labels in preorder determine the tree. */
  datatype Label = Label(depth: nat, name: string, conformance: Conformance, isCluster: bool, isFeatureMap: bool)

  function LabelOf(e: Element, depth: nat): Label {
    Label(depth, e.name, e.conformance, e.isCluster, e.isFeatureMap)
  }

  function Preorder(e: Element, depth: nat): seq<Label>
    decreases e
  {
    [LabelOf(e, depth)] + PreorderAll(e.children, depth + 1)
  }

  function PreorderAll(children: seq<Element>, depth: nat): seq<Label>
    decreases children
  {
    if children == [] then [] else Preorder(children[0], depth) + PreorderAll(children[1..], depth)
  }

  datatype Marked = Marked(tag: Label, doomed: bool)

  /** The original tree in preorder, an element marked as doomed when it or one above it is a Zigbee element; the
      features of a cluster are those of the original. */
  function Marks(e: Element, features: seq<string>, depth: nat, doomed: bool): seq<Marked>
    decreases e
  {
    [Marked(LabelOf(e, depth), doomed)] + MarksAll(e.children, FeaturesBelow(e, features), depth + 1, doomed)
  }

  function MarksAll(children: seq<Element>, features: seq<string>, depth: nat, doomed: bool): seq<Marked>
    decreases children
  {
    if children == [] then []
    else
      Marks(children[0], features, depth, doomed || IsZigbee(children[0], features))
      + MarksAll(children[1..], features, depth, doomed)
  }

  function Spared(marks: seq<Marked>): seq<Label> {
    if marks == [] then []
    else (if marks[0].doomed then [] else [marks[0].tag]) + Spared(marks[1..])
  }

  lemma {:induction false} SparedConcat(a: seq<Marked>, b: seq<Marked>)
    ensures Spared(a + b) == Spared(a) + Spared(b)
  {
    if a == [] {
      assert a + b == b;
    } else {
      assert (a + b)[1..] == a[1..] + b;
      SparedConcat(a[1..], b);
    }
  }

  lemma {:induction false} DoomedIsNotSpared(e: Element, features: seq<string>, depth: nat)
    ensures Spared(Marks(e, features, depth, true)) == []
    decreases e
  {
    DoomedAreNotSpared(e.children, FeaturesBelow(e, features), depth + 1);
    SparedConcat([Marked(LabelOf(e, depth), true)], MarksAll(e.children, FeaturesBelow(e, features), depth + 1, true));
  }

  lemma {:induction false} DoomedAreNotSpared(children: seq<Element>, features: seq<string>, depth: nat)
    ensures Spared(MarksAll(children, features, depth, true)) == []
    decreases children
  {
    if children != [] {
      DoomedIsNotSpared(children[0], features, depth);
      DoomedAreNotSpared(children[1..], features, depth);
      SparedConcat(Marks(children[0], features, depth, true), MarksAll(children[1..], features, depth, true));
    }
  }

  /** What stays is, in order, every element with no Zigbee element on its path. */
  lemma {:induction false} EjectionKeepsTheSpared(e: Element, features: seq<string>, depth: nat)
    ensures Preorder(Eject(e, features), depth) == Spared(Marks(e, features, depth, false))
    decreases e
  {
    var below := FeaturesBelow(e, features);
    AllEjectionsKeepTheSpared(e.children, below, depth + 1);
    SparedConcat([Marked(LabelOf(e, depth), false)], MarksAll(e.children, below, depth + 1, false));
  }

  lemma {:induction false} AllEjectionsKeepTheSpared(children: seq<Element>, features: seq<string>, depth: nat)
    ensures PreorderAll(EjectAll(children, features), depth) == Spared(MarksAll(children, features, depth, false))
    decreases children
  {
    if children != [] {
      var first := children[0];
      AllEjectionsKeepTheSpared(children[1..], features, depth);
      SparedConcat(Marks(first, features, depth, IsZigbee(first, features)), MarksAll(children[1..], features, depth, false));
      if IsZigbee(first, features) {
        DoomedIsNotSpared(first, features, depth);
      } else {
        EjectionKeepsTheSpared(first, features, depth);
        assert EjectAll(children, features)[1..] == EjectAll(children[1..], features);
      }
    }
  }

  // ---- A second pass ----

  predicate Below(a: seq<string>, b: seq<string>) {
    forall f | f in a :: f in b
  }

  /** No cluster has two feature maps. */
  predicate OneFeatureMap(children: seq<Element>) {
    forall i, j | 0 <= i < j < |children| :: !(children[i].isFeatureMap && children[j].isFeatureMap)
  }

  predicate Proper(e: Element)
    decreases e
  {
    (e.isCluster ==> OneFeatureMap(e.children)) && forall c | c in e.children :: Proper(c)
  }

  lemma {:induction false} NoFeatureMap(children: seq<Element>)
    requires forall i | 0 <= i < |children| :: !children[i].isFeatureMap
    ensures Features(children) == []
  {
    if children != [] {
      NoFeatureMap(children[1..]);
    }
  }

  lemma {:induction false} EjectedMaps(children: seq<Element>, features: seq<string>)
    requires forall i | 0 <= i < |children| :: !children[i].isFeatureMap
    ensures forall i | 0 <= i < |EjectAll(children, features)| :: !EjectAll(children, features)[i].isFeatureMap
  {
    if children != [] {
      EjectedMaps(children[1..], features);
    }
  }

  /** The features after ejection: those of the feature map with its own Zigbee children ejected, or none. */
  lemma {:induction false} FeaturesAfterEjection(children: seq<Element>, features: seq<string>)
    requires OneFeatureMap(children)
    ensures
      || Features(EjectAll(children, features)) == []
      || exists c | c in children ::
           c.isFeatureMap && Features(children) == c.children
           && Features(EjectAll(children, features)) == Eject(c, features).children
  {
    if children != [] {
      var rest := children[1..];
      if children[0].isFeatureMap {
        EjectedMaps(rest, features);
        NoFeatureMap(EjectAll(rest, features));
        assert children[0] in children;
      } else {
        FeaturesAfterEjection(rest, features);
      }
    }
  }

  lemma {:induction false} NoZigbeeLeft(children: seq<Element>, features: seq<string>)
    ensures ZigbeeNames(EjectAll(children, features)) == []
  {
    if children != [] {
      NoZigbeeLeft(children[1..], features);
      if !IsZigbee(children[0], features) {
        assert EjectAll(children, features)[1..] == EjectAll(children[1..], features);
      }
    }
  }

  /** After one pass no Zigbee feature is left to eject others by. */
  lemma ZigbeeFeaturesAreGone(e: Element, features: seq<string>)
    requires e.isCluster && OneFeatureMap(e.children)
    ensures ZigbeeNames(Features(Eject(e, features).children)) == []
  {
    var below := FeaturesBelow(e, features);
    FeaturesAfterEjection(e.children, below);
    if Features(EjectAll(e.children, below)) != [] {
      var c :| c in e.children && c.isFeatureMap && Features(e.children) == c.children
               && Features(EjectAll(e.children, below)) == Eject(c, below).children;
      NoZigbeeLeft(c.children, FeaturesBelow(c, below));
      assert Features(Eject(e, features).children) == EjectAll(c.children, FeaturesBelow(c, below));
    }
  }

  /** A second pass, with no more features than the first, removes nothing. */
  lemma {:induction false} EjectionIsIdempotent(e: Element, features: seq<string>, fewer: seq<string>)
    requires Proper(e) && Below(fewer, features)
    ensures Eject(Eject(e, features), fewer) == Eject(e, features)
    decreases e
  {
    var once := Eject(e, features);
    if e.isCluster {
      ZigbeeFeaturesAreGone(e, features);
    }
    AllEjectionsAreIdempotent(e.children, FeaturesBelow(e, features), FeaturesBelow(once, fewer));
  }

  lemma {:induction false} AllEjectionsAreIdempotent(children: seq<Element>, features: seq<string>, fewer: seq<string>)
    requires (forall c | c in children :: Proper(c)) && Below(fewer, features)
    ensures EjectAll(EjectAll(children, features), fewer) == EjectAll(children, features)
    decreases children
  {
    if children != [] {
      var first, rest := children[0], children[1..];
      AllEjectionsAreIdempotent(rest, features, fewer);
      if !IsZigbee(first, features) {
        EjectionIsIdempotent(first, features, fewer);
        assert EjectAll(children, features)[1..] == EjectAll(rest, features);
        assert !IsZigbee(Eject(first, features), fewer);
      }
    }
  }

  // ---- Which elements these are ----

  /** The text says "igbee" somewhere, with a capital or a small letter before it. */
  ghost predicate SaysZigbee(text: string) {
    exists i | 0 <= i <= |text| - 6 :: text[i] in {'Z', 'z'} && text[i + 1..i + 6] == "igbee"
  }

  lemma OccursLetter(text: string, pattern: string, i: nat)
    requires |pattern| == 6 && pattern[1..] == "igbee"
    ensures OccursAt(text, pattern, i) <==> i + 6 <= |text| && text[i] == pattern[0] && text[i + 1..i + 6] == "igbee"
  {
    if i + 6 <= |text| {
      var part := text[i..i + 6];
      assert part == [text[i]] + text[i + 1..i + 6] && pattern == [pattern[0]] + pattern[1..];
      assert part[0] == text[i] && part[1..] == text[i + 1..i + 6];
    }
  }

  /** An element is a Zigbee element exactly when its conformance says so, or is the name of a Zigbee feature that
      reaches it, alone or in brackets. */
  lemma ZigbeeIff(e: Element, features: seq<string>)
    ensures IsZigbee(e, features) <==>
              e.conformance.Conforms?
              && (SaysZigbee(e.conformance.text)
                  || exists f | f in features :: e.conformance.text == f || e.conformance.text == "[" + f + "]")
  {
    if e.conformance.Conforms? {
      var text := e.conformance.text;
      forall i: nat
        ensures OccursAt(text, "Zigbee", i) || OccursAt(text, "zigbee", i) <==>
                  i + 6 <= |text| && text[i] in {'Z', 'z'} && text[i + 1..i + 6] == "igbee"
      {
        OccursLetter(text, "Zigbee", i);
        OccursLetter(text, "zigbee", i);
      }
      if Contains(text, "Zigbee") {
        var i :| 0 <= i <= |text| && OccursAt(text, "Zigbee", i);
      }
      if Contains(text, "zigbee") {
        var i :| 0 <= i <= |text| && OccursAt(text, "zigbee", i);
      }
      if i :| 0 <= i <= |text| - 6 && text[i] in {'Z', 'z'} && text[i + 1..i + 6] == "igbee" {
        assert OccursAt(text, "Zigbee", i) || OccursAt(text, "zigbee", i);
      }
    }
  }

  lemma ZigbeeHasALetterG(text: string)
    requires SaysZigbee(text)
    ensures 'g' in text
  {
    var i :| 0 <= i <= |text| - 6 && text[i] in {'Z', 'z'} && text[i + 1..i + 6] == "igbee";
    assert text[i + 2] == text[i + 1..i + 6][1];
  }

  lemma SaysNothing(text: string)
    requires 'g' !in text
    ensures !SaysZigbee(text)
  {
    if SaysZigbee(text) {
      ZigbeeHasALetterG(text);
    }
  }

  /** "Zigbee", "[Zigbee]", "[Zigbee], D" and the like. */
  lemma ZigbeeTexts(e: Element, before: string, after: string, features: seq<string>)
    requires e.conformance.Conforms?
    requires e.conformance.text == before + "Zigbee" + after || e.conformance.text == before + "zigbee" + after
    ensures IsZigbee(e, features)
  {
    var text, i := e.conformance.text, |before|;
    ZigbeeIff(e, features);
    var word := text[i..i + 6];
    assert word == "Zigbee" || word == "zigbee";
    assert text[i] == word[0] && text[i + 1..i + 6] == word[1..];
  }

  /** A feature's own name, alone or in brackets, makes a Zigbee element only where the feature is a Zigbee one. */
  lemma FeatureTexts(e: Element)
    requires e.conformance.Conforms? && e.conformance.text in {"SCH", "[SCH]"}
    ensures IsZigbee(e, ["SCH"]) && !IsZigbee(e, [])
  {
    ZigbeeIff(e, []);
    ZigbeeIff(e, ["SCH"]);
    SaysNothing(e.conformance.text);
    assert "SCH" in ["SCH"] && "[" + "SCH" + "]" == "[SCH]";
  }

  /** Mandatory, optional, unstated and merely related conformances stay. */
  lemma OtherTexts(e: Element)
    requires e.conformance.Conforms? && e.conformance.text in {"M", "O", "", "!SCH", "SCH & X"}
    ensures !IsZigbee(e, ["SCH"])
  {
    var text := e.conformance.text;
    ZigbeeIff(e, ["SCH"]);
    SaysNothing(text);
    assert |text| != 3 && |text| != 5;
    assert |"[" + "SCH" + "]"| == 5;
  }

  /** Nothing in the tree says Zigbee. */
  ghost predicate Clean(e: Element)
    decreases e
  {
    (e.conformance.Conforms? ==> !SaysZigbee(e.conformance.text)) && forall c | c in e.children :: Clean(c)
  }

  /** A tree that does not mention Zigbee is left as it is. */
  lemma {:induction false} CleanTreeIsKept(e: Element)
    requires Clean(e)
    ensures Eject(e, []) == e
    decreases e
  {
    NoZigbeeFeatures(e);
    CleanChildrenAreKept(e.children);
  }

  lemma {:induction false} CleanChildrenAreKept(children: seq<Element>)
    requires forall c | c in children :: Clean(c)
    ensures EjectAll(children, []) == children
    decreases children
  {
    if children != [] {
      ZigbeeIff(children[0], []);
      CleanTreeIsKept(children[0]);
      CleanChildrenAreKept(children[1..]);
      assert [children[0]] + children[1..] == children;
    }
  }

  lemma NoZigbeeFeatures(e: Element)
    requires Clean(e)
    ensures FeaturesBelow(e, []) == []
  {
    var fs := Features(e.children);
    FeaturesAreBelow(e.children);
    CleanNames(fs);
    assert [] + ZigbeeNames(fs) == ZigbeeNames(fs);
  }

  lemma {:induction false} FeaturesAreBelow(children: seq<Element>)
    requires forall c | c in children :: Clean(c)
    ensures forall f | f in Features(children) :: Clean(f)
  {
    if children != [] {
      FeaturesAreBelow(children[1..]);
      assert children[0] in children;
    }
  }

  lemma {:induction false} CleanNames(fs: seq<Element>)
    requires forall f | f in fs :: Clean(f)
    ensures ZigbeeNames(fs) == []
  {
    if fs != [] {
      assert fs[0] in fs;
      ZigbeeIff(fs[0], []);
      CleanNames(fs[1..]);
    }
  }

  lemma {:induction false} NameIsCollected(fs: seq<Element>, f: Element)
    requires f in fs && IsZigbee(f, [])
    ensures f.name in ZigbeeNames(fs)
  {
    if f != fs[0] {
      NameIsCollected(fs[1..], f);
    }
  }

  /** The features of a cluster are the children of its first feature map. */
  lemma {:induction false} FeaturesAre(before: seq<Element>, featureMap: Element, after: seq<Element>)
    requires featureMap.isFeatureMap && forall c | c in before :: !c.isFeatureMap
    ensures Features(before + [featureMap] + after) == featureMap.children
  {
    var all := before + [featureMap] + after;
    if before != [] {
      assert all[1..] == before[1..] + [featureMap] + after;
      assert before[0] in before;
      FeaturesAre(before[1..], featureMap, after);
    }
  }

  /** Features from above reach every child, and in a cluster its own Zigbee features do. */
  lemma ReachesBelow(e: Element, features: seq<string>, f: Element)
    ensures Below(features, FeaturesBelow(e, features))
    ensures e.isCluster && f in Features(e.children) && IsZigbee(f, []) ==> f.name in FeaturesBelow(e, features)
    ensures !e.isCluster ==> FeaturesBelow(e, features) == features
  {
    if f in Features(e.children) && IsZigbee(f, []) {
      NameIsCollected(Features(e.children), f);
    }
  }

  /** No element below this one says Zigbee, or is named after one of the features, alone or in brackets. */
  ghost predicate Purged(e: Element, features: seq<string>)
    decreases e
  {
    forall c | c in e.children ::
      && (c.conformance.Conforms? ==>
            !SaysZigbee(c.conformance.text)
            && forall f | f in features :: c.conformance.text != f && c.conformance.text != "[" + f + "]")
      && Purged(c, features)
  }

  /** At any depth nothing remains that says Zigbee or depends on a feature from above. */
  lemma {:induction false} EjectionPurges(e: Element, features: seq<string>, some: seq<string>)
    requires Below(some, FeaturesBelow(e, features))
    ensures Purged(Eject(e, features), some)
    decreases e
  {
    ChildrenArePurged(e.children, FeaturesBelow(e, features), some);
  }

  lemma {:induction false} ChildrenArePurged(children: seq<Element>, features: seq<string>, some: seq<string>)
    requires Below(some, features)
    ensures forall c | c in EjectAll(children, features) ::
              && (c.conformance.Conforms? ==>
                    !SaysZigbee(c.conformance.text)
                    && forall f | f in some :: c.conformance.text != f && c.conformance.text != "[" + f + "]")
              && Purged(c, some)
    decreases children
  {
    if children != [] {
      var first := children[0];
      ChildrenArePurged(children[1..], features, some);
      ZigbeeIff(first, features);
      ReachesBelow(first, features, first);
      EjectionPurges(first, features, some);
    }
  }

  /** At any depth in a cluster nothing remains that depends on a feature that says Zigbee. */
  lemma DependentsAreEjected(e: Element, before: seq<Element>, featureMap: Element, after: seq<Element>, f: Element)
    requires e.isCluster && e.children == before + [featureMap] + after
    requires featureMap.isFeatureMap && forall c | c in before :: !c.isFeatureMap
    requires f in featureMap.children && f.conformance.Conforms? && SaysZigbee(f.conformance.text)
    ensures Purged(Eject(e, []), [f.name])
  {
    FeaturesAre(before, featureMap, after);
    ZigbeeIff(f, []);
    ReachesBelow(e, [], f);
    EjectionPurges(e, [], [f.name]);
  }
}
