/** How the cluster generator names the models of a scope (GeneratorScope.ts): in priority order, each model gets
    its preferred name, a fallback, or a numbered name, whichever is the first that is free. */
module GeneratorNames {
  import opened Options

  datatype Metatype = ObjectType | EnumType | BitmapType | OtherType

  datatype Tag =
    | AttributeTag
    | CommandTag(isRequest: bool)
    | EventTag
    | ClusterTag
    | DatatypeTag
    | FieldTag
    | OtherTag

  /** A model as far as naming looks at it; `camelName` is its camelized name. */
  datatype Model = Model(id: nat, name: string, camelName: string, tag: Tag, metatype: Metatype, parentName: Option<string>)

  // ---- Preferred and fallback names ----

  predicate HasSuffix(s: string, suffix: string) {
    |suffix| <= |s| && s[|s| - |suffix|..] == suffix
  }

  /** `name.replace(/(?:a|b|c)$/, "")`. */
  function Without(s: string, suffixes: seq<string>): string {
    if suffixes == [] then s
    else if HasSuffix(s, suffixes[0]) then s[..|s| - |suffixes[0]|]
    else Without(s, suffixes[1..])
  }

  function Preferred(m: Model): string {
    var name := match m.tag
      case DatatypeTag => Without(m.camelName, ["Enum", "Struct", "Bitmap"])
      case CommandTag(isRequest) =>
        Without(m.camelName, ["Request", "Response"]) + (if isRequest then "Request" else "Response")
      case EventTag => if HasSuffix(m.camelName, "Event") then m.camelName else m.camelName + "Event"
      case ClusterTag => Without(m.camelName, ["Cluster"])
      case _ => m.camelName;
    if name == "Type" then (if m.parentName.Some? then m.parentName.value else "undefined") + "Type" else name
  }

  function Fallback(m: Model, name: string): string {
    match m.tag
    case AttributeTag => name + "Attribute"
    case FieldTag => if m.parentName.Some? && m.name != "Type" then m.parentName.value + name else name
    case ClusterTag => name + "Namespace"
    case DatatypeTag =>
      (match m.metatype
       case ObjectType => name + "Struct"
       case EnumType => name + "Enum"
       case BitmapType => name + "Bitmap"
       case OtherType => name)
    case _ => name
  }

  // ---- Numbered names ----

  function Decimal(n: nat): string {
    if n < 10 then [Digit(n)] else Decimal(n / 10) + [Digit(n % 10)]
  }

  function Digit(d: nat): char
    requires d < 10
  {
    "0123456789"[d]
  }

  function Value(s: string): nat {
    if s == [] then 0 else 10 * Value(s[..|s| - 1]) + DigitValue(s[|s| - 1])
  }

  function DigitValue(c: char): nat {
    if '0' <= c <= '9' then (c - '0') as nat else 0
  }

  lemma {:induction false} ValueOfDecimal(n: nat)
    ensures Value(Decimal(n)) == n
  {
    var s := Decimal(n);
    if n >= 10 {
      ValueOfDecimal(n / 10);
      assert s[..|s| - 1] == Decimal(n / 10);
    } else {
      assert s[..|s| - 1] == [];
    }
  }

  function Candidate(base: string, n: nat): string {
    base + Decimal(n)
  }

  lemma CandidatesDiffer(base: string, m: nat, n: nat)
    requires Candidate(base, m) == Candidate(base, n)
    ensures m == n
  {
    assert Candidate(base, m)[|base|..] == Decimal(m);
    assert Candidate(base, n)[|base|..] == Decimal(n);
    ValueOfDecimal(m);
    ValueOfDecimal(n);
  }

  ghost predicate IsCandidateFrom(base: string, s: string, k: nat) {
    exists n: nat :: k <= n && s == Candidate(base, n)
  }

  /** The names in use that are candidates with number `k` or above. */
  ghost function Taken(base: string, inUse: set<string>, k: nat): set<string> {
    set s | s in inUse && IsCandidateFrom(base, s, k)
  }

  lemma TakenShrinks(base: string, inUse: set<string>, k: nat)
    requires Candidate(base, k) in inUse
    ensures |Taken(base, inUse, k + 1)| < |Taken(base, inUse, k)|
  {
    var c := Candidate(base, k);
    if IsCandidateFrom(base, c, k + 1) {
      var n: nat :| k + 1 <= n && c == Candidate(base, n);
      CandidatesDiffer(base, k, n);
    }
    SmallerSubset(Taken(base, inUse, k + 1), Taken(base, inUse, k), c);
  }

  lemma SmallerSubset(a: set<string>, b: set<string>, x: string)
    requires a <= b && x in b && x !in a
    ensures |a| < |b|
  {
    SubsetSize(a, b - {x});
  }

  lemma {:induction false} SubsetSize(a: set<string>, b: set<string>)
    requires a <= b
    ensures |a| <= |b|
    decreases b
  {
    if a != {} {
      var x :| x in a;
      SubsetSize(a - {x}, b - {x});
    }
  }

  /** The first free number from `k` on. It is at most as far away as there are names in the way. */
  function FirstFree(base: string, inUse: set<string>, k: nat): (n: nat)
    ensures k <= n <= k + |Taken(base, inUse, k)|
    ensures Candidate(base, n) !in inUse
    ensures forall j | k <= j < n :: Candidate(base, j) in inUse
    decreases |Taken(base, inUse, k)|
  {
    if Candidate(base, k) in inUse then
      TakenShrinks(base, inUse, k);
      FirstFree(base, inUse, k + 1)
    else k
  }

  function FreshName(m: Model, inUse: set<string>): (name: string)
    ensures name !in inUse
    ensures name == Preferred(m) <==> Preferred(m) !in inUse
  {
    var preferred := Preferred(m);
    if preferred !in inUse then preferred
    else
      var fallback := Fallback(m, preferred);
      if fallback !in inUse then fallback else Candidate(fallback, FirstFree(fallback, inUse, 2))
  }

  /** The search of the source, which ends after at most one candidate more than there are names in use. */
  method Assign(m: Model, inUse: set<string>) returns (name: string, tries: nat)
    ensures name == FreshName(m, inUse)
    ensures tries <= |inUse| + 1
  {
    name, tries := Preferred(m), 0;
    if name in inUse {
      name := Fallback(m, name);
    }
    if name in inUse {
      var next: nat := 2;
      ghost var bound := |Taken(name, inUse, 2)|;
      SubsetSize(Taken(name, inUse, 2), inUse);
      while true
        invariant 2 <= next && tries == next - 2
        invariant tries + |Taken(name, inUse, next)| <= bound
        invariant FirstFree(name, inUse, next) == FirstFree(name, inUse, 2)
        decreases |Taken(name, inUse, next)|
      {
        var candidate := name + Decimal(next);
        tries := tries + 1;
        if candidate in inUse {
          TakenShrinks(name, inUse, next);
          next := next + 1;
        } else {
          name := candidate;
          break;
        }
      }
    }
  }

  // ---- All models of a scope ----

  datatype Naming = Naming(names: map<nat, string>, inUse: set<string>)

  function AssignOne(s: Naming, m: Model): Naming {
    var name := FreshName(m, s.inUse);
    Naming(s.names[m.id := name], s.inUse + {name})
  }

  function AssignAll(models: seq<Model>): Naming {
    if models == [] then Naming(map[], {})
    else AssignOne(AssignAll(models[..|models| - 1]), models[|models| - 1])
  }

  function Flatten(priorities: seq<seq<Model>>): seq<Model> {
    if priorities == [] then [] else Flatten(priorities[..|priorities| - 1]) + priorities[|priorities| - 1]
  }

  lemma AssignAllStep(done: seq<Model>, models: seq<Model>, j: nat)
    requires j < |models|
    ensures AssignAll(done + models[..j + 1]) == AssignOne(AssignAll(done + models[..j]), models[j])
  {
    var now := done + models[..j + 1];
    assert now[..|now| - 1] == done + models[..j];
  }

  method AssignNamesByPriority(priorities: seq<seq<Model>>) returns (names: map<nat, string>)
    ensures names == AssignAll(Flatten(priorities)).names
  {
    names := map[];
    var inUse: set<string> := {};
    for i := 0 to |priorities|
      invariant Naming(names, inUse) == AssignAll(Flatten(priorities[..i]))
    {
      var models := priorities[i];
      ghost var done := Flatten(priorities[..i]);
      assert priorities[..i + 1][..i] == priorities[..i];
      assert done + models[..0] == done;
      for j := 0 to |models|
        invariant Naming(names, inUse) == AssignAll(done + models[..j])
      {
        AssignAllStep(done, models, j);
        var name, _ := Assign(models[j], inUse);
        names := names[models[j].id := name];
        inUse := inUse + {name};
      }
      assert models[..|models|] == models;
    }
    assert priorities[..|priorities|] == priorities;
  }

  predicate Injective(names: map<nat, string>) {
    forall a, b | a in names && b in names && a != b :: names[a] != names[b]
  }

  predicate Sound(s: Naming) {
    Injective(s.names) && forall a | a in s.names :: s.names[a] in s.inUse
  }

  lemma {:induction false} NamingIsSound(models: seq<Model>)
    ensures Sound(AssignAll(models))
  {
    if models != [] {
      NamingIsSound(models[..|models| - 1]);
    }
  }

  function Ids(models: seq<Model>): set<nat> {
    set m | m in models :: m.id
  }

  lemma {:induction false} NamingIsTotal(models: seq<Model>)
    ensures AssignAll(models).names.Keys == Ids(models)
  {
    if models != [] {
      var init, last := models[..|models| - 1], models[|models| - 1];
      NamingIsTotal(init);
      assert models == init + [last];
      assert Ids(models) == Ids(init) + {last.id};
    }
  }

  /** Every collected model is named, and no two models get the same name. */
  lemma NamesAreTotalAndInjective(models: seq<Model>, i: nat, j: nat)
    requires i < |models| && j < |models|
    ensures models[i].id in AssignAll(models).names && models[j].id in AssignAll(models).names
    ensures
      var names := AssignAll(models).names;
      names[models[i].id] == names[models[j].id] <==> models[i].id == models[j].id
  {
    NamingIsSound(models);
    NamingIsTotal(models);
    assert models[i].id in Ids(models) && models[j].id in Ids(models);
  }

  predicate Distinct(models: seq<Model>) {
    forall i, j | 0 <= i < j < |models| :: models[i].id != models[j].id
  }

  lemma {:induction false} NamesInUse(models: seq<Model>)
    requires Distinct(models)
    ensures forall s | s in AssignAll(models).inUse ::
              exists a | a in AssignAll(models).names :: AssignAll(models).names[a] == s
  {
    if models != [] {
      var init, last := models[..|models| - 1], models[|models| - 1];
      NamesInUse(init);
      NamingIsTotal(init);
      var before, after := AssignAll(init), AssignAll(models);
      assert last.id !in before.names;
      forall s | s in after.inUse ensures exists a | a in after.names :: after.names[a] == s {
        if s in before.inUse {
          var a :| a in before.names && before.names[a] == s;
          assert a in after.names && after.names[a] == s;
        } else {
          assert last.id in after.names && after.names[last.id] == s;
        }
      }
    }
  }

  lemma AssignedNames(models: seq<Model>)
    requires Distinct(models)
    ensures forall i | 0 <= i < |models| :: models[i].id in AssignAll(models).names
    ensures forall i | 0 <= i < |models| :: AssignAll(models).names[models[i].id] in AssignAll(models).inUse
    ensures forall s :: s in AssignAll(models).inUse
              ==> exists i | 0 <= i < |models| :: AssignAll(models).names[models[i].id] == s
  {
    NamingIsSound(models);
    NamingIsTotal(models);
    NamesInUse(models);
    forall i | 0 <= i < |models| ensures models[i].id in AssignAll(models).names {
      assert models[i].id in Ids(models);
    }
    forall s | s in AssignAll(models).inUse
      ensures exists i | 0 <= i < |models| :: AssignAll(models).names[models[i].id] == s
    {
      var a :| a in AssignAll(models).names && AssignAll(models).names[a] == s;
      assert a in Ids(models);
      var m :| m in models && m.id == a;
      var i :| 0 <= i < |models| && models[i] == m;
    }
  }

  lemma {:induction false} NamesAreKept(models: seq<Model>, k: nat, i: nat)
    requires Distinct(models) && i < k <= |models|
    ensures models[i].id in AssignAll(models[..k]).names && models[i].id in AssignAll(models).names
    ensures AssignAll(models).names[models[i].id] == AssignAll(models[..k]).names[models[i].id]
    decreases |models|
  {
    if k < |models| {
      var init := models[..|models| - 1];
      NamesAreKept(init, k, i);
      assert init[..k] == models[..k];
    } else {
      assert models[..k] == models;
      NamingIsTotal(models);
      assert models[i].id in Ids(models);
    }
  }

  /** A model goes without its preferred name exactly when a model before it in priority order has that name. */
  lemma PreferredNameIsLostToAnEarlierModel(models: seq<Model>, i: nat)
    requires Distinct(models) && i < |models|
    ensures models[i].id in AssignAll(models).names
    ensures forall j | 0 <= j < i :: models[j].id in AssignAll(models).names
    ensures
      var names := AssignAll(models).names;
      names[models[i].id] != Preferred(models[i]) <==>
        exists j | 0 <= j < i :: names[models[j].id] == Preferred(models[i])
  {
    NameGiven(models, i);
    EarlierNames(models, i);
    assert Preferred(models[i]) in AssignAll(models[..i]).inUse <==>
             exists j | 0 <= j < i :: AssignAll(models).names[models[j].id] == Preferred(models[i]);
  }

  lemma NameGiven(models: seq<Model>, i: nat)
    requires Distinct(models) && i < |models|
    ensures models[i].id in AssignAll(models).names
    ensures AssignAll(models).names[models[i].id] != Preferred(models[i]) <==>
              Preferred(models[i]) in AssignAll(models[..i]).inUse
  {
    var now := models[..i + 1];
    assert now[..i] == models[..i];
    NamesAreKept(models, i + 1, i);
    assert AssignAll(models).names[models[i].id] == FreshName(models[i], AssignAll(models[..i]).inUse);
  }

  /** The names in use before a model are those of the earlier models, also in the end. */
  lemma EarlierNames(models: seq<Model>, i: nat)
    requires Distinct(models) && i < |models|
    ensures forall j | 0 <= j < i :: models[j].id in AssignAll(models).names
    ensures forall s :: s in AssignAll(models[..i]).inUse <==> exists j | 0 <= j < i :: AssignAll(models).names[models[j].id] == s
  {
    var init := models[..i];
    AssignedNames(init);
    forall j | 0 <= j < i
      ensures models[j].id in AssignAll(models).names
      ensures AssignAll(models).names[models[j].id] == AssignAll(init).names[init[j].id]
    {
      NamesAreKept(models, i, j);
    }
    forall s | s in AssignAll(init).inUse ensures exists j | 0 <= j < i :: AssignAll(models).names[models[j].id] == s {
      var j :| 0 <= j < |init| && AssignAll(init).names[init[j].id] == s;
      assert AssignAll(models).names[models[j].id] == s;
    }
  }

  // ---- Collecting the models by priority ----

  const PRIORITIES := 9

  /** A location of the scope: its model, and the cluster or global namespace its definition belongs to. */
  datatype Location = Location(model: Model, namespace: Option<Model>, isLocal: bool, isGlobal: bool)

  datatype Placement = Slot(priority: nat, model: Model) | Skipped | NoHierarchy

  function Place(l: Location): (p: Placement)
    ensures p.Slot? ==> p.priority < PRIORITIES
  {
    match l.model.tag
    case AttributeTag => Slot(6, l.model)
    case CommandTag(_) => Slot(7, l.model)
    case EventTag => Slot(8, l.model)
    case ClusterTag => Slot(if l.isLocal then 0 else 4, l.model)
    case OtherTag => Skipped
    case _ =>
      if l.namespace.None? then NoHierarchy
      else if l.isLocal then
        match l.model.metatype
        case ObjectType => Slot(2, l.model)
        case EnumType => Slot(1, l.model)
        case BitmapType => Slot(3, l.model)
        case OtherType => Skipped
      else if l.isGlobal then Slot(5, l.model)
      else Slot(4, l.namespace.value)
  }

  predicate PlacedIn(locations: seq<Location>, priority: nat, m: Model) {
    exists i | 0 <= i < |locations| :: Place(locations[i]) == Slot(priority, m)
  }

  predicate NoRepeats(models: seq<Model>) {
    forall i, j | 0 <= i < j < |models| :: models[i] != models[j]
  }

  ghost predicate Collected(locations: seq<Location>, slots: seq<seq<Model>>) {
    && |slots| == PRIORITIES
    && (forall p | 0 <= p < PRIORITIES :: NoRepeats(slots[p]))
    && (forall p, m | 0 <= p < PRIORITIES :: m in slots[p] <==> PlacedIn(locations, p, m))
  }

  /** Each slot holds, once each, exactly the models placed in it; a definition outside any hierarchy is an error. */
  method AssignPriorities(locations: seq<Location>) returns (priorities: Option<seq<seq<Model>>>)
    ensures priorities.None? <==> exists i | 0 <= i < |locations| :: Place(locations[i]) == NoHierarchy
    ensures priorities.Some? ==> Collected(locations, priorities.value)
  {
    var slots: seq<seq<Model>> := seq(PRIORITIES, _ => []);
    for i := 0 to |locations|
      invariant |slots| == PRIORITIES
      invariant forall j | 0 <= j < i :: Place(locations[j]) != NoHierarchy
      invariant forall p | 0 <= p < PRIORITIES :: NoRepeats(slots[p])
      invariant forall p, m | 0 <= p < PRIORITIES :: m in slots[p] <==> PlacedIn(locations[..i], p, m)
    {
      ghost var before := slots;
      var place := Place(locations[i]);
      match place {
        case NoHierarchy => return None;
        case Skipped =>
        case Slot(priority, m) =>
          if m !in slots[priority] {
            slots := slots[priority := slots[priority] + [m]];
          }
      }
      forall p, m | 0 <= p < PRIORITIES
        ensures m in slots[p] <==> PlacedIn(locations[..i + 1], p, m)
      {
        PlacedInLast(locations, i, p, m);
        assert m in slots[p] <==> m in before[p] || place == Slot(p, m);
      }
    }
    assert locations[..|locations|] == locations;
    priorities := Some(slots);
  }

  lemma PlacedInLast(locations: seq<Location>, i: nat, priority: nat, m: Model)
    requires i < |locations|
    ensures PlacedIn(locations[..i + 1], priority, m) <==>
              PlacedIn(locations[..i], priority, m) || Place(locations[i]) == Slot(priority, m)
  {
    var now, before := locations[..i + 1], locations[..i];
    assert now[i] == locations[i] && forall j | 0 <= j < i :: now[j] == before[j];
  }

  // ---- From locations to names ----

  /** A definition in another cluster, which is represented by that cluster. */
  predicate Outside(l: Location) {
    l.namespace.Some? && Place(l) == Slot(4, l.namespace.value) && l.model.tag != ClusterTag
  }

  /** How the locations of a scope are: at most one for a model, and the cluster that represents an outside definition
      is not the local one. Models are told apart by their identity. */
  ghost predicate Coherent(locations: seq<Location>) {
    && (forall i, j | 0 <= i < j < |locations| :: locations[i].model.id != locations[j].model.id)
    && (forall i, j | 0 <= i < |locations| && 0 <= j < |locations| && Outside(locations[i]) ::
          locations[j].model.id == locations[i].namespace.value.id ==>
            locations[j].model == locations[i].namespace.value
            && locations[j].model.tag == ClusterTag && !locations[j].isLocal)
    && (forall i, j | 0 <= i < |locations| && 0 <= j < |locations| && Outside(locations[i]) && Outside(locations[j]) ::
          locations[i].namespace.value.id == locations[j].namespace.value.id ==>
            locations[i].namespace == locations[j].namespace)
  }

  lemma PlacedOnce(locations: seq<Location>, i: nat, j: nat)
    requires Coherent(locations) && i < |locations| && j < |locations|
    requires Place(locations[i]).Slot? && Place(locations[j]).Slot?
    requires Place(locations[i]).model.id == Place(locations[j]).model.id
    ensures Place(locations[i]) == Place(locations[j])
  {
    PlacedModel(locations[i]);
    PlacedModel(locations[j]);
    if !Outside(locations[i]) && !Outside(locations[j]) {
      assert i == j;
    }
  }

  lemma PlacedModel(l: Location)
    requires Place(l).Slot?
    ensures Place(l).model == if Outside(l) then l.namespace.value else l.model
  {
  }

  /** The slots share no model. */
  lemma SlotsAreDisjoint(locations: seq<Location>, p: nat, q: nat, m: Model, n: Model)
    requires Coherent(locations) && PlacedIn(locations, p, m) && PlacedIn(locations, q, n) && m.id == n.id
    ensures p == q && m == n
  {
    var i :| 0 <= i < |locations| && Place(locations[i]) == Slot(p, m);
    var j :| 0 <= j < |locations| && Place(locations[j]) == Slot(q, n);
    PlacedOnce(locations, i, j);
  }

  lemma {:induction false} InFlatten(slots: seq<seq<Model>>, m: Model)
    ensures m in Flatten(slots) <==> exists p | 0 <= p < |slots| :: m in slots[p]
  {
    if slots != [] {
      var init := slots[..|slots| - 1];
      InFlatten(init, m);
      assert forall p | 0 <= p < |init| :: init[p] == slots[p];
    }
  }

  lemma {:induction false} FlattenIsDistinct(slots: seq<seq<Model>>)
    requires forall p | 0 <= p < |slots| :: Distinct(slots[p])
    requires forall p, q, m, n | 0 <= p < q < |slots| && m in slots[p] && n in slots[q] :: m.id != n.id
    ensures Distinct(Flatten(slots))
  {
    if slots != [] {
      var init, last := slots[..|slots| - 1], slots[|slots| - 1];
      assert forall p | 0 <= p < |init| :: init[p] == slots[p];
      FlattenIsDistinct(init);
      forall m, n | m in Flatten(init) && n in last ensures m.id != n.id {
        InFlatten(init, m);
        var p :| 0 <= p < |init| && m in init[p];
        assert m in slots[p];
      }
      ConcatIsDistinct(Flatten(init), last);
    }
  }

  lemma ConcatIsDistinct(a: seq<Model>, b: seq<Model>)
    requires Distinct(a) && Distinct(b) && forall m, n | m in a && n in b :: m.id != n.id
    ensures Distinct(a + b)
  {
  }

  /** What is collected by priority is a list of distinct models: exactly those that are placed. */
  lemma CollectedAreDistinct(locations: seq<Location>, slots: seq<seq<Model>>)
    requires Coherent(locations) && Collected(locations, slots)
    ensures Distinct(Flatten(slots))
    ensures forall m :: m in Flatten(slots) <==> exists p | 0 <= p < PRIORITIES :: PlacedIn(locations, p, m)
  {
    forall p | 0 <= p < |slots| ensures Distinct(slots[p]) {
      SlotIsDistinct(locations, slots, p);
    }
    forall p, q, m, n | 0 <= p < q < |slots| && m in slots[p] && n in slots[q] ensures m.id != n.id {
      if m.id == n.id {
        SlotsAreDisjoint(locations, p, q, m, n);
      }
    }
    FlattenIsDistinct(slots);
    forall m ensures m in Flatten(slots) <==> exists p | 0 <= p < PRIORITIES :: PlacedIn(locations, p, m) {
      InFlatten(slots, m);
      assert forall p | 0 <= p < PRIORITIES :: m in slots[p] <==> PlacedIn(locations, p, m);
    }
  }

  lemma SlotIsDistinct(locations: seq<Location>, slots: seq<seq<Model>>, p: nat)
    requires Coherent(locations) && Collected(locations, slots) && p < PRIORITIES
    ensures Distinct(slots[p])
  {
    var slot := slots[p];
    forall i, j | 0 <= i < j < |slot| ensures slot[i].id != slot[j].id {
      assert slot[i] in slot && slot[j] in slot && slot[i] != slot[j];
      if slot[i].id == slot[j].id {
        SlotsAreDisjoint(locations, p, p, slot[i], slot[j]);
      }
    }
  }

  /** From the locations of a scope to its names: every model placed gets one, no two get the same. */
  method AssignNames(locations: seq<Location>) returns (names: Option<map<nat, string>>)
    requires Coherent(locations)
    ensures names.None? <==> exists i | 0 <= i < |locations| :: Place(locations[i]) == NoHierarchy
    ensures names.Some? ==> forall i | 0 <= i < |locations| && Place(locations[i]).Slot? ::
              Place(locations[i]).model.id in names.value
    ensures names.Some? ==> forall i, j | 0 <= i < j < |locations| && Place(locations[i]).Slot? && Place(locations[j]).Slot? ::
              Place(locations[i]).model.id in names.value && Place(locations[j]).model.id in names.value
              && (names.value[Place(locations[i]).model.id] == names.value[Place(locations[j]).model.id] <==>
                    Place(locations[i]).model == Place(locations[j]).model)
  {
    var priorities := AssignPriorities(locations);
    if priorities.None? {
      return None;
    }
    var all := AssignNamesByPriority(priorities.value);
    PlacedModelsAreNamed(locations, priorities.value);
    names := Some(all);
  }

  lemma PlacedModelsAreNamed(locations: seq<Location>, slots: seq<seq<Model>>)
    requires Coherent(locations) && Collected(locations, slots)
    ensures
      var names := AssignAll(Flatten(slots)).names;
      forall i, j | 0 <= i < |locations| && 0 <= j < |locations| && Place(locations[i]).Slot? && Place(locations[j]).Slot? ::
        Place(locations[i]).model.id in names && Place(locations[j]).model.id in names
        && (names[Place(locations[i]).model.id] == names[Place(locations[j]).model.id] <==>
              Place(locations[i]).model == Place(locations[j]).model)
  {
    var names := AssignAll(Flatten(slots)).names;
    forall i, j | 0 <= i < |locations| && 0 <= j < |locations| && Place(locations[i]).Slot? && Place(locations[j]).Slot?
      ensures Place(locations[i]).model.id in names && Place(locations[j]).model.id in names
      ensures names[Place(locations[i]).model.id] == names[Place(locations[j]).model.id] <==>
                Place(locations[i]).model == Place(locations[j]).model
    {
      PlacedIsCollected(locations, slots, i);
      PlacedIsCollected(locations, slots, j);
      var all := Flatten(slots);
      var k :| 0 <= k < |all| && all[k] == Place(locations[i]).model;
      var l :| 0 <= l < |all| && all[l] == Place(locations[j]).model;
      NamesAreTotalAndInjective(all, k, l);
      if all[k].id == all[l].id {
        PlacedOnce(locations, i, j);
      }
    }
  }

  lemma PlacedIsCollected(locations: seq<Location>, slots: seq<seq<Model>>, i: nat)
    requires Collected(locations, slots) && i < |locations| && Place(locations[i]).Slot?
    ensures Place(locations[i]).model in Flatten(slots)
  {
    var place := Place(locations[i]);
    assert PlacedIn(locations, place.priority, place.model);
    assert place.model in slots[place.priority];
    InFlatten(slots, place.model);
  }

  /** A collected model goes without its preferred name exactly when one before it, in an earlier slot or earlier in its
      own, has that name. */
  lemma CollectedModelLosesItsName(locations: seq<Location>, slots: seq<seq<Model>>, i: nat)
    requires Coherent(locations) && Collected(locations, slots) && i < |Flatten(slots)|
    ensures
      var all, names := Flatten(slots), AssignAll(Flatten(slots)).names;
      && all[i].id in names
      && (forall j | 0 <= j < i :: all[j].id in names)
      && (names[all[i].id] != Preferred(all[i]) <==> exists j | 0 <= j < i :: names[all[j].id] == Preferred(all[i]))
  {
    CollectedAreDistinct(locations, slots);
    PreferredNameIsLostToAnEarlierModel(Flatten(slots), i);
  }
}
