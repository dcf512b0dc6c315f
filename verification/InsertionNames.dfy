/** When code on a block throws, and what single calls leave behind (TsFile.ts). */
module InsertionNames {
  import opened InsertionCursor
  import opened Options

  function NamesOf(items: seq<Item>): set<string> {
    set item | item in items && item.defines.Some? :: item.defines.value
  }

  /** No name is defined twice, counting those that are defined already. */
  predicate DefinedOnce(names: set<string>, items: seq<Item>) {
    && (forall i | 0 <= i < |items| && items[i].defines.Some? :: items[i].defines.value !in names)
    && (forall i, j | 0 <= i < j < |items| && items[i].defines.Some? && items[j].defines.Some? ::
          items[i].defines.value != items[j].defines.value)
  }

  lemma NamesOfConcat(a: seq<Item>, b: seq<Item>)
    ensures NamesOf(a + b) == NamesOf(a) + NamesOf(b)
  {
    forall n ensures n in NamesOf(a + b) <==> n in NamesOf(a) + NamesOf(b) {
      if n in NamesOf(a) {
        var item :| item in a && item.defines == Some(n);
        assert item in a + b;
      }
      if n in NamesOf(b) {
        var item :| item in b && item.defines == Some(n);
        assert item in a + b;
      }
    }
  }

  lemma DefinedOnceConcat(names: set<string>, a: seq<Item>, b: seq<Item>)
    ensures DefinedOnce(names, a + b) <==> DefinedOnce(names, a) && DefinedOnce(names + NamesOf(a), b)
  {
    var all := a + b;
    if DefinedOnce(names, all) {
      assert forall i | 0 <= i < |a| :: a[i] == all[i];
      assert forall i | 0 <= i < |b| :: b[i] == all[|a| + i];
      forall i, k | 0 <= i < |b| && 0 <= k < |a| && a[k].defines.Some? ensures a[k].defines != b[i].defines {
        assert all[k] == a[k] && all[|a| + i] == b[i];
      }
    }
    if DefinedOnce(names, a) && DefinedOnce(names + NamesOf(a), b) {
      forall i, j | 0 <= i < j < |all| && all[i].defines.Some? && all[j].defines.Some?
        ensures all[i].defines.value != all[j].defines.value
      {
        if i < |a| <= j {
          assert all[i] in a;
          assert all[i].defines.value in NamesOf(a) && all[j] == b[j - |a|];
        }
      }
    }
  }

  lemma FirstName(item: Item)
    ensures NamesOf([item]) == if item.defines.Some? then {item.defines.value} else {}
  {
    assert item in [item];
  }

  lemma {:induction false} RegistersIff(names: set<string>, items: seq<Item>)
    ensures Registers(names, items) <==> DefinedOnce(names, items)
    ensures Registers(names, items) ==> Register(names, items) == names + NamesOf(items)
    decreases items
  {
    if items != [] {
      FirstName(items[0]);
      assert items == [items[0]] + items[1..];
      DefinedOnceConcat(names, [items[0]], items[1..]);
      NamesOfConcat([items[0]], items[1..]);
      RegistersIff(names + NamesOf([items[0]]), items[1..]);
    } else {
      assert NamesOf(items) == {};
    }
  }

  lemma Prefixes(names: set<string>, items: seq<Item>, k: nat)
    requires 1 <= k <= |items|
    ensures DefinedOnce(names, items[..k]) <==>
              DefinedOnce(names, [items[0]]) && DefinedOnce(names + NamesOf([items[0]]), items[1..][..k - 1])
    ensures NamesOf(items[..k]) == NamesOf([items[0]]) + NamesOf(items[1..][..k - 1])
  {
    assert items[..k] == [items[0]] + items[1..][..k - 1];
    DefinedOnceConcat(names, [items[0]], items[1..][..k - 1]);
    NamesOfConcat([items[0]], items[1..][..k - 1]);
  }

  lemma OneDefinedIff(names: set<string>, item: Item)
    ensures DefinedOnce(names, [item]) <==> !Conflicts(names, item)
  {
    assert [item][0] == item;
  }

  /** The names before the first that is defined already are registered, although the call throws. */
  lemma {:induction false} RegisteredBeforeConflict(names: set<string>, items: seq<Item>, k: nat)
    requires k < |items| && DefinedOnce(names, items[..k]) && !DefinedOnce(names, items[..k + 1])
    ensures Register(names, items) == names + NamesOf(items[..k]) && !Registers(names, items)
    decreases items
  {
    FirstName(items[0]);
    OneDefinedIff(names, items[0]);
    if k == 0 {
      assert items[..1] == [items[0]];
    } else {
      Prefixes(names, items, k);
      Prefixes(names, items, k + 1);
      RegisteredBeforeConflict(names + NamesOf([items[0]]), items[1..], k - 1);
    }
  }

  /** All that a piece of code adds, at any depth, in order. */
  function AllAdded(op: Op): seq<Item>
    decreases op
  {
    match op
    case Add(items) => items
    case Remove(_) => []
    case InsertingBefore(_, body) => AllAddedBy(body)
  }

  function AllAddedBy(ops: seq<Op>): seq<Item>
    decreases ops
  {
    if ops == [] then [] else AllAdded(ops[0]) + AllAddedBy(ops[1..])
  }

  /** A call throws exactly when it defines a name twice or again. */
  lemma {:induction false} CallThrowsIff(b: Block, op: Op)
    ensures Exec(b, op).ok <==> DefinedOnce(b.definedNames, AllAdded(op))
    ensures Exec(b, op).ok ==> Exec(b, op).block.definedNames == b.definedNames + NamesOf(AllAdded(op))
    decreases op
  {
    match op
    case Add(items) => RegistersIff(b.definedNames, items);
    case Remove(x) => assert NamesOf([]) == {};
    case InsertingBefore(before, body) => CodeThrowsIff(b.(addBefore := Some(before)), body);
  }

  /** Code of any nesting throws exactly when what it adds defines a name twice or again; else all its names are
      defined afterwards, those of removed entries included. */
  lemma {:induction false} CodeThrowsIff(b: Block, ops: seq<Op>)
    ensures ExecAll(b, ops).ok <==> DefinedOnce(b.definedNames, AllAddedBy(ops))
    ensures ExecAll(b, ops).ok ==> ExecAll(b, ops).block.definedNames == b.definedNames + NamesOf(AllAddedBy(ops))
    decreases ops
  {
    if ops != [] {
      CallThrowsIff(b, ops[0]);
      DefinedOnceConcat(b.definedNames, AllAdded(ops[0]), AllAddedBy(ops[1..]));
      NamesOfConcat(AllAdded(ops[0]), AllAddedBy(ops[1..]));
      if Exec(b, ops[0]).ok {
        CodeThrowsIff(Exec(b, ops[0]).block, ops[1..]);
      }
    } else {
      assert NamesOf([]) == {};
    }
  }

  /** When an addition throws, no entry is added, but the names before the conflict are defined. */
  lemma ThrowingDefinesNames(b: Block, items: seq<Item>, k: nat)
    requires k < |items| && DefinedOnce(b.definedNames, items[..k]) && !DefinedOnce(b.definedNames, items[..k + 1])
    ensures Exec(b, Add(items)) == Outcome(b.(definedNames := b.definedNames + NamesOf(items[..k])), false)
  {
    RegisteredBeforeConflict(b.definedNames, items, k);
  }

  lemma IndexOfFirst(before: seq<Item>, x: Item, after: seq<Item>)
    requires x !in before
    ensures IndexOf(before + [x] + after, x) == |before|
  {
    var all := before + [x] + after;
    var i := IndexOf(all, x);
    assert all[|before|] == x;
    assert forall j | 0 <= j < |before| :: all[j] == before[j];
    forall j | 0 <= j < i ensures all[j] != x {
      assert all[..i][j] == all[j];
    }
  }

  /** Adding at a cursor puts the entries before its first occurrence. */
  lemma AddPlaces(b: Block, items: seq<Item>, before: seq<Item>, x: Item, after: seq<Item>)
    requires DefinedOnce(b.definedNames, items) && x !in before
    requires b.addBefore == Some(x) && b.entries == before + [x] + after
    ensures Exec(b, Add(items)).block.entries == before + items + [x] + after
  {
    RegistersIff(b.definedNames, items);
    IndexOfFirst(before, x, after);
    assert b.entries[..|before|] == before && b.entries[|before|..] == [x] + after;
    assert before + items + ([x] + after) == before + items + [x] + after;
  }

  /** Without a cursor, or when it is not there, they go to the end. */
  lemma AddAppends(b: Block, items: seq<Item>)
    requires DefinedOnce(b.definedNames, items)
    requires b.addBefore.Some? ==> b.addBefore.value !in b.entries
    ensures Exec(b, Add(items)).block.entries == b.entries + items
  {
    RegistersIff(b.definedNames, items);
    assert b.entries[..|b.entries|] == b.entries && b.entries[|b.entries|..] == [];
    assert b.entries + items + [] == b.entries + items;
  }

  /** Removing takes the first occurrence, and never throws or forgets a name. */
  lemma RemoveTakesTheFirst(b: Block, before: seq<Item>, x: Item, after: seq<Item>)
    requires x !in before
    ensures b.entries == before + [x] + after ==> Exec(b, Remove(x)) == Outcome(b.(entries := before + after), true)
    ensures x !in b.entries ==> Exec(b, Remove(x)) == Outcome(b, true)
  {
    if b.entries == before + [x] + after {
      IndexOfFirst(before, x, after);
      assert b.entries[..|before|] == before && b.entries[|before| + 1..] == after;
    }
  }
}
