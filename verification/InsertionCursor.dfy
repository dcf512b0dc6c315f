/** The insertion cursor of a code block (TsFile.ts): `add`, `remove` and nested `insertingBefore` in any order,
    including when a conflicting name makes `add` throw. */
module InsertionCursor {
  import opened Options

  /** An entry object: its identity, and the identifier that its text defines, if any. */
  datatype Item = Item(id: nat, defines: Option<string>)

  datatype Block = Block(entries: seq<Item>, addBefore: Option<Item>, definedNames: set<string>)

  /** A piece of code that works on a block. */
  datatype Op =
    | Add(items: seq<Item>)
    | Remove(item: Item)
    | InsertingBefore(before: Item, body: seq<Op>)

  /** The outcome of a piece of code; it is not `ok` when it threw. */
  datatype Outcome = Outcome(block: Block, ok: bool)

  /** `entries.indexOf(x)`, with the length for "not found". */
  function IndexOf(entries: seq<Item>, x: Item): (i: nat)
    ensures i <= |entries|
    ensures i < |entries| <==> x in entries
    ensures i < |entries| ==> entries[i] == x
    ensures x !in entries[..i]
  {
    if entries == [] || entries[0] == x then 0
    else
      var rest := IndexOf(entries[1..], x);
      assert entries[..1 + rest] == [entries[0]] + entries[1..][..rest];
      1 + rest
  }

  /** The names after registering those of the items, up to the first that is already defined. */
  function Register(names: set<string>, items: seq<Item>): set<string>
    decreases items
  {
    if items == [] || Conflicts(names, items[0]) then names
    else Register(names + (if items[0].defines.Some? then {items[0].defines.value} else {}), items[1..])
  }

  predicate Conflicts(names: set<string>, item: Item) {
    item.defines.Some? && item.defines.value in names
  }

  predicate Registers(names: set<string>, items: seq<Item>)
    decreases items
  {
    items == [] ||
    (!Conflicts(names, items[0])
     && Registers(names + (if items[0].defines.Some? then {items[0].defines.value} else {}), items[1..]))
  }

  function Inserted(entries: seq<Item>, addBefore: Option<Item>, items: seq<Item>): seq<Item> {
    if addBefore.Some? then
      var i := IndexOf(entries, addBefore.value);
      entries[..i] + items + entries[i..]
    else entries + items
  }

  function Without(entries: seq<Item>, x: Item): seq<Item> {
    var i := IndexOf(entries, x);
    if i < |entries| then entries[..i] + entries[i + 1..] else entries
  }

  function Exec(b: Block, op: Op): Outcome
    decreases op
  {
    match op
    case Add(items) =>
      var names := Register(b.definedNames, items);
      if Registers(b.definedNames, items)
      then Outcome(Block(Inserted(b.entries, b.addBefore, items), b.addBefore, names), true)
      else Outcome(b.(definedNames := names), false)
    case Remove(x) => Outcome(b.(entries := Without(b.entries, x)), true)
    case InsertingBefore(before, body) =>
      var o := ExecAll(b.(addBefore := Some(before)), body);
      Outcome(o.block.(addBefore := b.addBefore), o.ok)
  }

  function ExecAll(b: Block, ops: seq<Op>): Outcome
    decreases ops
  {
    if ops == [] then Outcome(b, true)
    else
      var o := Exec(b, ops[0]);
      if o.ok then ExecAll(o.block, ops[1..]) else o
  }

  // ---- The block object ----

  class CodeBlock {
    var entries: seq<Item>
    var addBefore: Option<Item>
    var definedNames: set<string>

    function View(): Block
      reads this
    {
      Block(entries, addBefore, definedNames)
    }

    constructor ()
      ensures View() == Block([], None, {})
    {
      entries, addBefore, definedNames := [], None, {};
    }

    method NameDefined(item: Item) returns (ok: bool)
      modifies this`definedNames
      ensures ok == !Conflicts(old(definedNames), item)
      ensures definedNames == old(definedNames)
                              + if ok && item.defines.Some? then {item.defines.value} else {}
    {
      if item.defines.None? {
        return true;
      }
      if item.defines.value in definedNames {
        return false;
      }
      definedNames := definedNames + {item.defines.value};
      ok := true;
    }

    method AddEntries(items: seq<Item>) returns (ok: bool)
      modifies this
      ensures Outcome(View(), ok) == Exec(old(View()), Add(items))
    {
      for i := 0 to |items|
        invariant Register(definedNames, items[i..]) == Register(old(definedNames), items)
        invariant Registers(definedNames, items[i..]) == Registers(old(definedNames), items)
        invariant entries == old(entries) && addBefore == old(addBefore)
      {
        assert items[i..][0] == items[i] && items[i..][1..] == items[i + 1..];
        ok := NameDefined(items[i]);
        if !ok {
          return;
        }
      }
      assert items[|items|..] == [];
      ok := true;
      if addBefore.Some? {
        var index := IndexOf(entries, addBefore.value);
        if index < |entries| {
          entries := entries[..index] + items + entries[index..];
          return;
        }
        assert entries[..index] + items + entries[index..] == entries + items;
      }
      entries := entries + items;
    }

    method RemoveEntry(x: Item)
      modifies this`entries
      ensures Outcome(View(), true) == Exec(old(View()), Remove(x))
    {
      var index := IndexOf(entries, x);
      if index < |entries| {
        entries := entries[..index] + entries[index + 1..];
      }
    }

    /** `insertingBefore` with a body; the previous cursor comes back also when the body throws. */
    method ExecuteBefore(before: Item, body: seq<Op>) returns (ok: bool)
      modifies this
      ensures Outcome(View(), ok) == Exec(old(View()), InsertingBefore(before, body))
      decreases body, 1
    {
      var oldAddBefore := addBefore;
      addBefore := Some(before);
      ok := ExecuteAll(body);
      addBefore := oldAddBefore;
    }

    method ExecuteAll(ops: seq<Op>) returns (ok: bool)
      modifies this
      ensures Outcome(View(), ok) == ExecAll(old(View()), ops)
      decreases ops, 0
    {
      ok := true;
      for i := 0 to |ops|
        invariant ExecAll(View(), ops[i..]) == ExecAll(old(View()), ops)
      {
        assert ops[i..][0] == ops[i] && ops[i..][1..] == ops[i + 1..];
        match ops[i] {
          case Add(items) => ok := AddEntries(items);
          case Remove(x) => RemoveEntry(x); ok := true;
          case InsertingBefore(before, body) => ok := ExecuteBefore(before, body);
        }
        if !ok {
          return;
        }
      }
      assert ops[|ops|..] == [];
      ok := true;
    }
  }

  // ---- The cursor comes back ----

  lemma {:induction false} CursorIsRestored(b: Block, ops: seq<Op>)
    ensures ExecAll(b, ops).block.addBefore == b.addBefore
    decreases ops
  {
    if ops != [] && Exec(b, ops[0]).ok {
      CursorIsRestored(Exec(b, ops[0]).block, ops[1..]);
    }
  }

  // ---- Where entries end up ----

  /** The entries that are not in `hidden`, in order. */
  function Keep(entries: seq<Item>, hidden: set<Item>): seq<Item> {
    if entries == [] then []
    else (if entries[0] in hidden then [] else [entries[0]]) + Keep(entries[1..], hidden)
  }

  lemma {:induction false} KeepConcat(a: seq<Item>, b: seq<Item>, hidden: set<Item>)
    ensures Keep(a + b, hidden) == Keep(a, hidden) + Keep(b, hidden)
  {
    if a == [] {
      assert a + b == b;
    } else {
      assert (a + b)[1..] == a[1..] + b;
      KeepConcat(a[1..], b, hidden);
    }
  }

  lemma {:induction false} KeepNone(a: seq<Item>, hidden: set<Item>)
    requires forall x | x in a :: x in hidden
    ensures Keep(a, hidden) == []
  {
    if a != [] {
      KeepNone(a[1..], hidden);
    }
  }

  lemma {:induction false} KeptAreEntries(a: seq<Item>, hidden: set<Item>, x: Item)
    ensures x in Keep(a, hidden) <==> x in a && x !in hidden
  {
    if a != [] {
      KeptAreEntries(a[1..], hidden, x);
    }
  }

  /** Everything a piece of code adds or removes. */
  function Touched(ops: seq<Op>): set<Item>
    decreases ops
  {
    if ops == [] then {} else TouchedBy(ops[0]) + Touched(ops[1..])
  }

  function TouchedBy(op: Op): set<Item>
    decreases op
  {
    match op
    case Add(items) => set x | x in items
    case Remove(x) => {x}
    case InsertingBefore(_, body) => Touched(body)
  }

  lemma InsertedKeeps(entries: seq<Item>, addBefore: Option<Item>, items: seq<Item>, hidden: set<Item>)
    requires forall x | x in items :: x in hidden
    ensures Keep(Inserted(entries, addBefore, items), hidden) == Keep(entries, hidden)
  {
    KeepNone(items, hidden);
    if addBefore.Some? {
      var i := IndexOf(entries, addBefore.value);
      KeepConcat(entries[..i] + items, entries[i..], hidden);
      KeepConcat(entries[..i], items, hidden);
      KeepConcat(entries[..i], entries[i..], hidden);
      assert entries[..i] + entries[i..] == entries;
    } else {
      KeepConcat(entries, items, hidden);
    }
  }

  lemma WithoutKeeps(entries: seq<Item>, x: Item, hidden: set<Item>)
    requires x in hidden
    ensures Keep(Without(entries, x), hidden) == Keep(entries, hidden)
  {
    var i := IndexOf(entries, x);
    if i < |entries| {
      var before, after := entries[..i], entries[i + 1..];
      assert entries == before + [x] + after;
      KeepConcat(before + [x], after, hidden);
      KeepConcat(before, [x], hidden);
      KeepConcat(before, after, hidden);
      assert Keep([x], hidden) == [] && Keep(before, hidden) + [] == Keep(before, hidden);
    }
  }

  /** Entries that a piece of code neither adds nor removes keep their order, and none is lost. */
  lemma {:induction false} OthersKeepTheirOrder(b: Block, ops: seq<Op>, hidden: set<Item>)
    requires Touched(ops) <= hidden
    ensures Keep(ExecAll(b, ops).block.entries, hidden) == Keep(b.entries, hidden)
    decreases ops
  {
    if ops != [] {
      OpKeepsOthers(b, ops[0], hidden);
      OthersKeepTheirOrder(Exec(b, ops[0]).block, ops[1..], hidden);
    }
  }

  lemma {:induction false} OpKeepsOthers(b: Block, op: Op, hidden: set<Item>)
    requires TouchedBy(op) <= hidden
    ensures Keep(Exec(b, op).block.entries, hidden) == Keep(b.entries, hidden)
    decreases op
  {
    match op
    case Add(items) =>
      assert forall x | x in items :: x in TouchedBy(op);
      InsertedKeeps(b.entries, b.addBefore, items, hidden);
    case Remove(x) =>
      WithoutKeeps(b.entries, x, hidden);
    case InsertingBefore(before, body) =>
      OthersKeepTheirOrder(b.(addBefore := Some(before)), body, hidden);
  }

  /** What a piece of code adds at the cursor `x`, in order: with that cursor set when it starts, or by itself. */
  function AddedAt(ops: seq<Op>, cursor: Option<Item>, x: Item): seq<Item>
    decreases ops
  {
    if ops == [] then [] else AddedByAt(ops[0], cursor, x) + AddedAt(ops[1..], cursor, x)
  }

  function AddedByAt(op: Op, cursor: Option<Item>, x: Item): seq<Item>
    decreases op
  {
    match op
    case Add(items) => if cursor == Some(x) then items else []
    case Remove(_) => []
    case InsertingBefore(y, body) => AddedAt(body, Some(y), x)
  }

  /** What it removes, or adds elsewhere. */
  function Elsewhere(ops: seq<Op>, cursor: Option<Item>, x: Item): set<Item>
    decreases ops
  {
    if ops == [] then {} else ElsewhereBy(ops[0], cursor, x) + Elsewhere(ops[1..], cursor, x)
  }

  function ElsewhereBy(op: Op, cursor: Option<Item>, x: Item): set<Item>
    decreases op
  {
    match op
    case Add(items) => if cursor == Some(x) then {} else set y | y in items
    case Remove(y) => {y}
    case InsertingBefore(y, body) => Elsewhere(body, Some(y), x)
  }

  lemma LongerPrefixHolds(p: seq<Item>, q: seq<Item>, p': seq<Item>, q': seq<Item>, x: Item)
    requires p + [x] + q == p' + [x] + q'
    ensures |p| < |p'| ==> x in p'
  {
    var s := p + [x] + q;
    assert s[|p|] == x && s[..|p'|] == p';
  }

  lemma SplitAtCursor(p: seq<Item>, q: seq<Item>, p': seq<Item>, q': seq<Item>, x: Item)
    requires p + [x] + q == p' + [x] + q' && x !in p && x !in p'
    ensures p == p' && q == q'
  {
    var s := p + [x] + q;
    assert s[|p|] == x && s[|p'|] == x;
    assert |p| == |p'| by {
      LongerPrefixHolds(p, q, p', q', x);
      LongerPrefixHolds(p', q', p, q, x);
    }
    assert s[..|p|] == p && s[..|p'|] == p';
    assert s[|p| + 1..] == q && s[|p'| + 1..] == q';
  }

  /** Adding at the cursor, seen through what is kept. */
  lemma AddAtCursor(entries: seq<Item>, x: Item, items: seq<Item>, hidden: set<Item>, p: seq<Item>, q: seq<Item>)
    requires x !in hidden && x !in p && Keep(entries, hidden) == p + [x] + q
    ensures Keep(Inserted(entries, Some(x), items), hidden) == p + Keep(items, hidden) + [x] + q
  {
    KeptAreEntries(entries, hidden, x);
    assert (p + [x] + q)[|p|] == x;
    var i := IndexOf(entries, x);
    var before, after := entries[..i], entries[i + 1..];
    assert entries[i..] == [x] + after && entries == before + [x] + after;
    KeepConcat(before + [x], after, hidden);
    KeepConcat(before, [x], hidden);
    assert Keep([x], hidden) == [x];
    KeptAreEntries(before, hidden, x);
    SplitAtCursor(Keep(before, hidden), Keep(after, hidden), p, q, x);
    KeepConcat(before + items, [x] + after, hidden);
    KeepConcat(before, items, hidden);
    KeepConcat([x], after, hidden);
    assert p + Keep(items, hidden) + ([x] + q) == p + Keep(items, hidden) + [x] + q;
  }

  lemma Regroup<T>(a: seq<T>, b: seq<T>, c: seq<T>, d: seq<T>, e: seq<T>)
    ensures a + b + c + d + e == a + (b + c) + d + e
  {
    assert a + b + c == a + (b + c);
  }

  lemma FirstThenRest(b: Block, ops: seq<Op>, x: Item)
    requires ops != [] && ExecAll(b, ops).ok
    ensures Exec(b, ops[0]).ok && ExecAll(b, ops) == ExecAll(Exec(b, ops[0]).block, ops[1..])
    ensures Exec(b, ops[0]).block.addBefore == b.addBefore
    ensures AddedAt(ops, b.addBefore, x) == AddedByAt(ops[0], b.addBefore, x) + AddedAt(ops[1..], b.addBefore, x)
    ensures Elsewhere(ops, b.addBefore, x) == ElsewhereBy(ops[0], b.addBefore, x) + Elsewhere(ops[1..], b.addBefore, x)
  {
    CursorIsRestored(b, [ops[0]]);
  }

  /** One step, seen through what is kept. */
  lemma {:induction false} StepAtCursor(b: Block, op: Op, x: Item, hidden: set<Item>, p: seq<Item>, q: seq<Item>)
    requires Exec(b, op).ok
    requires ElsewhereBy(op, b.addBefore, x) <= hidden && x !in hidden && x !in AddedByAt(op, b.addBefore, x)
    requires Keep(b.entries, hidden) == p + [x] + q && x !in p
    ensures Keep(Exec(b, op).block.entries, hidden) == p + Keep(AddedByAt(op, b.addBefore, x), hidden) + [x] + q
    decreases op
  {
    match op
    case Add(items) =>
      if b.addBefore == Some(x) {
        AddAtCursor(b.entries, x, items, hidden, p, q);
      } else {
        assert forall y | y in items :: y in ElsewhereBy(op, b.addBefore, x);
        InsertedKeeps(b.entries, b.addBefore, items, hidden);
        assert p + [] == p;
      }
    case Remove(y) =>
      WithoutKeeps(b.entries, y, hidden);
      assert p + [] == p;
    case InsertingBefore(y, body) =>
      AddedBeforeCursor(b.(addBefore := Some(y)), body, x, hidden, p, q);
  }

  /** Whatever the cursor is at first, and however insertions are nested: all that is added at the cursor `x` stands
      immediately before `x`, in the order in which it was added. Leaving out what is removed, and what is added
      elsewhere, nothing else has changed. */
  lemma {:induction false} AddedBeforeCursor(b: Block, ops: seq<Op>, x: Item, hidden: set<Item>, p: seq<Item>, q: seq<Item>)
    requires ExecAll(b, ops).ok
    requires Elsewhere(ops, b.addBefore, x) <= hidden && x !in hidden && x !in AddedAt(ops, b.addBefore, x)
    requires Keep(b.entries, hidden) == p + [x] + q && x !in p
    ensures Keep(ExecAll(b, ops).block.entries, hidden) == p + Keep(AddedAt(ops, b.addBefore, x), hidden) + [x] + q
    decreases ops
  {
    if ops == [] {
      assert p + [] == p;
    } else {
      var items, more := AddedByAt(ops[0], b.addBefore, x), AddedAt(ops[1..], b.addBefore, x);
      FirstThenRest(b, ops, x);
      StepAtCursor(b, ops[0], x, hidden, p, q);
      KeptAreEntries(items, hidden, x);
      KeepConcat(items, more, hidden);
      var grown, later := p + Keep(items, hidden), Keep(more, hidden);
      AddedBeforeCursor(Exec(b, ops[0]).block, ops[1..], x, hidden, grown, q);
      Regroup(p, Keep(items, hidden), later, [x], q);
    }
  }

  /** For a whole `insertingBefore` on a block that holds the cursor entry. */
  lemma InsertingBeforePlaces(b: Block, x: Item, body: seq<Op>)
    requires Exec(b, InsertingBefore(x, body)).ok
    requires x in b.entries && x !in Touched(body)
    ensures
      var i := IndexOf(b.entries, x);
      var hidden := Elsewhere(body, Some(x), x);
      Keep(Exec(b, InsertingBefore(x, body)).block.entries, hidden)
      == Keep(b.entries[..i], hidden) + Keep(AddedAt(body, Some(x), x), hidden) + [x] + Keep(b.entries[i + 1..], hidden)
  {
    var i := IndexOf(b.entries, x);
    var hidden := Elsewhere(body, Some(x), x);
    AddedOrElsewhere(body, Some(x), x, x);
    KeepAround(b.entries, x, hidden);
    AddedBeforeCursor(b.(addBefore := Some(x)), body, x, hidden,
                      Keep(b.entries[..i], hidden), Keep(b.entries[i + 1..], hidden));
  }

  lemma KeepAround(entries: seq<Item>, x: Item, hidden: set<Item>)
    requires x in entries && x !in hidden
    ensures
      var i := IndexOf(entries, x);
      Keep(entries, hidden) == Keep(entries[..i], hidden) + [x] + Keep(entries[i + 1..], hidden)
      && x !in Keep(entries[..i], hidden)
  {
    var i := IndexOf(entries, x);
    var before, after := entries[..i], entries[i + 1..];
    assert entries == before + [x] + after;
    KeepConcat(before + [x], after, hidden);
    KeepConcat(before, [x], hidden);
    assert Keep([x], hidden) == [x];
    KeptAreEntries(before, hidden, x);
  }

  lemma {:induction false} AddedOrElsewhere(ops: seq<Op>, cursor: Option<Item>, x: Item, y: Item)
    ensures y in Touched(ops) <==> y in AddedAt(ops, cursor, x) || y in Elsewhere(ops, cursor, x)
    decreases ops
  {
    if ops != [] {
      match ops[0] {
        case InsertingBefore(z, body) => AddedOrElsewhere(body, Some(z), x, y);
        case _ =>
      }
      AddedOrElsewhere(ops[1..], cursor, x, y);
    }
  }

  // ---- When the cursor entry is gone ----

  lemma UntouchedStays(b: Block, op: Op, x: Item)
    requires x !in TouchedBy(op)
    ensures x in Exec(b, op).block.entries <==> x in b.entries
  {
    OpKeepsOthers(b, op, TouchedBy(op));
    KeptAreEntries(b.entries, TouchedBy(op), x);
    KeptAreEntries(Exec(b, op).block.entries, TouchedBy(op), x);
  }

  lemma {:induction false} StepAppends(b: Block, op: Op, x: Item, hidden: set<Item>)
    requires Exec(b, op).ok && x !in b.entries && x !in TouchedBy(op)
    requires ElsewhereBy(op, b.addBefore, x) <= hidden
    ensures Keep(Exec(b, op).block.entries, hidden)
         == Keep(b.entries, hidden) + Keep(AddedByAt(op, b.addBefore, x), hidden)
    decreases op
  {
    match op
    case Add(items) =>
      if b.addBefore == Some(x) {
        var i := IndexOf(b.entries, x);
        assert b.entries[..i] + items + b.entries[i..] == b.entries + items;
        KeepConcat(b.entries, items, hidden);
      } else {
        assert forall y | y in items :: y in ElsewhereBy(op, b.addBefore, x);
        InsertedKeeps(b.entries, b.addBefore, items, hidden);
      }
    case Remove(y) =>
      WithoutKeeps(b.entries, y, hidden);
    case InsertingBefore(y, body) =>
      AppendedWithoutCursor(b.(addBefore := Some(y)), body, x, hidden);
  }

  /** What is added at a cursor that is not in the block goes to its end, in order. */
  lemma {:induction false} AppendedWithoutCursor(b: Block, ops: seq<Op>, x: Item, hidden: set<Item>)
    requires ExecAll(b, ops).ok && x !in b.entries && x !in Touched(ops)
    requires Elsewhere(ops, b.addBefore, x) <= hidden
    ensures Keep(ExecAll(b, ops).block.entries, hidden)
         == Keep(b.entries, hidden) + Keep(AddedAt(ops, b.addBefore, x), hidden)
    decreases ops
  {
    if ops != [] {
      var items, more := AddedByAt(ops[0], b.addBefore, x), AddedAt(ops[1..], b.addBefore, x);
      FirstThenRest(b, ops, x);
      StepAppends(b, ops[0], x, hidden);
      UntouchedStays(b, ops[0], x);
      AppendedWithoutCursor(Exec(b, ops[0]).block, ops[1..], x, hidden);
      KeepConcat(items, more, hidden);
    }
  }

  lemma {:induction false} ExecConcat(b: Block, first: seq<Op>, second: seq<Op>)
    requires ExecAll(b, first + second).ok
    ensures ExecAll(b, first).ok && ExecAll(b, first + second) == ExecAll(ExecAll(b, first).block, second)
    decreases first
  {
    if first == [] {
      assert first + second == second;
    } else {
      assert (first + second)[1..] == first[1..] + second;
      ExecConcat(Exec(b, first[0]).block, first[1..], second);
    }
  }

  lemma RemovedCursor(entries: seq<Item>, x: Item, hidden: set<Item>, p: seq<Item>, q: seq<Item>)
    requires x !in hidden && x !in p && x !in q && Keep(entries, hidden) == p + [x] + q
    ensures Keep(Without(entries, x), hidden) == p + q && x !in Without(entries, x)
  {
    assert (p + [x] + q)[|p|] == x;
    KeptAreEntries(entries, hidden, x);
    KeepAround(entries, x, hidden);
    var i := IndexOf(entries, x);
    SplitAtCursor(Keep(entries[..i], hidden), Keep(entries[i + 1..], hidden), p, q, x);
    KeepConcat(entries[..i], entries[i + 1..], hidden);
    KeptAreEntries(Without(entries, x), hidden, x);
  }

  /** A piece of code that removes the entry at its cursor: what it has added there until then stays in its place, and
      what it adds there from then on goes to the end. */
  lemma CursorRemovedMidway(
      b: Block, x: Item, first: seq<Op>, second: seq<Op>, hidden: set<Item>, p: seq<Item>, q: seq<Item>)
    requires ExecAll(b, first + ([Remove(x)] + second)).ok && x !in Touched(first) && x !in Touched(second)
    requires Elsewhere(first, b.addBefore, x) <= hidden && Elsewhere(second, b.addBefore, x) <= hidden
    requires x !in hidden && x !in p && x !in q && Keep(b.entries, hidden) == p + [x] + q
    ensures Keep(ExecAll(b, first + ([Remove(x)] + second)).block.entries, hidden)
         == p + Keep(AddedAt(first, b.addBefore, x), hidden) + q + Keep(AddedAt(second, b.addBefore, x), hidden)
  {
    var items := AddedAt(first, b.addBefore, x);
    ExecConcat(b, first, [Remove(x)] + second);
    AddedOrElsewhere(first, b.addBefore, x, x);
    AddedBeforeCursor(b, first, x, hidden, p, q);
    KeptAreEntries(items, hidden, x);
    var s := ExecAll(b, first).block;
    RemovedCursor(s.entries, x, hidden, p + Keep(items, hidden), q);
    assert ([Remove(x)] + second)[0] == Remove(x) && ([Remove(x)] + second)[1..] == second;
    CursorIsRestored(b, first);
    AppendedWithoutCursor(Exec(s, Remove(x)).block, second, x, hidden);
  }
}
