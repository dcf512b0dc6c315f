/** The bitmap branches of ChipToolWebSocketHandler.ts, for bitmaps of single-bit flags: flags become the bits of a
    32-bit number, and a number becomes the names of the flags whose bits it has. */
module FlagBitmaps {

  /** A flag: its name, the other name by which an object may hold it, and its bit. */
  datatype Member = Member(name: string, description: string, bit: bv32)

  /** `1 << bit`, where only the last five bits of the shift count. */
  function Mask(bit: bv32): bv32 {
    1 << (bit & 31)
  }

  /** Whether the object holds the flag; `flags` are the names of its true properties. */
  predicate Holds(flags: set<string>, m: Member) {
    m.name in flags || m.description in flags
  }

  /** Whether `number & mask` is truthy. */
  predicate Has(number: bv32, mask: bv32) {
    number & mask != 0
  }

  function Encoded(members: seq<Member>, flags: set<string>, number: bv32): bv32 {
    if members == [] then number
    else Encoded(members[1..], flags, if Holds(flags, members[0]) then number | Mask(members[0].bit) else number)
  }

  function Decoded(members: seq<Member>, number: bv32): set<string> {
    if members == [] then {}
    else (if Has(number, Mask(members[0].bit)) then {members[0].name} else {}) + Decoded(members[1..], number)
  }

  method Encode(members: seq<Member>, flags: set<string>) returns (number: bv32)
    ensures number == Encoded(members, flags, 0)
  {
    number := 0;
    for i := 0 to |members|
      invariant Encoded(members[i..], flags, number) == Encoded(members, flags, 0)
    {
      assert members[i..][0] == members[i] && members[i..][1..] == members[i + 1..];
      if Holds(flags, members[i]) {
        number := number | Mask(members[i].bit);
      }
    }
  }

  method Decode(members: seq<Member>, number: bv32) returns (flags: set<string>)
    ensures flags == Decoded(members, number)
  {
    flags := {};
    for i := 0 to |members|
      invariant flags + Decoded(members[i..], number) == Decoded(members, number)
    {
      assert members[i..][0] == members[i] && members[i..][1..] == members[i + 1..];
      if Has(number, Mask(members[i].bit)) {
        flags := flags + {members[i].name};
      }
    }
  }

  // ---- Bits ----

  /** Two shifts that give the same bit. */
  predicate SameBit(a: bv32, b: bv32) {
    a & 31 == b & 31
  }

  lemma MasksMeet(a: bv32, b: bv32)
    ensures Has(Mask(a), Mask(b)) <==> SameBit(a, b)
  {
  }

  /** Each bit is worth twice the one before, from 1 for bit 0 to 0x80000000 for bit 31; then they start again. */
  lemma MaskDoubles(bit: bv32)
    ensures Mask(0) == 1 && Mask(31) == 0x8000_0000
    ensures bit < 31 ==> Mask(bit + 1) == Mask(bit) + Mask(bit)
    ensures Mask(bit) == Mask(bit & 31)
  {
  }

  /** A lone flag is encoded as its bit, and no flag as 0. */
  lemma LoneFlag(m: Member, flags: set<string>)
    ensures Encoded([m], flags, 0) == (if m.name in flags || m.description in flags then Mask(m.bit) else 0)
    ensures Encoded([], flags, 0) == 0
  {
    assert [m][1..] == [];
    OrZero(Mask(m.bit));
  }

  lemma OrZero(x: bv32)
    ensures 0 | x == x
  {
  }

  lemma OrMeets(x: bv32, y: bv32, z: bv32)
    ensures (x | y) & z != 0 <==> x & z != 0 || y & z != 0
  {
  }

  lemma OrHas(number: bv32, a: bv32, b: bv32)
    ensures Has(number | a, b) <==> Has(number, b) || Has(a, b)
  {
    OrMeets(number, a, b);
  }

  predicate HoldsBit(members: seq<Member>, flags: set<string>, bit: bv32) {
    exists m | m in members :: Holds(flags, m) && SameBit(m.bit, bit)
  }

  /** The number has a bit exactly when the object holds some flag of that bit. */
  lemma {:induction false} BitIsSet(members: seq<Member>, flags: set<string>, number: bv32, bit: bv32)
    ensures Has(Encoded(members, flags, number), Mask(bit)) <==> Has(number, Mask(bit)) || HoldsBit(members, flags, bit)
    decreases members
  {
    if members != [] {
      var next := if Holds(flags, members[0]) then number | Mask(members[0].bit) else number;
      OrHas(number, Mask(members[0].bit), Mask(bit));
      MasksMeet(members[0].bit, bit);
      BitIsSet(members[1..], flags, next, bit);
      HoldsBitStep(members, flags, bit);
    }
  }

  lemma HoldsBitStep(members: seq<Member>, flags: set<string>, bit: bv32)
    requires members != []
    ensures HoldsBit(members, flags, bit) <==>
              (Holds(flags, members[0]) && SameBit(members[0].bit, bit)) || HoldsBit(members[1..], flags, bit)
  {
    assert members == [members[0]] + members[1..];
  }

  lemma {:induction false} NameIsDecoded(members: seq<Member>, number: bv32, name: string)
    ensures name in Decoded(members, number) <==> exists m | m in members :: m.name == name && Has(number, Mask(m.bit))
  {
    if members != [] {
      NameIsDecoded(members[1..], number, name);
      assert members == [members[0]] + members[1..];
    }
  }

  lemma ZeroHasNone(bit: bv32)
    ensures !Has(0, bit)
  {
  }

  // ---- The round trip ----

  function Back(members: seq<Member>, flags: set<string>): set<string> {
    Decoded(members, Encoded(members, flags, 0))
  }

  /** What comes back, for every object and every list of flags: the names of the flags that share their bit with a
      flag that the object held. */
  lemma WhatComesBack(members: seq<Member>, flags: set<string>, name: string)
    ensures name in Back(members, flags) <==> exists m | m in members :: m.name == name && HoldsBit(members, flags, m.bit)
  {
    var number := Encoded(members, flags, 0);
    NameIsDecoded(members, number, name);
    forall m | m in members ensures Has(number, Mask(m.bit)) <==> HoldsBit(members, flags, m.bit) {
      BitIsSet(members, flags, 0, m.bit);
      ZeroHasNone(m.bit);
    }
  }

  /** Flags with the same bit have the same name. */
  ghost predicate Separate(members: seq<Member>) {
    forall m, other | m in members && other in members && SameBit(m.bit, other.bit) :: m.name == other.name
  }

  ghost predicate Names(members: seq<Member>, flags: set<string>) {
    forall f | f in flags :: exists m | m in members :: m.name == f
  }

  /** No flag is held by its description only. */
  ghost predicate ByName(members: seq<Member>, flags: set<string>) {
    forall m | m in members && m.description in flags :: m.name in flags
  }

  lemma SeparateFlagComesBack(members: seq<Member>, flags: set<string>, f: string)
    requires Separate(members)
    ensures f in Back(members, flags) <==> exists m | m in members :: m.name == f && Holds(flags, m)
  {
    WhatComesBack(members, flags, f);
    if m :| m in members && m.name == f && Holds(flags, m) {
      assert SameBit(m.bit, m.bit) && HoldsBit(members, flags, m.bit);
    }
    if m :| m in members && m.name == f && HoldsBit(members, flags, m.bit) {
      var held :| held in members && Holds(flags, held) && SameBit(held.bit, m.bit);
      assert held.name == f;
    }
  }

  /** With separate bits, exactly the true flags come back if and only if each is the name of a member, and none is
      held by its description alone. */
  lemma RoundTrip(members: seq<Member>, flags: set<string>)
    requires Separate(members)
    ensures Back(members, flags) == flags <==> Names(members, flags) && ByName(members, flags)
  {
    var back := Back(members, flags);
    forall f: string ensures f in back <==> exists m | m in members :: m.name == f && Holds(flags, m) {
      SeparateFlagComesBack(members, flags, f);
    }
    if m :| m in members && m.description in flags && m.name !in flags {
      assert Holds(flags, m) && m.name in back;
    } else if f :| f in flags && forall m | m in members :: m.name != f {
      assert f !in back;
    } else {
      forall f | f in flags ensures f in back {
        var m :| m in members && m.name == f;
        assert Holds(flags, m);
      }
      assert back <= flags;
    }
  }

  /** Separate bits are needed: otherwise some flag comes back with another. */
  lemma OverlappingFlagComesBack(members: seq<Member>, m: Member, other: Member)
    requires m in members && other in members && SameBit(m.bit, other.bit) && m.name != other.name
    ensures Back(members, {m.name}) != {m.name}
  {
    WhatComesBack(members, {m.name}, other.name);
    assert Holds({m.name}, m) && HoldsBit(members, {m.name}, other.bit);
  }

  /** Shifts wrap around: a flag at bit 32 is the flag at bit 0. */
  lemma Bit32IsBit0()
    ensures SameBit(32, 0) && Mask(32) == 1
  {
  }
}
