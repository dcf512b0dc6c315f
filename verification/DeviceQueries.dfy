/** How BleScanner.ts names a query, filters the stored devices by it, and picks the waiter to wake for a device. */
module DeviceQueries {
  import opened Options
  import opened Texts

  const PLUS: CodeUnit := 43
  const STAR: Text := [42]
  const LONG_PREFIX: Text := [68, 58]
  const SHORT_PREFIX: Text := [83, 68, 58]
  const VENDOR_PREFIX: Text := [86, 58]
  const PRODUCT_PREFIX: Text := [80, 58]

  // ---- Numbers as text ----

  predicate IsDigit(c: CodeUnit) {
    48 <= c <= 57
  }

  /** The number in a template literal. */
  function Dec(n: nat): (t: Text)
    ensures t != [] && forall i | 0 <= i < |t| :: IsDigit(t[i])
  {
    var last: Text := [(48 + n % 10) as CodeUnit];
    if n < 10 then last else Dec(n / 10) + last
  }

  function ParseDigits(t: Text): nat {
    if t == [] || !IsDigit(t[|t| - 1]) then 0
    else 10 * ParseDigits(t[..|t| - 1]) + (t[|t| - 1] as int - 48)
  }

  /** `parseInt`, on text that starts with a digit. */
  function ParseInt(t: Text): nat {
    ParseDigits(t[..DigitCount(t)])
  }

  function DigitCount(t: Text): (n: nat)
    ensures n <= |t|
  {
    if t == [] || !IsDigit(t[0]) then 0 else 1 + DigitCount(t[1..])
  }

  lemma {:induction false} ParseDigitsDec(n: nat)
    ensures ParseDigits(Dec(n)) == n
  {
    var t := Dec(n);
    if n >= 10 {
      ParseDigitsDec(n / 10);
      assert t[..|t| - 1] == Dec(n / 10);
    } else {
      assert t[..0] == [];
    }
  }

  lemma {:induction false} AllDigits(t: Text)
    requires forall i | 0 <= i < |t| :: IsDigit(t[i])
    ensures DigitCount(t) == |t|
  {
    if t != [] {
      AllDigits(t[1..]);
    }
  }

  lemma ParseIntDec(n: nat)
    ensures ParseInt(Dec(n)) == n
  {
    AllDigits(Dec(n));
    ParseDigitsDec(n);
    assert Dec(n)[..|Dec(n)|] == Dec(n);
  }

  lemma DecIsInjective(m: nat, n: nat)
    ensures Dec(m) == Dec(n) <==> m == n
  {
    ParseDigitsDec(m);
    ParseDigitsDec(n);
  }

  // ---- Devices and queries ----

  /** What a decoded advertisement says, with the address that it came from. */
  datatype Device = Device(address: nat, discriminator: nat, vendorId: nat, productId: nat) {
    /** `(discriminator >> 8) & 0x0f`. */
    function ShortDiscriminator(): nat {
      discriminator / 256 % 16
    }

    function VP(): Text {
      Dec(vendorId) + [PLUS] + Dec(productId)
    }
  }

  /** A query; the fields that it has, in the order in which they are looked for. */
  datatype Identifier = Identifier(
    longDiscriminator: Option<nat>,
    shortDiscriminator: Option<nat>,
    vendorId: Option<nat>,
    productId: Option<nat>)

  function ForLong(d: nat): Identifier { Identifier(Some(d), None, None, None) }

  function ForShort(d: nat): Identifier { Identifier(None, Some(d), None, None) }

  function ForVendor(v: nat): Identifier { Identifier(None, None, Some(v), None) }

  /** `buildCommissionableQueryIdentifier`. */
  function KeyOf(id: Identifier): Text {
    if id.longDiscriminator.Some? then LONG_PREFIX + Dec(id.longDiscriminator.value)
    else if id.shortDiscriminator.Some? then SHORT_PREFIX + Dec(id.shortDiscriminator.value)
    else if id.vendorId.Some? then VENDOR_PREFIX + Dec(id.vendorId.value)
    else if id.productId.Some? then PRODUCT_PREFIX + Dec(id.productId.value)
    else STAR
  }

  predicate EndsWith(t: Text, end: Text) {
    |end| <= |t| && t[|t| - |end|..] == end
  }

  /** The filter of `getCommissionableDevices`; every stored device has the commissioning mode 1. */
  predicate Accepts(id: Identifier, d: Device) {
    if id.longDiscriminator.Some? then d.discriminator == id.longDiscriminator.value
    else if id.shortDiscriminator.Some? then d.ShortDiscriminator() == id.shortDiscriminator.value
    else if id.vendorId.Some? then
      d.VP() == Dec(id.vendorId.value) || Dec(id.vendorId.value) + [PLUS] <= d.VP()
    else if id.productId.Some? then EndsWith(d.VP(), [PLUS] + Dec(id.productId.value))
    else true
  }

  /** `findCommissionableQueryIdentifier`: the key of the waiter to wake. */
  function FindKey(waiting: set<Text>, d: Device): Option<Text> {
    if KeyOf(ForLong(d.discriminator)) in waiting then Some(KeyOf(ForLong(d.discriminator)))
    else if KeyOf(ForShort(d.ShortDiscriminator())) in waiting then Some(KeyOf(ForShort(d.ShortDiscriminator())))
    else
      var parts := Split(d.VP(), PLUS);
      if KeyOf(ForVendor(ParseInt(parts[0]))) in waiting then Some(KeyOf(ForVendor(ParseInt(parts[0]))))
      else if |parts| > 1 && KeyOf(ForVendor(ParseInt(parts[1]))) in waiting then
        Some(KeyOf(ForVendor(ParseInt(parts[1]))))
      else if STAR in waiting then Some(STAR)
      else None
  }

  // ---- What the filter means ----

  lemma VPParts(d: Device)
    ensures Split(d.VP(), PLUS) == [Dec(d.vendorId), Dec(d.productId)]
    ensures ParseInt(Split(d.VP(), PLUS)[0]) == d.vendorId && ParseInt(Split(d.VP(), PLUS)[1]) == d.productId
  {
    var parts := [Dec(d.vendorId), Dec(d.productId)];
    assert parts[1..] == [Dec(d.productId)];
    assert Join(parts, [PLUS]) == d.VP();
    SplitJoin(parts, PLUS);
    ParseIntDec(d.vendorId);
    ParseIntDec(d.productId);
  }

  lemma VendorIsPrefix(d: Device, v: nat)
    ensures (d.VP() == Dec(v) || Dec(v) + [PLUS] <= d.VP()) <==> d.vendorId == v
  {
    DecIsInjective(d.vendorId, v);
    var t, prefix := d.VP(), Dec(v) + [PLUS];
    assert t[|Dec(d.vendorId)|] == PLUS && !IsDigit(PLUS);
    if prefix <= t {
      assert t[|Dec(v)|] == PLUS;
      assert |Dec(v)| == |Dec(d.vendorId)|;
      assert Dec(v) == t[..|Dec(v)|] == Dec(d.vendorId);
    }
  }

  lemma ProductIsSuffix(d: Device, p: nat)
    ensures EndsWith(d.VP(), [PLUS] + Dec(p)) <==> d.productId == p
  {
    DecIsInjective(d.productId, p);
    var t, end := d.VP(), [PLUS] + Dec(p);
    var own := [PLUS] + Dec(d.productId);
    assert t == Dec(d.vendorId) + own;
    assert t[|t| - |own|..] == own;
    if EndsWith(t, end) {
      assert t[|t| - |end|] == end[0] == PLUS && t[|Dec(d.vendorId)|] == PLUS;
      assert |end| == |own|;
      assert Dec(p) == end[1..] && Dec(d.productId) == own[1..];
    }
  }

  /** The filter compares numbers. */
  lemma AcceptsByNumber(id: Identifier, d: Device)
    ensures Accepts(id, d) <==>
      if id.longDiscriminator.Some? then d.discriminator == id.longDiscriminator.value
      else if id.shortDiscriminator.Some? then d.ShortDiscriminator() == id.shortDiscriminator.value
      else if id.vendorId.Some? then d.vendorId == id.vendorId.value
      else if id.productId.Some? then d.productId == id.productId.value
      else true
  {
    if id.vendorId.Some? {
      VendorIsPrefix(d, id.vendorId.value);
    }
    if id.productId.Some? {
      ProductIsSuffix(d, id.productId.value);
    }
  }

  // ---- What a key means ----

  /** A query without the fields that its key leaves out. */
  function Effective(id: Identifier): Identifier {
    if id.longDiscriminator.Some? then Identifier(id.longDiscriminator, None, None, None)
    else if id.shortDiscriminator.Some? then Identifier(None, id.shortDiscriminator, None, None)
    else if id.vendorId.Some? then Identifier(None, None, id.vendorId, None)
    else id
  }

  lemma Suffix(prefix: Text, a: Text, b: Text)
    ensures prefix + a == prefix + b <==> a == b
  {
    assert (prefix + a)[|prefix|..] == a && (prefix + b)[|prefix|..] == b;
  }

  /** The key determines the query as far as the filter looks at it. */
  lemma KeysAreInjective(id: Identifier, other: Identifier)
    ensures KeyOf(id) == KeyOf(other) <==> Effective(id) == Effective(other)
  {
    var a, b := KeyOf(id), KeyOf(other);
    assert a[0] == 68 <==> id.longDiscriminator.Some?;
    assert b[0] == 68 <==> other.longDiscriminator.Some?;
    if a == b {
      if id.longDiscriminator.Some? {
        Suffix(LONG_PREFIX, Dec(id.longDiscriminator.value), Dec(other.longDiscriminator.value));
        DecIsInjective(id.longDiscriminator.value, other.longDiscriminator.value);
      } else if id.shortDiscriminator.Some? {
        Suffix(SHORT_PREFIX, Dec(id.shortDiscriminator.value), Dec(other.shortDiscriminator.value));
        DecIsInjective(id.shortDiscriminator.value, other.shortDiscriminator.value);
      } else if id.vendorId.Some? {
        Suffix(VENDOR_PREFIX, Dec(id.vendorId.value), Dec(other.vendorId.value));
        DecIsInjective(id.vendorId.value, other.vendorId.value);
      } else if id.productId.Some? {
        Suffix(PRODUCT_PREFIX, Dec(id.productId.value), Dec(other.productId.value));
        DecIsInjective(id.productId.value, other.productId.value);
      }
    }
  }

  // ---- Which waiter is woken ----

  /** A search whose waiter is woken accepts the device, except in one case: the second number of the vendor and
      product pair is looked up as a vendor. */
  lemma WokenWaiterAccepts(waiting: set<Text>, id: Identifier, d: Device)
    requires FindKey(waiting, d) == Some(KeyOf(id))
    ensures Accepts(id, d) <==> Effective(id) != ForVendor(d.productId) || d.productId == d.vendorId
  {
    VPParts(d);
    AcceptsByNumber(id, d);
    KeysAreInjective(id, ForLong(d.discriminator));
    KeysAreInjective(id, ForShort(d.ShortDiscriminator()));
    KeysAreInjective(id, ForVendor(d.vendorId));
    KeysAreInjective(id, ForVendor(d.productId));
    KeysAreInjective(id, Identifier(None, None, None, None));
  }

  /** A search by product number is never woken by a device. */
  lemma ProductSearchIsNeverWoken(waiting: set<Text>, id: Identifier, d: Device)
    requires Effective(id) == id && id.productId.Some?
    ensures FindKey(waiting, d) != Some(KeyOf(id))
  {
    VPParts(d);
    KeysAreInjective(id, ForLong(d.discriminator));
    KeysAreInjective(id, ForShort(d.ShortDiscriminator()));
    KeysAreInjective(id, ForVendor(d.vendorId));
    KeysAreInjective(id, ForVendor(d.productId));
    KeysAreInjective(id, Identifier(None, None, None, None));
  }

  /** When a search waits that accepts the device, and not by product number, some search is woken. */
  lemma SomeWaiterIsWoken(waiting: set<Text>, id: Identifier, d: Device)
    requires KeyOf(id) in waiting && Accepts(id, d)
    requires Effective(id).productId.None?
    ensures FindKey(waiting, d).Some? && FindKey(waiting, d).value in waiting
  {
    VPParts(d);
    AcceptsByNumber(id, d);
  }

  lemma LookupKeys(d: Device)
    ensures KeyOf(ForLong(d.discriminator)) == [68, 58] + Dec(d.discriminator)
    ensures KeyOf(ForShort(d.ShortDiscriminator())) == [83, 68, 58] + Dec(d.discriminator / 256 % 16)
    ensures KeyOf(ForVendor(d.vendorId)) == [86, 58] + Dec(d.vendorId)
    ensures KeyOf(ForVendor(d.productId)) == [86, 58] + Dec(d.productId)
  {}

  /** The lookups in order: the long discriminator, the short one, the vendor, the product as if it were a vendor, and
      last the search for anything. */
  lemma LookupOrder(waiting: set<Text>, d: Device)
    ensures
      var long: Text, short: Text := [68, 58] + Dec(d.discriminator), [83, 68, 58] + Dec(d.discriminator / 256 % 16);
      var vendor: Text, product: Text := [86, 58] + Dec(d.vendorId), [86, 58] + Dec(d.productId);
      FindKey(waiting, d) ==
        if long in waiting then Some(long)
        else if short in waiting then Some(short)
        else if vendor in waiting then Some(vendor)
        else if product in waiting then Some(product)
        else if [42] in waiting then Some([42])
        else None
  {
    var parts := Split(d.VP(), PLUS);
    VPParts(d);
    LookupKeys(d);
    assert |parts| == 2 && ParseInt(parts[0]) == d.vendorId && ParseInt(parts[1]) == d.productId;
  }

  lemma ShortDiscriminators(address: nat, vendorId: nat, productId: nat)
    ensures Device(address, 0xF00, vendorId, productId).ShortDiscriminator() == 15
    ensures Device(address, 0xA5C, vendorId, productId).ShortDiscriminator() == 10
    ensures Device(address, 0x0FF, vendorId, productId).ShortDiscriminator() == 0
  {}

  /** A number is read up to the first character that is no digit. */
  lemma NumberEnds(n: nat, c: CodeUnit, rest: Text)
    requires c < 48 || c > 57
    ensures ParseInt(Dec(n) + [c] + rest) == n
  {
    var t := Dec(n) + [c] + rest;
    DigitsEnd(Dec(n), c, rest);
    assert t[..|Dec(n)|] == Dec(n);
    ParseDigitsDec(n);
  }

  lemma {:induction false} DigitsEnd(digits: Text, c: CodeUnit, rest: Text)
    requires (forall i | 0 <= i < |digits| :: 48 <= digits[i] <= 57) && (c < 48 || c > 57)
    ensures DigitCount(digits + [c] + rest) == |digits|
  {
    var t := digits + [c] + rest;
    if digits != [] {
      assert t[0] == digits[0] && t[1..] == digits[1..] + [c] + rest;
      DigitsEnd(digits[1..], c, rest);
    }
  }

  /** The keys of queries. */
  lemma KeyTexts(n: nat)
    requires n < 10
    ensures KeyOf(ForLong(n)) == [68, 58, 48 + n as CodeUnit]
    ensures KeyOf(ForShort(n)) == [83, 68, 58, 48 + n as CodeUnit]
    ensures KeyOf(ForVendor(n)) == [86, 58, 48 + n as CodeUnit]
    ensures KeyOf(Identifier(None, None, None, Some(n))) == [80, 58, 48 + n as CodeUnit]
    ensures KeyOf(Identifier(None, None, None, None)) == [42]
    ensures Dec(2407) == [50, 52, 48, 55]
    ensures Device(n, n, n, 7).VP() == [48 + n as CodeUnit, 43, 55]
  {
    assert Dec(2407) == Dec(240) + [55] && Dec(240) == Dec(24) + [48] && Dec(24) == [50, 52];
  }
}
