/**
  * `shipping_time_estimator` (tools.py): look the product up by name, take the first
  * hit, find its store's shipping entry for the ZIP code (or the store's "default"
  * entry), and, when a delivery target is given, add the feasibility verdict.
  */
module Shipping {

  import opened Wrappers
  import opened Numerals
  import opened PyValues
  import opened Catalogue
  import opened Search
  import opened Calendar
  import opened Delivery

  /** A value stored in the shipping table: a string, a number or a nested dictionary. */
  datatype ShipVal = Text(s: string) | Number(r: real) | Table(entries: map<string, ShipVal>)

  /**
    * The shipping table as a lookup: `shipping_info.get(product, {}).get(store, {})`,
    * with `{}` for a product or store it does not list.
    */
  type ShippingTable = (string, string) -> ShipVal

  predicate ShipTruthy(v: ShipVal) {
    match v
    case Text(s) => s != ""
    case Number(r) => r != 0.0
    case Table(m) => |m| > 0
  }

  function ShipTypeName(v: ShipVal): string {
    match v
    case Text(_) => "str"
    case Number(_) => "float"
    case Table(_) => "dict"
  }

  /** A quote entry `{"estimated_delivery": ..., "cost": ...}`. */
  function Entry(estimated: string, cost: real): ShipVal {
    Table(map["estimated_delivery" := Text(estimated), "cost" := Number(cost)])
  }

  /** One product's row of the table: an entry per store. */
  function PerStore(store: string, siteA: ShipVal, siteB: ShipVal, siteC: ShipVal): ShipVal {
    if store == "SiteA" then siteA else if store == "SiteB" then siteB else if store == "SiteC" then siteC
    else Table(map[])
  }

  /** A table of entries per ZIP code, with a fallback under "default". */
  function PerZip(first: ShipVal, second: ShipVal, fallback: ShipVal): ShipVal {
    Table(map["12345" := first, "67890" := second, "default" := fallback])
  }

  /** The table of the source: only "Summer Floral Skirt" has entries per ZIP code. */
  function ShippingInfo(product: string, store: string): ShipVal {
    if product == "Summer Floral Skirt" then
      PerStore(store,
        PerZip(Entry("2-day", 4.99), Entry("3-day", 5.99), Entry("3-day", 4.99)),
        PerZip(Entry("3-day", 5.99), Entry("4-day", 6.99), Entry("4-day", 5.99)),
        PerZip(Entry("2-day", 4.99), Entry("3-day", 5.99), Entry("3-day", 4.99)))
    else if product == "White Sneakers" then
      PerStore(store, Entry("3-day", 5.99), Entry("2-day", 4.99), Entry("3-day", 4.99))
    else if product == "Casual Denim Jacket" then
      PerStore(store, Entry("2-day", 5.99), Entry("3-day", 6.99), Entry("3-day", 5.99))
    else if product == "Cocktail Dress" then
      PerStore(store, Entry("3-day", 6.99), Entry("4-day", 7.99), Entry("3-day", 6.99))
    else if product == "Summer Floral Dress" then
      PerStore(store, Entry("3-day", 4.99), Entry("3-day", 5.99), Entry("3-day", 4.99))
    else if product == "Classic White Sneakers" then
      PerStore(store, Entry("5-day", 4.99), Entry("3-day", 5.99), Entry("4-day", 4.99))
    else if product == "Vintage Denim Jacket" then
      PerStore(store, Entry("3-day", 5.99), Entry("3-day", 6.99), Entry("2-day", 5.99))
    else if product == "Sport White Sneakers" then
      PerStore(store, Entry("3-day", 5.99), Entry("2-day", 4.99), Entry("3-day", 4.99))
    else if product == "Canvas White Sneakers" then
      PerStore(store, Entry("4-day", 4.99), Entry("3-day", 5.99), Entry("3-day", 4.99))
    else Table(map[])
  }

  /** `s.split('-')[0]`: everything before the first dash. */
  function BeforeDash(s: string): (r: string)
    ensures |r| <= |s| && r == s[..|r|]
    ensures '-' !in r
    ensures |r| < |s| ==> s[|r|] == '-'
  {
    if s == [] || s[0] == '-' then [] else [s[0]] + BeforeDash(s[1..])
  }

  /** `parse_delivery_days`: the whole number before the first dash, as `int()` reads it. */
  function ParseDeliveryDays(s: string): (r: Outcome<nat>)
    ensures r.Return? <==> ParseNat(BeforeDash(s)).Some?
    ensures r.Return? ==> r.value == ParseNat(BeforeDash(s)).value
  {
    match ParseNat(BeforeDash(s))
    case Some(n) => Return(n)
    case None => Raise(PyError(ValueError, "invalid literal for int() with base 10: '" + BeforeDash(s) + "'"))
  }

  /** `parse_delivery_days` on a stored value: only a string has `.split`. */
  function ParseStoredDays(v: ShipVal): Outcome<nat> {
    if v.Text? then ParseDeliveryDays(v.s)
    else Raise(PyError(AttributeError, "'" + ShipTypeName(v) + "' object has no attribute 'split'"))
  }

  /** `v["estimated_delivery"]` on a string, a number, or a dictionary without that key. */
  function SubscriptError(v: ShipVal): PyError {
    match v
    case Text(_) => PyError(TypeError, "string indices must be integers, not 'str'")
    case Number(_) => PyError(TypeError, "'float' object is not subscriptable")
    case Table(_) => PyError(KeyError, "'estimated_delivery'")
  }

  /** `store.get(zip, store.get("default", {}))`. */
  function ZipShipping(store: map<string, ShipVal>, zip: Value): (r: Outcome<ShipVal>)
    ensures r.Raise? <==> !Hashable(zip)
    ensures r.Return? && zip.Str? && zip.s in store ==> r.value == store[zip.s]
    ensures r.Return? && !(zip.Str? && zip.s in store) ==>
      r.value == if "default" in store then store["default"] else Table(map[])
  {
    var fallback := if "default" in store then store["default"] else Table(map[]);
    if !Hashable(zip) then Raise(Unhashable(zip))
    else if zip.Str? && zip.s in store then Return(store[zip.s])
    else Return(fallback)
  }

  /**
    * What the tool reports: the ZIP entry's fields, updated with the feasibility verdict
    * and the ZIP code when a target was given; or one of its three error dictionaries.
    */
  datatype ShippingReply =
    | Quote(details: map<string, ShipVal>, feasibility: Option<Feasibility>, zipCode: Option<Value>)
    | ProductNotFound          // "Product not found"
    | InfoUnavailable          // "Shipping information not available"
    | ZipUnavailable(zip: Value)  // "Shipping not available to ZIP code {zip}"

  /** The store's entry for a product, `{}` when the table has none. */
  function StoreShipping(table: ShippingTable, p: Product): ShipVal {
    table(p.name, p.store)
  }

  /** The part of the tool after the search, given the products the search found. */
  function Estimate(table: ShippingTable, today: Today, found: seq<Product>, target: Value, zip: Value)
    : Outcome<ShippingReply>
  {
    if found == [] then Return(ProductNotFound)
    else
      match ParseDeliveryDays(found[0].delivery)
      case Raise(e) => Raise(e)
      case Return(_) => FromStore(today, StoreShipping(table, found[0]), target, zip)
  }

  /** From the store's entry on: pick the ZIP code's entry. */
  function FromStore(today: Today, storeShipping: ShipVal, target: Value, zip: Value): Outcome<ShippingReply> {
    if !ShipTruthy(storeShipping) then Return(InfoUnavailable)
    else if !storeShipping.Table? then
      Raise(PyError(AttributeError, "'" + ShipTypeName(storeShipping) + "' object has no attribute 'get'"))
    else
      match ZipShipping(storeShipping.entries, zip)
      case Raise(e) => Raise(e)
      case Return(zipShipping) => FromZipEntry(today, zipShipping, target, zip)
  }

  /** From the ZIP code's entry on: read its delivery days. */
  function FromZipEntry(today: Today, zipShipping: ShipVal, target: Value, zip: Value): Outcome<ShippingReply> {
    if !ShipTruthy(zipShipping) then Return(ZipUnavailable(zip))
    else if !zipShipping.Table? || "estimated_delivery" !in zipShipping.entries then Raise(SubscriptError(zipShipping))
    else
      match ParseStoredDays(zipShipping.entries["estimated_delivery"])
      case Raise(e) => Raise(e)
      case Return(days) => WithTarget(today, zipShipping.entries, days, target, zip)
  }

  /** The quote, with the verdict and the ZIP code added when a target was given. */
  function WithTarget(today: Today, details: map<string, ShipVal>, days: nat, target: Value, zip: Value)
    : Outcome<ShippingReply>
  {
    if !Truthy(target) then Return(Quote(details, None, None))
    else
      match CalculateDeliveryFeasibility(today, days, target)
      case Raise(e) => Raise(e)
      case Return(f) => Return(Quote(details, Some(f), if Truthy(zip) then Some(zip) else None))
  }

  /** The whole tool against a given table. */
  function ShippingTimeEstimate(table: ShippingTable, today: Today, productName: Value, target: Value, zip: Value)
    : Outcome<ShippingReply>
  {
    match SearchIn(ByName(productName), Products)
    case Raise(e) => Raise(e)
    case Return(found) => Estimate(table, today, found, target, zip)
  }

  method ShippingTimeEstimator(today: Today, productName: Value, target: Value, zip: Value)
    returns (r: Outcome<ShippingReply>)
    ensures r == ShippingTimeEstimate(ShippingInfo, today, productName, target, zip)
  {
    var found := EccomerceSearchAggregtor(ByName(productName));
    if found.Raise? {
      return Raise(found.error);
    }
    r := Estimate(ShippingInfo, today, found.value, target, zip);
  }

  /**
    * The part of a quote added to the ZIP code's entry: the verdict exactly when a target
    * was given, from the entry's delivery days, and the ZIP code only when both a target
    * and a ZIP code were given.
    */
  predicate QuoteFits(today: Today, details: map<string, ShipVal>, feasibility: Option<Feasibility>,
    zipCode: Option<Value>, target: Value, zip: Value)
  {
    "estimated_delivery" in details &&
    ParseStoredDays(details["estimated_delivery"]).Return? &&
    (feasibility.Some? <==> Truthy(target)) &&
    (feasibility.Some? ==>
      CalculateDeliveryFeasibility(today, ParseStoredDays(details["estimated_delivery"]).value, target)
        == Return(feasibility.value)) &&
    (zipCode.Some? <==> Truthy(target) && Truthy(zip)) &&
    (zipCode.Some? ==> zipCode.value == zip)
  }

  lemma FromZipEntryShape(today: Today, zipShipping: ShipVal, target: Value, zip: Value)
    ensures match FromZipEntry(today, zipShipping, target, zip)
      case Return(Quote(details, feasibility, zipCode)) =>
        Table(details) == zipShipping && QuoteFits(today, details, feasibility, zipCode, target, zip)
      case Return(ZipUnavailable(z)) => z == zip
      case Return(r) => false
      case Raise(_) => true
  {
  }

  lemma FromStoreShape(today: Today, store: ShipVal, target: Value, zip: Value)
    ensures match FromStore(today, store, target, zip)
      case Return(Quote(details, feasibility, zipCode)) =>
        store.Table? &&
        Table(details) == (if zip.Str? && zip.s in store.entries then store.entries[zip.s]
                           else if "default" in store.entries then store.entries["default"] else Table(map[])) &&
        QuoteFits(today, details, feasibility, zipCode, target, zip)
      case Return(ZipUnavailable(z)) => z == zip
      case Return(r) => r.InfoUnavailable?
      case Raise(_) => true
  {
    if ShipTruthy(store) && store.Table? && ZipShipping(store.entries, zip).Return? {
      FromZipEntryShape(today, ZipShipping(store.entries, zip).value, target, zip);
    }
  }

  /**
    * A quote carries the entry for the ZIP code, or the store's default entry; the
    * verdict is present exactly when a target was given, and the ZIP code only when both
    * a target and a ZIP code were given.
    */
  lemma QuoteShape(table: ShippingTable, today: Today, found: seq<Product>, target: Value, zip: Value)
    ensures match Estimate(table, today, found, target, zip)
      case Return(Quote(details, feasibility, zipCode)) =>
        found != [] &&
        var store := StoreShipping(table, found[0]);
        store.Table? &&
        Table(details) == (if zip.Str? && zip.s in store.entries then store.entries[zip.s]
                           else if "default" in store.entries then store.entries["default"] else Table(map[])) &&
        QuoteFits(today, details, feasibility, zipCode, target, zip)
      case Return(ProductNotFound) => found == []
      case Return(ZipUnavailable(z)) => z == zip && found != []
      case _ => found != []
  {
    if found != [] && ParseDeliveryDays(found[0].delivery).Return? {
      FromStoreShape(today, StoreShipping(table, found[0]), target, zip);
    }
  }

  /** The keys of a quote entry. */
  lemma EntryKeys(days: string, cost: real)
    ensures var m := Entry(days, cost).entries;
      "default" !in m && |m| > 0 &&
      (forall z :: z in m <==> z == "estimated_delivery" || z == "cost") &&
      m["estimated_delivery"] == Text(days) && m["cost"] == Number(cost)
  {
    var m := Entry(days, cost).entries;
    assert "estimated_delivery" in m;
  }

  /** The days in the catalogue's delivery strings parse. */
  lemma CatalogueDays()
    ensures ParseDeliveryDays("2-day") == Return(2)
    ensures ParseDeliveryDays("3-day") == Return(3)
    ensures ParseDeliveryDays("4-day") == Return(4)
    ensures ParseDeliveryDays("5-day") == Return(5)
  {
    DigitDays(2);
    DigitDays(3);
    DigitDays(4);
    DigitDays(5);
  }

  lemma DigitDays(n: nat)
    requires n < 10
    ensures ParseDeliveryDays([DigitChar(n)] + "-day") == Return(n)
  {
    assert NatStr(n) == [DigitChar(n)];
    DeliveryDaysOf(n);
  }

  /** A store entry made of one quote, with text and a non-zero cost. */
  ghost predicate IsFlatEntry(v: ShipVal) {
    exists days: string, cost: real :: days != "" && cost != 0.0 && v == Entry(days, cost)
  }

  /** Each catalogue product's entry in the source's table. */
  lemma CatalogueEntries(k: nat)
    requires k < |Products|
    ensures Products[k].name == "Floral Skirt" ==> StoreShipping(ShippingInfo, Products[k]) == Table(map[])
    ensures Products[k].name != "Floral Skirt" ==> IsFlatEntry(StoreShipping(ShippingInfo, Products[k]))
    ensures ParseDeliveryDays(Products[k].delivery).Return?
  {
    CatalogueDelivery(k);
    if k == 0 {
    } else if k < 5 {
      FirstEntries(k);
    } else {
      LastEntries(k);
    }
  }

  lemma CatalogueDelivery(k: nat)
    requires k < |Products|
    ensures ParseDeliveryDays(Products[k].delivery).Return?
  {
    CatalogueDays();
    var d := Products[k].delivery;
    assert d == "2-day" || d == "3-day" || d == "4-day" || d == "5-day";
  }

  lemma FirstEntries(k: nat)
    requires 1 <= k < 5
    ensures IsFlatEntry(StoreShipping(ShippingInfo, Products[k]))
  {
    var v := StoreShipping(ShippingInfo, Products[k]);
    if k == 1 {
      assert v == Entry("2-day", 4.99);
    } else if k == 2 {
      assert v == Entry("2-day", 5.99);
    } else if k == 3 {
      assert v == Entry("4-day", 7.99);
    } else {
      assert v == Entry("3-day", 4.99);
    }
  }

  lemma LastEntries(k: nat)
    requires 5 <= k < |Products|
    ensures IsFlatEntry(StoreShipping(ShippingInfo, Products[k]))
  {
    var v := StoreShipping(ShippingInfo, Products[k]);
    if k == 5 {
      assert v == Entry("5-day", 4.99);
    } else if k == 6 {
      assert v == Entry("2-day", 5.99);
    } else if k == 7 {
      assert v == Entry("2-day", 4.99);
    } else {
      assert v == Entry("3-day", 4.99);
    }
  }

  /** What the tool yields after a search of the catalogue, with the source's table. */
  lemma CatalogueEstimate(today: Today, found: seq<Product>, target: Value, zip: Value)
    requires forall k :: 0 <= k < |found| ==> found[k] in Products
    ensures Estimate(ShippingInfo, today, found, target, zip) ==
      if found == [] then Return(ProductNotFound)
      else if found[0].name == "Floral Skirt" then Return(InfoUnavailable)
      else FlatOutcome(zip)
  {
    if found != [] {
      var k :| 0 <= k < |Products| && Products[k] == found[0];
      CatalogueEntries(k);
      if found[0].name != "Floral Skirt" {
        FlatEntryOutcome(ShippingInfo, today, found, target, zip);
      }
    }
  }

  /**
    * The first hit's store entry is a single quote dictionary rather than a table per ZIP
    * code. Looking a ZIP code up in it finds the quote's own keys or nothing, and there is
    * no "default" entry, so no quote is ever produced.
    */
  lemma FlatEntryOutcome(table: ShippingTable, today: Today, found: seq<Product>, target: Value, zip: Value)
    requires found != [] && ParseDeliveryDays(found[0].delivery).Return?
    requires IsFlatEntry(StoreShipping(table, found[0]))
    ensures Estimate(table, today, found, target, zip) == FlatOutcome(zip)
  {
    var days: string, cost: real :| days != "" && cost != 0.0 && StoreShipping(table, found[0]) == Entry(days, cost);
    FlatStore(today, days, cost, target, zip);
  }

  /** What a quote entry used as a per-ZIP table yields for a ZIP code. */
  function FlatOutcome(zip: Value): Outcome<ShippingReply> {
    if !Hashable(zip) then Raise(Unhashable(zip))
    else if zip == Str("estimated_delivery") then Raise(PyError(TypeError, "string indices must be integers, not 'str'"))
    else if zip == Str("cost") then Raise(PyError(TypeError, "'float' object is not subscriptable"))
    else Return(ZipUnavailable(zip))
  }

  lemma FlatStore(today: Today, days: string, cost: real, target: Value, zip: Value)
    requires days != "" && cost != 0.0
    ensures FromStore(today, Entry(days, cost), target, zip) == FlatOutcome(zip)
  {
    var m := Entry(days, cost).entries;
    EntryKeys(days, cost);
    if !Hashable(zip) {
    } else if zip == Str("estimated_delivery") {
      assert ZipShipping(m, zip) == Return(Text(days));
    } else if zip == Str("cost") {
      assert ZipShipping(m, zip) == Return(Number(cost));
    } else {
      assert !(zip.Str? && zip.s in m);
      assert ZipShipping(m, zip) == Return(Table(map[]));
    }
  }

  /**
    * With the source's table, no product of the catalogue gets a quote: the search fails,
    * finds nothing, finds "Floral Skirt" first (whose table is filed under "Summer Floral
    * Skirt"), or the ZIP code lookup fails.
    */
  lemma CatalogueNeverQuoted(today: Today, productName: Value, target: Value, zip: Value)
    ensures match SearchIn(ByName(productName), Products)
      case Raise(e) => ShippingTimeEstimate(ShippingInfo, today, productName, target, zip) == Raise(e)
      case Return(found) =>
        ShippingTimeEstimate(ShippingInfo, today, productName, target, zip) ==
          if found == [] then Return(ProductNotFound)
          else if found[0].name == "Floral Skirt" then Return(InfoUnavailable)
          else FlatOutcome(zip)
  {
    ResultsFromCatalogue(ByName(productName));
    if SearchIn(ByName(productName), Products).Return? {
      CatalogueEstimate(today, SearchIn(ByName(productName), Products).value, target, zip);
    }
  }

  /**
    * The per-ZIP table of "Summer Floral Skirt": a listed ZIP code gets its own entry and
    * any other string gets the store's default (here SiteB, 4 days, 5.99).
    */
  lemma ZipTableFallback(today: Today, p: Product, zip: string)
    requires p.name == "Summer Floral Skirt" && p.store == "SiteB" && p.delivery == "4-day"
    ensures zip == "12345" ==> Estimate(ShippingInfo, today, [p], Null, Str(zip)) == Return(Quote(Entry("3-day", 5.99).entries, None, None))
    ensures zip != "12345" && zip != "67890" && zip != "default" ==>
      Estimate(ShippingInfo, today, [p], Null, Str(zip)) == Return(Quote(Entry("4-day", 5.99).entries, None, None))
  {
    assert StoreShipping(ShippingInfo, p) == PerZip(Entry("3-day", 5.99), Entry("4-day", 6.99), Entry("4-day", 5.99));
    CatalogueDays();
    PerZipLookup(today, Entry("3-day", 5.99), Entry("4-day", 6.99), Entry("4-day", 5.99), zip);
    EntryQuote(today, "3-day", 5.99, 3, Str(zip));
    EntryQuote(today, "4-day", 5.99, 4, Str(zip));
  }

  lemma PerZipLookup(today: Today, first: ShipVal, second: ShipVal, fallback: ShipVal, zip: string)
    ensures FromStore(today, PerZip(first, second, fallback), Null, Str(zip)) ==
      FromZipEntry(today, if zip == "12345" then first else if zip == "67890" then second else fallback, Null, Str(zip))
  {
    PerZipKeys(first, second, fallback);
  }

  lemma EntryQuote(today: Today, days: string, cost: real, n: nat, zip: Value)
    requires ParseDeliveryDays(days) == Return(n)
    ensures FromZipEntry(today, Entry(days, cost), Null, zip) == Return(Quote(Entry(days, cost).entries, None, None))
  {
    EntryKeys(days, cost);
  }

  lemma PerZipKeys(first: ShipVal, second: ShipVal, fallback: ShipVal)
    ensures var m := PerZip(first, second, fallback).entries;
      |m| > 0 && (forall z :: z in m <==> z == "12345" || z == "67890" || z == "default") &&
      m["12345"] == first && m["67890"] == second && m["default"] == fallback
  {
    var m := PerZip(first, second, fallback).entries;
    assert "12345" in m;
  }

  /** `parse_delivery_days("N-day") == N`. */
  lemma DeliveryDaysOf(n: nat)
    ensures ParseDeliveryDays(NatStr(n) + "-day") == Return(n)
  {
    var s := NatStr(n) + "-day";
    assert BeforeDash(s) == NatStr(n) by {
      BeforeDashPrefix(NatStr(n), "-day");
    }
    NatStrRoundTrip(n);
  }

  lemma {:induction false} BeforeDashPrefix(a: string, b: string)
    requires '-' !in a && b != [] && b[0] == '-'
    ensures BeforeDash(a + b) == a
  {
    if a == [] {
      assert a + b == b;
    } else {
      assert (a + b)[1..] == a[1..] + b;
      BeforeDashPrefix(a[1..], b);
    }
  }
}
