/**
  * The three table lookups of tools.py: `discount_promo_checker`,
  * `return_policy_checker` and `competitor_price_comparison`.
  */
module Lookups {

  import opened Wrappers
  import opened Ascii
  import opened PyValues
  import opened Catalogue
  import opened Search

  // ---------------------------------------------------------------------------------
  // Discount codes
  // ---------------------------------------------------------------------------------

  /** Discount codes with their percentage, in the order the table lists them. */
  type Codes = seq<(string, int)>

  /** The discount table: `discounts.get(product, None)`. */
  function Discounts(product: string): Option<Codes> {
    if product == "Floral Skirt" then Some([("SPRING10", 10), ("SAVE20", 20), ("NEW15", 15)])
    else if product == "White Sneakers" then Some([("SHOES15", 15), ("NEW10", 10)])
    else if product == "Casual Denim Jacket" then Some([("DENIM10", 10), ("SAVE20", 20)])
    else if product == "Cocktail Dress" then Some([("PARTY25", 25), ("NEW15", 15)])
    else if product == "Summer Floral Dress" then Some([("SUMMER", 15), ("NEW10", 10)])
    else if product == "Classic White Sneakers" then Some([("SHOES15", 15), ("NEW10", 10)])
    else if product == "Vintage Denim Jacket" then Some([("DENIM10", 10), ("SAVE20", 20)])
    else if product == "Sport White Sneakers" then Some([("SHOES15", 15), ("NEW10", 10)])
    else if product == "Canvas White Sneakers" then Some([("SHOES10", 10), ("NEW10", 10)])
    else None
  }

  /** `discounts.get(product_name, {})`: an exact lookup; a list or dict cannot be a key. */
  function DiscountPromoChecker(productName: Value): (r: Outcome<Codes>)
    ensures r.Raise? <==> !Hashable(productName)
    ensures r.Raise? ==> r.error == Unhashable(productName)
  {
    if !Hashable(productName) then Raise(Unhashable(productName))
    else if productName.Str? && Discounts(productName.s).Some? then Return(Discounts(productName.s).value)
    else Return([])
  }

  /** Only the exact name of a listed product has codes; anything else gets none. */
  lemma DiscountExact(productName: Value)
    requires Hashable(productName)
    ensures DiscountPromoChecker(productName).Return?
    ensures DiscountPromoChecker(productName).value != [] <==>
      productName.Str? && Discounts(productName.s).Some?
  {
  }

  /** Every catalogue product is listed under its exact name. */
  lemma CatalogueHasDiscounts(k: nat)
    requires k < |Products|
    ensures DiscountPromoChecker(Str(Products[k].name)).value != []
  {
  }

  /** The lookup is case-sensitive: the lower-case name of a listed product has no codes. */
  lemma DiscountCaseSensitive()
    ensures DiscountPromoChecker(Str("Floral Skirt")) == Return([("SPRING10", 10), ("SAVE20", 20), ("NEW15", 15)])
    ensures DiscountPromoChecker(Str("floral skirt")) == Return([])
  {
  }

  // ---------------------------------------------------------------------------------
  // Return policies
  // ---------------------------------------------------------------------------------

  datatype Policy = Policy(window: string, freeReturns: bool, conditions: string, processingTime: string)

  /** The policy table: `policies.get(store, None)`. */
  function Policies(store: string): Option<Policy> {
    if store == "SiteA" then Some(Policy("30 days", true, "Must have original tags", "3-5 business days"))
    else if store == "SiteB" then Some(Policy("14 days", false, "Return shipping fee applies", "5-7 business days"))
    else if store == "SiteC" then Some(Policy("45 days", true, "Items must be unworn with tags attached", "2-4 business days"))
    else None
  }

  /** A policy, or `{"error": "Store not found"}`. */
  datatype PolicyReply = Found(policy: Policy) | StoreNotFound

  /** `policies.get(store, {"error": "Store not found"})`. */
  function PolicyReplyFor(store: string): PolicyReply {
    match Policies(store)
    case Some(p) => Found(p)
    case None => StoreNotFound
  }

  /** Whether the (lower-cased) input occurs in the product's (lower-cased) name. */
  predicate NameHas(p: Product, s: string) {
    Contains(Lower(p.name), Lower(s))
  }

  /** The loop over the search hits: the first hit whose name contains the input decides. */
  function FirstStoreMatch(storeName: Value, hits: seq<Product>): Outcome<Option<PolicyReply>> {
    if hits == [] then Return(None)
    else
      match AsStr(storeName)
      case Raise(e) => Raise(e)
      case Return(s) =>
        if NameHas(hits[0], s) then Return(Some(PolicyReplyFor(hits[0].store)))
        else FirstStoreMatch(storeName, hits[1..])
  }

  /** What the loop over the search hits leaves: the hit's store policy, or the fall-through lookup. */
  function PolicyFrom(storeName: Value, found: Outcome<seq<Product>>): Outcome<PolicyReply> {
    match found
    case Raise(e) => Raise(e)
    case Return(hits) =>
      match FirstStoreMatch(storeName, hits)
      case Raise(e) => Raise(e)
      case Return(Some(reply)) => Return(reply)
      case Return(None) => Return(StoreNotFound)
  }

  /**
    * `return_policy_checker`: a store name is looked up directly; anything else is
    * searched for as a product name, and the first hit containing it gives its store.
    */
  function ReturnPolicy(storeName: Value): Outcome<PolicyReply> {
    if !Hashable(storeName) then Raise(Unhashable(storeName))
    else if storeName.Str? && Policies(storeName.s).Some? then Return(Found(Policies(storeName.s).value))
    else PolicyFrom(storeName, SearchIn(ByName(storeName), Products))
  }

  /** The search loop with early return of `return_policy_checker` (tools.py:316-322). */
  method ReturnPolicyChecker(storeName: Value) returns (r: Outcome<PolicyReply>)
    ensures r == ReturnPolicy(storeName)
  {
    if !Hashable(storeName) {
      return Raise(Unhashable(storeName));
    }
    if storeName.Str? && Policies(storeName.s).Some? {
      return Return(Found(Policies(storeName.s).value));
    }
    var found := EccomerceSearchAggregtor(ByName(storeName));
    if found.Raise? {
      return Raise(found.error);
    }
    var hits := found.value;
    var i := 0;
    while i < |hits|
      invariant 0 <= i <= |hits|
      invariant FirstStoreMatch(storeName, hits) == FirstStoreMatch(storeName, hits[i..])
    {
      assert hits[i..][1..] == hits[i + 1..];
      if !storeName.Str? {
        return Raise(NoAttribute(storeName, "lower"));
      }
      if NameHas(hits[i], storeName.s) {
        return Return(PolicyReplyFor(hits[i].store));
      }
      i := i + 1;
    }
    return Return(StoreNotFound);
  }

  /** A store name is answered from the table directly. */
  lemma KnownStore(store: string)
    requires Policies(store).Some?
    ensures ReturnPolicy(Str(store)) == Return(Found(Policies(store).value))
  {
  }

  /**
    * The loop's answer on a string: the policy of the first hit whose name contains the
    * input, or no answer when no hit does.
    */
  lemma {:induction false} FirstStoreMatchSpec(s: string, hits: seq<Product>)
    ensures FirstStoreMatch(Str(s), hits).Return?
    ensures FirstStoreMatch(Str(s), hits).value.None? <==> forall k :: 0 <= k < |hits| ==> !NameHas(hits[k], s)
    ensures forall k :: 0 <= k < |hits| && NameHas(hits[k], s) && (forall j :: 0 <= j < k ==> !NameHas(hits[j], s)) ==>
      FirstStoreMatch(Str(s), hits) == Return(Some(PolicyReplyFor(hits[k].store)))
  {
    if hits != [] {
      FirstStoreMatchSpec(s, hits[1..]);
      assert forall k :: 1 <= k < |hits| ==> hits[k] == hits[1..][k - 1];
      forall k | 0 <= k < |hits| && NameHas(hits[k], s) && (forall j :: 0 <= j < k ==> !NameHas(hits[j], s))
        ensures FirstStoreMatch(Str(s), hits) == Return(Some(PolicyReplyFor(hits[k].store)))
      {
        if k > 0 {
          assert NameHas(hits[1..][k - 1], s);
          forall j | 0 <= j < k - 1 ensures !NameHas(hits[1..][j], s) {
            assert hits[1..][j] == hits[j + 1];
          }
        }
      }
    }
  }

  /**
    * A string that is not a store name, once the search has returned its hits: the answer
    * is the policy of the first hit whose lower-cased name contains the lower-cased input,
    * and "Store not found" when there is none.
    */
  lemma PolicyByProduct(s: string, hits: seq<Product>)
    ensures (forall k :: 0 <= k < |hits| ==> !NameHas(hits[k], s)) ==>
      PolicyFrom(Str(s), Return(hits)) == Return(StoreNotFound)
    ensures forall k :: 0 <= k < |hits| && NameHas(hits[k], s) && (forall j :: 0 <= j < k ==> !NameHas(hits[j], s)) ==>
      PolicyFrom(Str(s), Return(hits)) == Return(PolicyReplyFor(hits[k].store))
  {
    FirstStoreMatchSpec(s, hits);
  }

  /** For a string that is not a store, the search never raises, so the answer is the loop's. */
  lemma UnknownStoreSearches(s: string)
    requires Policies(s).None?
    ensures SearchIn(ByName(Str(s)), Products).Return?
    ensures ReturnPolicy(Str(s)) == PolicyFrom(Str(s), SearchIn(ByName(Str(s)), Products))
    ensures PolicyFrom(Str(s), SearchIn(ByName(Str(s)), Products)).Return?
  {
    WellTypedNeverRaises(ByName(Str(s)));
    FirstStoreMatchSpec(s, SearchIn(ByName(Str(s)), Products).value);
  }

  /** An absent (`null`) argument matches every product, and the loop then fails on `.lower()`. */
  lemma PolicyOfNull()
    ensures ReturnPolicy(Null) == Raise(NoAttribute(Null, "lower"))
  {
    NullSearchKeepsAll(Products);
  }

  lemma {:induction false} NullSearchKeepsAll(ps: seq<Product>)
    ensures SearchIn(ByName(Null), ps) == Return(ps)
  {
    if ps != [] {
      NullPasses(ps[0]);
      NullSearchKeepsAll(ps[1..]);
      assert [ps[0]] + ps[1..] == ps;
    }
  }

  lemma NullPasses(p: Product)
    ensures Check(ByName(Null), p) == Return(true)
  {
    var a := ByName(Null);
    assert NameCheck(a.name, p) == Return(true);
    assert FieldCheck(a.color, p.color) == Return(true);
    assert SizeCheck(a.size, p) == Return(true);
    assert PriceCheck(a.priceRange, p) == Return(true);
    assert FieldCheck(a.store, p.store) == Return(true);
    assert StockCheck(a.inStock, p) == Return(true);
  }

  /** A first product that does not contain the input is skipped, whether the search keeps it or not. */
  lemma SkipHit(a: SearchArgs, ps: seq<Product>, s: string)
    requires ps != [] && SearchIn(a, ps).Return? && !NameHas(ps[0], s)
    ensures SearchIn(a, ps[1..]).Return?
    ensures FirstStoreMatch(Str(s), SearchIn(a, ps).value) == FirstStoreMatch(Str(s), SearchIn(a, ps[1..]).value)
  {
    var rest := SearchIn(a, ps[1..]).value;
    if Passes(a, ps[0]) {
      assert ([ps[0]] + rest)[1..] == rest;
    }
  }

  /** A first product that the search keeps and that contains the input decides the answer. */
  lemma TakeHit(a: SearchArgs, ps: seq<Product>, s: string)
    requires ps != [] && SearchIn(a, ps).Return? && Passes(a, ps[0]) && NameHas(ps[0], s)
    ensures FirstStoreMatch(Str(s), SearchIn(a, ps).value) == Return(Some(PolicyReplyFor(ps[0].store)))
  {
  }

  /**
    * The first hits of a search that do not contain the input are skipped; the first one
    * that the search keeps and that contains the input decides the answer.
    */
  lemma {:induction false} FirstHitDecides(a: SearchArgs, ps: seq<Product>, s: string, k: nat)
    requires k < |ps| && SearchIn(a, ps).Return?
    requires forall j :: 0 <= j < k ==> !NameHas(ps[j], s)
    requires Passes(a, ps[k]) && NameHas(ps[k], s)
    ensures FirstStoreMatch(Str(s), SearchIn(a, ps).value) == Return(Some(PolicyReplyFor(ps[k].store)))
    decreases k
  {
    if k == 0 {
      TakeHit(a, ps, s);
    } else {
      SkipHit(a, ps, s);
      forall j | 0 <= j < k - 1 ensures !NameHas(ps[1..][j], s) {
        assert ps[1..][j] == ps[j + 1];
      }
      assert ps[1..][k - 1] == ps[k];
      FirstHitDecides(a, ps[1..], s, k - 1);
    }
  }

  lemma SplitNonEmpty(s: string)
    requires s != [] && !IsSpace(s[0])
    ensures Split(s) != []
  {
  }

  /** A name whose first character is not a separator matches itself in the search. */
  lemma SelfMatch(q: string)
    requires q != [] && !IsSpace(ToLower(q[0]))
    ensures NameMatches(q, q)
  {
    var terms := Split(Lower(q));
    SplitNonEmpty(Lower(q));
    StartsWithContains(terms[0], terms[0]);
    ContainsInJoined(terms, terms[0]);
  }

  lemma SelfContains(s: string)
    ensures Contains(s, s)
  {
    StartsWithContains(s, s);
  }

  lemma NoPairSkips(s: string, a: char, b: char, sub: string)
    requires |sub| >= 2 && sub[0] == a && sub[1] == b
    requires forall i :: 0 <= i < |s| - 1 ==> !(s[i] == a && s[i + 1] == b)
    ensures !Contains(s, sub)
  {
    ContainsIff(s, sub);
    forall i | 0 <= i ensures !OccursAt(s, sub, i) {
      if i + |sub| <= |s| {
        assert s[i..i + |sub|][0] == s[i] && s[i..i + |sub|][1] == s[i + 1];
      }
    }
  }

  lemma CocktailStart(s: string)
    requires s == "Cocktail Dress"
    ensures |Lower(s)| >= 2 && Lower(s)[0] == 'c' && Lower(s)[1] == 'o'
  {
  }

  /** Lower-casing brings in a small letter only from itself or its capital. */
  lemma LowerLacks(t: string, c: char)
    requires 'a' <= c <= 'z' && c !in t && ToUpper(c) !in t
    ensures c !in Lower(t)
  {
    forall i | 0 <= i < |t| ensures Lower(t)[i] != c {
      assert t[i] != c && t[i] != ToUpper(c);
    }
  }

  lemma FloralSkirtLacksC(t: string)
    requires t == "Floral Skirt"
    ensures 'c' !in Lower(t)
  {
    LowerLacks(t, 'c');
  }

  lemma WhiteSneakersLacksC(t: string)
    requires t == "White Sneakers"
    ensures 'c' !in Lower(t)
  {
    LowerLacks(t, 'c');
  }

  lemma DenimJacketLacksCo(t: string)
    requires t == "Casual Denim Jacket"
    ensures forall i :: 0 <= i < |Lower(t)| - 1 ==> !(Lower(t)[i] == 'c' && Lower(t)[i + 1] == 'o')
  {
  }

  lemma CocktailIsFourth()
    ensures Products[0].name == "Floral Skirt" && Products[1].name == "White Sneakers"
    ensures Products[2].name == "Casual Denim Jacket"
    ensures Products[3].name == "Cocktail Dress" && Products[3].store == "SiteB"
  {
  }

  /** A needle starting with "co" is in none of the names listed before the Cocktail Dress. */
  lemma EarlierNamesDiffer(s: string)
    requires |Lower(s)| >= 2 && Lower(s)[0] == 'c' && Lower(s)[1] == 'o'
    ensures !NameHas(Products[0], s) && !NameHas(Products[1], s) && !NameHas(Products[2], s)
  {
    CocktailIsFourth();
    NotFirstName(Products[0].name, Lower(s));
    NotSecondName(Products[1].name, Lower(s));
    NotThirdName(Products[2].name, Lower(s));
  }

  lemma NotFirstName(n: string, t: string)
    requires n == "Floral Skirt" && t != [] && t[0] == 'c'
    ensures !Contains(Lower(n), t)
  {
    FloralSkirtLacksC(n);
    MissingFirstChar(Lower(n), t);
  }

  lemma NotSecondName(n: string, t: string)
    requires n == "White Sneakers" && t != [] && t[0] == 'c'
    ensures !Contains(Lower(n), t)
  {
    WhiteSneakersLacksC(n);
    MissingFirstChar(Lower(n), t);
  }

  lemma NotThirdName(n: string, t: string)
    requires n == "Casual Denim Jacket" && |t| >= 2 && t[0] == 'c' && t[1] == 'o'
    ensures !Contains(Lower(n), t)
  {
    DenimJacketLacksCo(n);
    NoPairSkips(Lower(n), 'c', 'o', t);
  }

  /** Searching by a name keeps a product exactly when the name test passes. */
  lemma ByNamePasses(q: string, p: Product)
    requires NameMatches(q, p.name)
    ensures Passes(ByName(Str(q)), p)
  {
    assert q != [];
  }

  /**
    * A query that is no store name, starts with "co" and is found in the name of the
    * Cocktail Dress is answered with the policy of that product's store.
    */
  lemma FourthHitDecides(s: string)
    requires Policies(s).None?
    requires |Lower(s)| >= 2 && Lower(s)[0] == 'c' && Lower(s)[1] == 'o'
    requires NameMatches(s, Products[3].name) && NameHas(Products[3], s)
    ensures ReturnPolicy(Str(s)) == Return(PolicyReplyFor(Products[3].store))
  {
    var a := ByName(Str(s));
    UnknownStoreSearches(s);
    EarlierNamesDiffer(s);
    ByNamePasses(s, Products[3]);
    var p1 := Products[1..];
    var p2 := p1[1..];
    var p3 := p2[1..];
    assert p1[0] == Products[1] && p2[0] == Products[2] && p3[0] == Products[3];
    SkipHit(a, Products, s);
    SkipHit(a, p1, s);
    SkipHit(a, p2, s);
    TakeHit(a, p3, s);
  }

  lemma CocktailFindsItself(s: string)
    requires s == "Cocktail Dress"
    ensures NameMatches(s, Products[3].name) && NameHas(Products[3], s)
  {
    CocktailIsFourth();
    SelfMatch(s);
    SelfContains(Lower(s));
  }

  /** "Cocktail Dress" is not a store name; its first hit, the Cocktail Dress, is sold by SiteB. */
  lemma CocktailDressPolicy(s: string)
    requires s == "Cocktail Dress"
    ensures ReturnPolicy(Str(s)) == Return(Found(Policies("SiteB").value))
  {
    CocktailStart(s);
    CocktailFindsItself(s);
    FourthHitDecides(s);
    CocktailIsFourth();
  }

  // ---------------------------------------------------------------------------------
  // Competitor prices
  // ---------------------------------------------------------------------------------

  datatype Offer = Offer(store: string, price: real, inStock: bool)

  /** The comparison table, in the order `for key in comparisons` visits it. */
  const Comparisons: seq<(string, seq<Offer>)> := [
    ("Floral Skirt", [Offer("SiteA", 35.00, true), Offer("SiteB", 37.99, true), Offer("SiteC", 36.50, true)]),
    ("White Sneakers", [Offer("SiteA", 63.99, true), Offer("SiteB", 65.00, true), Offer("SiteC", 67.99, true)]),
    ("Casual Denim Jacket", [Offer("SiteA", 80.00, true), Offer("SiteB", 85.99, true), Offer("SiteC", 82.99, true)]),
    ("Cocktail Dress", [Offer("SiteA", 118.99, true), Offer("SiteB", 120.00, true), Offer("SiteC", 122.99, true)]),
    ("Summer Floral Dress", [Offer("SiteA", 72.99, true), Offer("SiteB", 77.99, true), Offer("SiteC", 75.00, true)]),
    ("Classic White Sneakers", [Offer("SiteA", 55.00, true), Offer("SiteB", 57.99, true), Offer("SiteC", 56.50, true)]),
    ("Vintage Denim Jacket", [Offer("SiteA", 77.99, true), Offer("SiteB", 75.00, true), Offer("SiteC", 75.00, true)]),
    ("Sport White Sneakers", [Offer("SiteA", 67.99, true), Offer("SiteB", 65.00, true), Offer("SiteC", 66.50, true)]),
    ("Canvas White Sneakers", [Offer("SiteA", 47.99, true), Offer("SiteB", 46.50, true), Offer("SiteC", 45.99, true)])
  ]

  /** The offers of the first key equal to the input ignoring case; `[]` when none is. */
  function OffersFor(productName: Value, table: seq<(string, seq<Offer>)>): Outcome<seq<Offer>> {
    if table == [] then Return([])
    else
      match AsStr(productName)
      case Raise(e) => Raise(e)
      case Return(s) =>
        if Lower(table[0].0) == Lower(s) then Return(table[0].1) else OffersFor(productName, table[1..])
  }

  /** The search loop with early return over a comparison table (tools.py:381-385). */
  method FindOffers(productName: Value, table: seq<(string, seq<Offer>)>) returns (r: Outcome<seq<Offer>>)
    ensures r == OffersFor(productName, table)
  {
    var i := 0;
    while i < |table|
      invariant 0 <= i <= |table|
      invariant OffersFor(productName, table) == OffersFor(productName, table[i..])
    {
      assert table[i..][1..] == table[i + 1..];
      if !productName.Str? {
        return Raise(NoAttribute(productName, "lower"));
      }
      if Lower(table[i].0) == Lower(productName.s) {
        return Return(table[i].1);
      }
      i := i + 1;
    }
    return Return([]);
  }

  /** `competitor_price_comparison`: the loop over the fixed table. */
  method CompetitorPriceComparison(productName: Value) returns (r: Outcome<seq<Offer>>)
    ensures r == OffersFor(productName, Comparisons)
  {
    r := FindOffers(productName, Comparisons);
  }

  /**
    * On a string the lookup returns the offers of the first key that equals it ignoring
    * case, and `[]` exactly when no key does; anything else fails on `.lower()`.
    */
  lemma {:induction false} OffersForSpec(productName: Value, table: seq<(string, seq<Offer>)>)
    ensures OffersFor(productName, table).Raise? <==> table != [] && !productName.Str?
    ensures productName.Str? ==>
      var s := productName.s;
      ((forall k :: 0 <= k < |table| ==> Lower(table[k].0) != Lower(s)) ==> OffersFor(productName, table) == Return([])) &&
      (forall k :: 0 <= k < |table| && Lower(table[k].0) == Lower(s) && (forall j :: 0 <= j < k ==> Lower(table[j].0) != Lower(s)) ==>
        OffersFor(productName, table) == Return(table[k].1))
  {
    if table != [] && productName.Str? {
      OffersForSpec(productName, table[1..]);
      assert forall k :: 1 <= k < |table| ==> table[k] == table[1..][k - 1];
      var s := productName.s;
      forall k | 0 <= k < |table| && Lower(table[k].0) == Lower(s) && (forall j :: 0 <= j < k ==> Lower(table[j].0) != Lower(s))
        ensures OffersFor(productName, table) == Return(table[k].1)
      {
        if k > 0 {
          assert table[1..][k - 1] == table[k];
          forall j | 0 <= j < k - 1 ensures Lower(table[1..][j].0) != Lower(s) {
            assert table[1..][j] == table[j + 1];
          }
        }
      }
    }
  }

  /** The match ignores case. */
  lemma OffersIgnoreCase(s: string, table: seq<(string, seq<Offer>)>)
    ensures OffersFor(Str(s), table) == OffersFor(Str(Lower(s)), table)
  {
    LowerIdempotent(s);
    OffersCaseStep(s, table);
  }

  lemma {:induction false} OffersCaseStep(s: string, table: seq<(string, seq<Offer>)>)
    requires Lower(Lower(s)) == Lower(s)
    ensures OffersFor(Str(s), table) == OffersFor(Str(Lower(s)), table)
  {
    if table != [] {
      OffersCaseStep(s, table[1..]);
    }
  }

  /** The keys of the table are the catalogue's names, in catalogue order. */
  lemma ComparisonsCoverCatalogue()
    ensures |Comparisons| == |Products|
    ensures forall k :: 0 <= k < |Products| ==> Comparisons[k].0 == Products[k].name && Comparisons[k].1 != []
  {
  }
}
