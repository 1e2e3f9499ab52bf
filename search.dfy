/**
  * `eccomerce_search_aggregtor` (tools.py): filter the fixed catalogue by the supplied
  * criteria, keeping database order. Each product goes through the checks in the order
  * the source applies them (name, color, size, price range, store, stock); a check on a
  * value of the wrong type raises, and the first raise ends the search.
  */
module Search {

  import opened Wrappers
  import opened Ascii
  import opened Numerals
  import opened PyValues
  import opened Catalogue
  import opened PriceRange

  /** The keyword arguments; an omitted one is `Null`. `delivery` is accepted and never read. */
  datatype SearchArgs = SearchArgs(
    name: Value,
    color: Value,
    priceRange: Value,
    size: Value,
    inStock: Value,
    store: Value,
    delivery: Value)

  /** `eccomerce_search_aggregtor(name=name)`, the call the other tools make. */
  function ByName(name: Value): SearchArgs {
    SearchArgs(name, Null, Null, Null, Null, Null, Null)
  }

  /** Some term of the query occurs in the joined words of the product name (tools.py:68-73). */
  predicate NameMatches(query: string, productName: string) {
    var terms := Split(Lower(query));
    var joined := JoinSpaced(Split(Lower(productName)));
    exists k :: 0 <= k < |terms| && Contains(joined, terms[k])
  }

  /** `str(size).upper()`, for the values whose `str` is modelled; `None` for floats, lists and dicts. */
  function SizeText(v: Value): Option<string> {
    match v
    case Null => Some("NONE")
    case Bool(b) => Some(if b then "TRUE" else "FALSE")
    case Int(i) => Some(Upper(IntStr(i)))
    case Str(s) => Some(Upper(s))
    case _ => None
  }

  /** How `parse_price_range` sees a decoded value: `bool` is an `int` subclass; lists and dicts reach `.lower()`. */
  function AsPriceQuery(v: Value): (r: Outcome<PriceQuery>)
    ensures r.Raise? <==> v.Null? || v.List? || v.Object?
  {
    match v
    case Bool(b) => Return(Number(if b then 1.0 else 0.0))
    case Int(i) => Return(Number(i as real))
    case Float(x) => Return(Number(x))
    case Str(s) => Return(Text(s))
    case _ => Raise(NoAttribute(v, "lower"))
  }

  /** Python's `v == b` for a stored boolean: `True == 1 == 1.0`. */
  predicate EqualsBool(v: Value, b: bool) {
    match v
    case Bool(c) => c == b
    case Int(i) => i == (if b then 1 else 0)
    case Float(x) => x == (if b then 1.0 else 0.0)
    case _ => false
  }

  function NameCheck(v: Value, p: Product): Outcome<bool> {
    if !Truthy(v) then Return(true)
    else match AsStr(v)
      case Raise(e) => Raise(e)
      case Return(q) => Return(NameMatches(q, p.name))
  }

  /** The color and store checks: case-insensitive equality. */
  function FieldCheck(v: Value, field: string): Outcome<bool> {
    if !Truthy(v) then Return(true)
    else match AsStr(v)
      case Raise(e) => Raise(e)
      case Return(s) => Return(Lower(s) == Lower(field))
  }

  function SizeCheck(v: Value, p: Product): Outcome<bool> {
    if !Truthy(v) then Return(true) else Return(SizeText(v) == Some(Upper(p.size)))
  }

  function PriceCheck(v: Value, p: Product): Outcome<bool> {
    if !Truthy(v) then Return(true)
    else match AsPriceQuery(v)
      case Raise(e) => Raise(e)
      case Return(q) =>
        match ParsePriceRange(q)
        case None => Return(false)
        case Some(range) => Return(range.0 <= p.price <= range.1)
  }

  function StockCheck(v: Value, p: Product): Outcome<bool> {
    if v.Null? then Return(true) else Return(EqualsBool(v, p.inStock))
  }

  /** `first`, then `next` only if `first` passed: the `continue` chain of the loop body. */
  function Then(first: Outcome<bool>, next: Outcome<bool>): (r: Outcome<bool>)
    ensures r == Return(true) <==> first == Return(true) && next == Return(true)
    ensures first.Return? && next.Return? ==> r.Return?
  {
    if first == Return(true) then next else first
  }

  /** Whether one product is kept, or the exception its checks raise (tools.py:66-98). */
  function Check(a: SearchArgs, p: Product): Outcome<bool> {
    Then(NameCheck(a.name, p),
    Then(FieldCheck(a.color, p.color),
    Then(SizeCheck(a.size, p),
    Then(PriceCheck(a.priceRange, p),
    Then(FieldCheck(a.store, p.store),
    StockCheck(a.inStock, p))))))
  }

  /** The products of `ps` that pass, in order, or the first exception. */
  function SearchIn(a: SearchArgs, ps: seq<Product>): Outcome<seq<Product>> {
    if ps == [] then Return([])
    else match Check(a, ps[0])
      case Raise(e) => Raise(e)
      case Return(keep) =>
        match SearchIn(a, ps[1..])
        case Raise(e) => Raise(e)
        case Return(rest) => Return(if keep then [ps[0]] + rest else rest)
  }

  /** `pre` followed by what a search of the rest returns. */
  function Extend(pre: seq<Product>, o: Outcome<seq<Product>>): Outcome<seq<Product>> {
    match o
    case Raise(e) => Raise(e)
    case Return(rest) => Return(pre + rest)
  }

  /** One step of the search: the product at `i` is checked before the rest. */
  lemma SearchStep(a: SearchArgs, ps: seq<Product>, i: nat)
    requires i < |ps|
    ensures SearchIn(a, ps[i..]) ==
      match Check(a, ps[i])
      case Raise(e) => Raise(e)
      case Return(keep) => Extend(if keep then [ps[i]] else [], SearchIn(a, ps[i + 1..]))
  {
    assert ps[i..][1..] == ps[i + 1..];
    ExtendEmpty(SearchIn(a, ps[i + 1..]));
  }

  lemma ExtendEmpty(o: Outcome<seq<Product>>)
    ensures Extend([], o) == o
  {
    if o.Return? {
      assert [] + o.value == o.value;
    }
  }

  /** The filtering loop over the product database (tools.py:64-100). */
  method FilterProducts(a: SearchArgs, results: seq<Product>) returns (r: Outcome<seq<Product>>)
    ensures r == SearchIn(a, results)
  {
    var filtered: seq<Product> := [];
    var i := 0;
    ExtendEmpty(SearchIn(a, results));
    while i < |results|
      invariant 0 <= i <= |results|
      invariant SearchIn(a, results) == Extend(filtered, SearchIn(a, results[i..]))
    {
      var product := results[i];
      SearchStep(a, results, i);
      var verdict := Check(a, product);
      if verdict.Raise? {
        return Raise(verdict.error);
      }
      if verdict.value {
        ExtendAssoc(filtered, [product], SearchIn(a, results[i + 1..]));
        filtered := filtered + [product];
      }
      i := i + 1;
    }
    assert results[i..] == [];
    assert filtered + [] == filtered;
    return Return(filtered);
  }

  lemma ExtendAssoc(pre: seq<Product>, mid: seq<Product>, o: Outcome<seq<Product>>)
    ensures Extend(pre, Extend(mid, o)) == Extend(pre + mid, o)
  {
    if o.Return? {
      assert pre + (mid + o.value) == (pre + mid) + o.value;
    }
  }

  /** The search over the fixed catalogue. */
  method EccomerceSearchAggregtor(a: SearchArgs) returns (r: Outcome<seq<Product>>)
    ensures r == SearchIn(a, Products)
  {
    r := FilterProducts(a, Products);
  }

  /** The products of `ps` that satisfy `keep`, in order. */
  function Where(ps: seq<Product>, keep: Product -> bool): (r: seq<Product>)
    ensures |r| <= |ps|
    ensures forall k :: 0 <= k < |r| ==> r[k] in ps && keep(r[k])
    ensures forall k :: 0 <= k < |ps| && keep(ps[k]) ==> ps[k] in r
  {
    if ps == [] then [] else (if keep(ps[0]) then [ps[0]] else []) + Where(ps[1..], keep)
  }

  predicate Passes(a: SearchArgs, p: Product) { Check(a, p) == Return(true) }

  /**
    * A search that returns gives exactly the products whose checks all pass, in database
    * order; it raises exactly when some product's checks raise, and then with the
    * exception of the first such product.
    */
  lemma SearchIsFilter(a: SearchArgs, ps: seq<Product>)
    ensures SearchIn(a, ps).Return? <==> forall k :: 0 <= k < |ps| ==> Check(a, ps[k]).Return?
    ensures SearchIn(a, ps).Return? ==> SearchIn(a, ps).value == Where(ps, p => Passes(a, p))
    ensures SearchIn(a, ps).Raise? ==>
      exists k :: 0 <= k < |ps| && Check(a, ps[k]) == Raise(SearchIn(a, ps).error) &&
        forall j :: 0 <= j < k ==> Check(a, ps[j]).Return?
  {
    SearchReturns(a, ps);
    SearchKeeps(a, ps);
    if SearchIn(a, ps).Raise? {
      SearchRaises(a, ps);
    }
  }

  lemma {:induction false} SearchReturns(a: SearchArgs, ps: seq<Product>)
    ensures SearchIn(a, ps).Return? <==> forall k :: 0 <= k < |ps| ==> Check(a, ps[k]).Return?
  {
    if ps != [] {
      SearchReturns(a, ps[1..]);
      assert forall k :: 1 <= k < |ps| ==> ps[k] == ps[1..][k - 1];
    }
  }

  lemma {:induction false} SearchKeeps(a: SearchArgs, ps: seq<Product>)
    ensures SearchIn(a, ps).Return? ==> SearchIn(a, ps).value == Where(ps, p => Passes(a, p))
  {
    if ps != [] {
      SearchKeeps(a, ps[1..]);
    }
  }

  lemma {:induction false} SearchRaises(a: SearchArgs, ps: seq<Product>)
    requires SearchIn(a, ps).Raise?
    ensures
      exists k :: 0 <= k < |ps| && Check(a, ps[k]) == Raise(SearchIn(a, ps).error) &&
        forall j :: 0 <= j < k ==> Check(a, ps[j]).Return?
  {
    var e := SearchIn(a, ps).error;
    if Check(a, ps[0]).Raise? {
      assert Check(a, ps[0]) == Raise(e);
    } else {
      var tail := ps[1..];
      assert SearchIn(a, tail) == Raise(e);
      SearchRaises(a, tail);
      var k :| 0 <= k < |tail| && Check(a, tail[k]) == Raise(e) && forall j :: 0 <= j < k ==> Check(a, tail[j]).Return?;
      assert forall j :: 0 <= j < |tail| ==> tail[j] == ps[j + 1];
      assert 0 <= k + 1 < |ps| && Check(a, ps[k + 1]) == Raise(e);
    }
  }

  /** A kept product passed every check the source applies. */
  lemma PassesAll(a: SearchArgs, p: Product)
    requires Passes(a, p)
    ensures NameCheck(a.name, p) == Return(true)
    ensures FieldCheck(a.color, p.color) == Return(true)
    ensures SizeCheck(a.size, p) == Return(true)
    ensures PriceCheck(a.priceRange, p) == Return(true)
    ensures FieldCheck(a.store, p.store) == Return(true)
    ensures StockCheck(a.inStock, p) == Return(true)
  {
  }

  /** Every product a search returns comes from the catalogue. */
  lemma ResultsFromCatalogue(a: SearchArgs)
    ensures SearchIn(a, Products).Return? ==>
      forall k :: 0 <= k < |SearchIn(a, Products).value| ==> SearchIn(a, Products).value[k] in Products
  {
    SearchIsFilter(a, Products);
  }

  /** Some term is a substring of some word. */
  predicate SomeTermInWord(terms: seq<string>, words: seq<string>) {
    exists i, j :: 0 <= i < |terms| && 0 <= j < |words| && Contains(words[j], terms[i])
  }

  /** The name test holds iff some query word is a substring of some word of the product name. */
  lemma NameMatchesIff(query: string, productName: string)
    ensures NameMatches(query, productName) <==> SomeTermInWord(Split(Lower(query)), Split(Lower(productName)))
  {
    var terms := Split(Lower(query));
    var words := Split(Lower(productName));
    if NameMatches(query, productName) {
      var i :| 0 <= i < |terms| && Contains(JoinSpaced(words), terms[i]);
      ContainsInJoined(words, terms[i]);
      var j :| 0 <= j < |words| && Contains(words[j], terms[i]);
      assert SomeTermInWord(terms, words);
    } else {
      forall i, j | 0 <= i < |terms| && 0 <= j < |words| ensures !Contains(words[j], terms[i]) {
        assert !Contains(JoinSpaced(words), terms[i]);
        ContainsInJoined(words, terms[i]);
      }
      assert !SomeTermInWord(terms, words);
    }
  }

  /** A name made only of separators has no terms, so it matches nothing and the search is empty. */
  lemma {:induction false} BlankNameMatchesNothing(a: SearchArgs, ps: seq<Product>)
    requires a.name.Str? && a.name.s != [] && forall i :: 0 <= i < |a.name.s| ==> IsSpace(a.name.s[i])
    ensures SearchIn(a, ps) == Return([])
  {
    var s := a.name.s;
    assert Split(Lower(s)) == [] by {
      BlankSplit(Lower(s));
    }
    if ps != [] {
      BlankNameMatchesNothing(a, ps[1..]);
    }
  }

  lemma {:induction false} BlankSplit(s: string)
    requires forall i :: 0 <= i < |s| ==> IsSpace(s[i])
    ensures Split(s) == []
  {
    if s != [] {
      BlankSplit(s[1..]);
    }
  }

  /** The arguments with every falsy name, colour, price, size and store filter replaced by `None`. */
  function Omitting(a: SearchArgs): SearchArgs {
    a.(name := if Truthy(a.name) then a.name else Null,
       color := if Truthy(a.color) then a.color else Null,
       priceRange := if Truthy(a.priceRange) then a.priceRange else Null,
       size := if Truthy(a.size) then a.size else Null,
       store := if Truthy(a.store) then a.store else Null)
  }

  lemma CheckOmitting(a: SearchArgs, p: Product)
    ensures Check(Omitting(a), p) == Check(a, p)
  {
  }

  /** Falsy filters are skipped: the search is the one with those filters omitted. */
  lemma {:induction false} FalsyFiltersSkipped(a: SearchArgs, ps: seq<Product>)
    ensures SearchIn(Omitting(a), ps) == SearchIn(a, ps)
  {
    if ps != [] {
      CheckOmitting(a, ps[0]);
      FalsyFiltersSkipped(a, ps[1..]);
    }
  }

  /** Each filter given as a falsy value (`""`, `0`, `[]`, …) searches as if it had been omitted. */
  lemma FalsyAsOmitted(a: SearchArgs, ps: seq<Product>)
    ensures !Truthy(a.name) ==> SearchIn(a, ps) == SearchIn(a.(name := Null), ps)
    ensures !Truthy(a.color) ==> SearchIn(a, ps) == SearchIn(a.(color := Null), ps)
    ensures !Truthy(a.priceRange) ==> SearchIn(a, ps) == SearchIn(a.(priceRange := Null), ps)
    ensures !Truthy(a.size) ==> SearchIn(a, ps) == SearchIn(a.(size := Null), ps)
    ensures !Truthy(a.store) ==> SearchIn(a, ps) == SearchIn(a.(store := Null), ps)
  {
    if !Truthy(a.name) { SameOmitting(a, a.(name := Null), ps); }
    if !Truthy(a.color) { SameOmitting(a, a.(color := Null), ps); }
    if !Truthy(a.priceRange) { SameOmitting(a, a.(priceRange := Null), ps); }
    if !Truthy(a.size) { SameOmitting(a, a.(size := Null), ps); }
    if !Truthy(a.store) { SameOmitting(a, a.(store := Null), ps); }
  }

  lemma SameOmitting(a: SearchArgs, b: SearchArgs, ps: seq<Product>)
    requires Omitting(a) == Omitting(b)
    ensures SearchIn(a, ps) == SearchIn(b, ps)
  {
    FalsyFiltersSkipped(a, ps);
    FalsyFiltersSkipped(b, ps);
  }

  /**
    * With every filter falsy and `in_stock` omitted, every product is kept, in order;
    * `in_stock=False` is not skipped (`is not None`).
    */
  lemma {:induction false} NoFiltersKeepAll(a: SearchArgs, ps: seq<Product>)
    requires !Truthy(a.name) && !Truthy(a.color) && !Truthy(a.priceRange) && !Truthy(a.size) && !Truthy(a.store)
    requires a.inStock.Null?
    ensures SearchIn(a, ps) == Return(ps)
  {
    if ps != [] {
      NoFiltersKeepAll(a, ps[1..]);
      assert Check(a, ps[0]) == Return(true);
      assert [ps[0]] + ps[1..] == ps;
    }
  }

  /** The `delivery` argument never affects the result. */
  lemma {:induction false} DeliveryIgnored(a: SearchArgs, d: Value, ps: seq<Product>)
    ensures SearchIn(a.(delivery := d), ps) == SearchIn(a, ps)
  {
    if ps != [] {
      DeliveryIgnored(a, d, ps[1..]);
    }
  }

  /**
    * When the price range parses to `(lo, hi)`, every returned product costs between
    * `lo` and `hi`; when a truthy range does not parse, nothing is returned.
    */
  lemma PriceFilterBounds(a: SearchArgs, q: PriceQuery, ps: seq<Product>)
    requires Truthy(a.priceRange) && AsPriceQuery(a.priceRange) == Return(q)
    ensures SearchIn(a, ps).Return? && ParsePriceRange(q).Some? ==>
      forall k :: 0 <= k < |SearchIn(a, ps).value| ==>
        ParsePriceRange(q).value.0 <= SearchIn(a, ps).value[k].price <= ParsePriceRange(q).value.1
    ensures SearchIn(a, ps).Return? && ParsePriceRange(q).None? ==> SearchIn(a, ps).value == []
  {
    SearchIsFilter(a, ps);
    var rs := SearchIn(a, ps);
    if rs.Return? {
      forall k | 0 <= k < |rs.value| ensures PriceCheck(a.priceRange, rs.value[k]) == Return(true) {
        PassesAll(a, rs.value[k]);
      }
    }
  }

  lemma UnderSeventyParses()
    ensures ParsePriceRange(Text("under 70")) == Some((0.0, 70.0))
  {
    UnderPhrase(70);
    assert NatStr(7) == "7";
    assert NatStr(70) == "70";
    assert "under " + NatStr(70) == "under 70";
  }

  /** "under 70" keeps only products priced from 0 to 70. */
  lemma UnderSeventy(a: SearchArgs, ps: seq<Product>)
    requires a.priceRange == Str("under 70")
    ensures SearchIn(a, ps).Return? ==>
      forall k :: 0 <= k < |SearchIn(a, ps).value| ==> 0.0 <= SearchIn(a, ps).value[k].price <= 70.0
  {
    UnderSeventyParses();
    PriceFilterBounds(a, Text("under 70"), ps);
  }

  /** The stock filter compares exactly: asking for `false` keeps only products out of stock. */
  lemma StockFilterExact(a: SearchArgs, b: bool, ps: seq<Product>)
    requires a.inStock == Bool(b)
    ensures SearchIn(a, ps).Return? ==>
      forall k :: 0 <= k < |SearchIn(a, ps).value| ==> SearchIn(a, ps).value[k].inStock == b
  {
    SearchIsFilter(a, ps);
    var rs := SearchIn(a, ps);
    if rs.Return? {
      forall k | 0 <= k < |rs.value| ensures rs.value[k].inStock == b {
        PassesAll(a, rs.value[k]);
      }
    }
  }

  /** Color, size and store are compared case-insensitively with the product's own fields. */
  lemma TextFiltersCaseInsensitive(a: SearchArgs, ps: seq<Product>)
    ensures SearchIn(a, ps).Return? ==>
      forall k :: 0 <= k < |SearchIn(a, ps).value| ==>
        var p := SearchIn(a, ps).value[k];
        (a.color.Str? && a.color.s != "" ==> Lower(a.color.s) == Lower(p.color)) &&
        (a.size.Str? && a.size.s != "" ==> Upper(a.size.s) == Upper(p.size)) &&
        (a.store.Str? && a.store.s != "" ==> Lower(a.store.s) == Lower(p.store))
  {
    SearchIsFilter(a, ps);
    var rs := SearchIn(a, ps);
    if rs.Return? {
      forall k | 0 <= k < |rs.value|
        ensures var p := rs.value[k];
          (a.color.Str? && a.color.s != "" ==> Lower(a.color.s) == Lower(p.color)) &&
          (a.size.Str? && a.size.s != "" ==> Upper(a.size.s) == Upper(p.size)) &&
          (a.store.Str? && a.store.s != "" ==> Lower(a.store.s) == Lower(p.store))
      {
        PassesAll(a, rs.value[k]);
      }
    }
  }

  /** Arguments of the documented types never make the search raise. */
  lemma WellTypedNeverRaises(a: SearchArgs)
    requires a.name.Null? || a.name.Str?
    requires a.color.Null? || a.color.Str?
    requires a.store.Null? || a.store.Str?
    requires !a.priceRange.List? && !a.priceRange.Object?
    ensures SearchIn(a, Products).Return?
  {
    SearchIsFilter(a, Products);
    forall k | 0 <= k < |Products| ensures Check(a, Products[k]).Return? {
      var p := Products[k];
    }
  }
}
