/**
  * `execute_tools`: the five tool names, keyword binding of the decoded parameter object
  * (`tool(**params)`), and the containment of every exception in an error message.
  */
module Dispatch {

  import opened Wrappers
  import opened PyValues
  import opened Catalogue
  import opened Search
  import opened Calendar
  import opened Shipping
  import opened Lookups

  /** What a tool returns, before `json.dumps` turns it into text. */
  datatype ToolResult =
    | SearchResult(products: seq<Product>)
    | ShippingResult(reply: ShippingReply)
    | DiscountResult(codes: Codes)
    | PolicyResult(policy: PolicyReply)
    | ComparisonResult(offers: seq<Offer>)

  /** The text `execute_tools` returns: a tool's output, or a message it composes itself. */
  datatype Observation = ToolOutput(result: ToolResult) | Message(text: string)

  const SearchTool := "eccomerce_search_aggregtor"
  const ShippingTool := "shipping_time_estimator"
  const DiscountTool := "discount_promo_checker"
  const PolicyTool := "return_policy_checker"
  const ComparisonTool := "competitor_price_comparison"

  /** The keys of `tool_mapping`. */
  predicate IsTool(name: string) {
    name == SearchTool || name == ShippingTool || name == DiscountTool || name == PolicyTool || name == ComparisonTool
  }

  /** The keyword parameters of each tool, in declaration order. */
  function Parameters(name: string): seq<string> {
    if name == SearchTool then ["name", "color", "price_range", "size", "in_stock", "store", "delivery"]
    else if name == ShippingTool then ["product_name", "delivery_target", "zip_code"]
    else if name == PolicyTool then ["store_name"]
    else ["product_name"]
  }

  /** The parameters without a default value. */
  function Required(name: string): seq<string> {
    if name == SearchTool then []
    else if name == PolicyTool then ["store_name"]
    else ["product_name"]
  }

  /** The first key of `params` that is not a parameter of the tool. */
  function FirstUnexpected(params: Params, allowed: seq<string>): (r: Option<string>)
    ensures r.None? <==> forall k :: 0 <= k < |params| ==> params[k].0 in allowed
    ensures r.Some? ==> r.value !in allowed && exists k :: 0 <= k < |params| && params[k].0 == r.value
  {
    if params == [] then None
    else if params[0].0 !in allowed then Some(params[0].0)
    else
      var rest := FirstUnexpected(params[1..], allowed);
      assert forall k :: 1 <= k < |params| ==> params[k] == params[1..][k - 1];
      rest
  }

  /** The first required parameter that `params` does not supply. */
  function FirstMissing(params: Params, required: seq<string>): (r: Option<string>)
    ensures r.None? <==> forall k :: 0 <= k < |required| ==> Lookup(params, required[k]).Some?
    ensures r.Some? ==> r.value in required && Lookup(params, r.value).None?
  {
    if required == [] then None
    else if Lookup(params, required[0]).None? then Some(required[0])
    else
      var rest := FirstMissing(params, required[1..]);
      assert forall k :: 1 <= k < |required| ==> required[k] == required[1..][k - 1];
      rest
  }

  /**
    * The `TypeError` of binding `**params`: an unexpected keyword is reported first, in
    * the order of the keys, and only then a missing required argument.
    */
  function BindError(name: string, params: Params): Option<PyError> {
    match FirstUnexpected(params, Parameters(name))
    case Some(key) => Some(PyError(TypeError, name + "() got an unexpected keyword argument '" + key + "'"))
    case None =>
      match FirstMissing(params, Required(name))
      case Some(p) => Some(PyError(TypeError, name + "() missing 1 required positional argument: '" + p + "'"))
      case None => None
  }

  /** Binding succeeds exactly when every key is a parameter and every required parameter is given. */
  lemma BindErrorIff(name: string, params: Params)
    ensures BindError(name, params).None? <==>
      (forall k :: 0 <= k < |params| ==> params[k].0 in Parameters(name)) &&
      (forall k :: 0 <= k < |Required(name)| ==> Lookup(params, Required(name)[k]).Some?)
  {
  }

  function Arg(params: Params, key: string): Value { ArgOrNone(params, key) }

  /** Runs a known tool on bound arguments: what the tool function returns or raises. */
  function Invoke(today: Today, name: string, params: Params): Outcome<ToolResult>
    requires IsTool(name)
  {
    if name == SearchTool then
      var a := SearchArgs(Arg(params, "name"), Arg(params, "color"), Arg(params, "price_range"),
        Arg(params, "size"), Arg(params, "in_stock"), Arg(params, "store"), Arg(params, "delivery"));
      match SearchIn(a, Products)
      case Raise(e) => Raise(e)
      case Return(ps) => Return(SearchResult(ps))
    else if name == ShippingTool then
      match ShippingTimeEstimate(ShippingInfo, today, Arg(params, "product_name"),
        Arg(params, "delivery_target"), Arg(params, "zip_code"))
      case Raise(e) => Raise(e)
      case Return(reply) => Return(ShippingResult(reply))
    else if name == DiscountTool then
      match DiscountPromoChecker(Arg(params, "product_name"))
      case Raise(e) => Raise(e)
      case Return(codes) => Return(DiscountResult(codes))
    else if name == PolicyTool then
      match ReturnPolicy(Arg(params, "store_name"))
      case Raise(e) => Raise(e)
      case Return(policy) => Return(PolicyResult(policy))
    else
      match OffersFor(Arg(params, "product_name"), Comparisons)
      case Raise(e) => Raise(e)
      case Return(offers) => Return(ComparisonResult(offers))
  }

  function UnknownTool(name: string): string { "Unknown tool: " + name }

  function ExecutionError(name: string, e: PyError): string { "Error executing " + name + ": " + e.message }

  /** `execute_tools` (react_agent.py:192-215). */
  function ExecuteTools(today: Today, toolName: string, params: Params): Observation {
    if !IsTool(toolName) then Message(UnknownTool(toolName))
    else
      match BindError(toolName, params)
      case Some(e) => Message(ExecutionError(toolName, e))
      case None =>
        match Invoke(today, toolName, params)
        case Raise(e) => Message(ExecutionError(toolName, e))
        case Return(v) => ToolOutput(v)
  }

  /** The two kinds of message cannot be confused: they differ in their first character. */
  lemma MessagesDiffer(name: string, other: string, e: PyError)
    ensures ExecutionError(name, e) != UnknownTool(other)
  {
    assert ExecutionError(name, e)[0] == 'E';
    assert UnknownTool(other)[0] == 'U';
  }

  /** The answer is "Unknown tool: …" exactly when the name is not one of the five. */
  lemma UnknownToolIff(today: Today, toolName: string, params: Params)
    ensures ExecuteTools(today, toolName, params) == Message(UnknownTool(toolName)) <==> !IsTool(toolName)
  {
    if IsTool(toolName) {
      ExecuteKnownTool(today, toolName, params);
      match BindError(toolName, params)
      case Some(e) => MessagesDiffer(toolName, toolName, e);
      case None =>
        if Invoke(today, toolName, params).Raise? {
          MessagesDiffer(toolName, toolName, Invoke(today, toolName, params).error);
        }
    }
  }

  /**
    * For a known tool nothing escapes: a binding error or an exception the tool raises
    * becomes "Error executing …", and a result is passed through unchanged.
    */
  lemma ExecuteKnownTool(today: Today, toolName: string, params: Params)
    requires IsTool(toolName)
    ensures BindError(toolName, params).Some? ==>
      ExecuteTools(today, toolName, params) == Message(ExecutionError(toolName, BindError(toolName, params).value))
    ensures BindError(toolName, params).None? && Invoke(today, toolName, params).Raise? ==>
      ExecuteTools(today, toolName, params) == Message(ExecutionError(toolName, Invoke(today, toolName, params).error))
    ensures BindError(toolName, params).None? && Invoke(today, toolName, params).Return? ==>
      ExecuteTools(today, toolName, params) == ToolOutput(Invoke(today, toolName, params).value)
  {
  }

  /** An unexpected keyword is reported by name, ahead of any missing argument. */
  lemma UnexpectedKeyword(today: Today, toolName: string, params: Params, key: string)
    requires IsTool(toolName) && FirstUnexpected(params, Parameters(toolName)) == Some(key)
    ensures ExecuteTools(today, toolName, params) ==
      Message(ExecutionError(toolName, PyError(TypeError, toolName + "() got an unexpected keyword argument '" + key + "'")))
  {
    ExecuteKnownTool(today, toolName, params);
  }

  /** The price-comparison tool called without `product_name` reports the missing argument. */
  lemma MissingProductName(today: Today)
    ensures ExecuteTools(today, ComparisonTool, []) ==
      Message(ExecutionError(ComparisonTool, PyError(TypeError, ComparisonTool + "() missing 1 required positional argument: 'product_name'")))
  {
    assert FirstUnexpected([], Parameters(ComparisonTool)) == None;
    assert FirstMissing([], Required(ComparisonTool)) == Some("product_name");
    ExecuteKnownTool(today, ComparisonTool, []);
  }

  /** A well-formed call of the discount tool passes its codes through. */
  lemma DiscountCall(today: Today, product: string)
    requires Discounts(product).Some?
    ensures ExecuteTools(today, DiscountTool, [("product_name", Str(product))]) ==
      ToolOutput(DiscountResult(Discounts(product).value))
  {
  }
}
