# Shopping assistant agents: a Dafny model

This project models the core of a small shopping assistant. There are two agents: the plain
ReAct one (`react_agent.py`) and the self-critic one (`react_selfcritic.py`). Each sends the
conversation so far to a language model, which may answer with action spans of the form
`[[CALL tool_name, {json}]]`. Each agent:

- extracts those spans with a regular expression and decodes their parameter objects;
- runs each call against one of five tools over a fixed dataset and appends the
  observations to the conversation;
- stops when a reply holds no calls, when the model call fails, or after five rounds.

The five tools live in `tools.py`:

- product search with name, colour, size, price, store and stock filters;
- a shipping estimate with a delivery-date feasibility check;
- discount codes;
- return policies, with a product-to-store indirection;
- competitor prices.

Modules, following the program's structure:

- `Ascii`, `Numerals`, `PyValues`, `Calendar`: the Python primitives the code relies on.
  These are `str.lower`/`upper`/`split`/`join`, `in`, `int()`/`float()`/`str()` on
  decimal text, decoded JSON values with Python truthiness, exceptions as data, and
  `datetime` date arithmetic.
- `Catalogue`: the product database.
- `PriceRange`: `parse_price_range`.
- `Search`: `eccomerce_search_aggregtor`. The filtering loop is a method proved equal to a
  recursive specification. That specification is then proved to be a filter in database
  order.
- `Delivery`, `Shipping`: `calculate_delivery_feasibility` and `shipping_time_estimator`.
- `Lookups`: `discount_promo_checker`, `return_policy_checker` and
  `competitor_price_comparison`. The two loops with early return are methods.
- `ActionGrammar`: `parse_tool_calls`.
  - The regular expression is stated declaratively (`IsMatch`), and a scanner (`MatchAt`)
    is proved sound and complete for it.
  - `findall` is the leftmost scan that resumes after each match.
  - The decoding loop is a method.
- `Dispatch`: `execute_tools`, with keyword binding of `**params` and the containment of
  every exception in a message.
- `Controller`: the bounded loop shared by both agents. It is a function `Run` over an
  environment, plus a method `RunLoop` proved equal to it.
- `ReactAgent`, `ReactSelfcritic`: `react_loop` and `reat_selfcritic_loop`. They differ only
  in the system prompt.

What the code takes from outside is passed in explicitly, as `Controller.Oracles`:

- the language model, as a function of (system prompt, context) that may fail;
- `json.loads` of a parameter span;
- `str()` of a parameter object;
- `json.dumps` of a tool result;
- the clock reading.

The loop itself is stated over an environment `Controller.Env`. It holds the model, the
reply parser, the tool executor and the two renderings. Both agents run the loop in
`Controller.Agent(o)`, whose parser is `ActionGrammar.ToolCalls` (`parse_tool_calls`) and
whose executor is `Dispatch.ExecuteTools` (`execute_tools`). The loop's properties hold
for any parser and executor, and so for these two.

`parse_tool_calls` and `execute_tools` are character-for-character identical in the two
agent files: `react_selfcritic.py:188-230` repeats `react_agent.py:173-215`. The model has
one copy, and the table cites `react_agent.py`.

Behaviour of the code that the model keeps, and proves, even where the documented intent
says otherwise:

- **Shipping never yields a quote for a catalogue product**
  (`Shipping.CatalogueNeverQuoted`). The only product with per-ZIP entries and a "default"
  entry is "Summer Floral Skirt", and that is not a catalogue name; "Floral Skirt" has no
  entry at all. For every other product, the store entry is a single quote dictionary.
  Looking a ZIP code up in it finds nothing (or a quote's own field), so the answer is
  "Shipping not available to ZIP code …" (or an exception). The documented store-level
  default therefore only applies to the per-ZIP table (`Shipping.ZipTableFallback`).
- **Some day names are read as days of the month** (`Delivery.OrdinalLookalikes`).
  "monday", "thursday", "saturday" and "sunday" contain "nd", "th" or "rd". They are routed
  to the day-of-month branch, which finds no digits and reports an invalid date. Only
  Tuesday, Wednesday and Friday reach the weekday branch (`Delivery.WeekdayReached`).
- **A requested day of the month is not moved forward.** The day is taken in this month
  when it has not passed yet, and in the next month otherwise. A day that does not exist
  in that month is an invalid date; the code does not look for the soonest month that has
  it.
- **A JSON list for `price_range` is not a range.** A decoded JSON value is never a Python
  tuple, so a list for `price_range` fails on `.lower()` (`Search.AsPriceQuery`). The
  tuple branch of `parse_price_range` is modelled (`PriceRange.RangeTuple`), but no
  decoded call reaches it.
- **One unterminated call can swallow the next.** A span whose parameters never reach
  "}]]" extends to the next "}]]". A call inside it is lost (`ActionGrammar.Swallowed`).
  A span on which `json.loads` raises `JSONDecodeError`, by contrast, drops only its own call
  (`ActionGrammar.DecodeAllConcat`).

## Model

| member | source | states |
|---|---|---|
| Ascii.Lower | tools.py:21 | `str.lower()` keeps the length and lower-cases each ASCII capital, leaving every other character unchanged |
| Ascii.Upper | tools.py:80 | `str.upper()` keeps the length and upper-cases each ASCII small letter, leaving every other character unchanged |
| Ascii.Split | tools.py:68-69 | `str.split()` yields non-empty words free of separators (blank, tab, line feed, vertical tab, form feed, carriage return and U+001C to U+001F), made of characters of the input |
| Ascii.SplitWord | tools.py:68-69 | a separator-free word followed by a separator (or the end) is the first word of the split, followed by the split of the rest |
| Ascii.ContainsIff | tools.py:72 | `sub in s` holds exactly when `sub` occurs at some index of `s` |
| Ascii.ContainsInJoined | tools.py:72 | a separator-free term occurs in the space-joined words exactly when it occurs in one of the words, so the arbitrary order of a Python set does not change the name test |
| Ascii.Keep | tools.py:24 | the kept characters all satisfy the predicate and are at most as many as the input's |
| Ascii.KeepConcat | tools.py:24 | keeping characters distributes over concatenation |
| Ascii.LowerIdempotent | tools.py:123 | lower-casing twice is lower-casing once |
| PyValues.AsStr | tools.py:68 | `.lower()` succeeds exactly on a string, and then yields that string; any other value raises |
| PyValues.Lookup | react_agent.py:212 | a keyword is found exactly when some decoded key equals it |
| Numerals.ParseNat | tools.py:117 | `int()` of ASCII text succeeds exactly on a non-empty run of digits |
| Numerals.NatStr | tools.py:80 | `str(n)` is a non-empty run of digits |
| Numerals.NatStrRoundTrip | tools.py:117 | `int(str(n)) == n` |
| Numerals.ParseDecimal | tools.py:24 | `float()` of digits and dots succeeds exactly when the text has at least one digit and at most one dot, and then is non-negative |
| Numerals.DecimalOfNatStr | tools.py:24 | `float(str(n)) == n` |
| PriceRange.Min | tools.py:32 | `min(numbers)` is an element no larger than any other |
| PriceRange.Max | tools.py:32 | `max(numbers)` is an element no smaller than any other |
| PriceRange.ParseAll | tools.py:30 | the list comprehension of `float()` gives one non-negative number per word, or fails as a whole |
| PriceRange.NumberWords | tools.py:30 | the words of the "between" branch consist of digits and dots only |
| PriceRange.ParsePriceRange | tools.py:4-35 | a tuple is returned as it is and a number `n` gives (0, n); a range from text is ordered, exists only when the text mentions "under", "less than" or "between", and starts at 0 for the first two |
| PriceRange.UnderText | tools.py:22-27 | text with "under" or "less than" gives a range exactly when its digits and dots form a number, and the range is from 0 to `float()` of them |
| PriceRange.UnderNumber | tools.py:22-25 | such a text whose digits spell `n` gives (0, n) |
| PriceRange.BetweenText | tools.py:28-35 | text with "between" (and neither "under" nor "less than") gives no range with fewer than two number words; otherwise a range exactly when every word is a number, from the smallest to the largest |
| PriceRange.NoKeywordText | tools.py:20-35 | text mentioning none of the three keywords gives no range |
| PriceRange.UnderPhrase | tools.py:22-25 | "under N" parses to (0, N) |
| PriceRange.BetweenPhrase | tools.py:28-32 | "between A and B" parses to (min(A, B), max(A, B)) |
| Search.AsPriceQuery | tools.py:13-21 | a decoded `price_range` raises exactly when it is `null`, a list or an object; `bool` counts as a number |
| Search.Then | tools.py:66-98 | two checks in sequence pass exactly when both pass, and the second is evaluated only after the first passed |
| Search.FilterProducts | tools.py:64-100 | the filtering loop returns what the recursive search specification returns |
| Search.EccomerceSearchAggregtor | tools.py:37-102 | the tool returns the search of the fixed catalogue |
| Search.Where | tools.py:100 | the kept products come from the input, satisfy the predicate, and include every input product that does |
| Search.SearchIsFilter | tools.py:64-100 | the search returns exactly when no check raises, and then gives the passing products in database order; otherwise it raises the first product's exception |
| Search.PassesAll | tools.py:66-98 | a kept product passed the name, colour, size, price, store and stock checks |
| Search.ResultsFromCatalogue | tools.py:52-62 | every returned product is a catalogue product |
| Search.NameMatchesIff | tools.py:67-73 | the name test holds exactly when some query word is a substring of some word of the product name |
| Search.BlankNameMatchesNothing | tools.py:67-73 | a non-empty name made only of separators is truthy but has no terms, so nothing matches |
| Search.DeliveryIgnored | tools.py:37 | the `delivery` argument never affects the result |
| Search.FalsyFiltersSkipped | tools.py:67-95 | falsy name, colour, size, price and store arguments are skipped: the search equals the one with them omitted |
| Search.FalsyAsOmitted | tools.py:67-95 | each of those filters given as any falsy value searches as if it were `None` |
| Search.NoFiltersKeepAll | tools.py:64-100 | with every filter falsy and `in_stock` omitted, every product is returned in order |
| Search.PriceFilterBounds | tools.py:83-90 | with a range (lo, hi), every returned product costs between lo and hi; a truthy range that does not parse returns nothing |
| Search.UnderSeventy | tools.py:83-90 | `price_range="under 70"` returns only products priced from 0 to 70 |
| Search.StockFilterExact | tools.py:97-98 | `in_stock=b` returns only products whose stock flag is b |
| Search.TextFiltersCaseInsensitive | tools.py:76-94 | each colour, size and store argument given as a non-empty string agrees with the returned products' field, ignoring case; omitted ones impose nothing |
| Search.WellTypedNeverRaises | tools.py:37-102 | a string or absent name, colour and store, and a price range that is no list or object, never make the search raise |
| Calendar.DaysInMonth | tools.py:140 | every month has 28 to 31 days |
| Calendar.NextDay | tools.py:141 | the next day is a valid date strictly after the given one |
| Calendar.AddDays | tools.py:141 | adding days yields a valid date, strictly later when the number of days is positive |
| Calendar.AddDaysIncreasing | tools.py:141-144 | adding more days gives a strictly later date |
| Calendar.AddDaysOrder | tools.py:162-166 | `today + m <= today + n` exactly when `m <= n` |
| Delivery.IndexOf | tools.py:153-155 | `days.index(t)` is the first position holding `t`, and there is none exactly when `t not in days` |
| Delivery.DaysUntil | tools.py:158-160 | the days to the target weekday are between 1 and 7, and they land on that weekday |
| Delivery.TargetMonth | tools.py:129-138 | the month is this one when the day has not passed, otherwise the next, rolling December into January of the next year |
| Delivery.AddToToday | tools.py:141 | `today + timedelta(days=n)` succeeds exactly when the date stays within year 9999, and otherwise raises `OverflowError` |
| Delivery.WeekdayVerdict | tools.py:153-169 | for a day name, the requested date is the next such weekday strictly after today, and delivery is feasible exactly when the days needed do not exceed the days until it |
| Delivery.OrdinalVerdict | tools.py:126-147 | for a day of the month, the requested date carries that day, in this month or the next; delivery is feasible when it arrives earlier, or the same day and only at midnight |
| Delivery.OrdinalInvalidDate | tools.py:127-150 | the day-of-month branch reports an invalid date exactly when there are no digits, or they name no real date in the chosen month |
| Delivery.SameDayNeedsMidnight | tools.py:140-144 | with zero lead time and today's own day number, the verdict is feasible only at midnight |
| Delivery.DecemberRollsOver | tools.py:133-136 | in December, a day that has passed falls in January of the next year |
| Delivery.OrdinalLookalikes | tools.py:122-126 | "monday", "thursday", "saturday" and "sunday", in any case, are reported as invalid dates |
| Delivery.WeekdayReached | tools.py:153-155 | "tuesday", "wednesday" and "friday" reach the weekday branch with their own index |
| Delivery.TargetCaseInsensitive | tools.py:123 | the verdict does not depend on the capitalisation of the target |
| Delivery.UnknownTarget | tools.py:171-172 | a target that names neither a day of the month nor a weekday is an invalid target |
| Delivery.NonStringTarget | tools.py:123 | a target that is not a string raises on `.lower()` |
| Shipping.BeforeDash | tools.py:117 | `s.split('-')[0]` is the longest prefix of `s` without a dash |
| Shipping.ParseDeliveryDays | tools.py:115-117 | the days are `int()` of the text before the first dash, and the function raises exactly when that is not a number |
| Shipping.DeliveryDaysOf | tools.py:115-117 | `parse_delivery_days("N-day") == N` |
| Shipping.ZipShipping | tools.py:250 | the ZIP code's own entry when listed, else the "default" entry, else `{}`; an unhashable ZIP raises |
| Shipping.ShippingTimeEstimator | tools.py:104-263 | the tool returns the estimate over the fixed table for the first search hit |
| Shipping.QuoteShape | tools.py:245-263 | a quote carries the ZIP entry (or the default); the verdict is present exactly when a target was given, and the ZIP code exactly when both a target and a ZIP code were |
| Shipping.FromStoreShape | tools.py:245-263 | from a store entry on, a quote is the ZIP entry or the default with the verdict and ZIP code added, and a missing ZIP entry reports that ZIP code |
| Shipping.CatalogueDays | tools.py:181 | the catalogue's delivery strings parse to 2, 3, 4 and 5 days |
| Shipping.CatalogueEntries | tools.py:184-242 | "Floral Skirt" has no table entry; every other catalogue product's store entry is a single quote |
| Shipping.CatalogueEstimate | tools.py:174-252 | after a search of the catalogue the estimate is "Product not found", "Shipping information not available", or the outcome of looking the ZIP code up in a single quote |
| Shipping.FlatEntryOutcome | tools.py:245-252 | a single quote used as a per-ZIP table yields no quote: it is "not available to ZIP code", or an exception for the keys of the quote itself |
| Shipping.CatalogueNeverQuoted | tools.py:174-252 | with the fixed table, no call ever produces a quote |
| Shipping.ZipTableFallback | tools.py:184-201 | in the per-ZIP table, a listed ZIP code gets its own entry and any other gets the store's default |
| Lookups.DiscountPromoChecker | tools.py:265-284 | the lookup raises exactly on an unhashable argument, with `unhashable type` |
| Lookups.DiscountExact | tools.py:284 | the codes are non-empty exactly for the exact name of a listed product |
| Lookups.CatalogueHasDiscounts | tools.py:273-283 | every catalogue product has codes under its exact name |
| Lookups.DiscountCaseSensitive | tools.py:284 | "Floral Skirt" gets its three codes, and "floral skirt" gets none |
| Lookups.ReturnPolicyChecker | tools.py:286-322 | the loop with early return computes the policy specification |
| Lookups.KnownStore | tools.py:317-322 | a store name is answered from the table directly |
| Lookups.FirstStoreMatchSpec | tools.py:318-320 | the loop over the hits answers with the first hit whose lower-cased name contains the lower-cased input, and with nothing exactly when no hit does |
| Lookups.PolicyByProduct | tools.py:316-322 | for a non-store string, the first containing hit's store policy, or "Store not found" when no hit contains it |
| Lookups.UnknownStoreSearches | tools.py:317-322 | for a string that is not a store, the search does not raise and the answer is the loop's |
| Lookups.PolicyOfNull | tools.py:316-320 | an absent store name matches every product and then raises on `.lower()` |
| Lookups.FirstHitDecides | tools.py:318-320 | hits before the first kept one that contains the input are skipped, and that one decides |
| Lookups.CocktailDressPolicy | tools.py:316-322 | "Cocktail Dress" resolves through its product to SiteB's policy |
| Lookups.FindOffers | tools.py:381-385 | the loop with early return computes the comparison specification over the given table |
| Lookups.CompetitorPriceComparison | tools.py:324-385 | the tool computes the comparison over the fixed table |
| Lookups.OffersForSpec | tools.py:381-385 | the offers of the first key equal to the input ignoring case, `[]` exactly when no key is; a non-string raises on a non-empty table |
| Lookups.OffersIgnoreCase | tools.py:383 | the comparison gives the same answer for a name and its lower-case form |
| Lookups.ComparisonsCoverCatalogue | tools.py:333-379 | the table lists every catalogue product, in catalogue order, each with offers |
| Dispatch.FirstUnexpected | react_agent.py:212 | there is no unexpected keyword exactly when every key is a parameter; one that is found is a key that is no parameter |
| Dispatch.FirstMissing | react_agent.py:212 | nothing is missing exactly when every required parameter is supplied; one that is found is required and absent |
| Dispatch.BindErrorIff | react_agent.py:212 | binding `**params` succeeds exactly when every key is a parameter and every required one is supplied |
| Dispatch.MessagesDiffer | react_agent.py:213-215 | an execution error can never be confused with an unknown-tool message |
| Dispatch.UnknownToolIff | react_agent.py:211-213 | the answer is "Unknown tool: …" exactly when the name is not one of the five |
| Dispatch.ExecuteKnownTool | react_agent.py:210-215 | for a known tool a binding error or raised exception becomes "Error executing …", and a result passes through unchanged |
| Dispatch.UnexpectedKeyword | react_agent.py:212-215 | an unexpected keyword is reported by name, ahead of a missing argument |
| Dispatch.MissingProductName | react_agent.py:212-215 | the price comparison called with no arguments reports the missing `product_name` |
| Dispatch.DiscountCall | react_agent.py:212 | a well-formed discount call passes the codes through |
| ActionGrammar.RunEnd | react_agent.py:182 | the run of `\w` (or `\s`) characters ends at the first character outside the class |
| ActionGrammar.CloseFrom | react_agent.py:182 | the lazy `.*?` stops at the first "}]]" |
| ActionGrammar.MatchAt | react_agent.py:182 | a match found at a position starts there and fits in the text |
| ActionGrammar.MatchAtSound | react_agent.py:182-183 | what the scanner finds is a match of the pattern |
| ActionGrammar.MatchAtComplete | react_agent.py:182-183 | every match of the pattern is the one the scanner finds at its start, so a match is unique |
| ActionGrammar.NextMatch | react_agent.py:183 | the search finds a span at or after the given position |
| ActionGrammar.NextMatchLeftmost | react_agent.py:183 | no position before the one found, and none at all when the search fails, starts a match |
| ActionGrammar.FindAll | react_agent.py:183 | every reported span starts at or after the given position and fits in the text |
| ActionGrammar.FindAllMatches | react_agent.py:183 | every reported span is a match of the pattern |
| ActionGrammar.FindAllOrdered | react_agent.py:183 | the matches come in text order and do not overlap |
| ActionGrammar.FindAllCovers | react_agent.py:183 | every position where the pattern matches is reported or lies inside a reported match |
| ActionGrammar.Swallowed | react_agent.py:183 | a match that starts inside a reported one is not reported |
| ActionGrammar.NoPrefixNoCalls | react_agent.py:182-183 | text without "[[CALL " has no matches |
| ActionGrammar.GroupsOf | react_agent.py:183-184 | one pair of groups per match, in match order |
| ActionGrammar.DecodeAllConcat | react_agent.py:184-189 | decoding is independent per span, so a malformed span drops only its own call |
| ActionGrammar.DecodeAllSpec | react_agent.py:184-189 | if every span decodes, each call is its span's name and decoded parameters, in order; if none decodes there are no calls |
| ActionGrammar.ParseToolCalls | react_agent.py:173-190 | the decoding loop returns the decoded calls of all matches |
| ActionGrammar.DecodeEach | react_agent.py:184-189 | the loop over the matches keeps, in order, the decoded calls of the spans that decode |
| ActionGrammar.NoCallText | react_agent.py:173-190 | a reply without "[[CALL " yields no calls |
| ActionGrammar.ParsedNames | react_agent.py:182-184 | every parsed name is a non-empty run of word characters, and every parameter text is enclosed in braces |
| Controller.TraceShape | react_agent.py:228-249 | the model is called between 1 and the budget times; the first call sees the seed; every round but the last continues and appends its segment |
| Controller.EndingFromTrace | react_agent.py:228-252 | the loop ends as the last context the model saw decides, and only a loop that used the whole budget can still have calls |
| Controller.PromptsShape | react_agent.py:226-245 | at most five model calls; the first sees "User Query: …"; each later context extends the previous one with that round's segment |
| Controller.EndingCases | react_agent.py:228-252 | the loop fails exactly when the last reply is missing or empty; it otherwise returns that reply, as a final answer when it has no calls, or after five rounds that all had calls |
| Controller.AllRoundsCall | react_agent.py:228-252 | when every reply the loop sees holds calls, the model is called five times and the fifth reply is returned |
| Controller.FirstReplyFinal | react_agent.py:230-249 | a first reply without calls is returned unchanged after a single model call |
| Controller.ObservationsConcat | react_agent.py:239-241 | the observations of a round are the entries of its calls, concatenated in call order |
| Controller.RunCalls | react_agent.py:236-241 | the inner loop builds the observations of the calls in order |
| Controller.Step | react_agent.py:234-244 | after a usable reply, the round parses it, runs its calls and appends the reply and the observations to the context |
| Controller.RunLoop | react_agent.py:218-252 | the loop returns the answer of the loop specification `Run` |
| ReactAgent.ReactLoop | react_agent.py:218-252 | `react_loop` returns the answer of the loop in the agent environment: the failure text, or the reply to the last context the model saw |
| ReactSelfcritic.ReatSelfcriticLoop | react_selfcritic.py:233-267 | `reat_selfcritic_loop` returns the answer of the loop in the agent environment under the self-critic prompt: the failure text, or the reply to the last context the model saw |

## Left out
- The error texts are those of CPython 3.11 and 3.12. Earlier versions word some `TypeError`s differently, and 3.13 appends a "Did you mean …?" hint to an unexpected keyword argument.
- Numerals.ParseNat: CPython refuses `int()` of a digit string longer than 4300 digits (`sys.get_int_max_str_digits()`, raising `ValueError`); the model accepts any length. Inputs that long are not modelled.
- Delivery.OrdinalInvalidDate: a day of the month written with more than 4300 digits is, in CPython, an "Invalid date specified" (the `ValueError` of `int()` is caught); the model reports the `OverflowError` of an out-of-range day instead, because of the `Numerals.ParseNat` line above.
- ActionGrammar.DecodeAllConcat: `json.loads` is modelled as returning an object or raising `JSONDecodeError`, the one exception `parse_tool_calls` catches. Its other exceptions (a `RecursionError` on very deep nesting, the `ValueError` of an integer literal over 4300 digits) escape `parse_tool_calls` and end the agent with an exception; they are not modelled.
- Controller.EndingCases: the three endings leave out a fourth, an exception from `json.loads` other than `JSONDecodeError` propagating out of `react_loop` and `reat_selfcritic_loop`, which have no handler; see the line above.
- The Groq client, the API key, `load_dotenv`, and exiting when the key is missing are left out; they concern configuration and the network.
- `call_llm` is left out because it calls the network. The model is a parameter of the environment: a deterministic function of the system prompt and the context that may fail. The `.strip()` of its reply is taken to be part of it.
- The system prompt texts are not modelled; only which of the two prompts is used.
- `main`, and every `print` of diagnostics, are left out; they are console output.
- `json.loads` of a parameter span is a parameter of the environment. Python's JSON syntax and its handling of duplicate keys are not modelled.
- `json.dumps` of tool results and `str()` of a parameter object are parameters of the environment. The model keeps the structured results (`Dispatch.ToolResult`).
- `datetime.now()` is a parameter (`Calendar.Today`): the date, the weekday and whether the time of day is exactly midnight. The weekday is not checked against the date.
- Controller.Oracles: one clock reading serves a whole run of the loop. `shipping_time_estimator` reads `datetime.now()` afresh on every call, so a run whose calls straddle midnight (or any change of date) is not modelled.
- `strftime` rendering of dates is left out. Verdicts carry the dates themselves.
- Prices are exact decimals (`real`), not IEEE floats.
- `\w`, `\s`, `isdigit`, `lower` and `upper` are narrowed to ASCII. Other Unicode letters, digits and spaces (and case mappings beyond ASCII) are not modelled.
- `int()` is modelled on ASCII digit strings only. Signs, surrounding blanks and underscores are not accepted.
- `float()` is modelled on strings of digits and dots only; those are all that the parser passes it.
- Search.SizeText: `str(size).upper()` is modelled for `null`, booleans, integers and strings. For a float, list or object, the size test is taken to fail; their `str` never equals a catalogue size.
- Shipping.ShippingTimeEstimator: the in-place `zip_shipping.update(...)` and `zip_shipping["zip_code"] = ...` of the table entry are modelled as the fields of `Quote`. A repeated call with the same mutated entry is not modelled; the table is rebuilt on every call in the source.
