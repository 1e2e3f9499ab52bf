/**
  * The action grammar of the two agents: `parse_tool_calls` scans the model's reply for
  * spans of the form `[[CALL name, {…}]]`, as `re.findall` does with the pattern
  * `\[\[CALL (\w+),\s*(\{.*?\})\]\]` under `re.DOTALL`, and decodes each parameter span.
  *
  * At a given start the pattern can match in at most one way: the name is the whole run
  * of word characters after "[[CALL " (the next character must be ","), the separator is
  * the whole run of white space after the comma (the next character must be "{"), and the
  * lazy `.*?` stops at the first "}]]" after the opening brace. `findall` tries the starts
  * from left to right and resumes after each match.
  */
module ActionGrammar {

  import opened Wrappers
  import opened Ascii
  import opened PyValues

  /** The literal text the pattern starts with. */
  const CallPrefix: string := "[[CALL "

  /**
    * One match: where it starts, where the name ends (at the comma), where the parameter
    * span opens (at "{") and where the closing "}]]" begins.
    */
  datatype Span = Span(start: nat, nameEnd: nat, brace: nat, close: nat)

  /** The index just after the match. */
  function End(s: Span): nat { s.close + 3 }

  /** The two groups of a match: the tool name and the parameter text. */
  datatype RawCall = RawCall(name: string, params: string)

  predicate PrefixAt(text: string, i: nat) {
    i + |CallPrefix| <= |text| && text[i..i + |CallPrefix|] == CallPrefix
  }

  /** "}]]" begins at `q`. */
  predicate CloseAt(text: string, q: nat) {
    q + 3 <= |text| && text[q] == '}' && text[q + 1] == ']' && text[q + 2] == ']'
  }

  /** The positions of a span are in order and it fits in `text`. */
  predicate Fits(text: string, s: Span) {
    s.start + |CallPrefix| < s.nameEnd < s.brace < s.close && End(s) <= |text|
  }

  /** The pattern, read declaratively: `s` is a match in `text`. */
  predicate IsMatch(text: string, s: Span) {
    Fits(text, s) &&
    PrefixAt(text, s.start) &&
    (forall q :: s.start + |CallPrefix| <= q < s.nameEnd ==> IsWordChar(text[q])) &&
    text[s.nameEnd] == ',' &&
    (forall q :: s.nameEnd < q < s.brace ==> IsSpace(text[q])) &&
    text[s.brace] == '{' &&
    CloseAt(text, s.close) &&
    (forall q :: s.brace < q < s.close ==> !CloseAt(text, q))
  }

  /** The groups of a match. */
  function Groups(text: string, s: Span): RawCall
    requires Fits(text, s)
  {
    RawCall(text[s.start + |CallPrefix|..s.nameEnd], text[s.brace..s.close + 1])
  }

  /** The end of the run of characters satisfying `p` that begins at `k`. */
  function RunEnd(text: string, k: nat, p: char -> bool): (e: nat)
    requires k <= |text|
    ensures k <= e <= |text|
    ensures forall q :: k <= q < e ==> p(text[q])
    ensures e < |text| ==> !p(text[e])
    decreases |text| - k
  {
    if k == |text| || !p(text[k]) then k else RunEnd(text, k + 1, p)
  }

  /** The first "}]]" at or after `k`. */
  function CloseFrom(text: string, k: nat): (r: Option<nat>)
    ensures r.Some? ==> k <= r.value && CloseAt(text, r.value)
    ensures r.Some? ==> forall q :: k <= q < r.value ==> !CloseAt(text, q)
    ensures r.None? ==> forall q :: k <= q ==> !CloseAt(text, q)
    decreases |text| - k
  {
    if k + 3 > |text| then None
    else if CloseAt(text, k) then Some(k)
    else CloseFrom(text, k + 1)
  }

  /** The match that starts at `i`, if the pattern matches there. */
  function MatchAt(text: string, i: nat): (r: Option<Span>)
    ensures r.Some? ==> r.value.start == i && Fits(text, r.value)
  {
    if !PrefixAt(text, i) then None
    else
      var nameEnd := RunEnd(text, i + |CallPrefix|, IsWordChar);
      if nameEnd == i + |CallPrefix| || nameEnd == |text| || text[nameEnd] != ',' then None
      else
        var brace := RunEnd(text, nameEnd + 1, IsSpace);
        if brace == |text| || text[brace] != '{' then None
        else
          match CloseFrom(text, brace + 1)
          case None => None
          case Some(close) => Some(Span(i, nameEnd, brace, close))
  }

  /** Whatever the scanner finds at `i` is a match of the pattern that starts at `i`. */
  lemma MatchAtSound(text: string, i: nat)
    requires MatchAt(text, i).Some?
    ensures IsMatch(text, MatchAt(text, i).value)
  {
  }

  lemma {:induction false} RunEndAt(text: string, k: nat, e: nat, p: char -> bool)
    requires k <= e <= |text|
    requires forall q :: k <= q < e ==> p(text[q])
    requires e < |text| ==> !p(text[e])
    ensures RunEnd(text, k, p) == e
    decreases e - k
  {
    if k < e {
      RunEndAt(text, k + 1, e, p);
    }
  }

  lemma {:induction false} CloseFromAt(text: string, k: nat, c: nat)
    requires k <= c && CloseAt(text, c)
    requires forall q :: k <= q < c ==> !CloseAt(text, q)
    ensures CloseFrom(text, k) == Some(c)
    decreases c - k
  {
    if k < c {
      CloseFromAt(text, k + 1, c);
    }
  }

  /** Every match of the pattern at `s.start` is the one the scanner finds: the match is unique. */
  lemma MatchAtComplete(text: string, s: Span)
    requires IsMatch(text, s)
    ensures MatchAt(text, s.start) == Some(s)
  {
    NameRunOf(text, s);
    SpaceRunOf(text, s);
    CloseFromAt(text, s.brace + 1, s.close);
  }

  /** In a match the name is the whole run of word characters after the prefix. */
  lemma NameRunOf(text: string, s: Span)
    requires IsMatch(text, s)
    ensures RunEnd(text, s.start + |CallPrefix|, IsWordChar) == s.nameEnd
  {
    assert !IsWordChar(text[s.nameEnd]);
    RunEndAt(text, s.start + |CallPrefix|, s.nameEnd, IsWordChar);
  }

  /** In a match the separator is the whole run of white space after the comma. */
  lemma SpaceRunOf(text: string, s: Span)
    requires IsMatch(text, s)
    ensures RunEnd(text, s.nameEnd + 1, IsSpace) == s.brace
  {
    assert !IsSpace(text[s.brace]);
    RunEndAt(text, s.nameEnd + 1, s.brace, IsSpace);
  }

  /** `re.search` from `from`: the leftmost start at or after `from` at which the pattern matches. */
  function NextMatch(text: string, from: nat): (r: Option<Span>)
    ensures r.Some? ==> from <= r.value.start && Fits(text, r.value)
    decreases |text| - from
  {
    if from >= |text| then None
    else if MatchAt(text, from).Some? then MatchAt(text, from)
    else NextMatch(text, from + 1)
  }

  /** The search reports what the scanner finds at the start it stops at. */
  lemma {:induction false} NextMatchFound(text: string, from: nat)
    requires NextMatch(text, from).Some?
    ensures MatchAt(text, NextMatch(text, from).value.start) == NextMatch(text, from)
    decreases |text| - from
  {
    if MatchAt(text, from).None? {
      NextMatchFound(text, from + 1);
    }
  }

  /** No start before the one the search stops at, and none at all when it fails, is a match. */
  lemma {:induction false} NextMatchLeftmost(text: string, from: nat, p: nat)
    requires from <= p
    requires NextMatch(text, from).Some? ==> p < NextMatch(text, from).value.start
    ensures MatchAt(text, p).None?
    decreases |text| - from
  {
    if from < |text| && from < p {
      NextMatchLeftmost(text, from + 1, p);
    }
  }

  /** `re.findall` from `from`: the leftmost match, then the matches after its end. */
  function FindAll(text: string, from: nat): (r: seq<Span>)
    ensures forall k :: 0 <= k < |r| ==> from <= r[k].start && Fits(text, r[k])
    decreases |text| - from
  {
    match NextMatch(text, from)
    case None => []
    case Some(s) => [s] + FindAll(text, End(s))
  }

  /** Each reported span is what the scanner finds at its start. */
  lemma {:induction false} FoundAt(text: string, from: nat, k: nat)
    requires k < |FindAll(text, from)|
    ensures MatchAt(text, FindAll(text, from)[k].start) == Some(FindAll(text, from)[k])
    decreases |text| - from
  {
    var s := NextMatch(text, from).value;
    NextMatchFound(text, from);
    if k > 0 {
      FoundAt(text, End(s), k - 1);
      assert FindAll(text, from)[k] == FindAll(text, End(s))[k - 1];
    }
  }

  /** Every span `findall` reports is a match of the pattern. */
  lemma FindAllMatches(text: string, from: nat)
    ensures forall k :: 0 <= k < |FindAll(text, from)| ==> IsMatch(text, FindAll(text, from)[k])
  {
    var r := FindAll(text, from);
    forall k | 0 <= k < |r| ensures IsMatch(text, r[k]) {
      FoundAt(text, from, k);
      MatchAtSound(text, r[k].start);
    }
  }

  /** Consecutive matches do not overlap. */
  lemma {:induction false} Adjacent(text: string, from: nat, k: nat)
    requires k + 1 < |FindAll(text, from)|
    ensures End(FindAll(text, from)[k]) <= FindAll(text, from)[k + 1].start
    decreases |text| - from
  {
    var s := NextMatch(text, from).value;
    var rest := FindAll(text, End(s));
    assert FindAll(text, from)[k + 1] == rest[k];
    if k > 0 {
      Adjacent(text, End(s), k - 1);
      assert FindAll(text, from)[k] == rest[k - 1];
    }
  }

  lemma {:induction false} ChainApart(r: seq<Span>, j: nat, k: nat)
    requires j < k < |r|
    requires forall i :: 0 <= i < |r| ==> r[i].start <= End(r[i])
    requires forall i :: 0 <= i < |r| - 1 ==> End(r[i]) <= r[i + 1].start
    ensures End(r[j]) <= r[k].start
    decreases k - j
  {
    if j + 1 < k {
      ChainApart(r, j + 1, k);
    }
  }

  lemma Apart(text: string, from: nat, j: nat, k: nat)
    requires j < k < |FindAll(text, from)|
    ensures End(FindAll(text, from)[j]) <= FindAll(text, from)[k].start
  {
    var r := FindAll(text, from);
    forall i | 0 <= i < |r| - 1 ensures End(r[i]) <= r[i + 1].start {
      Adjacent(text, from, i);
    }
    ChainApart(r, j, k);
  }

  /** The matches come back in text order and do not overlap. */
  lemma FindAllOrdered(text: string, from: nat)
    ensures var r := FindAll(text, from);
      forall j, k :: 0 <= j < k < |r| ==> End(r[j]) <= r[k].start
  {
    var r := FindAll(text, from);
    forall j, k | 0 <= j < k < |r| ensures End(r[j]) <= r[k].start {
      Apart(text, from, j, k);
    }
  }

  /** `p` lies inside one of the matches. */
  predicate Covered(r: seq<Span>, p: nat) {
    exists k :: 0 <= k < |r| && r[k].start <= p < End(r[k])
  }

  /**
    * Nothing is missed: every start where the pattern would match is either one of the
    * reported matches or lies inside an earlier one (it is swallowed).
    */
  lemma {:induction false} FindAllCovers(text: string, from: nat)
    ensures forall p :: from <= p && MatchAt(text, p).Some? ==> Covered(FindAll(text, from), p)
    decreases |text| - from
  {
    var r := FindAll(text, from);
    match NextMatch(text, from)
    case None =>
      forall p | from <= p ensures MatchAt(text, p).None? {
        NextMatchLeftmost(text, from, p);
      }
    case Some(s) =>
      var rest := FindAll(text, End(s));
      FindAllCovers(text, End(s));
      assert r == [s] + rest;
      forall p | from <= p && MatchAt(text, p).Some? ensures Covered(r, p) {
        if p < s.start {
          NextMatchLeftmost(text, from, p);
          assert false;
        } else if p < End(s) {
          assert r[0].start <= p < End(r[0]);
        } else {
          var k :| 0 <= k < |rest| && rest[k].start <= p < End(rest[k]);
          assert r[k + 1] == rest[k];
        }
      }
  }

  /** A match is never found inside another: a call inside an unterminated span is swallowed. */
  lemma Swallowed(text: string, k: nat, s: Span)
    requires k < |FindAll(text, 0)| && FindAll(text, 0)[k].start < s.start < End(FindAll(text, 0)[k])
    ensures s !in FindAll(text, 0)
  {
    var r := FindAll(text, 0);
    forall j | 0 <= j < |r| ensures r[j].start != s.start {
      if j < k {
        Apart(text, 0, j, k);
      } else if k < j {
        Apart(text, 0, k, j);
      }
    }
  }

  /** Text without "[[CALL " holds no calls. */
  lemma NoPrefixNoCalls(text: string, from: nat)
    requires forall i :: from <= i < |text| ==> !PrefixAt(text, i)
    ensures FindAll(text, from) == []
  {
    NoPrefixNoMatch(text, from);
  }

  lemma {:induction false} NoPrefixNoMatch(text: string, from: nat)
    requires forall i :: from <= i < |text| ==> !PrefixAt(text, i)
    ensures NextMatch(text, from) == None
    decreases |text| - from
  {
    if from < |text| {
      NoPrefixNoMatch(text, from + 1);
    }
  }

  /** The groups of the given matches, in order. */
  function GroupsOf(text: string, spans: seq<Span>): (r: seq<RawCall>)
    requires forall k :: 0 <= k < |spans| ==> Fits(text, spans[k])
    ensures |r| == |spans|
    ensures forall k :: 0 <= k < |spans| ==> r[k] == Groups(text, spans[k])
  {
    if spans == [] then [] else [Groups(text, spans[0])] + GroupsOf(text, spans[1..])
  }

  /** The groups of every match, in order (`re.findall` with two groups). */
  function FindAllGroups(text: string): seq<RawCall> {
    GroupsOf(text, FindAll(text, 0))
  }

  /** A parsed call: the tool name and its decoded parameter object. */
  datatype ToolCall = ToolCall(name: string, params: Params)

  /** The decoded calls, in order; a span on which `json.loads` raises `JSONDecodeError` is left out. */
  function DecodeAll(raws: seq<RawCall>, decode: string -> Option<Params>): seq<ToolCall>
    decreases |raws|
  {
    if raws == [] then []
    else
      var last := raws[|raws| - 1];
      DecodeAll(raws[..|raws| - 1], decode) +
        (match decode(last.params) case Some(p) => [ToolCall(last.name, p)] case None => [])
  }

  /** Decoding is independent per span: a failure drops only its own call. */
  lemma {:induction false} DecodeAllConcat(a: seq<RawCall>, b: seq<RawCall>, decode: string -> Option<Params>)
    ensures DecodeAll(a + b, decode) == DecodeAll(a, decode) + DecodeAll(b, decode)
    decreases |b|
  {
    if b == [] {
      assert a + b == a;
    } else {
      var b' := b[..|b| - 1];
      assert (a + b)[..|a + b| - 1] == a + b';
      assert (a + b)[|a + b| - 1] == b[|b| - 1];
      DecodeAllConcat(a, b', decode);
    }
  }

  /** One span contributes its call exactly when it decodes. */
  lemma DecodeOne(r: RawCall, decode: string -> Option<Params>)
    ensures DecodeAll([r], decode) ==
      match decode(r.params) case Some(p) => [ToolCall(r.name, p)] case None => []
  {
    assert [r][..0] == [];
  }

  /**
    * The decoded calls keep the order of the spans: each comes from a span with the same
    * name whose text decodes to its parameters, and the spans left out are exactly those
    * that fail to decode.
    */
  lemma {:induction false} DecodeAllSpec(raws: seq<RawCall>, decode: string -> Option<Params>)
    ensures |DecodeAll(raws, decode)| <= |raws|
    ensures (forall k :: 0 <= k < |raws| ==> decode(raws[k].params).Some?) ==>
      DecodeAll(raws, decode) ==
        seq(|raws|, k requires 0 <= k < |raws| => ToolCall(raws[k].name, decode(raws[k].params).value))
    ensures (forall k :: 0 <= k < |raws| ==> decode(raws[k].params).None?) ==> DecodeAll(raws, decode) == []
    decreases |raws|
  {
    if raws != [] {
      var init := raws[..|raws| - 1];
      DecodeAllSpec(init, decode);
      assert forall k :: 0 <= k < |init| ==> init[k] == raws[k];
    }
  }

  /** The calls `parse_tool_calls` returns. */
  function ToolCalls(text: string, decode: string -> Option<Params>): seq<ToolCall> {
    DecodeAll(FindAllGroups(text), decode)
  }

  /** `parse_tool_calls` (react_agent.py:173-190): find the matches, then decode them in turn. */
  method ParseToolCalls(text: string, decode: string -> Option<Params>) returns (toolCalls: seq<ToolCall>)
    ensures toolCalls == ToolCalls(text, decode)
  {
    var matches := FindAllGroups(text);
    toolCalls := DecodeEach(matches, decode);
  }

  /** The loop of `parse_tool_calls`: decode each match in turn, keeping those that decode. */
  method DecodeEach(matches: seq<RawCall>, decode: string -> Option<Params>) returns (toolCalls: seq<ToolCall>)
    ensures toolCalls == DecodeAll(matches, decode)
  {
    toolCalls := [];
    for k := 0 to |matches|
      invariant toolCalls == DecodeAll(matches[..k], decode)
    {
      assert matches[..k + 1][..k] == matches[..k];
      var m := matches[k];
      match decode(m.params) {
        case Some(params) =>
          toolCalls := toolCalls + [ToolCall(m.name, params)];
        case None =>
      }
    }
    assert matches[..|matches|] == matches;
  }

  /** Text with no "[[CALL " gives no calls. */
  lemma NoCallText(text: string, decode: string -> Option<Params>)
    requires forall i :: 0 <= i < |text| ==> !PrefixAt(text, i)
    ensures ToolCalls(text, decode) == []
  {
    NoPrefixNoCalls(text, 0);
  }

  /** Every parsed name is a non-empty run of word characters; every parameter text is braced. */
  lemma ParsedNames(text: string)
    ensures forall k :: 0 <= k < |FindAllGroups(text)| ==> WellFormed(FindAllGroups(text)[k])
  {
    forall k | 0 <= k < |FindAllGroups(text)| ensures WellFormed(FindAllGroups(text)[k]) {
      GroupShape(text, k);
    }
  }

  /** The shape of a pair of groups: a name of word characters and a text between braces. */
  predicate WellFormed(g: RawCall) {
    g.name != [] && (forall q :: 0 <= q < |g.name| ==> IsWordChar(g.name[q])) &&
    |g.params| >= 2 && g.params[0] == '{' && g.params[|g.params| - 1] == '}'
  }

  lemma GroupShape(text: string, k: nat)
    requires k < |FindAllGroups(text)|
    ensures WellFormed(FindAllGroups(text)[k])
  {
    var spans := FindAll(text, 0);
    var s := spans[k];
    assert FindAllGroups(text)[k] == Groups(text, s);
    FindAllMatches(text, 0);
    MatchShape(text, s);
  }

  lemma MatchShape(text: string, s: Span)
    requires IsMatch(text, s)
    ensures WellFormed(Groups(text, s))
  {
    var g := Groups(text, s);
    assert forall q :: 0 <= q < |g.name| ==> g.name[q] == text[s.start + |CallPrefix| + q];
  }
}
