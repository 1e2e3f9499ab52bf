/** `parse_price_range` (tools.py): turn a price specification into a `(min, max)` pair. */
module PriceRange {

  import opened Wrappers
  import opened Ascii
  import opened Numerals

  /** What the function accepts: a tuple, a number, or free text. */
  datatype PriceQuery = RangeTuple(lo: real, hi: real) | Number(n: real) | Text(s: string)

  predicate IsNumberChar(c: char) { IsDigit(c) || c == '.' }

  predicate IsNumberOrBlank(c: char) { IsDigit(c) || c == '.' || c == ' ' }

  function Min(xs: seq<real>): (m: real)
    requires xs != []
    ensures m in xs && forall k :: 0 <= k < |xs| ==> m <= xs[k]
  {
    if |xs| == 1 then xs[0] else var rest := Min(xs[1..]); if xs[0] <= rest then xs[0] else rest
  }

  function Max(xs: seq<real>): (m: real)
    requires xs != []
    ensures m in xs && forall k :: 0 <= k < |xs| ==> xs[k] <= m
  {
    if |xs| == 1 then xs[0] else var rest := Max(xs[1..]); if xs[0] >= rest then xs[0] else rest
  }

  /** `[float(n) for n in words]`: `None` as soon as one word is not a number. */
  function ParseAll(words: seq<string>): (r: Option<seq<real>>)
    requires forall k :: 0 <= k < |words| ==> DigitsAndDots(words[k])
    ensures r.Some? ==> |r.value| == |words| && forall k :: 0 <= k < |r.value| ==> r.value[k] >= 0.0
  {
    if words == [] then Some([])
    else match ParseDecimal(words[0])
      case None => None
      case Some(x) =>
        match ParseAll(words[1..])
        case None => None
        case Some(xs) => Some([x] + xs)
  }

  /** The words of the `between` branch consist of digits and dots only. */
  lemma NumberWords(s: string)
    ensures forall k :: 0 <= k < |Split(Keep(s, IsNumberOrBlank))| ==> DigitsAndDots(Split(Keep(s, IsNumberOrBlank))[k])
  {
    var kept := Keep(s, IsNumberOrBlank);
    var ws := Split(kept);
    forall k, i | 0 <= k < |ws| && 0 <= i < |ws[k]| ensures IsDigit(ws[k][i]) || ws[k][i] == '.' {
      var m :| 0 <= m < |kept| && kept[m] == ws[k][i];
      assert IsNumberOrBlank(kept[m]);
      assert !IsSpace(ws[k][i]);
    }
  }

  /**
    * `parse_price_range`: a tuple is returned as it is and a number is the range from 0;
    * a range parsed from text is ordered, and text yields one only when it mentions
    * "under", "less than" or "between", starting at 0 for the first two.
    */
  function ParsePriceRange(q: PriceQuery): (r: Option<(real, real)>)
    ensures q.RangeTuple? ==> r == Some((q.lo, q.hi))
    ensures q.Number? ==> r == Some((0.0, q.n))
    ensures q.Text? && r.Some? ==> 0.0 <= r.value.0 <= r.value.1
    ensures q.Text? && r.Some? ==> UnderLike(Lower(q.s)) || Contains(Lower(q.s), "between")
    ensures q.Text? && r.Some? && UnderLike(Lower(q.s)) ==> r.value.0 == 0.0
  {
    match q
    case RangeTuple(lo, hi) => Some((lo, hi))
    case Number(n) => Some((0.0, n))
    case Text(s) =>
      var query := Lower(s);
      if UnderLike(query) then
        match ParseDecimal(Keep(query, IsNumberChar))
        case Some(x) => Some((0.0, x))
        case None => None
      else if Contains(query, "between") then
        NumberWords(query);
        match ParseAll(Split(Keep(query, IsNumberOrBlank)))
        case Some(xs) => if |xs| >= 2 then Some((Min(xs), Max(xs))) else None
        case None => None
      else None
  }

  /** The test of the first text branch: `'under' in query or 'less than' in query`. */
  predicate UnderLike(query: string) {
    Contains(query, "under") || Contains(query, "less than")
  }

  /**
    * Text that mentions "under" or "less than" is an upper bound from 0: there is one
    * exactly when its digits and dots form a number, and that number is the bound.
    */
  lemma UnderText(s: string)
    requires UnderLike(Lower(s))
    ensures DigitsAndDots(Keep(Lower(s), IsNumberChar))
    ensures var chars := Keep(Lower(s), IsNumberChar);
      (ParsePriceRange(Text(s)).Some? <==> HasDigit(chars) && AtMostOneDot(chars)) &&
      (ParsePriceRange(Text(s)).Some? ==> ParsePriceRange(Text(s)).value == (0.0, ParseDecimal(chars).value))
  {
  }

  /** In particular, when the digits of such a text spell `n`, the range is from 0 to `n`. */
  lemma UnderNumber(s: string, n: nat)
    requires UnderLike(Lower(s))
    requires Keep(Lower(s), IsNumberChar) == NatStr(n)
    ensures ParsePriceRange(Text(s)) == Some((0.0, n as real))
  {
    UnderText(s);
    DecimalOfNatStr(n);
  }

  /**
    * Text that mentions "between" and neither "under" nor "less than" is a range exactly
    * when it holds at least two numbers and every word of its digits, dots and blanks is
    * a number; the range then runs from the smallest of them to the largest.
    */
  lemma BetweenText(s: string)
    requires !UnderLike(Lower(s)) && Contains(Lower(s), "between")
    ensures forall k :: 0 <= k < |Split(Keep(Lower(s), IsNumberOrBlank))| ==>
      DigitsAndDots(Split(Keep(Lower(s), IsNumberOrBlank))[k])
    ensures var words := Split(Keep(Lower(s), IsNumberOrBlank));
      var r := ParsePriceRange(Text(s));
      (|words| < 2 ==> r == None) &&
      (r.Some? <==> |words| >= 2 && ParseAll(words).Some?) &&
      (r.Some? ==> var xs := ParseAll(words).value;
        r.value.0 in xs && r.value.1 in xs && forall k :: 0 <= k < |xs| ==> r.value.0 <= xs[k] <= r.value.1)
  {
    NumberWords(Lower(s));
  }

  /** Text that mentions none of "under", "less than" and "between" is no range. */
  lemma NoKeywordText(s: string)
    requires !UnderLike(Lower(s)) && !Contains(Lower(s), "between")
    ensures ParsePriceRange(Text(s)) == None
  {
  }

  lemma {:induction false} NoUpperInNumeral(n: nat)
    ensures Lower(NatStr(n)) == NatStr(n)
  {
    LowerIdentity(NatStr(n));
  }

  /** The text branch, once its three parts are known. */
  lemma TextBranch(s: string, underLike: bool, between: bool, numberChars: string, numberWords: seq<string>)
    requires Lower(s) == s
    requires underLike == UnderLike(s)
    requires between == Contains(s, "between")
    requires numberChars == Keep(s, IsNumberChar)
    requires numberWords == Split(Keep(s, IsNumberOrBlank))
    ensures ParsePriceRange(Text(s)) ==
      if underLike then
        match ParseDecimal(numberChars) case Some(x) => Some((0.0, x)) case None => None
      else if between then
        NumberWords(s);
        match ParseAll(numberWords)
        case Some(xs) => if |xs| >= 2 then Some((Min(xs), Max(xs))) else None
        case None => None
      else None
  {
  }

  lemma UnderKeep(a: string)
    requires AllDigits(a)
    ensures Keep("under " + a, IsNumberChar) == a
  {
    KeepConcat("under ", a, IsNumberChar);
    KeepAll(a, IsNumberChar);
    assert Keep("under ", IsNumberChar) == "";
  }

  lemma NoCapitals(prefix: string, a: string)
    requires forall i :: 0 <= i < |prefix| ==> 'a' <= prefix[i] <= 'z' || prefix[i] == ' '
    requires AllDigits(a)
    ensures Lower(prefix + a) == prefix + a
  {
    var s := prefix + a;
    forall i | 0 <= i < |s| ensures !('A' <= s[i] <= 'Z') {
      if i >= |prefix| { assert s[i] == a[i - |prefix|]; }
    }
    LowerIdentity(s);
  }

  /** "under N" is the range from 0 to N. */
  lemma UnderPhrase(n: nat)
    ensures ParsePriceRange(Text("under " + NatStr(n))) == Some((0.0, n as real))
  {
    var a := NatStr(n);
    var s := "under " + a;
    NoCapitals("under ", a);
    assert s[..5] == "under";
    UnderKeep(a);
    DecimalOfNatStr(n);
    TextBranch(s, true, Contains(s, "between"), a, Split(Keep(s, IsNumberOrBlank)));
  }

  lemma BetweenKeep(A: string, B: string)
    requires AllDigits(A) && AllDigits(B)
    ensures Keep("between " + A + " and " + B, IsNumberOrBlank) == " " + A + "  " + B
  {
    KeepConcat("between " + A + " and ", B, IsNumberOrBlank);
    KeepConcat("between " + A, " and ", IsNumberOrBlank);
    KeepConcat("between ", A, IsNumberOrBlank);
    KeepAll(A, IsNumberOrBlank);
    KeepAll(B, IsNumberOrBlank);
    KeepBetweenWord();
    KeepAndWord();
  }

  lemma KeepBetweenWord()
    ensures Keep("between ", IsNumberOrBlank) == " "
  {
  }

  lemma KeepAndWord()
    ensures Keep(" and ", IsNumberOrBlank) == "  "
  {
  }

  lemma SplitTwo(A: string, B: string)
    requires A != [] && NoSpace(A) && B != [] && NoSpace(B)
    ensures Split(" " + A + "  " + B) == [A, B]
  {
    var kept := " " + A + "  " + B;
    assert kept == [' '] + (A + ("  " + B));
    SplitLeadingSpace(' ', A + ("  " + B));
    SplitWord(A, "  " + B);
    SplitLast(B);
  }

  lemma SplitLast(B: string)
    requires B != [] && NoSpace(B)
    ensures Split("  " + B) == [B]
  {
    assert "  " + B == [' '] + ([' '] + B);
    SplitLeadingSpace(' ', [' '] + B);
    SplitLeadingSpace(' ', B);
    assert B == B + "";
    SplitWord(B, "");
  }

  lemma BetweenLetters(A: string, B: string)
    requires AllDigits(A) && AllDigits(B)
    ensures var s := "between " + A + " and " + B;
      Lower(s) == s && 'u' !in s && 'l' !in s
  {
    var s := "between " + A + " and " + B;
    assert s == ("between " + A + " and ") + B;
    forall i | 0 <= i < |s| ensures !('A' <= s[i] <= 'Z') && s[i] != 'u' && s[i] != 'l' {
      if 8 <= i < 8 + |A| {
        assert s[i] == A[i - 8];
      } else if i >= 13 + |A| {
        assert s[i] == B[i - 13 - |A|];
      }
    }
    LowerIdentity(s);
  }

  lemma BetweenPrefix(A: string, B: string)
    ensures Contains("between " + A + " and " + B, "between")
  {
    var s := "between " + A + " and " + B;
    assert s[..7] == "between";
  }

  lemma MinMaxPair(x: real, y: real)
    ensures Min([x, y]) == (if x <= y then x else y) && Max([x, y]) == (if x <= y then y else x)
  {
    assert [x, y][1..] == [y];
  }

  lemma ParseAllPair(A: string, B: string, x: real, y: real)
    requires DigitsAndDots(A) && DigitsAndDots(B)
    requires ParseDecimal(A) == Some(x) && ParseDecimal(B) == Some(y)
    ensures ParseAll([A, B]) == Some([x, y])
  {
    assert [A, B][1..] == [B];
    assert [B][1..] == [];
    assert ParseAll([]) == Some([]);
    assert [y] + [] == [y];
    assert ParseAll([B]) == Some([y]);
    assert [x] + [y] == [x, y];
  }

  /** "between A and B" is the range from the smaller to the larger of A and B. */
  lemma BetweenPhrase(a: nat, b: nat)
    ensures ParsePriceRange(Text("between " + NatStr(a) + " and " + NatStr(b)))
         == Some(((if a <= b then a else b) as real, (if a <= b then b else a) as real))
  {
    var A, B := NatStr(a), NatStr(b);
    var s := "between " + A + " and " + B;
    BetweenLetters(A, B);
    MissingFirstChar(s, "under");
    MissingFirstChar(s, "less than");
    BetweenPrefix(A, B);
    BetweenKeep(A, B);
    SplitTwo(A, B);
    DecimalOfNatStr(a);
    DecimalOfNatStr(b);
    ParseAllPair(A, B, a as real, b as real);
    MinMaxPair(a as real, b as real);
    TextBranch(s, false, true, Keep(s, IsNumberChar), [A, B]);
  }
}
