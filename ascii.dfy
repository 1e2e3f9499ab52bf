/**
  * The string primitives the shopping tools and the action grammar rely on:
  * `str.lower`, `str.upper`, `str.split()`, `' '.join`, the `in` substring test,
  * and the character classes `\w`, `\s` and `isdigit`, all narrowed to ASCII.
  */
module Ascii {

  predicate IsDigit(c: char) { '0' <= c <= '9' }

  predicate IsLetter(c: char) { 'a' <= c <= 'z' || 'A' <= c <= 'Z' }

  /** The regular-expression class `\w`. */
  predicate IsWordChar(c: char) { IsLetter(c) || IsDigit(c) || c == '_' }

  /**
    * The regular-expression class `\s` and the separators of `str.split()`, on ASCII:
    * blank, tab, line feed, vertical tab, form feed, carriage return, and the four
    * separators U+001C to U+001F, which `str.isspace()` also counts as white space.
    */
  predicate IsSpace(c: char) {
    c == ' ' || c == '\t' || c == '\n' || c == '\r' || c as int == 11 || c as int == 12 || 28 <= c as int <= 31
  }

  function ToLower(c: char): (r: char)
    ensures 'A' <= c <= 'Z' ==> r as int == c as int + 32
    ensures !('A' <= c <= 'Z') ==> r == c
  {
    if 'A' <= c <= 'Z' then (c as int + 32) as char else c
  }

  function ToUpper(c: char): (r: char)
    ensures 'a' <= c <= 'z' ==> r as int == c as int - 32
    ensures !('a' <= c <= 'z') ==> r == c
  {
    if 'a' <= c <= 'z' then (c as int - 32) as char else c
  }

  function Lower(s: string): (r: string)
    ensures |r| == |s|
    ensures forall i :: 0 <= i < |s| ==> r[i] == ToLower(s[i])
  {
    seq(|s|, i requires 0 <= i < |s| => ToLower(s[i]))
  }

  function Upper(s: string): (r: string)
    ensures |r| == |s|
    ensures forall i :: 0 <= i < |s| ==> r[i] == ToUpper(s[i])
  {
    seq(|s|, i requires 0 <= i < |s| => ToUpper(s[i]))
  }

  predicate NoSpace(s: string) {
    forall i :: 0 <= i < |s| ==> !IsSpace(s[i])
  }

  /** Python's `sub in s`. */
  predicate Contains(s: string, sub: string)
    decreases |s|
  {
    (|sub| <= |s| && s[..|sub|] == sub) || (s != [] && Contains(s[1..], sub))
  }

  /** `sub` occurs in `s` at index `i`. */
  predicate OccursAt(s: string, sub: string, i: int) {
    0 <= i && i + |sub| <= |s| && s[i..i + |sub|] == sub
  }

  lemma {:induction false} ContainsIff(s: string, sub: string)
    ensures Contains(s, sub) <==> exists i :: OccursAt(s, sub, i)
    decreases |s|
  {
    if |sub| <= |s| && s[..|sub|] == sub {
      assert OccursAt(s, sub, 0);
    } else if s != [] {
      ContainsIff(s[1..], sub);
      if Contains(s[1..], sub) {
        var i :| OccursAt(s[1..], sub, i);
        assert s[1..][i..i + |sub|] == s[i + 1..i + 1 + |sub|];
        assert OccursAt(s, sub, i + 1);
      }
      if exists i :: OccursAt(s, sub, i) {
        var i :| OccursAt(s, sub, i);
        assert s[0..|sub|] == s[..|sub|];
        assert s[1..][i - 1..i - 1 + |sub|] == s[i..i + |sub|];
        assert OccursAt(s[1..], sub, i - 1);
      }
    }
  }

  /** Length of the run of non-separator characters at the start of `s`. */
  function WordLength(s: string): (k: nat)
    ensures k <= |s|
    ensures forall i :: 0 <= i < k ==> !IsSpace(s[i])
    ensures k < |s| ==> IsSpace(s[k])
  {
    if s == [] || IsSpace(s[0]) then 0 else 1 + WordLength(s[1..])
  }

  /** Python's `s.split()` with no argument: the maximal runs of non-separators, in order. */
  function Split(s: string): (ws: seq<string>)
    ensures forall k :: 0 <= k < |ws| ==> ws[k] != [] && NoSpace(ws[k])
    ensures forall k, i :: 0 <= k < |ws| && 0 <= i < |ws[k]| ==> ws[k][i] in s
    decreases |s|
  {
    if s == [] then []
    else if IsSpace(s[0]) then Split(s[1..])
    else
      var k := WordLength(s);
      var rest := Split(s[k..]);
      assert forall j, i :: 0 <= j < |rest| && 0 <= i < |rest[j]| ==> rest[j][i] in s by {
        forall j, i | 0 <= j < |rest| && 0 <= i < |rest[j]| ensures rest[j][i] in s {
          var m :| 0 <= m < |s[k..]| && s[k..][m] == rest[j][i];
          assert s[k + m] == rest[j][i];
        }
      }
      [s[..k]] + rest
  }

  lemma SplitLeadingSpace(c: char, rest: string)
    requires IsSpace(c)
    ensures Split([c] + rest) == Split(rest)
  {
    assert ([c] + rest)[1..] == rest;
  }

  lemma SplitWord(w: string, rest: string)
    requires w != [] && NoSpace(w)
    requires rest == [] || IsSpace(rest[0])
    ensures Split(w + rest) == [w] + Split(rest)
  {
    var s := w + rest;
    WordLengthOf(w, rest);
    assert s[..|w|] == w && s[|w|..] == rest;
  }

  lemma {:induction false} WordLengthOf(w: string, rest: string)
    requires NoSpace(w)
    requires rest == [] || IsSpace(rest[0])
    ensures WordLength(w + rest) == |w|
  {
    if w != [] {
      assert (w + rest)[1..] == w[1..] + rest;
      WordLengthOf(w[1..], rest);
    } else {
      assert w + rest == rest;
    }
  }

  /** A string that lacks the first character of `sub` does not contain `sub`. */
  lemma MissingFirstChar(s: string, sub: string)
    requires sub != [] && sub[0] !in s
    ensures !Contains(s, sub)
  {
    ContainsIff(s, sub);
  }

  lemma StartsWithContains(s: string, sub: string)
    requires |sub| <= |s| && s[..|sub|] == sub
    ensures Contains(s, sub)
  {
  }

  /** Python's `' '.join(ws)`. */
  function JoinSpaced(ws: seq<string>): string {
    if ws == [] then "" else if |ws| == 1 then ws[0] else ws[0] + " " + JoinSpaced(ws[1..])
  }

  lemma OccursInJoin(a: string, b: string, t: string, i: int)
    requires NoSpace(t) && OccursAt(a + " " + b, t, i)
    ensures OccursAt(a, t, i) || OccursAt(b, t, i - |a| - 1)
  {
    var s := a + " " + b;
    assert forall j :: i <= j < i + |t| ==> s[j] == t[j - i];
    assert IsSpace(s[|a|]);
    if i + |t| <= |a| {
      assert s[i..i + |t|] == a[i..i + |t|];
    } else {
      assert s[i..i + |t|] == b[i - |a| - 1..i - |a| - 1 + |t|];
    }
  }

  lemma OccursLeftOfJoin(a: string, b: string, t: string, i: int)
    requires OccursAt(a, t, i)
    ensures OccursAt(a + " " + b, t, i)
  {
    assert (a + " " + b)[i..i + |t|] == a[i..i + |t|];
  }

  lemma OccursRightOfJoin(a: string, b: string, t: string, i: int)
    requires OccursAt(b, t, i)
    ensures OccursAt(a + " " + b, t, |a| + 1 + i)
  {
    assert (a + " " + b)[|a| + 1 + i..|a| + 1 + i + |t|] == b[i..i + |t|];
  }

  /** A separator-free needle found in `a + " " + b` lies wholly inside `a` or wholly inside `b`. */
  lemma ContainsAcrossSpace(a: string, b: string, t: string)
    requires NoSpace(t)
    ensures Contains(a + " " + b, t) <==> Contains(a, t) || Contains(b, t)
  {
    var s := a + " " + b;
    ContainsIff(s, t);
    ContainsIff(a, t);
    ContainsIff(b, t);
    if exists i :: OccursAt(s, t, i) {
      var i :| OccursAt(s, t, i);
      OccursInJoin(a, b, t, i);
    }
    if exists i :: OccursAt(a, t, i) {
      var i :| OccursAt(a, t, i);
      OccursLeftOfJoin(a, b, t, i);
    }
    if exists i :: OccursAt(b, t, i) {
      var i :| OccursAt(b, t, i);
      OccursRightOfJoin(a, b, t, i);
    }
  }

  /**
    * A separator-free needle occurs in the space-joined words exactly when it occurs in
    * one of the words, so the result of the name test does not depend on the order in
    * which the words are joined.
    */
  lemma {:induction false} ContainsInJoined(ws: seq<string>, t: string)
    requires t != [] && NoSpace(t)
    ensures Contains(JoinSpaced(ws), t) <==> exists k :: 0 <= k < |ws| && Contains(ws[k], t)
  {
    if ws == [] {
    } else if |ws| == 1 {
    } else {
      ContainsAcrossSpace(ws[0], JoinSpaced(ws[1..]), t);
      ContainsInJoined(ws[1..], t);
      if exists k :: 0 <= k < |ws| && Contains(ws[k], t) {
        var k :| 0 <= k < |ws| && Contains(ws[k], t);
        if k > 0 {
          assert ws[1..][k - 1] == ws[k];
        }
      }
      if exists k :: 0 <= k < |ws[1..]| && Contains(ws[1..][k], t) {
        var k :| 0 <= k < |ws[1..]| && Contains(ws[1..][k], t);
        assert ws[k + 1] == ws[1..][k];
      }
    }
  }

  /** The characters of `s` that satisfy `keep`, in order (a generator expression joined with `''.join`). */
  function Keep(s: string, keep: char -> bool): (r: string)
    ensures |r| <= |s|
    ensures forall i :: 0 <= i < |r| ==> keep(r[i])
  {
    if s == [] then [] else (if keep(s[0]) then [s[0]] else []) + Keep(s[1..], keep)
  }

  lemma {:induction false} KeepConcat(a: string, b: string, keep: char -> bool)
    ensures Keep(a + b, keep) == Keep(a, keep) + Keep(b, keep)
  {
    if a == [] {
      assert a + b == b;
    } else {
      assert (a + b)[1..] == a[1..] + b;
      KeepConcat(a[1..], b, keep);
    }
  }

  lemma {:induction false} KeepAll(s: string, keep: char -> bool)
    requires forall i :: 0 <= i < |s| ==> keep(s[i])
    ensures Keep(s, keep) == s
  {
    if s != [] {
      KeepAll(s[1..], keep);
    }
  }

  lemma LowerIdempotent(s: string)
    ensures Lower(Lower(s)) == Lower(s)
  {
  }

  lemma {:induction false} LowerIdentity(s: string)
    requires forall i :: 0 <= i < |s| ==> !('A' <= s[i] <= 'Z')
    ensures Lower(s) == s
  {
  }
}
