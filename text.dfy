/**
 * The pieces of Python's string behaviour that the core relies on:
 * `str.lower()`, `str.split()` with no separator, the substring test
 * `needle in hay`, `int(token)` on a decimal token and `str(n)`.
 */
module Text {
  import opened Wrappers

  // ---------------------------------------------------------------------
  // Characters

  /** The characters `str.split()` treats as separators (`str.isspace`). */
  predicate IsSpace(c: char) {
    var k := c as int;
    (9 <= k <= 13) || (28 <= k <= 32) || k == 0x85 || k == 0xA0 || k == 0x1680
    || (0x2000 <= k <= 0x200A) || k == 0x2028 || k == 0x2029 || k == 0x202F
    || k == 0x205F || k == 0x3000
  }

  predicate IsUpper(c: char) { 'A' <= c <= 'Z' }

  predicate IsDigit(c: char) { '0' <= c <= '9' }

  /** Lower-cases one ASCII letter; every other character is kept. */
  function ToLower(c: char): (d: char)
    ensures !IsUpper(d)
    ensures IsSpace(d) <==> IsSpace(c)
    ensures !IsUpper(c) ==> d == c
  {
    if IsUpper(c) then (c as int + 32) as char else c
  }

  function DigitValue(c: char): (v: nat)
    requires IsDigit(c)
    ensures v < 10
  {
    c as int - '0' as int
  }

  function DigitChar(d: nat): (c: char)
    requires d < 10
    ensures IsDigit(c) && DigitValue(c) == d
  {
    ('0' as int + d) as char
  }

  // ---------------------------------------------------------------------
  // str.lower()

  function Lower(s: string): (r: string)
    ensures |r| == |s|
  {
    if s == [] then [] else [ToLower(s[0])] + Lower(s[1..])
  }

  /** `str.lower()` works character by character. */
  lemma {:induction false} LowerAt(s: string)
    ensures forall i :: 0 <= i < |s| ==> Lower(s)[i] == ToLower(s[i])
  {
    if s != [] {
      LowerAt(s[1..]);
      assert Lower(s) == [ToLower(s[0])] + Lower(s[1..]);
    }
  }

  predicate IsLower(s: string) {
    forall i :: 0 <= i < |s| ==> !IsUpper(s[i])
  }

  /** Lower-casing is idempotent, so a lower-cased text is its own lower case. */
  lemma LowerOfLower(s: string)
    requires IsLower(s)
    ensures Lower(s) == s
  {
  }

  lemma IsLowerAppend(s: string, t: string)
    requires IsLower(s) && IsLower(t)
    ensures IsLower(s + t)
  {
    assert forall i :: 0 <= i < |s + t| ==> (s + t)[i] == if i < |s| then s[i] else t[i - |s|];
  }

  lemma LowerAppend(s: string, t: string)
    ensures Lower(s + t) == Lower(s) + Lower(t)
  {
    LowerAt(s + t);
    LowerAt(s);
    LowerAt(t);
    assert forall i :: 0 <= i < |s + t| ==> Lower(s + t)[i] == (Lower(s) + Lower(t))[i];
  }

  // ---------------------------------------------------------------------
  // str.split()

  /** A token of `str.split()`: non-empty and free of separators. */
  predicate IsWord(w: string) {
    w != [] && forall i :: 0 <= i < |w| ==> !IsSpace(w[i])
  }

  /** Length of the longest separator-free prefix of `s`. */
  function WordLen(s: string): (n: nat)
    ensures n <= |s|
    ensures forall i :: 0 <= i < n ==> !IsSpace(s[i])
    ensures n < |s| ==> IsSpace(s[n])
  {
    if s == [] || IsSpace(s[0]) then 0 else 1 + WordLen(s[1..])
  }

  /** `s.split()`: the maximal runs of non-separators, in order. */
  function Words(s: string): (ws: seq<string>)
    ensures forall i :: 0 <= i < |ws| ==> IsWord(ws[i])
    decreases |s|
  {
    if s == [] then []
    else if IsSpace(s[0]) then Words(s[1..])
    else
      var n := WordLen(s);
      [s[..n]] + Words(s[n..])
  }

  /** `" ".join(ws)`. */
  function Join(ws: seq<string>): string {
    if ws == [] then ""
    else if |ws| == 1 then ws[0]
    else ws[0] + " " + Join(ws[1..])
  }

  lemma JoinTwo(a: string, b: string)
    ensures Join([a, b]) == a + " " + b
  {
    assert [a, b][1..] == [b];
  }

  lemma JoinThree(a: string, b: string, c: string)
    ensures Join([a, b, c]) == a + " " + b + " " + c
  {
    assert [a, b, c][1..] == [b, c];
    JoinTwo(b, c);
  }

  /** Lower-casing keeps a token a token. */
  lemma LowerOfWord(w: string)
    requires IsWord(w)
    ensures IsWord(Lower(w))
  {
  }

  lemma {:induction false} WordLenOfWord(w: string, t: string)
    requires IsWord(w)
    requires t == [] || IsSpace(t[0])
    ensures WordLen(w + t) == |w|
    decreases |w|
  {
    if |w| > 1 {
      assert (w + t)[1..] == w[1..] + t;
      WordLenOfWord(w[1..], t);
    } else {
      assert (w + t)[1..] == t;
    }
  }

  lemma WordsAfterWord(w: string, t: string)
    requires IsWord(w)
    requires t == [] || IsSpace(t[0])
    ensures Words(w + t) == [w] + Words(t)
  {
    WordLenOfWord(w, t);
    assert (w + t)[..|w|] == w;
    assert (w + t)[|w|..] == t;
  }

  /** Leading separators are skipped. */
  lemma {:induction false} WordsAfterSpaces(s: string, t: string)
    requires forall i :: 0 <= i < |s| ==> IsSpace(s[i])
    ensures Words(s + t) == Words(t)
    decreases |s|
  {
    if s == [] {
      assert s + t == t;
    } else {
      assert (s + t)[0] == s[0] && (s + t)[1..] == s[1..] + t;
      WordsAfterSpaces(s[1..], t);
    }
  }

  /** One token between runs of separators splits into that token alone. */
  lemma WordsOfPadded(pre: string, w: string, post: string)
    requires IsWord(w)
    requires forall i :: 0 <= i < |pre| ==> IsSpace(pre[i])
    requires forall i :: 0 <= i < |post| ==> IsSpace(post[i])
    ensures Words(pre + w + post) == [w]
  {
    assert pre + w + post == pre + (w + post);
    WordsAfterSpaces(pre, w + post);
    WordsAfterWord(w, post);
    WordsAfterSpaces(post, []);
    assert post + [] == post;
  }

  /** Splitting a single-space join gives back the tokens. */
  lemma {:induction false} WordsOfJoin(ws: seq<string>)
    requires forall i :: 0 <= i < |ws| ==> IsWord(ws[i])
    ensures Words(Join(ws)) == ws
  {
    if ws == [] {
    } else if |ws| == 1 {
      WordsAfterWord(ws[0], []);
      assert ws[0] + [] == ws[0];
    } else {
      var rest := " " + Join(ws[1..]);
      assert Join(ws) == ws[0] + rest;
      WordsAfterWord(ws[0], rest);
      assert rest[1..] == Join(ws[1..]);
      WordsOfJoin(ws[1..]);
      assert Words(rest) == Words(Join(ws[1..]));
    }
  }

  // ---------------------------------------------------------------------
  // needle in hay

  predicate OccursAt(hay: string, needle: string, i: int) {
    0 <= i && i + |needle| <= |hay| && hay[i..i + |needle|] == needle
  }

  /** Python's substring test `needle in hay`. */
  predicate Contains(hay: string, needle: string) {
    exists i :: 0 <= i <= |hay| - |needle| && OccursAt(hay, needle, i)
  }

  lemma ContainsItself(s: string)
    ensures Contains(s, s)
  {
    assert OccursAt(s, s, 0);
  }

  lemma ContainsInLonger(a: string, needle: string, b: string)
    ensures Contains(a + needle + b, needle)
  {
    assert (a + needle + b)[|a|..|a| + |needle|] == needle;
    assert OccursAt(a + needle + b, needle, |a|);
  }

  // ---------------------------------------------------------------------
  // int(token) for a token without separators, and str(n)

  predicate DigitsOrUnderscores(s: string) {
    forall i :: 0 <= i < |s| ==> IsDigit(s[i]) || s[i] == '_'
  }

  /** A decimal literal as `int()` reads it: digits, with single underscores between digits. */
  predicate IsDecimal(s: string) {
    |s| > 0 && forall i :: 0 <= i < |s| ==> DecimalCharAt(s, i)
  }

  /** Position `i` holds a digit, or an underscore between a character and a digit. */
  predicate DecimalCharAt(s: string, i: nat)
    requires i < |s|
  {
    IsDigit(s[i]) || (s[i] == '_' && 0 < i < |s| - 1 && IsDigit(s[i + 1]))
  }

  lemma DecimalFacts(s: string)
    requires IsDecimal(s)
    ensures DigitsOrUnderscores(s)
    ensures IsDigit(s[0])
  {
    assert DecimalCharAt(s, 0);
    forall i | 0 <= i < |s| ensures IsDigit(s[i]) || s[i] == '_' {
      assert DecimalCharAt(s, i);
    }
  }

  /** The value of the digits of `s`, ignoring underscores. */
  function DigitsValue(s: string): nat
    requires DigitsOrUnderscores(s)
  {
    if s == [] then 0
    else
      var init := s[..|s| - 1];
      assert DigitsOrUnderscores(init) by {
        assert forall i :: 0 <= i < |init| ==> init[i] == s[i];
      }
      if s[|s| - 1] == '_' then DigitsValue(init)
      else 10 * DigitsValue(init) + DigitValue(s[|s| - 1])
  }

  /** Python's `int(token)`, decimal literals only; `None` where `int` raises ValueError. */
  function ParseInt(s: string): (r: Option<int>)
    ensures r.Some? ==> |s| > 0
    ensures r.Some? ==> forall i :: 0 <= i < |s| ==>
              IsDigit(s[i]) || s[i] == '_' || (i == 0 && (s[i] == '+' || s[i] == '-'))
    ensures r.Some? ==> exists i :: 0 <= i < |s| && IsDigit(s[i])
  {
    if |s| > 0 && (s[0] == '+' || s[0] == '-') then
      var body := s[1..];
      if IsDecimal(body) then
        DecimalFacts(body);
        assert s[1] == body[0];
        assert forall i :: 1 <= i < |s| ==> s[i] == body[i - 1];
        var v: int := DigitsValue(body);
        Some(if s[0] == '-' then -v else v)
      else None
    else if IsDecimal(s) then
      DecimalFacts(s);
      Some(DigitsValue(s))
    else None
  }

  /** `str(n)` for a natural number. */
  function NatToString(n: nat): (r: string)
    ensures IsDecimal(r) && DigitsOrUnderscores(r)
    ensures forall i :: 0 <= i < |r| ==> IsDigit(r[i])
    ensures DigitsValue(r) == n
  {
    if n < 10 then [DigitChar(n)]
    else
      var init := NatToString(n / 10);
      var r := init + [DigitChar(n % 10)];
      assert r[..|r| - 1] == init;
      r
  }

  /** `str(i)` for an integer. */
  function IntToString(i: int): string {
    if i < 0 then "-" + NatToString(-i) else NatToString(i)
  }

  /** `int(str(i)) == i`. */
  lemma ParseIntOfIntToString(i: int)
    ensures ParseInt(IntToString(i)) == Some(i)
  {
    if i < 0 {
      var s := IntToString(i);
      assert s[1..] == NatToString(-i);
    } else {
      var s := NatToString(i);
      assert IsDigit(s[0]);
    }
  }

  lemma IntToStringIsWord(i: int)
    ensures IsWord(IntToString(i))
    ensures IsLower(IntToString(i))
  {
    var s := if i < 0 then NatToString(-i) else NatToString(i);
    assert forall k :: 0 <= k < |s| ==> IsDigit(s[k]);
    if i < 0 {
      assert forall k :: 1 <= k < |IntToString(i)| ==> IntToString(i)[k] == s[k - 1];
    }
  }
}
