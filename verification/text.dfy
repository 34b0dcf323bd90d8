/**
 * The JavaScript string operations the application relies on: `\s` and
 * `trim`, `toLowerCase`, `indexOf`/`includes`, and the accent stripping
 * `normalize("NFD").replace(/[\u0300-\u036f]/g, "")`.
 */
module JsText {

  /** The characters matched by JavaScript's `\s` and removed by `String.prototype.trim`. */
  predicate IsJsSpace(c: char) {
    var n := c as int;
    (9 <= n <= 13) || n == 0x20 || n == 0xA0 || n == 0x1680 || (0x2000 <= n <= 0x200A)
    || n == 0x2028 || n == 0x2029 || n == 0x202F || n == 0x205F || n == 0x3000 || n == 0xFEFF
  }

  predicate AllSpace(s: string) {
    forall i :: 0 <= i < |s| ==> IsJsSpace(s[i])
  }

  /** `trimStart`: drops the leading white space. */
  function TrimStart(s: string): (r: string)
    ensures |r| <= |s|
  {
    if s != [] && IsJsSpace(s[0]) then TrimStart(s[1..]) else s
  }

  /** `trimEnd`: drops the trailing white space. */
  function TrimEnd(s: string): (r: string)
    ensures |r| <= |s|
  {
    if s != [] && IsJsSpace(s[|s| - 1]) then TrimEnd(s[..|s| - 1]) else s
  }

  /** `trimStart` removes exactly the leading white space. */
  lemma {:induction false} TrimStartFacts(s: string)
    ensures var r := TrimStart(s);
      && r == s[|s| - |r|..]
      && AllSpace(s[..|s| - |r|])
      && (r != [] ==> !IsJsSpace(r[0]))
  {
    if s != [] && IsJsSpace(s[0]) {
      var t := s[1..];
      var r := TrimStart(t);
      TrimStartFacts(t);
      assert t[|t| - |r|..] == s[|s| - |r|..];
      assert s[..|s| - |r|] == [s[0]] + t[..|t| - |r|];
    }
  }

  /** `trimEnd` removes exactly the trailing white space. */
  lemma {:induction false} TrimEndFacts(s: string)
    ensures var r := TrimEnd(s);
      && r == s[..|r|]
      && AllSpace(s[|r|..])
      && (r != [] ==> !IsJsSpace(r[|r| - 1]))
  {
    if s != [] && IsJsSpace(s[|s| - 1]) {
      var t := s[..|s| - 1];
      var r := TrimEnd(t);
      TrimEndFacts(t);
      assert t[..|r|] == s[..|r|];
      assert s[|r|..] == t[|r|..] + [s[|s| - 1]];
    }
  }

  /** `String.prototype.trim`. */
  function Trim(s: string): (r: string)
    ensures |r| <= |s|
  {
    TrimEnd(TrimStart(s))
  }

  /**
   * A trimmed string starts and ends with no white space, and is empty
   * exactly when the input is all white space.
   */
  lemma TrimFacts(s: string)
    ensures var r := Trim(s);
      && (r != [] ==> !IsJsSpace(r[0]) && !IsJsSpace(r[|r| - 1]))
      && (r == [] <==> AllSpace(s))
  {
    var t := TrimStart(s);
    var r := TrimEnd(t);
    TrimStartFacts(s);
    TrimEndFacts(t);
    if r != [] {
      assert r[0] == t[0];
      assert !AllSpace(s) by {
        assert s[|s| - |t|] == t[0];
      }
    } else {
      assert s[..|s|] == s;
    }
  }

  /** Trimming a trimmed string changes nothing. */
  lemma TrimIdempotent(s: string)
    ensures Trim(Trim(s)) == Trim(s)
  {
    var r := Trim(s);
    TrimFacts(s);
    assert TrimStart(r) == r;
    assert TrimEnd(r) == r;
  }

  /** Leading white space is what `trimStart` removes, and nothing more. */
  lemma {:induction false} TrimStartAfterSpace(a: string, s: string)
    requires AllSpace(a)
    requires s != [] && !IsJsSpace(s[0])
    ensures TrimStart(a + s) == s
  {
    if a != [] {
      assert (a + s)[1..] == a[1..] + s;
      TrimStartAfterSpace(a[1..], s);
    }
  }

  /** Trailing white space is what `trimEnd` removes, and nothing more. */
  lemma {:induction false} TrimEndBeforeSpace(s: string, b: string)
    requires AllSpace(b)
    requires s != [] && !IsJsSpace(s[|s| - 1])
    ensures TrimEnd(s + b) == s
  {
    if b != [] {
      assert (s + b)[..|s + b| - 1] == s + b[..|b| - 1];
      TrimEndBeforeSpace(s, b[..|b| - 1]);
    }
  }

  /**
   * Trimming a string that neither starts nor ends with white space, once
   * white space is put around it, gives back that string.
   */
  lemma TrimSurrounded(a: string, s: string, b: string)
    requires AllSpace(a) && AllSpace(b)
    requires s != [] && !IsJsSpace(s[0]) && !IsJsSpace(s[|s| - 1])
    ensures Trim(a + s + b) == s
  {
    assert a + s + b == a + (s + b);
    TrimStartAfterSpace(a, s + b);
    TrimEndBeforeSpace(s, b);
  }

  /**
   * `toLowerCase` on one character. The model covers the letters the
   * application meets: ASCII, Latin-1 and Ÿ; every other character is left
   * as it is, so lower-casing never changes a string's length.
   */
  function LowerChar(c: char): char {
    if 'A' <= c <= 'Z' || ('À' <= c <= 'Þ' && c != '×') then (c as int + 32) as char
    else if c == 'Ÿ' then 'ÿ'
    else c
  }

  /** `String.prototype.toLowerCase`. */
  function Lower(s: string): (r: string)
    ensures |r| == |s|
    ensures forall i :: 0 <= i < |s| ==> r[i] == LowerChar(s[i])
  {
    seq(|s|, i requires 0 <= i < |s| => LowerChar(s[i]))
  }

  /** `needle` occurs in `hay` starting at index `i`. */
  predicate OccursAt(hay: string, needle: string, i: int) {
    0 <= i && i + |needle| <= |hay| && hay[i..i + |needle|] == needle
  }

  function IndexFrom(hay: string, needle: string, k: nat): (r: int)
    requires k <= |hay| + 1
    decreases |hay| + 1 - k
    ensures r == -1 || (k <= r && OccursAt(hay, needle, r))
    ensures r == -1 ==> forall i :: k <= i ==> !OccursAt(hay, needle, i)
    ensures r != -1 ==> forall i :: k <= i < r ==> !OccursAt(hay, needle, i)
  {
    if k + |needle| > |hay| then -1
    else if hay[k..k + |needle|] == needle then k
    else IndexFrom(hay, needle, k + 1)
  }

  /**
   * `hay.indexOf(needle)`: the first index at which `needle` occurs, or -1
   * when it occurs nowhere (an empty needle is found at 0).
   */
  function IndexOf(hay: string, needle: string): (r: int)
    ensures r == -1 <==> forall i :: !OccursAt(hay, needle, i)
    ensures r != -1 ==> OccursAt(hay, needle, r) && forall i :: 0 <= i < r ==> !OccursAt(hay, needle, i)
  {
    IndexFrom(hay, needle, 0)
  }

  /** `hay.includes(needle)`. */
  predicate Contains(hay: string, needle: string) {
    IndexOf(hay, needle) != -1
  }

  /** A combining diacritical mark, U+0300 to U+036F. */
  predicate IsCombiningMark(c: char) {
    0x300 <= c as int <= 0x36F
  }

  /**
   * The first character of the canonical decomposition (NFD) of `c`. The model
   * decomposes the accented letters of Latin-1 and Ÿ; every other character is
   * its own decomposition.
   */
  function BaseLetter(c: char): (b: char)
    ensures IsCombiningMark(b) ==> b == c
  {
    if 'À' <= c <= 'Å' then 'A'
    else if c == 'Ç' then 'C'
    else if 'È' <= c <= 'Ë' then 'E'
    else if 'Ì' <= c <= 'Ï' then 'I'
    else if c == 'Ñ' then 'N'
    else if 'Ò' <= c <= 'Ö' then 'O'
    else if 'Ù' <= c <= 'Ü' then 'U'
    else if c == 'Ý' || c == 'Ÿ' then 'Y'
    else if 'à' <= c <= 'å' then 'a'
    else if c == 'ç' then 'c'
    else if 'è' <= c <= 'ë' then 'e'
    else if 'ì' <= c <= 'ï' then 'i'
    else if c == 'ñ' then 'n'
    else if 'ò' <= c <= 'ö' then 'o'
    else if 'ù' <= c <= 'ü' then 'u'
    else if c == 'ý' || c == 'ÿ' then 'y'
    else c
  }

  /**
   * `s.normalize("NFD").replace(/[\u0300-\u036f]/g, "")`: decompose, then
   * drop the combining marks. The result may be shorter than `s`.
   */
  function StripAccents(s: string): (r: string)
    ensures |r| <= |s|
    ensures forall i :: 0 <= i < |r| ==> !IsCombiningMark(r[i])
  {
    if s == [] then []
    else (if IsCombiningMark(s[0]) then [] else [BaseLetter(s[0])]) + StripAccents(s[1..])
  }
}
