/**
 * `countWords` (public/js/app.js): the word count shown under the editor.
 * The function trims the text, collapses white-space runs to one space,
 * turns every character other than a word character, white space or a
 * character of U+00C0 to U+024F into a space, trims again and counts the
 * non-empty pieces between single spaces. The model follows those steps and
 * proves that the count is the number of maximal runs of kept characters.
 */
module WordCount {
  import opened JsText

  /** A character the count keeps: `\w` (ASCII letters, digits, `_`) or U+00C0 to U+024F. */
  predicate Kept(c: char) {
    ('a' <= c <= 'z') || ('A' <= c <= 'Z') || ('0' <= c <= '9') || c == '_'
    || (0xC0 <= c as int <= 0x24F)
  }

  /** No white space is a kept character. */
  lemma SpaceIsNotKept(c: char)
    requires IsJsSpace(c)
    ensures !Kept(c)
  {
  }

  /** `replace(/\s+/g, ' ')`: every maximal run of white space becomes one space. */
  function CollapseSpace(s: string): (r: string)
    decreases |s|
  {
    if s == [] then []
    else if IsJsSpace(s[0]) then [' '] + CollapseSpace(TrimStart(s[1..]))
    else [s[0]] + CollapseSpace(s[1..])
  }

  /** `replace(/[^\w\s\u00C0-\u017F\u0100-\u024F]/g, ' ')`, one character at a time. */
  function ReplaceOther(s: string): (r: string)
    ensures |r| == |s|
    ensures forall i :: 0 <= i < |s| ==> r[i] == if Kept(s[i]) || IsJsSpace(s[i]) then s[i] else ' '
  {
    seq(|s|, i requires 0 <= i < |s| => if Kept(s[i]) || IsJsSpace(s[i]) then s[i] else ' ')
  }

  /** `split(' ')`, with `piece` the part of the current piece already read. */
  function SplitFrom(s: string, piece: string): (r: seq<string>)
    ensures |r| >= 1
  {
    if s == [] then [piece]
    else if s[0] == ' ' then [piece] + SplitFrom(s[1..], [])
    else SplitFrom(s[1..], piece + [s[0]])
  }

  /** `filter(word => word.length > 0).length`. */
  function CountNonEmpty(pieces: seq<string>): (n: nat)
    ensures n <= |pieces|
  {
    if pieces == [] then 0
    else (if pieces[0] != [] then 1 else 0) + CountNonEmpty(pieces[1..])
  }

  /**
   * `countWords`, step by step: the number of maximal runs of kept
   * characters, whatever separates them.
   */
  function CountWords(text: string): (n: nat)
    ensures n == Words(text)
  {
    if Trim(text) == [] then
      BlankHasNoWords(text);
      0
    else
      var clean := Trim(ReplaceOther(CollapseSpace(Trim(text))));
      CleaningKeepsWords(text);
      SplitCountsRuns(clean, []);
      if clean == [] then 0 else CountNonEmpty(SplitFrom(clean, []))
  }

  /**
   * The number of maximal runs of kept characters in `s`; `inRun` says
   * whether the character before `s` was kept.
   */
  function RunsFrom(s: string, inRun: bool): nat {
    if s == [] then 0
    else if Kept(s[0]) then (if inRun then 0 else 1) + RunsFrom(s[1..], true)
    else RunsFrom(s[1..], false)
  }

  /** The words of a text: its maximal runs of kept characters. */
  function Words(text: string): nat {
    RunsFrom(text, false)
  }

  predicate NoneKept(s: string) {
    forall i :: 0 <= i < |s| ==> !Kept(s[i])
  }

  lemma {:induction false} NoneKeptHasNoRun(s: string, inRun: bool)
    requires NoneKept(s)
    ensures RunsFrom(s, inRun) == 0
    decreases |s|
  {
    if s != [] {
      NoneKeptHasNoRun(s[1..], false);
    }
  }

  /** Characters that are not kept in front of a text only end the current run. */
  lemma {:induction false} RunsAfterNoneKept(p: string, s: string)
    requires p != [] && NoneKept(p)
    ensures forall b :: RunsFrom(p + s, b) == RunsFrom(s, false)
    decreases |p|
  {
    assert (p + s)[1..] == p[1..] + s;
    if |p| > 1 {
      RunsAfterNoneKept(p[1..], s);
    } else {
      assert p[1..] + s == s;
    }
  }

  /** Characters that are not kept after a text add no run. */
  lemma {:induction false} RunsBeforeNoneKept(s: string, q: string, inRun: bool)
    requires NoneKept(q)
    ensures RunsFrom(s + q, inRun) == RunsFrom(s, inRun)
    decreases |s|
  {
    if s == [] {
      assert s + q == q;
      NoneKeptHasNoRun(q, inRun);
    } else {
      assert (s + q)[1..] == s[1..] + q;
      RunsBeforeNoneKept(s[1..], q, Kept(s[0]));
    }
  }

  /** The runs depend only on which characters are kept. */
  lemma {:induction false} RunsFollowKept(s: string, t: string, inRun: bool)
    requires |s| == |t|
    requires forall i :: 0 <= i < |s| ==> Kept(s[i]) == Kept(t[i])
    ensures RunsFrom(s, inRun) == RunsFrom(t, inRun)
    decreases |s|
  {
    if s != [] {
      RunsFollowKept(s[1..], t[1..], Kept(s[0]));
    }
  }

  /** Trimming removes white space only, so it keeps the runs. */
  lemma TrimKeepsRuns(s: string)
    ensures RunsFrom(Trim(s), false) == RunsFrom(s, false)
  {
    var t := TrimStart(s);
    TrimStartFacts(s);
    TrimEndFacts(t);
    var p := s[..|s| - |t|];
    assert s == p + t;
    if p != [] {
      RunsAfterNoneKept(p, t);
    }
    var r := TrimEnd(t);
    assert t == r + t[|r|..];
    RunsBeforeNoneKept(r, t[|r|..], false);
  }

  /** Collapsing white space keeps the runs, and leaves no white space but plain spaces. */
  lemma {:induction false} CollapseKeepsRuns(s: string, inRun: bool)
    ensures RunsFrom(CollapseSpace(s), inRun) == RunsFrom(s, inRun)
    ensures forall i :: 0 <= i < |CollapseSpace(s)| && IsJsSpace(CollapseSpace(s)[i]) ==> CollapseSpace(s)[i] == ' '
    decreases |s|
  {
    if s != [] {
      var r := CollapseSpace(s);
      if IsJsSpace(s[0]) {
        var x := s[1..];
        var t := TrimStart(x);
        CollapseKeepsRuns(t, false);
        TrimStartFacts(x);
        var p := x[..|x| - |t|];
        assert x == p + t;
        if p != [] {
          RunsAfterNoneKept(p, t);
        }
        assert r == [' '] + CollapseSpace(t);
        assert forall i :: 1 <= i < |r| ==> r[i] == CollapseSpace(t)[i - 1];
      } else {
        CollapseKeepsRuns(s[1..], Kept(s[0]));
        assert r == [s[0]] + CollapseSpace(s[1..]);
        assert forall i :: 1 <= i < |r| ==> r[i] == CollapseSpace(s[1..])[i - 1];
      }
    }
  }

  /** Every character is kept or a plain space. */
  predicate KeptOrBlank(s: string) {
    forall i :: 0 <= i < |s| ==> Kept(s[i]) || s[i] == ' '
  }

  /** Trimming keeps a text made of kept characters and plain spaces so. */
  lemma TrimKeepsKeptOrBlank(s: string)
    requires KeptOrBlank(s)
    ensures KeptOrBlank(Trim(s))
  {
    var t := TrimStart(s);
    TrimStartFacts(s);
    TrimEndFacts(t);
    assert forall i :: 0 <= i < |t| ==> t[i] == s[|s| - |t| + i];
  }

  /**
   * Splitting a text of kept characters and plain spaces at the spaces gives
   * one non-empty piece per run, plus the piece already started.
   */
  lemma {:induction false} SplitCountsRuns(s: string, piece: string)
    requires KeptOrBlank(s)
    ensures CountNonEmpty(SplitFrom(s, piece)) == RunsFrom(s, piece != []) + (if piece != [] then 1 else 0)
    decreases |s|
  {
    if s != [] {
      if s[0] == ' ' {
        SplitCountsRuns(s[1..], []);
        assert ([piece] + SplitFrom(s[1..], []))[1..] == SplitFrom(s[1..], []);
      } else {
        SplitCountsRuns(s[1..], piece + [s[0]]);
      }
    }
  }

  /** A blank text has no word. */
  lemma BlankHasNoWords(text: string)
    requires Trim(text) == []
    ensures Words(text) == 0
  {
    TrimFacts(text);
    assert NoneKept(text) by {
      forall i | 0 <= i < |text|
        ensures !Kept(text[i])
      {
        SpaceIsNotKept(text[i]);
      }
    }
    NoneKeptHasNoRun(text, false);
  }

  /**
   * The cleaning of `countWords` (trim, collapse the white space, blank the
   * other characters, trim again) leaves only kept characters and plain
   * spaces, and keeps every run of kept characters.
   */
  lemma CleaningKeepsWords(text: string)
    ensures var clean := Trim(ReplaceOther(CollapseSpace(Trim(text))));
      KeptOrBlank(clean) && RunsFrom(clean, false) == Words(text)
  {
    var t1 := Trim(text);
    var t2 := CollapseSpace(t1);
    var t3 := ReplaceOther(t2);
    TrimKeepsRuns(text);
    CollapseKeepsRuns(t1, false);
    RunsFollowKept(t2, t3, false);
    TrimKeepsRuns(t3);
    assert KeptOrBlank(t3);
    TrimKeepsKeptOrBlank(t3);
  }

  /** Only the non-kept characters separate words: text with none kept has no word. */
  lemma NoKeptNoWords(text: string)
    requires NoneKept(text)
    ensures CountWords(text) == 0
  {
    NoneKeptHasNoRun(text, false);
  }
}
