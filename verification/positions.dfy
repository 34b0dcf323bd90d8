/**
 * `addErrorPositions` (routes/api.js): give each error reported by the model
 * a character span of the submitted text, `positionStart`/`positionEnd`, or
 * 0/0 when it cannot be located.
 */
module ErrorPositions {
  import opened Wrappers
  import opened JsText
  import MessagePatterns

  /**
   * One error as the model reports it and as the application passes it on.
   * Fields the model may leave out are options; the two positions are what
   * `addErrorPositions` sets.
   */
  datatype CorrectionError = CorrectionError(
    errorType: string,
    message: Option<string>,
    severity: Option<string>,
    original: Option<string>,
    correction: Option<string>,
    positionStart: int,
    positionEnd: int)

  type Span = (int, int)

  /** `error.message || ''`. */
  function MessageText(e: CorrectionError): string {
    if e.message.Some? then e.message.value else ""
  }

  /**
   * The direct search: the trimmed `original`, when non-empty, looked up
   * case-insensitively in the text; its span at the first occurrence.
   */
  function DirectSpan(text: string, original: Option<string>): (r: Option<Span>)
    ensures r.Some? <==>
      original.Some? && Trim(original.value) != [] && Contains(Lower(text), Lower(Trim(original.value)))
    ensures r.Some? ==> (
      && original.Some?
      && r.value.1 == r.value.0 + |Trim(original.value)| <= |text|
      && OccursAt(Lower(text), Lower(Trim(original.value)), r.value.0))
  {
    if original.None? then None
    else
      var term := Trim(original.value);
      if term == [] then None
      else
        var p := IndexOf(Lower(text), Lower(term));
        if p == -1 then None else Some((p, p + |term|))
  }

  /**
   * Where a candidate word is found: verbatim (case-insensitively) first, then
   * with the accents stripped from both the word and the text; -1 if neither.
   */
  function WordPosition(text: string, word: string): (r: int)
    ensures r == -1 <==>
      !Contains(Lower(text), Lower(word)) && !Contains(Lower(StripAccents(text)), Lower(StripAccents(word)))
    ensures r != -1 ==> (
      && 0 <= r
      && (OccursAt(Lower(text), Lower(word), r) || OccursAt(Lower(StripAccents(text)), Lower(StripAccents(word)), r)))
  {
    var p := IndexOf(Lower(text), Lower(word));
    if p != -1 then p else IndexOf(Lower(StripAccents(text)), Lower(StripAccents(word)))
  }

  /** The candidate search of the cascade over one text. */
  function Finder(text: string): string -> int {
    w => WordPosition(text, w)
  }

  /** A candidate that is searched (longer than two characters) and found. */
  predicate Hits(find: string -> int, word: string) {
    |word| > 2 && find(word) != -1
  }

  /** The span of the first candidate of one pattern that hits. */
  function FirstHitIn(find: string -> int, words: seq<string>): Option<Span> {
    if words == [] then None
    else if Hits(find, words[0]) then Some((find(words[0]), find(words[0]) + |words[0]|))
    else FirstHitIn(find, words[1..])
  }

  /** The span of the first hit over the patterns, tried in order. */
  function FirstHit(find: string -> int, patterns: seq<seq<string>>): Option<Span> {
    if patterns == [] then None
    else
      var h := FirstHitIn(find, patterns[0]);
      if h.Some? then h else FirstHit(find, patterns[1..])
  }

  /** The span `addErrorPositions` gives an error: direct search, else the cascade, else 0/0. */
  function Locate(text: string, e: CorrectionError): Span {
    var d := DirectSpan(text, e.original);
    if d.Some? then d.value
    else
      var c := FirstHit(Finder(text), MessagePatterns.Candidates(MessageText(e)));
      if c.Some? then c.value else (0, 0)
  }

  /** `{...error, positionStart, positionEnd}`. */
  function WithSpan(e: CorrectionError, span: Span): CorrectionError {
    e.(positionStart := span.0, positionEnd := span.1)
  }

  /** The whole result of `addErrorPositions`. */
  function Positioned(text: string, errors: seq<CorrectionError>): (r: seq<CorrectionError>)
    ensures |r| == |errors|
  {
    if errors == [] then [] else [WithSpan(errors[0], Locate(text, errors[0]))] + Positioned(text, errors[1..])
  }

  /**
   * Positioning keeps the list's length and order and every field of each
   * error other than the two positions.
   */
  lemma {:induction false} PositionedKeepsFields(text: string, errors: seq<CorrectionError>, i: int)
    requires 0 <= i < |errors|
    decreases i
    ensures |Positioned(text, errors)| == |errors|
    ensures var r := Positioned(text, errors)[i];
      && r.errorType == errors[i].errorType && r.message == errors[i].message
      && r.severity == errors[i].severity && r.original == errors[i].original
      && r.correction == errors[i].correction
      && (r.positionStart, r.positionEnd) == Locate(text, errors[i])
  {
    if i > 0 {
      PositionedKeepsFields(text, errors[1..], i - 1);
    }
  }

  /**
   * When the trimmed `original` is non-empty and occurs case-insensitively in
   * the text, the span is its first occurrence, and lies within the text.
   */
  lemma DirectMatchIsFirstOccurrence(text: string, e: CorrectionError)
    requires e.original.Some? && Trim(e.original.value) != []
    requires Contains(Lower(text), Lower(Trim(e.original.value)))
    ensures var term := Trim(e.original.value);
      var (start, end) := Locate(text, e);
      && 0 <= start <= end <= |text|
      && end == start + |term|
      && Lower(text)[start..end] == Lower(term)
      && forall p :: 0 <= p < start ==> !OccursAt(Lower(text), Lower(term), p)
  {
  }

  /**
   * Once the direct search finds the `original`, the message is never read:
   * any other message, or none, gives the same span, the direct one.
   */
  lemma MessageIgnoredAfterDirectHit(text: string, e: CorrectionError, m: Option<string>)
    requires DirectSpan(text, e.original).Some?
    ensures Locate(text, e.(message := m)) == Locate(text, e) == DirectSpan(text, e.original).value
  {
  }

  /**
   * When the direct search misses, the `original` plays no further part: an
   * error whose `original` also misses, or is absent, gets the same span.
   */
  lemma OriginalIgnoredAfterDirectMiss(text: string, e: CorrectionError, o: Option<string>)
    requires DirectSpan(text, e.original).None? && DirectSpan(text, o).None?
    ensures Locate(text, e.(original := o)) == Locate(text, e)
  {
  }

  /** An error that neither the direct search nor the cascade locates gets the span 0/0. */
  lemma UnlocatedIsZero(text: string, e: CorrectionError)
    requires DirectSpan(text, e.original).None?
    requires var c := MessagePatterns.Candidates(MessageText(e));
      forall p, j :: 0 <= p < 8 && 0 <= j < |c[p]| ==> !Hits(Finder(text), c[p][j])
    ensures Locate(text, e) == (0, 0)
  {
    FirstHitNoneIffNoHit(Finder(text), MessagePatterns.Candidates(MessageText(e)));
  }

  /** Within one pattern: no span exactly when no candidate hits. */
  lemma {:induction false} FirstHitInNoneIffNoHit(find: string -> int, words: seq<string>)
    ensures FirstHitIn(find, words).None? <==> forall j :: 0 <= j < |words| ==> !Hits(find, words[j])
  {
    if words != [] && !Hits(find, words[0]) {
      FirstHitInNoneIffNoHit(find, words[1..]);
      assert forall j :: 1 <= j < |words| ==> words[j] == words[1..][j - 1];
    }
  }

  /**
   * Within one pattern: when candidate `j` is the first that hits (every
   * earlier one was too short or not found), the span is that candidate's.
   */
  lemma {:induction false} FirstHitInAt(find: string -> int, words: seq<string>, j: nat)
    requires j < |words| && Hits(find, words[j])
    requires forall k :: 0 <= k < j ==> !Hits(find, words[k])
    ensures FirstHitIn(find, words) == Some((find(words[j]), find(words[j]) + |words[j]|))
  {
    if j > 0 {
      assert !Hits(find, words[0]);
      assert forall k :: 0 <= k < j - 1 ==> words[1..][k] == words[k + 1];
      FirstHitInAt(find, words[1..], j - 1);
    }
  }

  /** Over all patterns: no span exactly when no candidate of any pattern hits. */
  lemma {:induction false} FirstHitNoneIffNoHit(find: string -> int, patterns: seq<seq<string>>)
    ensures FirstHit(find, patterns).None? <==>
      forall p, j :: 0 <= p < |patterns| && 0 <= j < |patterns[p]| ==> !Hits(find, patterns[p][j])
  {
    if patterns != [] {
      FirstHitInNoneIffNoHit(find, patterns[0]);
      FirstHitNoneIffNoHit(find, patterns[1..]);
      assert forall p :: 1 <= p < |patterns| ==> patterns[p] == patterns[1..][p - 1];
    }
  }

  /**
   * Over all patterns: when candidate `j` of pattern `p` is the first that
   * hits (no candidate of an earlier pattern, nor an earlier candidate of the
   * same pattern, does), the span is that candidate's: the first hit stops
   * the whole search.
   */
  lemma {:induction false} FirstHitAt(find: string -> int, patterns: seq<seq<string>>, p: nat, j: nat)
    requires p < |patterns| && j < |patterns[p]| && Hits(find, patterns[p][j])
    requires forall q, k :: 0 <= q < p && 0 <= k < |patterns[q]| ==> !Hits(find, patterns[q][k])
    requires forall k :: 0 <= k < j ==> !Hits(find, patterns[p][k])
    ensures FirstHit(find, patterns) == Some((find(patterns[p][j]), find(patterns[p][j]) + |patterns[p][j]|))
  {
    if p == 0 {
      FirstHitInAt(find, patterns[0], j);
    } else {
      FirstHitInNoneIffNoHit(find, patterns[0]);
      var rest := patterns[1..];
      assert forall q :: 0 <= q < p - 1 ==> rest[q] == patterns[q + 1];
      FirstHitAt(find, rest, p - 1, j);
    }
  }

  /** One candidate's search: verbatim first, then without accents. */
  method SearchWord(text: string, word: string) returns (position: int)
    ensures position == WordPosition(text, word)
  {
    position := IndexOf(Lower(text), Lower(word));
    if position == -1 {
      position := IndexOf(Lower(StripAccents(text)), Lower(StripAccents(word)));
    }
  }

  /**
   * The inner loop of the message cascade: the candidates of one pattern in
   * order, each longer than two characters searched verbatim and then
   * without accents, stopping at the first one found.
   */
  method SearchMatches(text: string, matches: seq<string>) returns (span: Option<Span>)
    ensures span == FirstHitIn(Finder(text), matches)
  {
    var find := Finder(text);
    span := None;
    var j := 0;
    assert matches[0..] == matches;
    while j < |matches|
      invariant 0 <= j <= |matches|
      invariant FirstHitIn(find, matches) == FirstHitIn(find, matches[j..])
    {
      var word := matches[j];
      FirstHitInStep(find, matches, j);
      if |word| > 2 {
        var position := SearchWord(text, word);
        assert position == find(word);
        if position != -1 {
          return Some((position, position + |word|));
        }
      }
      j := j + 1;
    }
  }

  /**
   * The message cascade of `addErrorPositions`: the patterns in order,
   * stopping at the first pattern with a hit.
   */
  method SearchCascade(text: string, patterns: seq<seq<string>>) returns (span: Option<Span>)
    ensures span == FirstHit(Finder(text), patterns)
  {
    span := None;
    var i := 0;
    assert patterns[0..] == patterns;
    while i < |patterns|
      invariant 0 <= i <= |patterns|
      invariant span.None? && FirstHit(Finder(text), patterns) == FirstHit(Finder(text), patterns[i..])
    {
      span := SearchMatches(text, patterns[i]);
      FirstHitStep(Finder(text), patterns, i);
      if span.Some? {
        return;
      }
      i := i + 1;
    }
  }

  /** One step of the search within a pattern, from candidate `j`. */
  lemma FirstHitInStep(find: string -> int, words: seq<string>, j: nat)
    requires j < |words|
    ensures FirstHitIn(find, words[j..]) ==
      if Hits(find, words[j]) then Some((find(words[j]), find(words[j]) + |words[j]|))
      else FirstHitIn(find, words[j + 1..])
  {
    assert words[j..][1..] == words[j + 1..];
  }

  /** One step of the cascade, from pattern `i`. */
  lemma FirstHitStep(find: string -> int, patterns: seq<seq<string>>, i: nat)
    requires i < |patterns|
    ensures FirstHit(find, patterns[i..]) ==
      if FirstHitIn(find, patterns[i]).Some? then FirstHitIn(find, patterns[i]) else FirstHit(find, patterns[i + 1..])
  {
    assert patterns[i..][1..] == patterns[i + 1..];
  }

  /** Positioning one more error appends it with its span. */
  lemma {:induction false} PositionedSnoc(text: string, errors: seq<CorrectionError>, e: CorrectionError)
    ensures Positioned(text, errors + [e]) == Positioned(text, errors) + [WithSpan(e, Locate(text, e))]
  {
    if errors != [] {
      assert (errors + [e])[1..] == errors[1..] + [e];
      PositionedSnoc(text, errors[1..], e);
    } else {
      assert errors + [e] == [e];
    }
  }

  /** Positioning a prefix one error longer appends that error with its span. */
  lemma PositionedExtend(text: string, errors: seq<CorrectionError>, i: nat)
    requires i < |errors|
    ensures Positioned(text, errors[..i + 1]) == Positioned(text, errors[..i]) + [WithSpan(errors[i], Locate(text, errors[i]))]
  {
    assert errors[..i + 1] == errors[..i] + [errors[i]];
    PositionedSnoc(text, errors[..i], errors[i]);
  }

  /**
   * `addErrorPositions` for one error, as the source computes it: the direct
   * search, and the message cascade only when that finds nothing; 0/0 when
   * neither finds the error.
   */
  method LocateSpan(text: string, e: CorrectionError) returns (positionStart: int, positionEnd: int)
    ensures (positionStart, positionEnd) == Locate(text, e)
  {
    var span: Option<Span> := None;
    if e.original.Some? && Trim(e.original.value) != [] {
      var searchTerm := Trim(e.original.value);
      var position := IndexOf(Lower(text), Lower(searchTerm));
      if position != -1 {
        span := Some((position, position + |searchTerm|));
      }
    }
    assert span == DirectSpan(text, e.original);
    if span.None? {
      span := SearchCascade(text, MessagePatterns.Candidates(MessageText(e)));
    }
    if span.Some? {
      positionStart, positionEnd := span.value.0, span.value.1;
    } else {
      positionStart, positionEnd := 0, 0;
    }
  }

  /**
   * `addErrorPositions`: every error, in order, with its span; nothing else
   * about the errors changes.
   */
  method AddErrorPositions(text: string, errors: seq<CorrectionError>) returns (result: seq<CorrectionError>)
    ensures result == Positioned(text, errors)
  {
    result := [];
    var i := 0;
    while i < |errors|
      invariant 0 <= i <= |errors|
      invariant result == Positioned(text, errors[..i])
    {
      var s, t := LocateSpan(text, errors[i]);
      PositionedExtend(text, errors, i);
      result := result + [WithSpan(errors[i], (s, t))];
      i := i + 1;
    }
    assert errors[..i] == errors;
  }
}
