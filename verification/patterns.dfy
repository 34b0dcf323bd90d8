/**
 * The eight regular expressions `addErrorPositions` runs over an error's
 * message (routes/api.js), each as the sequence of first-group captures that
 * `message.matchAll(pattern)` yields, in order.
 *
 * Seven of them have the shape `<prefix>q([^q]+)q` for a quote character q;
 * the eighth is `\b([a-zA-Z<accented letters>]{3,})\b`, where `\b` is the
 * ASCII word boundary of a regular expression without the `u` flag.
 */
module MessagePatterns {
  import opened Wrappers
  import opened JsText

  /** The first index at or after `j` holding `q`, or |s| when there is none. */
  function FindChar(s: string, q: char, j: nat): (k: nat)
    requires j <= |s|
    decreases |s| - j
    ensures j <= k <= |s|
    ensures k < |s| ==> s[k] == q
    ensures forall m :: j <= m < k ==> s[m] != q
  {
    if j == |s| || s[j] == q then j else FindChar(s, q, j + 1)
  }

  /**
   * An attempt of `<prefix>q([^q]+)q` at index `i`: the index of the closing
   * quote when the attempt succeeds.
   */
  function QuotedAt(s: string, prefix: string, q: char, i: nat): (r: Option<nat>)
    requires i <= |s|
    ensures r.Some? ==> i + |prefix| + 1 < r.value < |s| && s[r.value] == q
    ensures r.Some? ==> forall m :: i + |prefix| + 1 <= m < r.value ==> s[m] != q
  {
    var j := i + |prefix| + 1;
    if j <= |s| && s[i..j] == prefix + [q] then
      var k := FindChar(s, q, j);
      if j < k < |s| then Some(k) else None
    else None
  }

  /** The captures of the global pattern `<prefix>q([^q]+)q` from index `i` on. */
  function QuotedFrom(s: string, prefix: string, q: char, i: nat): (r: seq<string>)
    requires i <= |s|
    decreases |s| - i
    ensures 3 * |r| <= |s| - i
  {
    if i == |s| then []
    else
      match QuotedAt(s, prefix, q, i)
      case Some(k) => [s[i + |prefix| + 1..k]] + QuotedFrom(s, prefix, q, k + 1)
      case None => QuotedFrom(s, prefix, q, i + 1)
  }

  /** Every element of `ws` is a non-empty piece of `s`. */
  predicate PiecesOf(s: string, ws: seq<string>) {
    forall j :: 0 <= j < |ws| ==> ws[j] != [] && Contains(s, ws[j])
  }

  /** No element of `ws` holds the quote `q`. */
  predicate FreeOf(ws: seq<string>, q: char) {
    forall j :: 0 <= j < |ws| ==> q !in ws[j]
  }

  lemma FreeOfCons(w: string, rest: seq<string>, q: char)
    requires q !in w && FreeOf(rest, q)
    ensures FreeOf([w] + rest, q)
  {
  }

  /** A successful attempt at `i` captures the text between the quotes and resumes after the closing one. */
  lemma QuotedStep(s: string, prefix: string, q: char, i: nat, k: nat)
    requires i < |s| && QuotedAt(s, prefix, q, i) == Some(k)
    ensures QuotedFrom(s, prefix, q, i) == [s[i + |prefix| + 1..k]] + QuotedFrom(s, prefix, q, k + 1)
  {
  }

  /** A failed attempt at `i` resumes at the next index. */
  lemma QuotedSkip(s: string, prefix: string, q: char, i: nat)
    requires i < |s| && QuotedAt(s, prefix, q, i).None?
    ensures QuotedFrom(s, prefix, q, i) == QuotedFrom(s, prefix, q, i + 1)
  {
  }

  /** The text between the quotes is non-empty, occurs where it was read and holds no quote. */
  lemma QuotedPiece(s: string, prefix: string, q: char, i: nat, k: nat)
    requires i < |s| && QuotedAt(s, prefix, q, i) == Some(k)
    ensures var j := i + |prefix| + 1;
      && s[j..k] != [] && OccursAt(s, s[j..k], j) && q !in s[j..k]
  {
    var j := i + |prefix| + 1;
    var w := s[j..k];
    forall m | 0 <= m < |w|
      ensures w[m] != q
    {
      assert w[m] == s[j + m];
    }
  }

  /** A capture that is a piece, followed by captures that are pieces, are all pieces. */
  lemma QuotedPiecesStep(s: string, prefix: string, q: char, i: nat, k: nat)
    requires i < |s| && QuotedAt(s, prefix, q, i) == Some(k)
    requires PiecesOf(s, QuotedFrom(s, prefix, q, k + 1))
    ensures PiecesOf(s, QuotedFrom(s, prefix, q, i))
  {
    var j := i + |prefix| + 1;
    QuotedStep(s, prefix, q, i, k);
    QuotedPiece(s, prefix, q, i, k);
    PiecesCons(s, s[j..k], j, QuotedFrom(s, prefix, q, k + 1));
  }

  /** Every capture of a quoted pattern is a non-empty piece of the message. */
  lemma {:induction false} QuotedCapturesArePieces(s: string, prefix: string, q: char, i: nat)
    requires i <= |s|
    decreases |s| - i
    ensures PiecesOf(s, QuotedFrom(s, prefix, q, i))
  {
    if i < |s| {
      var a := QuotedAt(s, prefix, q, i);
      if a.Some? {
        QuotedCapturesArePieces(s, prefix, q, a.value + 1);
        QuotedPiecesStep(s, prefix, q, i, a.value);
      } else {
        QuotedSkip(s, prefix, q, i);
        QuotedCapturesArePieces(s, prefix, q, i + 1);
      }
    }
  }

  /** A capture without the quote, followed by captures without it, are all without it. */
  lemma QuotedFreeStep(s: string, prefix: string, q: char, i: nat, k: nat)
    requires i < |s| && QuotedAt(s, prefix, q, i) == Some(k)
    requires FreeOf(QuotedFrom(s, prefix, q, k + 1), q)
    ensures FreeOf(QuotedFrom(s, prefix, q, i), q)
  {
    var j := i + |prefix| + 1;
    QuotedStep(s, prefix, q, i, k);
    QuotedPiece(s, prefix, q, i, k);
    FreeOfCons(s[j..k], QuotedFrom(s, prefix, q, k + 1), q);
  }

  /** No capture of a quoted pattern holds its quote. */
  lemma {:induction false} QuotedCapturesFreeOfQuote(s: string, prefix: string, q: char, i: nat)
    requires i <= |s|
    decreases |s| - i
    ensures FreeOf(QuotedFrom(s, prefix, q, i), q)
  {
    if i < |s| {
      var a := QuotedAt(s, prefix, q, i);
      if a.Some? {
        QuotedCapturesFreeOfQuote(s, prefix, q, a.value + 1);
        QuotedFreeStep(s, prefix, q, i, a.value);
      } else {
        QuotedSkip(s, prefix, q, i);
        QuotedCapturesFreeOfQuote(s, prefix, q, i + 1);
      }
    }
  }

  /** `\w` of a regular expression without the `u` flag. */
  predicate IsRegexWordChar(c: char) {
    'a' <= c <= 'z' || 'A' <= c <= 'Z' || '0' <= c <= '9' || c == '_'
  }

  /** The accented letters the eighth pattern lists: àâäéèêëïîôöùûüÿç and their capitals. */
  predicate IsListedAccent(c: char) {
    c == 'à' || c == 'â' || c == 'ä' || c == 'é' || c == 'è' || c == 'ê' || c == 'ë' || c == 'ï'
    || c == 'î' || c == 'ô' || c == 'ö' || c == 'ù' || c == 'û' || c == 'ü' || c == 'ÿ' || c == 'ç'
    || c == 'À' || c == 'Â' || c == 'Ä' || c == 'É' || c == 'È' || c == 'Ê' || c == 'Ë' || c == 'Ï'
    || c == 'Î' || c == 'Ô' || c == 'Ö' || c == 'Ù' || c == 'Û' || c == 'Ü' || c == 'Ÿ' || c == 'Ç'
  }

  /** The letter class of the eighth pattern. */
  predicate IsPatternLetter(c: char) {
    'a' <= c <= 'z' || 'A' <= c <= 'Z' || IsListedAccent(c)
  }

  /** `\b` at index `i`: exactly one of the characters around it is a `\w`. */
  predicate BoundaryAt(s: string, i: nat)
    requires i <= |s|
  {
    (i > 0 && IsRegexWordChar(s[i - 1])) != (i < |s| && IsRegexWordChar(s[i]))
  }

  /** The length of the longest run of pattern letters starting at `i`. */
  function LetterRun(s: string, i: nat): (n: nat)
    requires i <= |s|
    decreases |s| - i
    ensures i + n <= |s|
  {
    if i < |s| && IsPatternLetter(s[i]) then 1 + LetterRun(s, i + 1) else 0
  }

  /** The run is made of pattern letters and cannot be extended. */
  lemma {:induction false} LetterRunFacts(s: string, i: nat)
    requires i <= |s|
    decreases |s| - i
    ensures forall m :: i <= m < i + LetterRun(s, i) ==> IsPatternLetter(s[m])
    ensures i + LetterRun(s, i) < |s| ==> !IsPatternLetter(s[i + LetterRun(s, i)])
  {
    if i < |s| && IsPatternLetter(s[i]) {
      LetterRunFacts(s, i + 1);
    }
  }

  /**
   * Backtracking of the greedy `{3,}`: the longest length m, 3 <= m <= n,
   * after which a word boundary follows.
   */
  function BoundedLength(s: string, i: nat, n: nat): (r: Option<nat>)
    requires i + n <= |s|
    ensures r.Some? ==> 3 <= r.value <= n
  {
    if n < 3 then None
    else if BoundaryAt(s, i + n) then Some(n)
    else BoundedLength(s, i, n - 1)
  }

  /**
   * The backtracking keeps the longest length that a boundary follows, and
   * fails exactly when no length of 3 or more is followed by one.
   */
  lemma {:induction false} BoundedLengthFacts(s: string, i: nat, n: nat)
    requires i + n <= |s|
    ensures var r := BoundedLength(s, i, n);
      && (r.Some? ==> BoundaryAt(s, i + r.value))
      && (r.Some? ==> forall k :: i + r.value < k <= i + n ==> !BoundaryAt(s, k))
      && (r.None? ==> forall k :: i + 3 <= k <= i + n ==> !BoundaryAt(s, k))
  {
    if n >= 3 && !BoundaryAt(s, i + n) {
      BoundedLengthFacts(s, i, n - 1);
    }
  }

  /**
   * An attempt of `\b([letters]{3,})\b` at index `i`: the length of the
   * captured word when the attempt succeeds.
   */
  function WordAttempt(s: string, i: nat): (r: Option<nat>)
    requires i < |s|
    ensures r.Some? ==> 3 <= r.value <= LetterRun(s, i)
  {
    if BoundaryAt(s, i) then BoundedLength(s, i, LetterRun(s, i)) else None
  }

  /** The captures of `\b([letters]{3,})\b` from index `i` on. */
  function WordsFrom(s: string, i: nat): (r: seq<string>)
    requires i <= |s|
    decreases |s| - i
    ensures 3 * |r| <= |s| - i
  {
    if i == |s| then []
    else
      match WordAttempt(s, i)
      case Some(m) => [s[i..i + m]] + WordsFrom(s, i + m)
      case None => WordsFrom(s, i + 1)
  }

  /** Every character of `w` is a letter of the eighth pattern. */
  predicate AllPatternLetters(w: string)
    decreases |w|
  {
    w == [] || (IsPatternLetter(w[0]) && AllPatternLetters(w[1..]))
  }

  lemma PiecesCons(s: string, w: string, p: nat, rest: seq<string>)
    requires w != [] && OccursAt(s, w, p) && PiecesOf(s, rest)
    ensures PiecesOf(s, [w] + rest)
  {
    assert Contains(s, w);
  }

  /** Every word has at least three letters, all of the eighth pattern's class. */
  predicate LongWords(ws: seq<string>) {
    forall j :: 0 <= j < |ws| ==> |ws[j]| >= 3 && AllPatternLetters(ws[j])
  }

  lemma LongWordsCons(w: string, rest: seq<string>)
    requires |w| >= 3 && AllPatternLetters(w) && LongWords(rest)
    ensures LongWords([w] + rest)
  {
  }

  /** A successful attempt at `i` captures a word and resumes after it. */
  lemma WordAt(s: string, i: nat, m: nat)
    requires i < |s| && WordAttempt(s, i) == Some(m)
    ensures i + m <= |s|
    ensures WordsFrom(s, i) == [s[i..i + m]] + WordsFrom(s, i + m)
  {
  }

  /** A failed attempt at `i` resumes at the next index. */
  lemma WordSkip(s: string, i: nat)
    requires i < |s| && WordAttempt(s, i).None?
    ensures WordsFrom(s, i) == WordsFrom(s, i + 1)
  {
  }

  /** Any prefix of the letter run at `i` is made of pattern letters. */
  lemma {:induction false} RunIsLetters(s: string, i: nat, m: nat)
    requires i <= |s| && m <= LetterRun(s, i)
    decreases m
    ensures AllPatternLetters(s[i..i + m])
  {
    if m > 0 {
      assert s[i..i + m][1..] == s[i + 1..i + m];
      RunIsLetters(s, i + 1, m - 1);
    }
  }

  /** The captured word has at least three letters, all of the pattern's class. */
  lemma WordLetters(s: string, i: nat, m: nat)
    requires i < |s| && 3 <= m <= LetterRun(s, i)
    ensures |s[i..i + m]| >= 3 && AllPatternLetters(s[i..i + m]) && OccursAt(s, s[i..i + m], i)
  {
    RunIsLetters(s, i, m);
  }

  /** A captured word followed by captures that are pieces are all pieces. */
  lemma WordPiecesStep(s: string, i: nat, m: nat)
    requires i < |s| && WordAttempt(s, i) == Some(m) && i + m <= |s|
    requires PiecesOf(s, WordsFrom(s, i + m))
    ensures PiecesOf(s, WordsFrom(s, i))
  {
    WordAt(s, i, m);
    WordLetters(s, i, m);
    PiecesCons(s, s[i..i + m], i, WordsFrom(s, i + m));
  }

  /** A captured word followed by long captures are all long. */
  lemma WordLongStep(s: string, i: nat, m: nat)
    requires i < |s| && WordAttempt(s, i) == Some(m) && i + m <= |s|
    requires LongWords(WordsFrom(s, i + m))
    ensures LongWords(WordsFrom(s, i))
  {
    WordAt(s, i, m);
    WordLetters(s, i, m);
    LongWordsCons(s[i..i + m], WordsFrom(s, i + m));
  }

  /** Every capture of the eighth pattern is a non-empty piece of the message. */
  lemma {:induction false} WordCapturesArePieces(s: string, i: nat)
    requires i <= |s|
    decreases |s| - i
    ensures PiecesOf(s, WordsFrom(s, i))
  {
    if i < |s| {
      var b := WordAttempt(s, i);
      if b.Some? {
        WordAt(s, i, b.value);
        WordCapturesArePieces(s, i + b.value);
        WordPiecesStep(s, i, b.value);
      } else {
        WordSkip(s, i);
        WordCapturesArePieces(s, i + 1);
      }
    }
  }

  /** Every capture of the eighth pattern has at least three letters of its class. */
  lemma {:induction false} WordCapturesAreLong(s: string, i: nat)
    requires i <= |s|
    decreases |s| - i
    ensures LongWords(WordsFrom(s, i))
  {
    if i < |s| {
      var b := WordAttempt(s, i);
      if b.Some? {
        WordAt(s, i, b.value);
        WordCapturesAreLong(s, i + b.value);
        WordLongStep(s, i, b.value);
      } else {
        WordSkip(s, i);
        WordCapturesAreLong(s, i + 1);
      }
    }
  }

  /**
   * The candidate lists of the cascade, in the order the patterns are tried:
   * single quotes, double quotes, then the French phrasings
   * "La forme verbale '…'", "Le mot '…'", "L'expression '…'",
   * "utiliser '…'", "écrire '…'", then words of three letters or more.
   */
  function Candidates(message: string): (r: seq<seq<string>>)
    ensures |r| == 8
  {
    [ QuotedFrom(message, "", '\'', 0),
      QuotedFrom(message, "", '"', 0),
      QuotedFrom(message, "La forme verbale ", '\'', 0),
      QuotedFrom(message, "Le mot ", '\'', 0),
      QuotedFrom(message, "L'expression ", '\'', 0),
      QuotedFrom(message, "utiliser ", '\'', 0),
      QuotedFrom(message, "écrire ", '\'', 0),
      WordsFrom(message, 0) ]
  }

  /** Every candidate is a non-empty piece of the message. */
  lemma CandidatesOccur(message: string)
    ensures forall p :: 0 <= p < 8 ==> PiecesOf(message, Candidates(message)[p])
    ensures LongWords(Candidates(message)[7])
  {
    var c := Candidates(message);
    forall p | 0 <= p < 8
      ensures PiecesOf(message, c[p])
    {
      if p == 0 {
        QuotedCapturesArePieces(message, "", '\'', 0);
      } else if p == 1 {
        QuotedCapturesArePieces(message, "", '"', 0);
      } else if p == 2 {
        QuotedCapturesArePieces(message, "La forme verbale ", '\'', 0);
      } else if p == 3 {
        QuotedCapturesArePieces(message, "Le mot ", '\'', 0);
      } else if p == 4 {
        QuotedCapturesArePieces(message, "L'expression ", '\'', 0);
      } else if p == 5 {
        QuotedCapturesArePieces(message, "utiliser ", '\'', 0);
      } else if p == 6 {
        QuotedCapturesArePieces(message, "écrire ", '\'', 0);
      } else {
        WordCapturesArePieces(message, 0);
      }
    }
    WordCapturesAreLong(message, 0);
  }
}
