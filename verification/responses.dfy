/**
 * What the server does with the model's replies (routes/api.js): the
 * cleaning applied before `JSON.parse`, the fallback records when parsing or
 * the call fails, the merge of the verifier's extra errors in `/correct`, and
 * the language code of `/detect-language`.
 *
 * The model calls themselves are not part of this model: a reply is an input
 * (`None` when the call threw), and `JSON.parse` is a function parameter
 * returning `None` when it throws.
 */
module ModelResponses {
  import opened Wrappers
  import opened JsText
  import opened ErrorPositions

  /** A character of the class `[\x00-\x1F\x7F-\x9F]`. */
  predicate IsControl(c: char) {
    c as int <= 0x1F || (0x7F <= c as int <= 0x9F)
  }

  predicate NoControl(s: string) {
    forall i :: 0 <= i < |s| ==> !IsControl(s[i])
  }

  /** `replace(/[\x00-\x1F\x7F-\x9F]/g, '')`. */
  function StripControl(s: string): (r: string)
    ensures |r| <= |s|
    ensures NoControl(r)
    ensures NoControl(s) ==> r == s
  {
    if s == [] then []
    else (if IsControl(s[0]) then [] else [s[0]]) + StripControl(s[1..])
  }

  /** Removing the control characters keeps every other character, in order. */
  lemma {:induction false} StripControlKeepsText(s: string)
    ensures forall c :: !IsControl(c) ==> multiset(StripControl(s))[c] == multiset(s)[c]
  {
    if s != [] {
      StripControlKeepsText(s[1..]);
      assert s == [s[0]] + s[1..];
    }
  }

  /** A control character anywhere in a reply makes no difference to its cleaning. */
  lemma {:induction false} StripControlIgnoresControl(a: string, c: char, b: string)
    requires IsControl(c)
    ensures StripControl(a + [c] + b) == StripControl(a + b)
  {
    if a == [] {
      assert a + [c] + b == [c] + b && a + b == b;
      assert ([c] + b)[0] == c && ([c] + b)[1..] == b;
    } else {
      assert (a + [c] + b)[1..] == a[1..] + [c] + b;
      assert (a + b)[1..] == a[1..] + b;
      StripControlIgnoresControl(a[1..], c, b);
    }
  }

  /** The cleaning before `JSON.parse`: strip the control characters, then trim. */
  function CleanResponse(raw: string): (r: string)
    ensures |r| <= |raw|
    ensures NoControl(r)
    ensures r != [] ==> !IsJsSpace(r[0]) && !IsJsSpace(r[|r| - 1])
  {
    TrimKeepsNoControl(StripControl(raw));
    TrimFacts(StripControl(raw));
    Trim(StripControl(raw))
  }

  /** Trimming keeps a string free of control characters. */
  lemma TrimKeepsNoControl(s: string)
    requires NoControl(s)
    ensures NoControl(Trim(s))
  {
    var t := TrimStart(s);
    TrimStartFacts(s);
    TrimEndFacts(t);
    assert forall i :: 0 <= i < |t| ==> t[i] == s[|s| - |t| + i];
  }

  /** Cleaning an already cleaned reply changes nothing. */
  lemma CleanResponseIdempotent(raw: string)
    ensures CleanResponse(CleanResponse(raw)) == CleanResponse(raw)
  {
    var r := CleanResponse(raw);
    assert StripControl(r) == r;
    TrimIdempotent(StripControl(raw));
  }

  /** What `correctTextWithGPT4` returns: the corrected text and the reported errors (absent if the reply had none). */
  datatype CorrectionPayload = CorrectionPayload(correctedText: string, errors: Option<seq<CorrectionError>>)

  /**
   * The reply of the correction call, parsed after cleaning; when the parse
   * fails, the raw (uncleaned) reply as the corrected text and no errors.
   */
  function CorrectionFromReply(raw: string, parse: string -> Option<CorrectionPayload>): (r: CorrectionPayload)
    ensures parse(CleanResponse(raw)).Some? ==> r == parse(CleanResponse(raw)).value
    ensures parse(CleanResponse(raw)).None? ==> r.correctedText == raw && r.errors == Some([])
  {
    var parsed := parse(CleanResponse(raw));
    if parsed.Some? then parsed.value else CorrectionPayload(raw, Some([]))
  }

  /**
   * The parser only ever sees the cleaned reply: a control character inserted
   * anywhere into a reply that parses does not change the result.
   */
  lemma CorrectionIgnoresControl(a: string, c: char, b: string, parse: string -> Option<CorrectionPayload>)
    requires IsControl(c)
    requires parse(CleanResponse(a + b)).Some?
    ensures CorrectionFromReply(a + [c] + b, parse) == CorrectionFromReply(a + b, parse)
  {
    StripControlIgnoresControl(a, c, b);
  }

  /** What `verifyCorrectionWithGPT35` returns. `isValid` is the truthiness of the parsed field. */
  datatype Verdict = Verdict(isValid: bool, feedback: string, additionalErrors: Option<seq<CorrectionError>>)

  const UnavailableFeedback: string := "Vérification non disponible"

  /**
   * The verdict for a verification reply (`None` when the call threw): the
   * parsed verdict, or a valid verdict with no additional errors whose
   * feedback is the raw reply (parse failure) or a fixed notice (call failure).
   */
  function VerdictFromReply(reply: Option<string>, parse: string -> Option<Verdict>): (r: Verdict)
    ensures reply.None? ==> r == Verdict(true, UnavailableFeedback, Some([]))
    ensures reply.Some? && parse(CleanResponse(reply.value)).None? ==> r == Verdict(true, reply.value, Some([]))
    ensures reply.Some? && parse(CleanResponse(reply.value)).Some? ==> r == parse(CleanResponse(reply.value)).value
    // a failed call or parse never invalidates a correction nor adds errors to it
    ensures !r.isValid || (r.additionalErrors.Some? && r.additionalErrors.value != [])
      ==> reply.Some? && parse(CleanResponse(reply.value)).Some?
  {
    if reply.None? then Verdict(true, UnavailableFeedback, Some([]))
    else
      var parsed := parse(CleanResponse(reply.value));
      if parsed.Some? then parsed.value else Verdict(true, reply.value, Some([]))
  }

  /**
   * The error list `/correct` answers with: the positioned primary errors,
   * then the positioned additional errors when the verdict is invalid and
   * carries them.
   */
  function MergedErrors(text: string, primary: seq<CorrectionError>, verdict: Verdict): (r: seq<CorrectionError>)
    ensures |r| >= |primary| && r[..|primary|] == Positioned(text, primary)
    ensures verdict.isValid || verdict.additionalErrors.None? ==> r == Positioned(text, primary)
    ensures !verdict.isValid && verdict.additionalErrors.Some? ==>
      r[|primary|..] == Positioned(text, verdict.additionalErrors.value)
  {
    if !verdict.isValid && verdict.additionalErrors.Some?
    then Positioned(text, primary) + Positioned(text, verdict.additionalErrors.value)
    else Positioned(text, primary)
  }

  /**
   * The merge step of `/correct`: position the primary errors, and append the
   * positioned additional errors only when the verifier found the correction
   * invalid.
   */
  method CombineErrors(text: string, primary: seq<CorrectionError>, verdict: Verdict) returns (errors: seq<CorrectionError>)
    ensures |errors| >= |primary|
    ensures errors[..|primary|] == Positioned(text, primary)
    ensures verdict.isValid || verdict.additionalErrors.None? ==> errors == Positioned(text, primary)
    ensures !verdict.isValid && verdict.additionalErrors.Some? ==>
      errors[|primary|..] == Positioned(text, verdict.additionalErrors.value)
    ensures errors == MergedErrors(text, primary, verdict)
  {
    errors := AddErrorPositions(text, primary);
    if !verdict.isValid && verdict.additionalErrors.Some? {
      var extra := AddErrorPositions(text, verdict.additionalErrors.value);
      errors := errors + extra;
    }
  }

  /** The body of a successful `/correct` answer. */
  datatype CorrectResponse = CorrectResponse(correctedText: string, errors: seq<CorrectionError>, verification: Verdict)

  const CorrectFailure: string := "Erreur lors de la correction"

  /**
   * `/correct` without its database writes: the correction call, then the
   * verification call whatever the correction reported, then the merge. The
   * request fails when the correction call throws or its parsed reply has no
   * error list (the positioning then throws).
   */
  method HandleCorrect(
    text: string,
    correctionReply: Option<string>, parseCorrection: string -> Option<CorrectionPayload>,
    verificationReply: Option<string>, parseVerdict: string -> Option<Verdict>)
    returns (r: Result<CorrectResponse, string>)
    ensures r.Failure? <==>
      correctionReply.None? || CorrectionFromReply(correctionReply.value, parseCorrection).errors.None?
    ensures r.Failure? ==> r.error == CorrectFailure
    ensures r.Success? ==>
      var payload := CorrectionFromReply(correctionReply.value, parseCorrection);
      var verdict := VerdictFromReply(verificationReply, parseVerdict);
      && r.value.correctedText == payload.correctedText
      && r.value.verification == verdict
      && r.value.errors == MergedErrors(text, payload.errors.value, verdict)
  {
    if correctionReply.None? {
      return Failure(CorrectFailure);
    }
    var payload := CorrectionFromReply(correctionReply.value, parseCorrection);
    var verdict := VerdictFromReply(verificationReply, parseVerdict);
    if payload.errors.None? {
      return Failure(CorrectFailure);
    }
    var errors := CombineErrors(text, payload.errors.value, verdict);
    r := Success(CorrectResponse(payload.correctedText, errors, verdict));
  }

  /**
   * The language code of `/detect-language`: the trimmed, lower-cased reply
   * when it is `fr` or `en`, and `fr` for anything else.
   */
  function NormaliseLanguage(reply: string): (r: string)
    ensures r == "fr" || r == "en"
    ensures r == "en" <==> Lower(Trim(reply)) == "en"
  {
    var code := Lower(Trim(reply));
    if code == "fr" || code == "en" then code else "fr"
  }

  /**
   * Case and surrounding white space in the reply do not matter: any spelling
   * of `en` (such as `EN` or `En`) with white space around it is `en`.
   */
  lemma NormaliseIgnoresCaseAndSpace(a: string, code: string, b: string)
    requires AllSpace(a) && AllSpace(b)
    requires Lower(code) == "en" || Lower(code) == "fr"
    ensures NormaliseLanguage(a + code + b) == Lower(code)
  {
    assert LowerChar(code[0]) == Lower(code)[0];
    assert LowerChar(code[1]) == Lower(code)[1];
    TrimSurrounded(a, code, b);
  }

  /** The outcomes of `/detect-language`. */
  datatype Detection =
    | MissingText                  // 400: no text, or only white space
    | Detected(language: string)   // the normalised code
    | DetectionFailed              // 500: the call threw; the body still says `fr`

  /** `/detect-language` for a request text (`None` when absent) and the model's reply (`None` when the call threw). */
  function DetectLanguage(text: Option<string>, reply: Option<string>): (r: Detection)
    ensures r.MissingText? <==> text.None? || Trim(text.value) == []
    ensures r.DetectionFailed? <==> text.Some? && Trim(text.value) != [] && reply.None?
    ensures r.Detected? ==> reply.Some? && r.language == NormaliseLanguage(reply.value)
    ensures r.Detected? ==> r.language == "fr" || r.language == "en"
  {
    if text.None? || Trim(text.value) == [] then MissingText
    else if reply.None? then DetectionFailed
    else Detected(NormaliseLanguage(reply.value))
  }
}
