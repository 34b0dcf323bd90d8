/**
 * The rule engine behind `/api/dashboard` (server.js): the improvement rate,
 * the cleaning of history rows, and the recommendations and analysis built
 * from the most frequent error types and the user's averages.
 *
 * The database queries are not part of this model: their results
 * (`commonErrors`, already ordered by decreasing count, the totals and the
 * averages) are inputs.
 */
module Dashboard {
  import opened Wrappers
  import JsText

  /** One row of the most-frequent-errors query. */
  datatype CommonError = CommonError(errorType: string, count: int)

  /** A recommendation, strength, weakness or tip: a title and a description. */
  datatype Entry = Entry(title: string, description: string)

  datatype Analysis = Analysis(strengths: seq<Entry>, weaknesses: seq<Entry>, tips: seq<Entry>)

  /** Some entry of the list carries the title. */
  predicate HasTitle(entries: seq<Entry>, title: string) {
    exists i :: 0 <= i < |entries| && entries[i].title == title
  }

  lemma HasTitleAppend(a: seq<Entry>, b: seq<Entry>, title: string)
    ensures HasTitle(a + b, title) <==> HasTitle(a, title) || HasTitle(b, title)
  {
    if HasTitle(a + b, title) {
      var i :| 0 <= i < |a + b| && (a + b)[i].title == title;
      if i >= |a| {
        assert b[i - |a|] == (a + b)[i];
      }
    }
    if HasTitle(b, title) {
      var i :| 0 <= i < |b| && b[i].title == title;
      assert (a + b)[|a| + i] == b[i];
    }
    if HasTitle(a, title) {
      var i :| 0 <= i < |a| && a[i].title == title;
      assert (a + b)[i] == a[i];
    }
  }

  lemma HasTitleSingle(e: Entry, title: string)
    ensures HasTitle([e], title) <==> e.title == title
  {
    if e.title == title {
      assert [e][0].title == title;
    }
  }

  // ---------------------------------------------------------------------
  // Decimal rendering, for the numbers the descriptions interpolate.

  function DigitChar(d: nat): char
    requires d < 10
  {
    ('0' as int + d) as char
  }

  predicate IsDigits(s: string) {
    forall i :: 0 <= i < |s| ==> '0' <= s[i] <= '9'
  }

  /** `${n}` for a non-negative integer: its decimal digits, without leading zeros. */
  function NatToString(n: nat): (s: string)
    ensures |s| >= 1 && IsDigits(s)
    ensures n > 0 ==> s[0] != '0'
    decreases n
  {
    if n < 10 then [DigitChar(n)] else NatToString(n / 10) + [DigitChar(n % 10)]
  }

  /** The number a string of decimal digits denotes. */
  function DecimalValue(s: string): nat
    requires IsDigits(s)
  {
    if s == [] then 0 else DecimalValue(s[..|s| - 1]) * 10 + (s[|s| - 1] as int - '0' as int)
  }

  /** Reading the rendered digits back gives the number. */
  lemma {:induction false} DecimalRoundTrip(n: nat)
    ensures DecimalValue(NatToString(n)) == n
    decreases n
  {
    if n >= 10 {
      var s := NatToString(n);
      DecimalRoundTrip(n / 10);
      assert s[..|s| - 1] == NatToString(n / 10);
    }
  }

  // ---------------------------------------------------------------------
  // Improvement rate.

  /**
   * The improvement rate as reported: the relative drop of the recent
   * average against the previous one, in percent, when the previous average
   * is positive; then `Math.max(0, rate)`.
   */
  method ImprovementRate(previousAvg: real, recentAvg: real) returns (rate: real)
    ensures rate >= 0.0
    ensures previousAvg <= 0.0 ==> rate == 0.0
    ensures previousAvg > 0.0 && recentAvg <= previousAvg ==> rate == (previousAvg - recentAvg) / previousAvg * 100.0
    ensures previousAvg > 0.0 && recentAvg > previousAvg ==> rate == 0.0
  {
    rate := 0.0;
    if previousAvg > 0.0 {
      rate := (previousAvg - recentAvg) / previousAvg * 100.0;
    }
    if rate < 0.0 {
      rate := 0.0;
    }
  }

  // ---------------------------------------------------------------------
  // History rows.

  /**
   * `row.error_types ? row.error_types.filter(type => type !== null) : []`:
   * the aggregated types of a row with the nulls dropped, in order.
   */
  function ErrorTypesOf(raw: Option<seq<Option<string>>>): (r: seq<string>)
    ensures raw.None? ==> r == []
    ensures raw.Some? ==> |r| <= |raw.value|
    ensures forall t :: t in r <==> raw.Some? && Some(t) in raw.value
    decreases if raw.Some? then |raw.value| else 0
  {
    if raw.None? || raw.value == [] then []
    else
      var rest := ErrorTypesOf(Some(raw.value[1..]));
      assert raw.value == [raw.value[0]] + raw.value[1..];
      if raw.value[0].Some? then [raw.value[0].value] + rest else rest
  }

  // ---------------------------------------------------------------------
  // Recommendations.

  const ExcellentWork: Entry := Entry(
    "Excellent travail !",
    "Continuez à utiliser l'application pour maintenir votre niveau d'écriture.")

  /** The recommendation for each error type the table knows. */
  const RecommendationTable: map<string, Entry> := map[
    "Orthographe" := Entry(
      "Améliorer l'orthographe",
      "Concentrez-vous sur la mémorisation des mots difficiles. Utilisez des moyens mnémotechniques et relisez vos textes."),
    "Grammaire" := Entry(
      "Réviser la grammaire",
      "Révisez les règles de grammaire de base : accords, conjugaisons, et structure des phrases."),
    "Conjugaison" := Entry(
      "Maîtriser les conjugaisons",
      "Pratiquez régulièrement les temps verbaux les plus utilisés et leurs exceptions."),
    "Ponctuation" := Entry(
      "Améliorer la ponctuation",
      "Apprenez les règles de ponctuation pour structurer vos phrases et améliorer la lisibilité."),
    "Syntaxe" := Entry(
      "Travailler la syntaxe",
      "Variez la structure de vos phrases et veillez à leur cohérence logique.")]

  /** The table's recommendation for each error whose type it knows, in order. */
  function Recommended(errors: seq<CommonError>): (r: seq<Entry>)
    ensures |r| <= |errors|
  {
    if errors == [] then []
    else
      var rest := Recommended(errors[1..]);
      if errors[0].errorType in RecommendationTable then [RecommendationTable[errors[0].errorType]] + rest else rest
  }

  /**
   * Every recommendation is the table's entry for one of the errors, and
   * every error whose type the table knows has its recommendation.
   */
  lemma {:induction false} RecommendedMatchesTable(errors: seq<CommonError>)
    ensures forall r :: r in Recommended(errors) ==>
      exists e :: e in errors && e.errorType in RecommendationTable && RecommendationTable[e.errorType] == r
    ensures forall e :: e in errors && e.errorType in RecommendationTable ==>
      RecommendationTable[e.errorType] in Recommended(errors)
  {
    if errors != [] {
      RecommendedMatchesTable(errors[1..]);
      assert errors == [errors[0]] + errors[1..];
    }
  }

  lemma RecommendedAppend(errors: seq<CommonError>, e: CommonError)
    ensures Recommended(errors + [e]) ==
      Recommended(errors) + (if e.errorType in RecommendationTable then [RecommendationTable[e.errorType]] else [])
  {
    if errors != [] {
      assert (errors + [e])[1..] == errors[1..] + [e];
      RecommendedAppend(errors[1..], e);
    } else {
      assert [] + [e] == [e];
    }
  }

  /**
   * `generateRecommendations`: a single encouragement when the user has no
   * errors; otherwise the table's recommendations for the three most frequent
   * error types, in order, skipping types the table does not know.
   */
  method GenerateRecommendations(commonErrors: seq<CommonError>) returns (recommendations: seq<Entry>)
    ensures commonErrors == [] ==> recommendations == [ExcellentWork]
    ensures commonErrors != [] ==> recommendations == Recommended(commonErrors[..Min(|commonErrors|, 3)])
    ensures commonErrors != [] ==> |recommendations| <= 3
  {
    if |commonErrors| == 0 {
      return [ExcellentWork];
    }
    recommendations := [];
    var top := commonErrors[..Min(|commonErrors|, 3)];
    var i := 0;
    while i < |top|
      invariant 0 <= i <= |top|
      invariant recommendations == Recommended(top[..i])
    {
      var error := top[i];
      RecommendedAppend(top[..i], error);
      assert top[..i + 1] == top[..i] + [error];
      if error.errorType in RecommendationTable {
        recommendations := recommendations + [RecommendationTable[error.errorType]];
      }
      i := i + 1;
    }
    assert top[..|top|] == top;
  }

  // ---------------------------------------------------------------------
  // Analysis.

  const RegularUserTitle: string := "Utilisateur régulier"
  const ExcellentMasteryTitle: string := "Excellente maîtrise"
  const GoodMasteryTitle: string := "Bonne maîtrise"
  const ManyErrorsTitle: string := "Nombreuses erreurs"
  const DifficultyPrefix: string := "Difficultés en "
  const ProofreadTitle: string := "Relecture systématique"
  const FocusTitle: string := "Focus sur vos erreurs récurrentes"
  const PracticeTitle: string := "Pratique régulière"

  // The descriptions, each a constant of its own.
  const RegularUserHead: string := "Vous avez corrigé "
  const RegularUserTail: string := " textes, montrant votre engagement dans l'amélioration de votre écriture."
  const ExcellentMasteryText: string :=
    "Votre moyenne d'erreurs est très faible, vous maîtrisez bien les bases de l'écriture française."
  const GoodMasteryText: string := "Vous avez une bonne base en français avec une moyenne d'erreurs acceptable."
  const ManyErrorsText: string := "Votre moyenne d'erreurs est élevée. Concentrez-vous sur les règles de base."
  const DifficultyHead: string := "Vous faites souvent des erreurs de "
  const DifficultyTail: string := " occurrences). Cela mérite une attention particulière."
  const ProofreadText: string := "Prenez l'habitude de relire vos textes plusieurs fois avant de les finaliser."
  const FocusHead: string := "Concentrez-vous particulièrement sur les erreurs de "
  const FocusTail: string := " qui reviennent souvent dans vos textes."
  const PracticeText: string :=
    "Utilisez l'application régulièrement pour maintenir et améliorer votre niveau d'écriture."

  function RegularUser(totalCorrections: nat): Entry {
    Entry(RegularUserTitle,
      RegularUserHead + NatToString(totalCorrections) + RegularUserTail)
  }

  const ExcellentMastery: Entry := Entry(ExcellentMasteryTitle, ExcellentMasteryText)
  const GoodMastery: Entry := Entry(GoodMasteryTitle, GoodMasteryText)
  const ManyErrors: Entry := Entry(ManyErrorsTitle, ManyErrorsText)

  /** The weakness for a frequent error type (its count is above three). */
  function Difficulty(e: CommonError): Entry
    requires e.count > 3
  {
    Entry(DifficultyPrefix + JsText.Lower(e.errorType),
      DifficultyHead + JsText.Lower(e.errorType) + " (" + NatToString(e.count) + DifficultyTail)
  }

  /** The weaknesses for the errors counted more than three times, in order. */
  function Difficulties(errors: seq<CommonError>): (r: seq<Entry>)
    ensures |r| <= |errors|
  {
    if errors == [] then []
    else
      var rest := Difficulties(errors[1..]);
      if errors[0].count > 3 then [Difficulty(errors[0])] + rest else rest
  }

  lemma DifficultiesAppend(errors: seq<CommonError>, e: CommonError)
    ensures Difficulties(errors + [e]) == Difficulties(errors) + (if e.count > 3 then [Difficulty(e)] else [])
  {
    if errors != [] {
      assert (errors + [e])[1..] == errors[1..] + [e];
      DifficultiesAppend(errors[1..], e);
    } else {
      assert [] + [e] == [e];
    }
  }

  /** Every difficulty names a frequent error, and none is the many-errors weakness. */
  lemma {:induction false} DifficultiesAreFrequent(errors: seq<CommonError>)
    ensures forall w :: w in Difficulties(errors) ==>
      exists e :: e in errors && e.count > 3 && w == Difficulty(e)
    ensures !HasTitle(Difficulties(errors), ManyErrorsTitle)
  {
    if errors != [] {
      DifficultiesAreFrequent(errors[1..]);
      assert errors == [errors[0]] + errors[1..];
      if errors[0].count > 3 {
        var d := Difficulty(errors[0]);
        assert d.title[0] == DifficultyPrefix[0];
        assert ManyErrorsTitle[0] != DifficultyPrefix[0];
        HasTitleSingle(d, ManyErrorsTitle);
        HasTitleAppend([d], Difficulties(errors[1..]), ManyErrorsTitle);
      }
    }
  }

  const Proofread: Entry := Entry(ProofreadTitle, ProofreadText)

  function Focus(e: CommonError): Entry {
    Entry(FocusTitle,
      FocusHead + JsText.Lower(e.errorType) + FocusTail)
  }

  const Practice: Entry := Entry(PracticeTitle, PracticeText)

  /** The fixed titles differ (already in their first letters). */
  lemma TitlesDiffer()
    ensures RegularUserTitle != ExcellentMasteryTitle && RegularUserTitle != GoodMasteryTitle
    ensures ExcellentMasteryTitle != GoodMasteryTitle
    ensures ProofreadTitle != FocusTitle && ProofreadTitle != PracticeTitle && FocusTitle != PracticeTitle
  {
    assert RegularUserTitle[0] == 'U' && ExcellentMasteryTitle[0] == 'E' && GoodMasteryTitle[0] == 'B';
    assert ProofreadTitle[0] == 'R' && FocusTitle[0] == 'F' && PracticeTitle[0] == 'P';
  }

  /** The strengths of `generateAnalysis`: regular use, then the mastery level. */
  function Strengths(totalCorrections: nat, averageErrors: real): (r: seq<Entry>)
    ensures |r| <= 2
  {
    (if totalCorrections > 10 then [RegularUser(totalCorrections)] else [])
    + (if averageErrors < 2.0 then [ExcellentMastery] else if averageErrors < 5.0 then [GoodMastery] else [])
  }

  /**
   * A user is a regular one exactly after more than ten corrections; the
   * mastery is excellent exactly below an average of 2 errors, good exactly
   * from 2 to below 5, and never both.
   */
  lemma StrengthsTitles(totalCorrections: nat, averageErrors: real)
    ensures var r := Strengths(totalCorrections, averageErrors);
      && (HasTitle(r, RegularUserTitle) <==> totalCorrections > 10)
      && (HasTitle(r, ExcellentMasteryTitle) <==> averageErrors < 2.0)
      && (HasTitle(r, GoodMasteryTitle) <==> 2.0 <= averageErrors < 5.0)
      && !(HasTitle(r, ExcellentMasteryTitle) && HasTitle(r, GoodMasteryTitle))
  {
    TitlesDiffer();
    var regular: seq<Entry> := if totalCorrections > 10 then [RegularUser(totalCorrections)] else [];
    var mastery: seq<Entry> :=
      if averageErrors < 2.0 then [ExcellentMastery] else if averageErrors < 5.0 then [GoodMastery] else [];
    var r := Strengths(totalCorrections, averageErrors);
    assert r == regular + mastery;
    forall t | t in {RegularUserTitle, ExcellentMasteryTitle, GoodMasteryTitle}
      ensures HasTitle(r, t) <==> HasTitle(regular, t) || HasTitle(mastery, t)
    {
      HasTitleAppend(regular, mastery, t);
    }
    if regular != [] {
      HasTitleSingle(regular[0], RegularUserTitle);
      HasTitleSingle(regular[0], ExcellentMasteryTitle);
      HasTitleSingle(regular[0], GoodMasteryTitle);
    }
    if mastery != [] {
      HasTitleSingle(mastery[0], RegularUserTitle);
      HasTitleSingle(mastery[0], ExcellentMasteryTitle);
      HasTitleSingle(mastery[0], GoodMasteryTitle);
    }
  }

  /** The strengths part of `generateAnalysis`, step by step. */
  method AnalyseStrengths(totalCorrections: nat, averageErrors: real) returns (strengths: seq<Entry>)
    ensures strengths == Strengths(totalCorrections, averageErrors)
  {
    strengths := [];
    if totalCorrections > 10 {
      strengths := strengths + [RegularUser(totalCorrections)];
    }
    if averageErrors < 2.0 {
      strengths := strengths + [ExcellentMastery];
    } else if averageErrors < 5.0 {
      strengths := strengths + [GoodMastery];
    }
  }

  /**
   * The weaknesses of `generateAnalysis`: many errors on average, then one
   * difficulty for each of the two most frequent error types counted more
   * than three times.
   */
  function Weaknesses(commonErrors: seq<CommonError>, averageErrors: real): (r: seq<Entry>)
    ensures |r| <= 3
  {
    (if averageErrors > 8.0 then [ManyErrors] else []) + Difficulties(commonErrors[..Min(|commonErrors|, 2)])
  }

  /**
   * The many-errors weakness is listed exactly above an average of 8, and
   * every other weakness is the difficulty of one of the two most frequent
   * error types, counted more than three times.
   */
  lemma WeaknessesTitles(commonErrors: seq<CommonError>, averageErrors: real)
    ensures HasTitle(Weaknesses(commonErrors, averageErrors), ManyErrorsTitle) <==> averageErrors > 8.0
    ensures forall w :: w in Weaknesses(commonErrors, averageErrors) && w != ManyErrors ==>
      exists e :: e in commonErrors[..Min(|commonErrors|, 2)] && e.count > 3 && w == Difficulty(e)
  {
    var many: seq<Entry> := if averageErrors > 8.0 then [ManyErrors] else [];
    var top := commonErrors[..Min(|commonErrors|, 2)];
    DifficultiesAreFrequent(top);
    HasTitleAppend(many, Difficulties(top), ManyErrorsTitle);
    if averageErrors > 8.0 {
      HasTitleSingle(ManyErrors, ManyErrorsTitle);
    }
  }

  /** One more error of the loop adds its difficulty when it is counted more than three times. */
  lemma WeaknessesStep(many: seq<Entry>, top: seq<CommonError>, i: nat)
    requires i < |top|
    ensures many + Difficulties(top[..i + 1]) ==
      if top[i].count > 3 then many + Difficulties(top[..i]) + [Difficulty(top[i])]
      else many + Difficulties(top[..i])
  {
    DifficultiesAppend(top[..i], top[i]);
    assert top[..i + 1] == top[..i] + [top[i]];
  }

  /** The weaknesses part of `generateAnalysis`, with its loop over the two most frequent errors. */
  method AnalyseWeaknesses(commonErrors: seq<CommonError>, averageErrors: real) returns (weaknesses: seq<Entry>)
    ensures weaknesses == Weaknesses(commonErrors, averageErrors)
  {
    weaknesses := [];
    if averageErrors > 8.0 {
      weaknesses := [ManyErrors];
    }
    var many := weaknesses;
    var top := commonErrors[..Min(|commonErrors|, 2)];
    var i := 0;
    while i < |top|
      invariant 0 <= i <= |top|
      invariant weaknesses == many + Difficulties(top[..i])
    {
      var error := top[i];
      WeaknessesStep(many, top, i);
      if error.count > 3 {
        weaknesses := weaknesses + [Difficulty(error)];
      }
      i := i + 1;
    }
    assert top[..|top|] == top;
  }

  /** The tips of `generateAnalysis`: proofreading, the main error type, and always practice, last. */
  function Tips(commonErrors: seq<CommonError>, averageErrors: real): (r: seq<Entry>)
    ensures 1 <= |r| <= 3 && r[|r| - 1] == Practice
  {
    (if averageErrors > 5.0 then [Proofread] else [])
    + (if |commonErrors| > 0 then [Focus(commonErrors[0])] else [])
    + [Practice]
  }

  /**
   * Proofreading is advised exactly above an average of 5 errors, and the
   * focus tip exactly when there is a frequent error, naming the most
   * frequent one.
   */
  lemma TipsTitles(commonErrors: seq<CommonError>, averageErrors: real)
    ensures HasTitle(Tips(commonErrors, averageErrors), ProofreadTitle) <==> averageErrors > 5.0
    ensures HasTitle(Tips(commonErrors, averageErrors), FocusTitle) <==> commonErrors != []
    ensures commonErrors != [] ==> Focus(commonErrors[0]) in Tips(commonErrors, averageErrors)
  {
    TitlesDiffer();
    var proofread: seq<Entry> := if averageErrors > 5.0 then [Proofread] else [];
    var focus: seq<Entry> := if |commonErrors| > 0 then [Focus(commonErrors[0])] else [];
    var tips := Tips(commonErrors, averageErrors);
    assert tips == proofread + focus + [Practice];
    forall t | t in {ProofreadTitle, FocusTitle}
      ensures HasTitle(tips, t) <==> HasTitle(proofread, t) || HasTitle(focus, t)
    {
      HasTitleAppend(proofread, focus, t);
      HasTitleAppend(proofread + focus, [Practice], t);
      HasTitleSingle(Practice, t);
    }
    if proofread != [] {
      HasTitleSingle(Proofread, ProofreadTitle);
      HasTitleSingle(Proofread, FocusTitle);
    }
    if focus != [] {
      HasTitleSingle(focus[0], ProofreadTitle);
      HasTitleSingle(focus[0], FocusTitle);
      assert tips[|proofread|] == focus[0];
    }
  }

  /** The tips part of `generateAnalysis`, step by step. */
  method PersonalisedTips(commonErrors: seq<CommonError>, averageErrors: real) returns (tips: seq<Entry>)
    ensures tips == Tips(commonErrors, averageErrors)
  {
    tips := [];
    if averageErrors > 5.0 {
      tips := tips + [Proofread];
    }
    if |commonErrors| > 0 {
      tips := tips + [Focus(commonErrors[0])];
    }
    tips := tips + [Practice];
  }

  /**
   * The titles of an analysis built from `Strengths`, `Weaknesses` and
   * `Tips`: each entry of the source appears exactly under its condition.
   */
  lemma AnalysisTitles(analysis: Analysis, commonErrors: seq<CommonError>, totalCorrections: nat, averageErrors: real)
    requires analysis == Analysis(
      Strengths(totalCorrections, averageErrors),
      Weaknesses(commonErrors, averageErrors),
      Tips(commonErrors, averageErrors))
    ensures HasTitle(analysis.strengths, RegularUserTitle) <==> totalCorrections > 10
    ensures HasTitle(analysis.strengths, ExcellentMasteryTitle) <==> averageErrors < 2.0
    ensures HasTitle(analysis.strengths, GoodMasteryTitle) <==> 2.0 <= averageErrors < 5.0
    ensures HasTitle(analysis.weaknesses, ManyErrorsTitle) <==> averageErrors > 8.0
    ensures HasTitle(analysis.tips, ProofreadTitle) <==> averageErrors > 5.0
    ensures HasTitle(analysis.tips, FocusTitle) <==> commonErrors != []
    ensures commonErrors != [] ==> Focus(commonErrors[0]) in analysis.tips
  {
    StrengthsTitles(totalCorrections, averageErrors);
    WeaknessesTitles(commonErrors, averageErrors);
    TipsTitles(commonErrors, averageErrors);
  }

  /**
   * `generateAnalysis`: the strengths, weaknesses and tips for the user's
   * totals and most frequent errors.
   */
  method GenerateAnalysis(commonErrors: seq<CommonError>, totalCorrections: nat, averageErrors: real)
    returns (analysis: Analysis)
    ensures analysis == Analysis(
      Strengths(totalCorrections, averageErrors),
      Weaknesses(commonErrors, averageErrors),
      Tips(commonErrors, averageErrors))
    ensures HasTitle(analysis.strengths, RegularUserTitle) <==> totalCorrections > 10
    ensures HasTitle(analysis.strengths, ExcellentMasteryTitle) <==> averageErrors < 2.0
    ensures HasTitle(analysis.strengths, GoodMasteryTitle) <==> 2.0 <= averageErrors < 5.0
    ensures |analysis.strengths| <= 2
    ensures HasTitle(analysis.weaknesses, ManyErrorsTitle) <==> averageErrors > 8.0
    ensures |analysis.weaknesses| <= 3
    ensures HasTitle(analysis.tips, ProofreadTitle) <==> averageErrors > 5.0
    ensures HasTitle(analysis.tips, FocusTitle) <==> commonErrors != []
    ensures commonErrors != [] ==> Focus(commonErrors[0]) in analysis.tips
    ensures 1 <= |analysis.tips| <= 3 && analysis.tips[|analysis.tips| - 1] == Practice
  {
    var strengths := AnalyseStrengths(totalCorrections, averageErrors);
    var weaknesses := AnalyseWeaknesses(commonErrors, averageErrors);
    var tips := PersonalisedTips(commonErrors, averageErrors);
    analysis := Analysis(strengths, weaknesses, tips);
    AnalysisTitles(analysis, commonErrors, totalCorrections, averageErrors);
  }
}
