/**
 * Pure helpers of the browser client (public/js/app.js): text truncation,
 * the error badge, the lookup tables for severities and error types, the
 * search step of the history filter, and the password forms' own checks.
 */
module ClientHelpers {
  import opened Wrappers
  import opened JsText
  import AuthValidation

  /** `truncateText`: the text itself when it fits, else its first `maxLength` characters and `...`. */
  function TruncateText(text: string, maxLength: int): (r: string)
    ensures |text| <= maxLength ==> r == text
    ensures |text| > maxLength ==>
      var keep := if maxLength < 0 then 0 else maxLength;
      && |r| == keep + 3
      && r[..keep] == text[..keep]
      && r[keep..] == "..."
  {
    if |text| <= maxLength then text
    // `substring` clamps a negative end to 0
    else text[..if maxLength < 0 then 0 else maxLength] + "..."
  }

  /** Truncating a truncated text again changes nothing. */
  lemma TruncateIdempotent(text: string, maxLength: int)
    ensures TruncateText(TruncateText(text, maxLength), maxLength) == TruncateText(text, maxLength)
  {
  }

  /** The classes `updateErrorsBadge` can give the badge. */
  datatype Badge = Hidden | Excellent | Good | NeedsImprovement

  /** The badge for an error count: hidden for none, then by thresholds 2 and 5. */
  function BadgeFor(errorCount: int): (b: Badge)
    ensures b == Hidden <==> errorCount == 0
    ensures 0 < errorCount ==>
      && (b == Excellent <==> errorCount <= 2)
      && (b == Good <==> 3 <= errorCount <= 5)
      && (b == NeedsImprovement <==> errorCount > 5)
  {
    if errorCount == 0 then Hidden
    else if errorCount <= 2 then Excellent
    else if errorCount <= 5 then Good
    else NeedsImprovement
  }

  function BadgeRank(b: Badge): int {
    match b
    case Hidden => 0
    case Excellent => 1
    case Good => 2
    case NeedsImprovement => 3
  }

  /** More errors never give a better badge. */
  lemma BadgeMonotone(a: int, b: int)
    requires 0 < a <= b
    ensures BadgeRank(BadgeFor(a)) <= BadgeRank(BadgeFor(b))
  {
  }

  const SeverityLabels: map<string, string> :=
    map["severe" := "Erreur grave", "medium" := "Erreur moyenne", "minor" := "Erreur mineure", "suggestion" := "Suggestion"]

  /** `getSeverityLabel`: the label of a known severity, `Erreur` for any other. */
  function SeverityLabel(severity: string): (r: string)
    ensures severity in SeverityLabels ==> r == SeverityLabels[severity]
    ensures severity !in SeverityLabels ==> r == "Erreur"
    ensures r != []
  {
    if severity in SeverityLabels then SeverityLabels[severity] else "Erreur"
  }

  const SeverityClasses: map<string, string> :=
    map["low" := "error-minor", "medium" := "error-medium", "high" := "error-severe", "severe" := "error-severe"]

  /** `getSeverityClass`: the class of a known severity, `error-medium` for any other. */
  function SeverityClass(severity: string): (r: string)
    ensures severity in SeverityClasses ==> r == SeverityClasses[severity]
    ensures severity !in SeverityClasses ==> r == "error-medium"
    ensures r == "error-minor" || r == "error-medium" || r == "error-severe"
  {
    if severity in SeverityClasses then SeverityClasses[severity] else "error-medium"
  }

  const ErrorIcons: map<string, string> :=
    map["Orthographe" := "fa-spell-check", "Grammaire" := "fa-language", "Conjugaison" := "fa-clock",
        "Ponctuation" := "fa-quote-right", "Vocabulaire" := "fa-book", "Syntaxe" := "fa-code",
        "Accord" := "fa-handshake", "Style" := "fa-palette"]

  /**
   * `getErrorIcon`, the later, type-keyed declaration (the one JavaScript
   * keeps): the icon of a known error type, `fa-exclamation-triangle` for any
   * other.
   */
  function ErrorIcon(errorType: string): (r: string)
    ensures errorType in ErrorIcons ==> r == ErrorIcons[errorType]
    ensures errorType !in ErrorIcons ==> r == "fa-exclamation-triangle"
    ensures r == "fa-exclamation-triangle" <==> errorType !in ErrorIcons
  {
    if errorType in ErrorIcons then ErrorIcons[errorType] else "fa-exclamation-triangle"
  }

  /** One history row as the dashboard lists it; `errorTypes` is `None` for a null column. */
  datatype HistoryItem = HistoryItem(originalText: string, errorTypes: Option<seq<string>>)

  /**
   * An item matches a (lower-cased) search when its lower-cased text, or one
   * of its lower-cased error types, contains it.
   */
  predicate Matches(item: HistoryItem, search: string) {
    Contains(Lower(item.originalText), search)
    || (item.errorTypes.Some? && exists t :: t in item.errorTypes.value && Contains(Lower(t), search))
  }

  /** `a` is `b` with some items left out, the others in their order. */
  predicate SubsequenceOf(a: seq<HistoryItem>, b: seq<HistoryItem>)
    decreases |b|
  {
    a == [] || (b != [] && ((a[0] == b[0] && SubsequenceOf(a[1..], b[1..])) || SubsequenceOf(a, b[1..])))
  }

  /** Leaving nothing out keeps a list a subsequence of itself. */
  lemma {:induction false} SubsequenceOfItself(a: seq<HistoryItem>)
    ensures SubsequenceOf(a, a)
    decreases |a|
  {
    if a != [] {
      SubsequenceOfItself(a[1..]);
    }
  }

  /** `history.filter(item => matches)`. */
  function KeepMatching(history: seq<HistoryItem>, search: string): (r: seq<HistoryItem>)
    ensures SubsequenceOf(r, history)
    ensures forall x :: multiset(r)[x] == if Matches(x, search) then multiset(history)[x] else 0
  {
    if history == [] then []
    else
      var rest := KeepMatching(history[1..], search);
      assert history == [history[0]] + history[1..];
      if Matches(history[0], search) then [history[0]] + rest else rest
  }

  /**
   * The search step of `filterHistory`: the search text is lower-cased; an
   * empty search keeps the whole history, any other keeps exactly the
   * matching items, in order.
   */
  function SearchFilter(history: seq<HistoryItem>, searchInput: string): (r: seq<HistoryItem>)
    ensures searchInput == [] ==> r == history
    ensures SubsequenceOf(r, history)
    ensures searchInput != [] ==>
      forall x :: multiset(r)[x] == if Matches(x, Lower(searchInput)) then multiset(history)[x] else 0
  {
    var search := Lower(searchInput);
    if search == [] then SubsequenceOfItself(history); history else KeepMatching(history, search)
  }

  /** What a password form does: send the request, or show a notification instead. */
  datatype FormCheck = Send | Notify(message: string)

  const NewPasswordsDiffer: string := "Les nouveaux mots de passe ne correspondent pas"
  const NewPasswordShort: string := "Le nouveau mot de passe doit contenir au moins 6 caractères"
  const NewPasswordSame: string := "Le nouveau mot de passe doit être différent de l'ancien"

  /**
   * `handleChangePassword`'s checks, in order: the confirmation, the length,
   * then that the password changes; the request is sent only when all pass.
   */
  function ChangePasswordForm(currentPassword: string, newPassword: string, confirmNewPassword: string): (r: FormCheck)
    ensures r == Send <==>
      newPassword == confirmNewPassword && |newPassword| >= 6 && currentPassword != newPassword
    ensures r == Notify(NewPasswordsDiffer) <==> newPassword != confirmNewPassword
    ensures r == Notify(NewPasswordShort) <==> newPassword == confirmNewPassword && |newPassword| < 6
    ensures r == Notify(NewPasswordSame) <==>
      newPassword == confirmNewPassword && |newPassword| >= 6 && currentPassword == newPassword
  {
    if newPassword != confirmNewPassword then Notify(NewPasswordsDiffer)
    else if |newPassword| < 6 then Notify(NewPasswordShort)
    else if currentPassword == newPassword then Notify(NewPasswordSame)
    else Send
  }

  /**
   * The client's checks imply the server's: a change the form sends with a
   * non-empty current password passes the route's input checks.
   */
  lemma ChangePasswordFormAgreesWithRoute(currentPassword: string, newPassword: string, confirmNewPassword: string)
    requires ChangePasswordForm(currentPassword, newPassword, confirmNewPassword) == Send
    requires currentPassword != []
    ensures AuthValidation.ChangePasswordCheck(AuthValidation.Str(currentPassword), AuthValidation.Str(newPassword)).Pass?
  {
  }

  const AllFieldsRequired: string := "Tous les champs sont requis"
  const PasswordsDiffer: string := "Les mots de passe ne correspondent pas"
  const PasswordShort: string := "Le mot de passe doit contenir au moins 6 caractères"

  /** `handleResetPassword`'s checks, in order: every field filled, the confirmation, the length. */
  function ResetPasswordForm(email: string, newPassword: string, confirmPassword: string): (r: FormCheck)
    ensures r == Send <==>
      email != [] && newPassword == confirmPassword && |newPassword| >= 6
    ensures r == Notify(AllFieldsRequired) <==> email == [] || newPassword == [] || confirmPassword == []
  {
    if email == [] || newPassword == [] || confirmPassword == [] then Notify(AllFieldsRequired)
    else if newPassword != confirmPassword then Notify(PasswordsDiffer)
    else if |newPassword| < 6 then Notify(PasswordShort)
    else Send
  }

  /** A reset the form sends passes the route's input checks outside production. */
  lemma ResetPasswordFormAgreesWithRoute(email: string, newPassword: string, confirmPassword: string)
    requires ResetPasswordForm(email, newPassword, confirmPassword) == Send
    ensures AuthValidation.ResetCheck(false, AuthValidation.Str(email), AuthValidation.Str(newPassword)).Pass?
  {
  }

  /** `handleRegister`'s only check: the confirmation; the length is left to the server. */
  function RegisterForm(password: string, confirmPassword: string): (r: FormCheck)
    ensures r == Send <==> password == confirmPassword
    ensures r != Send ==> r == Notify(PasswordsDiffer)
  {
    if password != confirmPassword then Notify(PasswordsDiffer) else Send
  }
}
