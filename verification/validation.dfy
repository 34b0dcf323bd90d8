/**
 * The input checks of the authentication routes (routes/api.js):
 * `/auth/register`, `/auth/change-password` and `/auth/reset-password-dev`.
 * Each either passes the request on to the database work (not modelled) or
 * rejects it with a 400/403 message; the checks run in the order the routes
 * write them, so the first failing check decides the message.
 */
module AuthValidation {
  import opened Wrappers
  import opened JsText

  /**
   * A field of the JSON request body as the route sees it: absent, a string,
   * or some other JSON value, with its truthiness and its `.length` when it
   * has one (an array has one; a number or a boolean has none).
   */
  datatype JsonField =
    | Absent
    | Str(s: string)
    | NonString(truthy: bool, length: Option<int>)

  /** JavaScript truthiness of a field: a non-empty string, or a truthy other value. */
  predicate Truthy(f: JsonField) {
    match f
    case Absent => false
    case Str(s) => s != []
    case NonString(truthy, _) => truthy
  }

  /** The outcome of a route's input checks. */
  datatype Check = Pass | Reject(status: int, error: string)

  /** A run of the class `[^\s@]`: no white space and no `@`. */
  predicate Plain(t: string) {
    forall j :: 0 <= j < |t| ==> !IsJsSpace(t[j]) && t[j] != '@'
  }

  /**
   * What `/^[^\s@]+@[^\s@]+\.[^\s@]+$/` accepts, read off the pattern: a
   * non-empty plain run, `@`, a non-empty plain run, `.`, a non-empty plain
   * run, and nothing else.
   */
  ghost predicate EmailShape(s: string) {
    exists i, k :: 0 < i && i + 1 < k < |s| - 1 && s[i] == '@' && s[k] == '.'
      && Plain(s[..i]) && Plain(s[i + 1..k]) && Plain(s[k + 1..])
  }

  /**
   * The email test as a scan: the text before the first `@` is a non-empty
   * plain run, and the domain after it is a plain run with a dot strictly
   * inside it.
   */
  function EmailValid(s: string): (ok: bool)
    ensures ok ==> 5 <= |s| && 0 < IndexOf(s, "@") < |s| - 3
    ensures ok ==> forall j :: 0 <= j < |s| ==> !IsJsSpace(s[j]) && (s[j] == '@' <==> j == IndexOf(s, "@"))
  {
    var i := IndexOf(s, "@");
    if i <= 0 then false
    else
      var d := s[i + 1..];
      |d| >= 3 && Plain(s[..i]) && Plain(d) && Contains(d[1..|d| - 1], ".")
  }

  /** An address the scan accepts has the shape of the pattern. */
  lemma EmailValidHasShape(s: string)
    requires EmailValid(s)
    ensures EmailShape(s)
  {
    var i := IndexOf(s, "@");
    assert s[i..i + 1] == "@";
    var d := s[i + 1..];
    var m := IndexOf(d[1..|d| - 1], ".");
    assert d[1..|d| - 1][m..m + 1] == ".";
    var k := i + 2 + m;
    assert s[k] == '.' by {
      assert s[k] == d[1..|d| - 1][m];
    }
    assert Plain(s[i + 1..k]) by {
      assert s[i + 1..k] == d[..m + 1];
    }
    assert Plain(s[k + 1..]) by {
      assert s[k + 1..] == d[m + 2..];
    }
  }

  /** An address of the pattern's shape is one the scan accepts. */
  lemma ShapeIsEmailValid(s: string, i: int, k: int)
    requires 0 < i && i + 1 < k < |s| - 1 && s[i] == '@' && s[k] == '.'
    requires Plain(s[..i]) && Plain(s[i + 1..k]) && Plain(s[k + 1..])
    ensures EmailValid(s)
  {
    assert OccursAt(s, "@", i);
    forall p | 0 <= p < i
      ensures !OccursAt(s, "@", p)
    {
      assert s[p] == s[..i][p];
    }
    var d := s[i + 1..];
    assert Plain(d) by {
      forall j | 0 <= j < |d|
        ensures !IsJsSpace(d[j]) && d[j] != '@'
      {
        if j < k - i - 1 {
          assert d[j] == s[i + 1..k][j];
        } else if j > k - i - 1 {
          assert d[j] == s[k + 1..][j - (k - i)];
        }
      }
    }
    assert OccursAt(d[1..|d| - 1], ".", k - i - 2);
  }

  /** The scan accepts exactly the addresses the pattern describes. */
  lemma EmailValidMatchesPattern(s: string)
    ensures EmailValid(s) <==> EmailShape(s)
  {
    if EmailValid(s) {
      EmailValidHasShape(s);
    }
    if EmailShape(s) {
      var i, k :| 0 < i && i + 1 < k < |s| - 1 && s[i] == '@' && s[k] == '.'
        && Plain(s[..i]) && Plain(s[i + 1..k]) && Plain(s[k + 1..]);
      ShapeIsEmailValid(s, i, k);
    }
  }

  const CredentialsRequired: string := "Email et mot de passe requis"
  const CredentialsNotStrings: string := "Email et mot de passe doivent être des chaînes de caractères"
  const EmailMalformed: string := "Format d'email invalide"
  const PasswordTooShort: string := "Le mot de passe doit contenir au moins 6 caractères"

  /** The minimum password length of every route. */
  const MinPasswordLength: int := 6

  /** `/auth/register`: presence, then types, then the email pattern, then the password length. */
  function RegisterCheck(email: JsonField, password: JsonField): (r: Check)
    ensures r.Pass? <==>
      email.Str? && password.Str? && EmailShape(email.s) && |password.s| >= MinPasswordLength
    ensures r.Reject? ==> r.status == 400
    ensures r == Reject(400, CredentialsRequired) <==> !Truthy(email) || !Truthy(password)
  {
    EmailValidMatchesPattern(if email.Str? then email.s else "");
    if !Truthy(email) || !Truthy(password) then Reject(400, CredentialsRequired)
    else if !email.Str? || !password.Str? then Reject(400, CredentialsNotStrings)
    else if !EmailValid(email.s) then Reject(400, EmailMalformed)
    else if |password.s| < MinPasswordLength then Reject(400, PasswordTooShort)
    else Pass
  }

  const PasswordsRequired: string := "Mot de passe actuel et nouveau mot de passe requis"
  const PasswordsNotStrings: string := "Les mots de passe doivent être des chaînes de caractères"
  const NewPasswordTooShort: string := "Le nouveau mot de passe doit contenir au moins 6 caractères"
  const NewPasswordUnchanged: string := "Le nouveau mot de passe doit être différent de l'ancien"

  /**
   * `/auth/change-password`, before the database lookup: presence, types,
   * the new password's length, then that it differs from the current one.
   */
  function ChangePasswordCheck(currentPassword: JsonField, newPassword: JsonField): (r: Check)
    ensures r.Pass? <==>
      currentPassword.Str? && newPassword.Str? && currentPassword.s != [] && |newPassword.s| >= MinPasswordLength && currentPassword.s != newPassword.s
    ensures r.Reject? ==> r.status == 400
    ensures r == Reject(400, NewPasswordUnchanged) <==>
      currentPassword.Str? && newPassword.Str? && |newPassword.s| >= MinPasswordLength && currentPassword.s == newPassword.s
  {
    if !Truthy(currentPassword) || !Truthy(newPassword) then Reject(400, PasswordsRequired)
    else if !currentPassword.Str? || !newPassword.Str? then Reject(400, PasswordsNotStrings)
    else if |newPassword.s| < MinPasswordLength then Reject(400, NewPasswordTooShort)
    else if currentPassword.s == newPassword.s then Reject(400, NewPasswordUnchanged)
    else Pass
  }

  const ProductionOnly: string := "Route non disponible en production"
  const ResetFieldsRequired: string := "Email et nouveau mot de passe requis"

  /**
   * JavaScript's `value.length < 6` for a field known to be truthy: a string
   * compares its length; a value without `.length` compares `undefined`,
   * which is never less than 6.
   */
  predicate LengthBelowMin(f: JsonField) {
    match f
    case Absent => false
    case Str(s) => |s| < MinPasswordLength
    case NonString(_, length) => length.Some? && length.value < MinPasswordLength
  }

  /**
   * `/auth/reset-password-dev` as written: refused in production, then
   * presence, then the new password's length, with no check that either
   * field is a string.
   */
  function ResetCheckAsWritten(production: bool, email: JsonField, newPassword: JsonField): (r: Check)
    ensures production ==> r == Reject(403, ProductionOnly)
    ensures r.Pass? <==> !production && Truthy(email) && Truthy(newPassword) && !LengthBelowMin(newPassword)
  {
    if production then Reject(403, ProductionOnly)
    else if !Truthy(email) || !Truthy(newPassword) then Reject(400, ResetFieldsRequired)
    else if LengthBelowMin(newPassword) then Reject(400, PasswordTooShort)
    else Pass
  }

  /**
   * The length rule can be bypassed: a numeric new password such as `1` is
   * truthy and has no `.length`, so it passes, and the route then stores
   * `String(1)`, a one-character password.
   */
  lemma ResetAcceptsShortNumber()
    ensures ResetCheckAsWritten(false, Str("a@b.c"), NonString(true, None)).Pass?
  {
  }

  const ResetNotStrings: string := "Email et nouveau mot de passe doivent être des chaînes de caractères"

  /**
   * `/auth/reset-password-dev` with the type check `/auth/register` performs
   * before the length check: every accepted new password is a string of at
   * least six characters.
   */
  function ResetCheck(production: bool, email: JsonField, newPassword: JsonField): (r: Check)
    ensures production ==> r == Reject(403, ProductionOnly)
    ensures r.Pass? <==>
      !production && email.Str? && email.s != [] && newPassword.Str? && |newPassword.s| >= MinPasswordLength
  {
    if production then Reject(403, ProductionOnly)
    else if !Truthy(email) || !Truthy(newPassword) then Reject(400, ResetFieldsRequired)
    else if !email.Str? || !newPassword.Str? then Reject(400, ResetNotStrings)
    else if LengthBelowMin(newPassword) then Reject(400, PasswordTooShort)
    else Pass
  }

  /** The corrected check only refuses more: whatever it accepts, the route as written accepts too. */
  lemma ResetCheckRefinesAsWritten(production: bool, email: JsonField, newPassword: JsonField)
    ensures ResetCheck(production, email, newPassword).Pass? ==> ResetCheckAsWritten(production, email, newPassword).Pass?
    ensures newPassword.Str? && email.Str? ==> ResetCheck(production, email, newPassword) == ResetCheckAsWritten(production, email, newPassword)
  {
  }
}
