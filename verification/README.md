# A Dafny model of the grammar-correction application's logic

The application is a French/English grammar-correction service. An Express
server sends a user's text to a language model for correction and to a second
model for verification. It then works out where each reported error sits in
the text, and serves a dashboard built from the user's error statistics. A
browser client keeps a guest's history locally and renders the results.

This project models the parts of that code that compute something.

- **routes/api.js**
  - `addErrorPositions`: the direct search for an error's `original` word, then the cascade of eight regular expressions over the error's message. Each candidate is searched verbatim, then without accents.
  - The cleaning of model replies before `JSON.parse`, and the fallback records when parsing or the call fails.
  - The merge of the verifier's additional errors in `/correct`.
  - The language code of `/detect-language`.
  - The input checks of `/auth/register`, `/auth/change-password` and `/auth/reset-password-dev`.
- **public/js/app.js**
  - `guestStorage`, modelled as a class whose fields are the storage keys.
  - `truncateText`, `countWords`, the error badge, the three lookup tables and the search step of `filterHistory`.
  - The password forms' own checks.
- **server.js**
  - `generateRecommendations` and `generateAnalysis`.
  - The clamp on the improvement rate.
  - The null filter on the history rows' error types.

Modules:

| file | module | models |
|---|---|---|
| wrappers.dfy | `Wrappers` | `Option` and `Result` |
| text.dfy | `JsText` | `trim`, `toLowerCase`, `indexOf`, accent stripping |
| patterns.dfy | `MessagePatterns` | the eight message patterns as `matchAll` capture lists |
| positions.dfy | `ErrorPositions` | `addErrorPositions` |
| responses.dfy | `ModelResponses` | reply cleaning, fallbacks, the `/correct` merge, language detection |
| validation.dfy | `AuthValidation` | the server-side input checks of the authentication routes |
| guest_storage.dfy | `GuestHistory` | `guestStorage` |
| client_helpers.dfy | `ClientHelpers` | the client's pure helpers and form checks |
| word_count.dfy | `WordCount` | `countWords` |
| dashboard.dfy | `Dashboard` | the dashboard's rule engine |

Inputs and outside calls:

- A model call is an input: its reply text, or `None` when the call threw.
- `JSON.parse` is a function parameter that returns `None` when parsing throws.
- Database results are inputs: the most frequent errors, totals and averages.
- The clock is an input: a guest entry's `timestamp` and `id` are parameters.

The application keeps no request cache and has no input sanitiser, no
security pre-check call and no JSON repair or retry. `correctTextWithGPT4`
only strips control characters, trims and falls back to the raw reply
(routes/api.js:316-331). `/correct` calls the verifier on every request,
however little the text changed (routes/api.js:524).

## Model

| member | source | states |
|---|---|---|
| JsText.TrimFacts | routes/api.js:406-408 | `trim` leaves no white space at either end, and gives the empty string exactly when the input is all white space (`error.original.trim()` is falsy) |
| JsText.TrimIdempotent | routes/api.js:318-320 | trimming twice is trimming once |
| JsText.TrimSurrounded | routes/api.js:499 | white space around a word is exactly what `trim` removes |
| JsText.IndexOf | routes/api.js:409 | `indexOf` is -1 exactly when the needle occurs nowhere; otherwise the needle occurs there and at no earlier index |
| JsText.StripAccents | routes/api.js:444-445 | after NFD decomposition and removal of U+0300–U+036F, no combining mark remains and the text is no longer |
| MessagePatterns.QuotedFrom | routes/api.js:424-430 | each capture of a quoted pattern uses at least three characters of the message (two quotes and one captured character), so there are at most a third as many captures as characters |
| MessagePatterns.QuotedCapturesArePieces | routes/api.js:424-430 | every capture of a quoted pattern is non-empty and occurs in the message |
| MessagePatterns.QuotedCapturesFreeOfQuote | routes/api.js:424-430 | no capture of a quoted pattern contains its quote character |
| MessagePatterns.LetterRunFacts | routes/api.js:431 | the letter run at an index is made of the pattern's letters and is followed by none |
| MessagePatterns.BoundedLengthFacts | routes/api.js:431 | backtracking the greedy `{3,}` keeps the longest length of 3 or more that a word boundary follows, and fails exactly when no such length exists |
| MessagePatterns.WordsFrom | routes/api.js:431 | the word pattern's captures are at least three characters each and do not overlap, so there are at most a third as many as characters |
| MessagePatterns.WordCapturesArePieces | routes/api.js:431 | every capture of the word pattern is non-empty and occurs in the message |
| MessagePatterns.WordCapturesAreLong | routes/api.js:431 | every capture of the word pattern has at least 3 characters, all letters of the pattern's class |
| MessagePatterns.Candidates | routes/api.js:423-432 | the message yields exactly eight candidate lists, one per pattern |
| MessagePatterns.CandidatesOccur | routes/api.js:423-432 | there are exactly eight candidate lists, in the source's order; all their candidates are non-empty pieces of the message |
| ErrorPositions.DirectSpan | routes/api.js:406-414 | the direct search finds a span exactly when `original` is present, non-empty once trimmed, and occurs case-insensitively in the text; the span starts at an occurrence and is as long as the trimmed `original`, within the text |
| ErrorPositions.WordPosition | routes/api.js:440-447 | a candidate is -1 exactly when it occurs neither case-insensitively nor with the accents stripped from both; otherwise the position is an occurrence in one of the two searches |
| ErrorPositions.Positioned | routes/api.js:401-402 | `map` gives one result per error |
| ErrorPositions.PositionedKeepsFields | routes/api.js:460-464 | the i-th result is the i-th error with its type, message, severity, original and correction kept, and the span `Locate` gives it |
| ErrorPositions.DirectMatchIsFirstOccurrence | routes/api.js:406-414 | when the trimmed `original` is non-empty and occurs case-insensitively, the span is its first occurrence and `0 <= start <= end == start + |trimmed original| <= |text|` |
| ErrorPositions.MessageIgnoredAfterDirectHit | routes/api.js:406-418 | once the trimmed `original` is found, the message is never consulted: any other message, or none, gives the same span, the direct one |
| ErrorPositions.OriginalIgnoredAfterDirectMiss | routes/api.js:418-457 | after a direct miss the `original` plays no further part: any other `original` that also misses, or none, gives the same span |
| ErrorPositions.UnlocatedIsZero | routes/api.js:460-464 | with no direct hit and no candidate found, the span is 0/0 |
| ErrorPositions.FirstHitInNoneIffNoHit | routes/api.js:435-455 | within one pattern, nothing is found exactly when no candidate longer than 2 is found |
| ErrorPositions.FirstHitInAt | routes/api.js:436-453 | within one pattern, the first candidate found gives the span (start, start + its length) |
| ErrorPositions.FirstHitNoneIffNoHit | routes/api.js:434-457 | the cascade finds nothing exactly when no candidate of any pattern is found |
| ErrorPositions.FirstHitAt | routes/api.js:434-457 | the first candidate found, over patterns in order, stops the whole search and gives the span |
| ErrorPositions.SearchWord | routes/api.js:438-446 | a candidate's search yields its first case-insensitive occurrence in the text, else its first occurrence once the accents are stripped from both, else -1 |
| ErrorPositions.SearchMatches | routes/api.js:435-455 | the inner loop with its `break` computes exactly the first hit among one pattern's candidates |
| ErrorPositions.SearchCascade | routes/api.js:434-457 | the outer loop, stopping once a pattern hits, computes exactly the first-hit span of the cascade |
| ErrorPositions.LocateSpan | routes/api.js:403-464 | one error's positions as the loops compute them equal `Locate`: direct search, then the cascade, then 0/0 |
| ErrorPositions.AddErrorPositions | routes/api.js:401-466 | the loop over the errors yields exactly `Positioned` |
| ModelResponses.StripControl | routes/api.js:318-319 | the result holds no character of U+0000–U+001F or U+007F–U+009F, and text without them is unchanged |
| ModelResponses.StripControlKeepsText | routes/api.js:318-319 | every other character is kept as often as it occurs |
| ModelResponses.StripControlIgnoresControl | routes/api.js:318-319 | inserting a control character anywhere does not change the stripped text |
| ModelResponses.CleanResponse | routes/api.js:318-320 | the cleaned reply is no longer than the reply and has no control character and no white space at either end |
| ModelResponses.CleanResponseIdempotent | routes/api.js:318-320 | cleaning twice equals cleaning once |
| ModelResponses.CorrectionFromReply | routes/api.js:316-331 | a parsed reply is returned as parsed; a parse failure yields the raw reply as corrected text and no errors |
| ModelResponses.CorrectionIgnoresControl | routes/api.js:316-322 | a control character inserted into a reply that parses does not change the result |
| ModelResponses.VerdictFromReply | routes/api.js:371-396 | a failed call gives `isValid`, "Vérification non disponible" and no errors; a failed parse gives `isValid`, the raw reply and no errors; an invalid verdict or extra errors come only from a parsed reply |
| ModelResponses.MergedErrors | routes/api.js:527-542 | the merged list starts with the positioned primary errors; the positioned additional errors follow only when the verdict is invalid and carries them, and otherwise nothing follows |
| ModelResponses.CombineErrors | routes/api.js:527-542 | the answer's errors are the positioned primary errors, then the positioned additional errors only when the verdict is invalid and carries them; otherwise they are exactly the primary ones |
| ModelResponses.HandleCorrect | routes/api.js:516-546 | for replies of the modelled shape, `/correct` fails exactly when the correction call throws or its parsed reply has no error list; otherwise it answers the corrected text, the verdict and the merged errors, the verifier having been called whatever the correction found |
| ModelResponses.NormaliseLanguage | routes/api.js:499-507 | the language is always `fr` or `en`, and `en` exactly when the trimmed, lower-cased reply is `en` |
| ModelResponses.NormaliseIgnoresCaseAndSpace | routes/api.js:499-507 | any capitalisation of `fr`/`en`, with white space around it, is recognised |
| ModelResponses.DetectLanguage | routes/api.js:469-512 | a missing or blank text is rejected; a failed call is a failure; otherwise the detected language is `fr` or `en` |
| AuthValidation.EmailValid | routes/api.js:65-66 | an accepted address has at least 5 characters, no white space, and exactly one `@`, neither first nor among the last three characters |
| AuthValidation.EmailValidHasShape | routes/api.js:65-66 | an address the scan accepts is a plain run, `@`, a plain run, `.`, a plain run |
| AuthValidation.ShapeIsEmailValid | routes/api.js:65-66 | every address of that shape is accepted |
| AuthValidation.EmailValidMatchesPattern | routes/api.js:65-66 | the scan accepts exactly what `^[^\s@]+@[^\s@]+\.[^\s@]+$` accepts |
| AuthValidation.RegisterCheck | routes/api.js:56-72 | registration passes exactly for two strings, an email of the pattern's shape and a password of at least 6 characters; a missing field is reported first |
| AuthValidation.ChangePasswordCheck | routes/api.js:158-172 | a change passes exactly for a non-empty current password and a different new password of at least 6 characters, both strings; "must differ" is reported only after the other checks pass |
| AuthValidation.ResetCheckAsWritten | routes/api.js:214-227 | the reset route as written: refused in production; passes any truthy email and new password whose `.length` is not below 6 |
| AuthValidation.ResetAcceptsShortNumber | routes/api.js:221-227 | a numeric new password such as `1` passes the route as written |
| AuthValidation.ResetCheck | routes/api.js:214-227 | the corrected reset check accepts only a non-empty string email and a string new password of at least 6 characters |
| AuthValidation.ResetCheckRefinesAsWritten | routes/api.js:221-227 | the corrected check only refuses more, and agrees with the route on string fields |
| GuestHistory.PushRecent | public/js/app.js:36-44 | after `unshift` and `splice(10)` the new entry is first, the length is `min(old + 1, 10)`, and the rest is the old list's first `min(old, 9)` entries |
| GuestHistory.PushAllKeepsNewest | public/js/app.js:34-46 | after any series of saves the list is the 10 newest entries, newest first |
| GuestHistory.GuestStorage.GetCorrections | public/js/app.js:48-50 | the stored list, or the empty list when the key is absent |
| GuestHistory.GuestStorage.GetReformulations | public/js/app.js:66-68 | the stored list, or the empty list when the key is absent |
| GuestHistory.GuestStorage.SaveCorrection | public/js/app.js:34-46 | the stamped correction is at index 0, the list keeps at most 10 entries in order, and the other keys are unchanged |
| GuestHistory.GuestStorage.SaveReformulation | public/js/app.js:52-64 | the same for reformulations, leaving corrections and other keys unchanged |
| GuestHistory.GuestStorage.ClearAll | public/js/app.js:70-73 | both lists read back empty, and every other key is unchanged |
| ClientHelpers.TruncateText | public/js/app.js:1716-1719 | a text that fits is returned as is; otherwise the first `max(n, 0)` characters followed by `...` |
| ClientHelpers.TruncateIdempotent | public/js/app.js:1716-1719 | truncating a truncated text changes nothing |
| ClientHelpers.BadgeFor | public/js/app.js:530-552 | 0 errors hide the badge; for a positive count, exactly one class applies: 1–2 `excellent`, 3–5 `good`, more `needs-improvement` |
| ClientHelpers.BadgeMonotone | public/js/app.js:545-551 | more errors never give a better badge |
| ClientHelpers.SeverityLabel | public/js/app.js:520-528 | a known severity gets its label; anything else gets `Erreur` |
| ClientHelpers.SeverityClass | public/js/app.js:1374-1382 | a known severity gets its class; anything else gets `error-medium`; the result is always one of the three classes |
| ClientHelpers.ErrorIcon | public/js/app.js:1359-1371 | a known error type gets its icon; the fallback `fa-exclamation-triangle` is returned exactly for unknown types |
| ClientHelpers.KeepMatching | public/js/app.js:1417-1420 | the filtered history keeps the items' order and keeps each matching item as often as it occurs, and no other |
| ClientHelpers.SearchFilter | public/js/app.js:1389-1421 | an empty search keeps the whole history; any other keeps exactly the items whose lower-cased text or one of whose lower-cased error types contains the lower-cased search, in order |
| ClientHelpers.ChangePasswordForm | public/js/app.js:1744-1757 | the form reports, in order, a confirmation mismatch, a password under 6 characters, an unchanged password, and sends only when all three checks pass |
| ClientHelpers.ChangePasswordFormAgreesWithRoute | public/js/app.js:1744-1757 | a change the form sends, with a non-empty current password, passes the route's input checks |
| ClientHelpers.ResetPasswordForm | public/js/app.js:1804-1817 | the form sends exactly when every field is filled, the confirmation matches and the password has at least 6 characters |
| ClientHelpers.ResetPasswordFormAgreesWithRoute | public/js/app.js:1804-1817 | a reset the form sends passes the corrected reset check outside production |
| ClientHelpers.RegisterForm | public/js/app.js:701-704 | the registration form only checks the confirmation |
| WordCount.CollapseKeepsRuns | public/js/app.js:894 | collapsing white-space runs keeps the runs of kept characters and leaves no white space but plain spaces |
| WordCount.TrimKeepsRuns | public/js/app.js:893 | trimming keeps the runs of kept characters |
| WordCount.SplitCountsRuns | public/js/app.js:902 | on text made of kept characters and spaces, the non-empty pieces of `split(' ')` are its runs |
| WordCount.CountWords | public/js/app.js:887-903 | `countWords` is the number of maximal runs of word characters (`A`–`Z`, `a`–`z`, digits, `_`) and characters U+00C0–U+024F, whatever separates them |
| WordCount.BlankHasNoWords | public/js/app.js:888-890 | an empty or blank text has no word, as the early return says |
| WordCount.CleaningKeepsWords | public/js/app.js:893-896 | the cleaning leaves only kept characters and plain spaces, and keeps every run of kept characters |
| WordCount.NoKeptNoWords | public/js/app.js:887-900 | a text without a kept character has no word |
| Dashboard.NatToString | server.js:236 | a count renders as decimal digits without leading zeros |
| Dashboard.DecimalRoundTrip | server.js:236 | reading the rendered digits back gives the count |
| Dashboard.ImprovementRate | server.js:102-105 | with the clamp at server.js:160, the reported rate is never negative, is 0 when the previous average is not positive, and otherwise is the percentage drop |
| Dashboard.ErrorTypesOf | server.js:146 | a row's error types never include null, and hold every non-null type of the aggregate |
| Dashboard.Recommended | server.js:212-216 | at most one recommendation per error |
| Dashboard.RecommendedMatchesTable | server.js:189-216 | every recommendation is the table's entry for one of the errors, and every error whose type the table knows has one |
| Dashboard.GenerateRecommendations | server.js:178-219 | no errors yield exactly "Excellent travail !"; otherwise the table's entries for the first three error types, in order, at most 3 |
| Dashboard.Difficulties | server.js:260-267 | at most one difficulty per error |
| Dashboard.DifficultiesAreFrequent | server.js:260-267 | each difficulty names an error counted more than 3 times, and none is "Nombreuses erreurs" |
| Dashboard.Strengths | server.js:233-250 | at most two strengths: the regular-use entry when there are more than 10 corrections, then the excellent mastery below an average of 2, else the good mastery below 5, and nothing else |
| Dashboard.StrengthsTitles | server.js:233-250 | "Utilisateur régulier" iff more than 10 corrections, "Excellente maîtrise" iff average below 2, "Bonne maîtrise" iff average in [2, 5), never both mastery entries |
| Dashboard.AnalyseStrengths | server.js:233-250 | the pushes compute exactly `Strengths` |
| Dashboard.Weaknesses | server.js:253-267 | at most three weaknesses: "Nombreuses erreurs" when the average is above 8, then one difficulty for each of the first two errors counted more than 3 times |
| Dashboard.WeaknessesTitles | server.js:253-267 | "Nombreuses erreurs" iff average above 8; every other weakness is the difficulty of one of the first two errors, counted more than 3 times |
| Dashboard.AnalyseWeaknesses | server.js:253-267 | the push and the loop over the first two errors compute exactly `Weaknesses` |
| Dashboard.Tips | server.js:269-287 | 1 to 3 tips: proofreading when the average is above 5, then the focus on the most frequent error when there is one, then always "Pratique régulière", last |
| Dashboard.TipsTitles | server.js:269-287 | proofreading iff average above 5; the focus tip iff there is a common error, and then it names the first one |
| Dashboard.PersonalisedTips | server.js:269-287 | the pushes compute exactly `Tips` |
| Dashboard.AnalysisTitles | server.js:233-287 | in an analysis built from `Strengths`, `Weaknesses` and `Tips`, each fixed entry appears exactly under the source's condition, and the focus tip names the first common error |
| Dashboard.GenerateAnalysis | server.js:222-290 | the analysis is exactly `Strengths`, `Weaknesses` and `Tips` of the totals and the most frequent errors, with the title iffs, bounds and the final practice tip above |

## Left out

- Model calls (`openai.chat.completions.create`) and `fetch` are network calls. Their results are inputs.
- Express routing, middleware, rate limiting and authentication tokens are framework plumbing. JWT and bcrypt are library calls.
- The `/correct` database writes (routes/api.js:549-605) and every SQL query are database I/O. Query results are inputs.
- DOM rendering, notifications, charts, timers and event handling are user interface, not modelled.
- The localStorage JSON round trip is not modelled: stored lists are fields of the model's object.
- The date-window step of `filterHistory` depends on the clock and is not modelled. `SearchFilter` applies to the list that step leaves.
- `toLowerCase` is modelled for ASCII, Latin-1 and Ÿ only; other characters are left as they are.
- NFD decomposition is modelled for the accented letters of Latin-1 and Ÿ only. Other precomposed characters are left as they are.
- JsText.StripAccents: "the text is no longer" holds only for the modelled decomposition, where an accented letter becomes its base letter and one combining mark. A full NFD can turn one character into several that are not removed, such as a Hangul syllable into two or three jamo, so the real result can be longer than the input.
- String lengths count Unicode characters. JavaScript counts UTF-16 code units, which differs for characters outside the Basic Multilingual Plane. This affects `.length`, the spans and `truncateText`.
- ErrorPositions.Locate: on the accent-stripped path the span adds the un-normalised word's length to a position in the normalised text, as the source does. No bound within the text is claimed for that path; only the direct path's span is proved to lie in the text.
- ModelResponses.VerdictFromReply: `isValid` is modelled as a boolean, the truthiness of whatever the parsed field holds. `additionalErrors` is modelled as an error list or absent; a truthy non-array value, on which the source would throw, is not modelled.
- ModelResponses.HandleCorrect / ErrorPositions.AddErrorPositions: only replies of the modelled shape are covered, so "fails exactly when" holds for those alone. Four inputs throw in the source and end in the generic 500, and none of them is modelled: a parsed correction reply of `null` (`initialCorrection.correctedText`, routes/api.js:524) or a verdict of `null` (`verification.isValid`, routes/api.js:539); a `null` entry in `errors` (`error.original`, routes/api.js:406); a truthy `original` that is not a string (`.trim`, routes/api.js:406); and a truthy `message` that is not a string when the cascade runs (`matchAll`, routes/api.js:435). An `errors` value that is not an array (`.map`, routes/api.js:402) is not modelled either.
- ModelResponses.HandleCorrect: the failure message is the route's generic 500 message. The thrown error's own text is only logged and is not modelled.
- Lookups with inherited object keys such as `constructor` return a non-string in JavaScript. The lookup tables are modelled as maps without such keys.
- The first `getErrorIcon` (public/js/app.js:510-518) is replaced by the later declaration, so it is not modelled.
- AuthValidation: after the input checks, the routes' database and bcrypt steps are not modelled. These are "user not found", "wrong current password" and the duplicate-email error.
- Dashboard.ImprovementRate and averages are exact reals. JavaScript floating point and NaN are not modelled.

## Findings

| source | as written | input that shows it | evidently intended | confidence | as-written member | corrected member |
|---|---|---|---|---|---|---|
| routes/api.js:221-227 | `/auth/reset-password-dev` checks only that `newPassword` is truthy and that `newPassword.length < 6` is false, with no string check | `{"email": "a@b.c", "newPassword": 1}`: a number has no `.length`, so the check passes and `String(1)`, a one-character password, is stored | the same string check `/auth/register` makes before its length check, so that every stored password has at least 6 characters | medium, not executed | AuthValidation.ResetAcceptsShortNumber | AuthValidation.ResetCheck |
