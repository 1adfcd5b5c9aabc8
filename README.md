# PostmarkMailer, modelled in Dafny

`PostmarkMailer` is a Yii 2 component that builds an email one field at a time and then
sends it through the Postmark HTTP client. The builder methods set the subject, the HTML
and plain-text bodies, the sender, the recipient list and the attachments. `send` first
checks that there is a recipient, a subject and at least one body. In development it then
sends every message that is not an error report to a safe address. Finally it calls the
client and reports whether Postmark answered with error code 0.

The model has two modules:

- `PhpStrings` (`php_strings.dfy`) covers the PHP values and built-ins the component
  depends on. A variable holding `null` or a string is `PhpString`. It also defines
  `empty()`, the `.=` operator, `str_replace` of a comma, `trim` with a comma mask,
  `explode` on a comma and `strpos`. Each comes with lemmas that say what it computes.
- `Postmark` (`postmark_mailer.dfy`) holds the component. `ProcessEmail` and
  `ToIsErrorEmail` are pure functions, as in the source. The object is the class
  `Postmark.PostmarkMailer`: its fields are the recipient list, the sender, the subject,
  the two bodies and the attachments, and its methods update them in place. `Send` takes
  `YII_ENV_DEV` as the parameter `dev` and the client's answer as the parameter `reply`.
  It returns the outcome and the request handed to the client, or `None` when the client
  was not called.

Failures of `send` are kept apart from its boolean result. Each check throws
`ServerErrorHttpException`, and so does a client failure. The only `catch` around them
names `\CHttpException`, which `ServerErrorHttpException` does not extend, so the
exception reaches the caller and `send` never returns `false` for these failures.
`SendOutcome` therefore has two cases: `Failed(reason)` for the exception and
`Returned(sent)` for the boolean that is returned. The doc comment of `send` promises a
boolean; the model follows the code. This version of the component has no subject prefix
on redirected mail and no list of production environments: redirection depends only on
`YII_ENV_DEV`.

## Model

| member | source | states |
|---|---|---|
| `PhpStrings.IsEmpty` | PostmarkMailer.php:215-224 | PHP `empty()`: null, `""` and `"0"` are empty, every other string (any string of two or more characters in particular) is not |
| `PhpStrings.Concat` | PostmarkMailer.php:157 | `.=` always yields a string: the old value (null read as `""`) is a prefix, and the appended value is exactly the rest |
| `PhpStrings.RemoveAll` | PostmarkMailer.php:268 | `str_replace(',', '', name)` leaves no comma, removes exactly as many characters as there were commas, and adds no new characters |
| `PhpStrings.RemoveAllKeepsCleanString` | PostmarkMailer.php:268 | a name without commas goes through `str_replace` unchanged |
| `PhpStrings.RemoveAllAppend` | PostmarkMailer.php:268 | comma removal works piece by piece, so the other characters keep their order |
| `PhpStrings.CountAppend` | PostmarkMailer.php:268 | the number of commas in a concatenation is the sum of the counts of its parts |
| `PhpStrings.LeadingRun` | PostmarkMailer.php:273 | the length of the run of commas at the start, and the next character is not a comma |
| `PhpStrings.TrailingRun` | PostmarkMailer.php:273 | the length of the run of commas at the end, and the character before it is not a comma |
| `PhpStrings.Trim` | PostmarkMailer.php:273 | `trim($to, ',')` is a middle slice of `$to`, only commas are cut from its ends, and the result neither starts nor ends with a comma |
| `PhpStrings.TrimKeepsUnframed` | PostmarkMailer.php:273 | a string that neither starts nor ends with a comma is left as it is by `trim` |
| `PhpStrings.TrimDropsFinal` | PostmarkMailer.php:273 | a list ending in exactly one comma, with none at its start, loses only that final comma |
| `PhpStrings.Explode` | PostmarkMailer.php:275 | `explode(',', s)` gives one more piece than `s` has commas, and no piece holds a comma |
| `PhpStrings.ImplodeExplode` | PostmarkMailer.php:275 | joining the pieces of `explode` with commas gives back the original string |
| `PhpStrings.SinglePieceIffNoSeparator` | PostmarkMailer.php:275-278 | `sizeof(explode(',', s)) == 1` holds exactly when `s` has no comma |
| `PhpStrings.StrposFrom` | PostmarkMailer.php:278 | a found index holds an occurrence and no earlier index does; `NotFound` means there is no occurrence at or after the start |
| `PhpStrings.Strpos` | PostmarkMailer.php:278 | `strpos` returns the first occurrence, and returns `false` exactly when the needle occurs nowhere |
| `PhpStrings.StrposFindsIffContains` | PostmarkMailer.php:278 | `strpos(...) !== false` holds exactly when the haystack contains the needle |
| `Postmark.ProcessEmail` | PostmarkMailer.php:266-269 | a null email gives null; a null name gives the bare email; otherwise the comma-free name, then `" <"`, the email and `">,"` |
| `Postmark.NamedEntryHasOneSeparator` | PostmarkMailer.php:268 | a named entry ends in `>,`, and its only comma outside the email is the trailing one |
| `Postmark.ToIsErrorEmail` | PostmarkMailer.php:271-279 | true exactly when the comma-trimmed list holds no comma and contains the error address |
| `Postmark.ErrorAddressAloneIsErrorEmail` | PostmarkMailer.php:271-279 | a list holding only the error address, named or not, is classified as an error report |
| `Postmark.TwoNamedRecipientsAreNotErrorEmail` | PostmarkMailer.php:271-279 | a `to` followed by an `addTo`, both named, is never an error report, whatever the addresses |
| `Postmark.UnnamedRecipientsMerge` | PostmarkMailer.php:155-160 | two `addTo` calls without names join the emails with no separator, and the joined list counts as a single error-address recipient |
| `Postmark.Validate` | PostmarkMailer.php:34-48 | reports no error exactly when every required setting is set; otherwise it names a missing setting, and every setting checked before it is set |
| `Postmark.PostmarkMailer.Init` | PostmarkMailer.php:30-53 | fails with the first missing setting, in `init`'s order; otherwise gives a fresh mailer holding the settings and an empty message |
| `Postmark.PostmarkMailer.constructor` | PostmarkMailer.php:11-24 | the settings are stored, every message field starts as null and there are no attachments |
| `Postmark.Preflight` | PostmarkMailer.php:215-226 | passes exactly when no check fails; otherwise it names a failing check, and every check before it passed, in the order to, subject, both bodies (PHP `empty`) |
| `Postmark.OneBodySuffices` | PostmarkMailer.php:223-226 | with a recipient and a subject, one non-empty body of either kind is enough |
| `Postmark.Recipient` | PostmarkMailer.php:228-232 | in development a list that is not an error report becomes `Safe Email Address <safe>,`; otherwise the list is unchanged |
| `Postmark.SafeEntry` | PostmarkMailer.php:231 | `processEmail(safe, 'Safe Email Address')` is `Safe Email Address <safe>,` |
| `Postmark.RedirectLeavesOnlySafeAddress` | PostmarkMailer.php:228-232 | after a redirect, trimming and splitting the list gives one recipient, the safe address |
| `Postmark.ErrorReportBypassesRedirect` | PostmarkMailer.php:228-229 | a message for the error address alone keeps its recipient, in development or not |
| `Postmark.TwoRecipientsAreRedirected` | PostmarkMailer.php:228-232 | in development a message for two named recipients goes to the safe address instead |
| `Postmark.Delivery` | PostmarkMailer.php:234-263 | once the client is called, `send` returns `true` exactly on `errorcode` 0; any client exception becomes a send failure |
| `Postmark.PostmarkMailer.Subject` | PostmarkMailer.php:115-120 | replaces the subject and nothing else |
| `Postmark.PostmarkMailer.MessageHtml` | PostmarkMailer.php:128-133 | replaces the HTML body and nothing else |
| `Postmark.PostmarkMailer.MessagePlain` | PostmarkMailer.php:141-146 | replaces the plain-text body and nothing else |
| `Postmark.PostmarkMailer.Compose` | PostmarkMailer.php:102-107 | sets the two bodies to the rendered views and nothing else |
| `Postmark.PostmarkMailer.AddTo` | PostmarkMailer.php:155-160 | the old list is a prefix of the new one, the formatted entry is exactly the rest, and no other field changes |
| `Postmark.PostmarkMailer.To` | PostmarkMailer.php:169-174 | the list becomes exactly the formatted entry, discarding earlier recipients; no other field changes |
| `Postmark.PostmarkMailer.From` | PostmarkMailer.php:183-188 | the sender becomes exactly the formatted entry; no other field changes |
| `Postmark.PostmarkMailer.AddCustomAttachment` | PostmarkMailer.php:198-204 | the attachment list grows by one element at its end, and earlier attachments keep their order |
| `Postmark.PostmarkMailer.Send` | PostmarkMailer.php:211-264 | on the first failed check the client is not called, nothing changes and that failure is reported; otherwise `to` becomes the redirected list, the client gets sender, list, subject, bodies, attachments and open tracking, and the result is the client's verdict |

## Left out

- The Postmark client and its HTTP transport: the client's answer is the `reply` parameter of `Send`.
- The `YII_ENV_DEV` constant: it is the `dev` parameter of `Send`.
- View rendering in `compose`: the two rendered views are parameters of `Compose`.
- Reading the attachment file and deleting it with `unlink` are filesystem I/O. `AddCustomAttachment` takes the file's bytes as a parameter, and the deletion is not modelled.
- The Yii component lifecycle (`parent::init()`) and the configuration setters (`setPostmarkServerToken` and the others). `Init` takes the settings as one value.
- The fluent `return $this` of the builder methods: the methods return nothing, and each call acts on the same object.
- PHP's exception classes: each `throw` becomes a `Failure` value, and the outer `catch`, which never matches, is not modelled.
- Values that are neither null nor strings (arrays, numbers) in the message fields and the settings.
- PhpStrings.Strpos: follows PHP 8's `strpos`, which finds an empty needle at index 0. PHP 7 returned `false` with a warning, so under PHP 7 an empty error address never marks a message as an error report.
- PHP strings are byte sequences; the model uses Dafny strings (sequences of characters), so `Strpos` yields a character index rather than a byte offset. The component only tests `strpos(...) !== false` and splits and trims on the one-byte comma, which give the same answers on bytes and on UTF-8 characters.
