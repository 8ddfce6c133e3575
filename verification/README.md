# Climpro contact handler — a verified model

This project models the server side of the Climpro contact form, `api/contact.js`:
- the `isEmail` and `sanitize` helpers;
- the serverless `handler`, which does the following in order:
  - refuses any method but POST;
  - silently accepts a submission whose honeypot field `hp` is filled;
  - requires consent;
  - sanitises every field;
  - requires a name, message, postal code and service;
  - requires a phone of at least six characters or a valid email;
  - classifies the requested service into a subject prefix;
  - sends an internal notification and, for a valid email, an acknowledgement to the submitter;
  - turns any exception of a send into a 500.

The handler is stateless and written with constants, early returns and a conditional chain. It is therefore modelled as a pure function, `Contact.Handle(req, d)`. It returns an `Outcome`, which holds two things:
- the response: status, the `ok` and `error` members of the JSON body, and the `Allow` header;
- the notifications handed to the mail sender, in call order.

Whether each of the two calls to the mail sender throws is an input, `Delivery(internalThrows, ackThrows)`. A call that throws is still counted as attempted.

Files:
- `wrappers.dfy`: the `Option` type.
- `jsstrings.dfy`, module `JsStrings`: the JavaScript built-ins the handler relies on, written out over Dafny strings:
  - truthiness;
  - `(v || '').toString()`;
  - `trim` and its white-space set, which is also the regular-expression class `\s`;
  - `toLowerCase`;
  - `includes`;
  - `split(' ')[0]`;
  - `length` counted in UTF-16 code units.
- `contact.dfy`, module `Contact`:
  - `isEmail`, restated both as the pattern `^[^\s@]+@[^\s@]+\.[^\s@]+$` and as a one-scan check, with the two proved equal;
  - `sanitize`;
  - the classification;
  - the two notifications;
  - the dispatch;
  - the validation gates;
  - the handler.
- `contact_properties.dfy`, module `ContactProperties`:
  - the gate order;
  - "nothing is sent unless every gate passes";
  - the send rules;
  - the classification precedence;
  - worked examples of the handler.

`Deliverable(req)` in `ContactProperties` states, from the data model and not from the handler's code, which requests should reach the mail sender. The handler is then proved to send exactly for those requests.

Three points of the code's behaviour are easy to miss; the model follows the code on each:
- **Failure of the acknowledgement send.** The second `await` sits inside the same `try` as the first, so an exception from the acknowledgement send also yields 500 'Erreur serveur', even though the internal mail went out. `AcceptedResponse` states this.
- **Greeting name.** The greeting splits the name on the space character only (`split(' ')`), so a name such as `"Jean\tDupont"` greets `"Jean\tDupont"`. `GreetingIsFirstWord` states the code's rule.
- **Phone length.** The code's `_phone.length` counts UTF-16 code units, so a character outside the Basic Multilingual Plane counts twice. `Utf16Length` models that.

## Model

| member | source | states |
|---|---|---|
| `JsStrings.Truthy` | api/contact.js:39-40 | exactly `undefined`, `null`, `false`, `0` and `""` are falsy |
| `JsStrings.Digits` | api/contact.js:15 | `toString` of a non-negative safe integer: a non-empty run of decimal digits with no leading zero |
| `JsStrings.DigitsRoundTrip` | api/contact.js:15 | reading the printed digits back gives the number |
| `JsStrings.DecimalString` | api/contact.js:15 | `toString` of a safe integer: a minus sign exactly for a negative number, then the digits of its magnitude |
| `JsStrings.DecimalStringRoundTrip` | api/contact.js:15 | the printed form of a safe integer reads back as that integer |
| `JsStrings.OrEmptyToString` | api/contact.js:15 | the string form of `v`, or of `''` when `v` is falsy, is empty exactly for a falsy value; a string is kept as it is; `true` gives "true"; a non-zero integer gives its decimal form |
| `JsStrings.TrimStart` | api/contact.js:15 | the result is a suffix of the input and does not start with white space |
| `JsStrings.TrimEnd` | api/contact.js:15 | the result is a prefix of the input and does not end with white space |
| `JsStrings.TrimStartCutsSpace` | api/contact.js:15 | everything cut from the front is white space |
| `JsStrings.TrimEndCutsSpace` | api/contact.js:15 | everything cut from the back is white space |
| `JsStrings.Trim` | api/contact.js:15 | `trim` leaves no white space at either end, never lengthens, and returns an already trimmed string unchanged |
| `JsStrings.TrimParts` | api/contact.js:15 | the input is the trimmed string with the run of white space cut from each end put back |
| `JsStrings.TrimCutsOnlySpace` | api/contact.js:15 | the input is a run of white space, then the trimmed string, then a run of white space |
| `JsStrings.TrimKeepsCharacters` | api/contact.js:15 | every character of the trimmed string occurs in the input |
| `JsStrings.LowerChar` | api/contact.js:62-64 | `A`–`Z` and the Latin-1 capitals `À`–`Þ` (not `×`) become their lower case, 32 code points on; every other character stays as it is |
| `JsStrings.UpperChar` | api/contact.js:62-64 | a letter's capital lower-cases to the same character as the letter |
| `JsStrings.ToLowerIgnoresCapitals` | api/contact.js:62-64 | a text with any of its letters written as capitals lower-cases to the same text |
| `JsStrings.ToLower` | api/contact.js:62-64 | lower-casing keeps the length, changes each character at most to a case variant of the input's (so the input is a case variant of the result), and leaves no `A`–`Z` and no Latin-1 capital `À`–`Þ` in the result |
| `JsStrings.Includes` | api/contact.js:62-64 | `includes` holds exactly when the word occurs at some index |
| `JsStrings.FirstSegment` | api/contact.js:101 | `split(' ')[0]` is a prefix without the separator, followed by the separator or the end of the string |
| `JsStrings.FirstSegmentAt` | api/contact.js:101 | when the separator first occurs at index k, the first segment is the first k characters |
| `JsStrings.Utf16Length` | api/contact.js:56 | `length` lies between the number of characters and twice it, equals it when every character is in the Basic Multilingual Plane, and a single character counts one unit inside that plane and two outside it |
| `JsStrings.Utf16LengthAppend` | api/contact.js:56 | `length` of a concatenation is the sum of the lengths, so with the one-character case it is fixed for every string |
| `Contact.PlainPrefixLength` | api/contact.js:13 | the scan stops at the first white space or `@`, with only `[^\s@]` before it |
| `Contact.IsEmailTextMatchesPattern` | api/contact.js:13 | the one-scan check accepts exactly the strings the regular expression accepts (both directions) |
| `Contact.ScanMatches` | api/contact.js:13 | a string the scan accepts matches the pattern |
| `Contact.PatternScans` | api/contact.js:13 | a string matching the pattern is accepted by the scan |
| `Contact.IsEmail` | api/contact.js:13 | `isEmail(v)` holds exactly when the string form of `v` splits as `a@b.c` into non-empty runs of `[^\s@]`; a missing or falsy value is never an email |
| `Contact.EmailFromParts` | api/contact.js:13 | any three non-empty `[^\s@]` runs joined as `a@b.c` form an email, dots inside `b` or `c` included |
| `Contact.StripAngles` | api/contact.js:15 | `replace(/[<>]/g, '')` leaves no `<` or `>`, never lengthens, changes nothing in a string without them, and on one character drops it exactly when it is `<` or `>` |
| `Contact.StripAnglesAppend` | api/contact.js:15 | stripping a concatenation is the concatenation of the stripped parts, so the kept characters stay in their order |
| `Contact.StripAnglesKeepsOthers` | api/contact.js:15 | every character other than `<` and `>` is kept as many times as it occurs |
| `Contact.Sanitize` | api/contact.js:15 | `sanitize` leaves no `<` or `>` and no white space at either end, is never longer than the input's string form, and gives `""` for a missing or falsy input |
| `Contact.SanitizeIdempotent` | api/contact.js:15 | sanitising a sanitised value changes nothing |
| `Contact.SanitizeKeepsClean` | api/contact.js:15 | a string without angle brackets or surrounding white space passes through unchanged |
| `Contact.SanitizeCutsOnlySpace` | api/contact.js:15 | after the brackets are stripped, sanitising removes only a run of white space at each end |
| `Contact.Classify` | api/contact.js:61-65 | each kind, both directions: maintenance iff the lower-cased service contains 'entretien'; repair iff it contains 'dépannage' and not 'entretien'; installation iff it contains 'installation' and neither earlier keyword; a quote iff it contains none |
| `Contact.Label` | api/contact.js:62-65 | every subject prefix starts with "Demande " |
| `Contact.LabelsDistinct` | api/contact.js:62-65 | the four subject prefixes are pairwise different |
| `Contact.SubjectPrefix` | api/contact.js:61-65 | `subjectPrefix` is 'Demande d’entretien', 'Demande de dépannage', 'Demande d’info installation' or 'Demande de devis gratuit' according to the first keyword the lower-cased service contains |
| `Contact.HasContact` | api/contact.js:56 | the contact gate passes exactly when the phone has at least six UTF-16 code units or the email matches the pattern |
| `Contact.SanitizeFields` | api/contact.js:43-50 | every sanitised field is free of `<` and `>` |
| `Contact.InternalNotification` | api/contact.js:84-91 | the internal mail goes from `FROM_EMAIL` to `TO_EMAILS`, with `reply_to` the sanitised email exactly when it is non-empty |
| `Contact.AckNotification` | api/contact.js:94-114 | the acknowledgement goes from `FROM_EMAIL` to the sanitised email, with no `reply_to` |
| `Contact.Dispatch` | api/contact.js:84-121 | the internal mail is always the first call; the acknowledgement follows exactly when the first call did not throw and the email is valid; the answer is 500 exactly when a call made threw, 200 otherwise |
| `Contact.Validate` | api/contact.js:52-58 | the result is well formed and never 405; something is sent exactly when the answer is 200 or 500; at most two calls, all from `FROM_EMAIL` |
| `Contact.Handle` | api/contact.js:17-122 | every response is well formed (`ok` exactly for 200, an error message exactly when not ok, `Allow` exactly for 405, status one of 200/400/405/500); at most two sends; a 500 only after a send |
| `ContactProperties.ValidateOutcome` | api/contact.js:52-58 | a missing required field gives 400 'Champs requis manquants'; with all of them present, no long enough phone and no valid email gives 400 'Email valide OU téléphone requis'; otherwise the dispatch runs |
| `ContactProperties.HandleReachesValidate` | api/contact.js:19-50 | past the method, honeypot and consent gates, the handler is the validation of the sanitised fields |
| `ContactProperties.NonPostRejected` | api/contact.js:19-22 | any method but POST gives 405 'Méthode non autorisée' with `Allow: POST`, and nothing is sent |
| `ContactProperties.HoneypotSilent` | api/contact.js:39 | a truthy honeypot gives 200 `{ok: true}` with nothing sent, whatever the other fields hold |
| `ContactProperties.ConsentRequiredGate` | api/contact.js:40 | empty honeypot and falsy consent give 400 'Consentement requis', nothing sent |
| `ContactProperties.RequiredFieldsGate` | api/contact.js:52-54 | consent given but an empty sanitised name, message, postal code or service gives 400 'Champs requis manquants', nothing sent |
| `ContactProperties.ContactMethodGate` | api/contact.js:55-58 | required fields present, phone shorter than 6 and no valid email give 400 'Email valide OU téléphone requis', nothing sent |
| `ContactProperties.SendsOnlyWhenDeliverable` | api/contact.js:19-91 | the mail sender is called if and only if the request passes every gate |
| `ContactProperties.RejectionIgnoresDelivery` | api/contact.js:19-58 | a request that does not pass every gate gets the same outcome whatever the mail sender would do |
| `ContactProperties.HandleDispatches` | api/contact.js:52-91 | a request that passes every gate goes to the dispatch of its sanitised fields |
| `ContactProperties.InternalSendFirst` | api/contact.js:66-91 | the first call is the internal mail to `TO_EMAILS`, subject `prefix — name`, `reply_to` the sanitised email or unset |
| `ContactProperties.DispatchAck` | api/contact.js:93-115 | on sanitised fields: a second call exactly when the first did not throw and the email is valid; it goes to that email, subject `✅ prefix — Climpro`, greeting the first space-separated segment of the name |
| `ContactProperties.AckSendRule` | api/contact.js:93-115 | the same acknowledgement rule, stated for the whole handler |
| `ContactProperties.AcceptedResponse` | api/contact.js:84-121 | an accepted request gives one or two calls, none after a failed internal call, and 500 'Erreur serveur' exactly when a call made threw, 200 `{ok: true}` otherwise |
| `ContactProperties.GreetingIsFirstWord` | api/contact.js:101 | for a non-empty sanitised name the greeting is a non-empty prefix without a space, ending where the first space or the name ends |
| `ContactProperties.OkMeansDeliveredOrHoneypot` | api/contact.js:39-117 | `ok: true` exactly for a silent honeypot or for an accepted request whose calls made all succeeded |
| `ContactProperties.ClassifyIgnoresCase` | api/contact.js:61-65 | writing any letters of the service as capitals (`DÉPANNAGE` for `dépannage`) does not change its kind |
| `ContactProperties.MixedServiceIsMaintenance` | api/contact.js:61-65 | "Entretien + Installation" is a maintenance request |
| `ContactProperties.NotIncluded` | api/contact.js:62 | a word whose first letter occurs nowhere in the text is not included |
| `ContactProperties.RepairServiceExample` | api/contact.js:61-65 | "Dépannage urgent" is a repair request |
| `ContactProperties.CapitalRepairServiceExample` | api/contact.js:61-65 | "DÉPANNAGE URGENT" is "Dépannage urgent" with its letters written as capitals, and is a repair request |
| `ContactProperties.CleanFormSanitizes` | api/contact.js:43-50 | a body whose text fields are clean sanitises to those fields, with an empty page source |
| `ContactProperties.ExampleEmailValid` | api/contact.js:13 | "jean@ex.com" is an email |
| `ContactProperties.ExampleGreeting` | api/contact.js:101 | "Jean Dupont" is greeted as "Jean" |
| `ContactProperties.RepairTextClean` | api/contact.js:15 | each text of the repair example is left unchanged by sanitising |
| `ContactProperties.RepairDispatchExample` | api/contact.js:84-117 | the repair example's fields give 200 after two sends: the internal one titled 'Demande de dépannage — Jean Dupont', then the acknowledgement to jean@ex.com |
| `ContactProperties.RepairRequestExample` | api/contact.js:17-117 | the repair request, with consent given and an empty honeypot, gives 200 after two sends, the first titled 'Demande de dépannage — Jean Dupont' |
| `ContactProperties.NoConsentExample` | api/contact.js:40 | the repair request without consent gives 400 'Consentement requis' and nothing is sent |
| `ContactProperties.ShortPhoneFieldsExample` | api/contact.js:55-58 | a five-digit phone and no email give 400 'Email valide OU téléphone requis' |
| `ContactProperties.ShortPhoneTextClean` | api/contact.js:15 | each text of the short-phone example is left unchanged by sanitising |
| `ContactProperties.ShortPhoneExample` | api/contact.js:17-58 | the short-phone request gives 400 'Email valide OU téléphone requis' and nothing is sent |
| `ContactProperties.BotExample` | api/contact.js:39 | the repair request with honeypot "spam" gives a silent 200 and nothing is sent |

## Left out

- The Resend client, its `RESEND_API_KEY` and the network calls (api/contact.js:2, 10). Sending is recorded as a `Notification` in the outcome. Whether a call throws is an input. The value a call returns is never read by the code, so it is not modelled.
- The HTML markup of both mail bodies, including the `\n` to `<br>` replacement in the message (api/contact.js:69-82, 99-113). Each body is modelled only by the sanitised fields it shows, with '—' for an empty optional field and '/' for an empty page source.
- The acknowledgement's `to` is the bare string `_email`. It is modelled as the one-element list `[email]`.
- `console.error` (api/contact.js:119) is a diagnostic side effect with no bearing on the response.
- The `res` object's API. The response is the value `(status, ok, error, Allow header)`.
- Body values that are objects, arrays or non-integer numbers, and a body that is not an object. Field values are `undefined`, `null`, booleans, safe integers or strings. A missing body reads as every field absent.
- Any exception other than one from a send. With the value types modelled, `sanitize` and the validation cannot throw. Only the two sends lead to the `catch`.
- `OrEmptyToString`: JSON numbers are modelled only as safe integers, of magnitude at most 2^53 − 1. For a larger integer, `JSON.parse` rounds to the nearest double, and `toString` prints 10^21 and above in exponent notation (`1e+21`). Neither is modelled, so such a phone sent as a number is outside the model.
- Unpaired surrogates: a JavaScript string holding a lone surrogate code unit has no counterpart among Dafny strings (sequences of Unicode scalar values), so such inputs lie outside the model.
- `LowerChar`: covers ASCII and the Latin-1 capitals `À` to `Þ`. Other Unicode case mappings, including ones that change the length, are not modelled. The three keywords are lower-case ASCII plus `é`, so they are unaffected.
- A missing HTTP method (`undefined`) is not a separate case: the method is a string, and any string other than "POST" is refused the same way.
- `assets/js/main.js` (page scrolling, the menu, the modal, the client-side form submission) is browser interface code and is not part of this model.
