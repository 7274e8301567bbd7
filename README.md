# Insurance quote system: access gate and premium rules in Dafny

This project models the logic of a small serverless insurance-quote site and proves properties of it.

- **Browser access gate** (`app-gateway.js`): a visitor gets in with a valid identity token in `localStorage`, or with an access code that sets `sessionAccess` in `sessionStorage`. A granted code also appends an entry to an audit log capped at ten entries. A visit counter counts page loads.
- **Hosted login** (`cognito-hosted.js`): the OAuth authorization-code exchange of section 4.1.3 of RFC 6749. It stores both tokens, scrubs the query string and moves to the quotes page. `logout` removes the tokens again. The button visibility decision is modelled too.
- **Access-code check** (`backend/lambda/validateAccess.py`): the code is stripped and one pair of surrounding quotes is removed. It is then looked up in a comma-separated allow-list. Failures follow an ordered chain of error replies.
- **Premium rules**: each type has a base premium plus independent surcharges. The rules are copied into the instant-quote lambda (`calculatePremium.py`), the submit lambda (`submitQuote.py`) and the three queue workers (`autoQuoteLambda.py`, `homeQuoteLambda.py`, `LifeQuoteLambda.py`). The workers normalise DynamoDB-style details, build a composite key and put one item per record into a table.
- **Quote form** (`script.js`): the instant-quote button's checks, its ordered list of missing fields, the payload, and the button state around the request. The submit handler's `details` are modelled as well.

How the model is built:

- The browser's state is one object, `Browser.Page`. Its fields are the two storage maps, the URL, and the effects left behind: navigation, reloads, alerts, the dialog.
- The AWS table and topic are another object, `QuoteStore.Backend`.
- Methods update these objects as the scripts and lambdas do. Pure decisions (token validity, the access state, the premium rules, the validator's chain) are functions.
- JSON text and base64 decoding are parameters: a `parse` function, a `Json.Codec`, and an `ExpDecoder` that reads a token's payload segment to its `exp`. Where a lemma needs JSON to read back what it wrote, it requires `Json.Lawful`.
- The clock, the user agent and AWS call failures are inputs.

Behaviour of the code worth knowing:

- A token is read from its second `.`-separated segment. Two segments are enough; a signature segment is not required.
- The segment is decoded with `atob`, which is standard base64, not base64url (section 5 of RFC 4648).
- `trackAccess` runs after `sessionAccess` is already set. It throws when `systemLogs` holds text that is not a JSON array, and the dialog then reports a connection error. The grant stays, so "no partial grant" does not hold in that case (`AppGateway.ValidateAccess`).
- A garbled visit counter is not read as 0. `parseInt` gives NaN, and "NaN" is stored.
- `revokeAccess` clears only the log, the counter and the last-visit time. It changes no access decision (`AppGateway.RevokeKeepsAccess`).
- A token reply without `id_token` stores the text "undefined" (`CognitoHosted.MissingIdTokenIsStoredAsUndefined`).
- The workers' `put_item` has no condition. A later quote under the same key replaces the earlier one (`QuoteWorkers.LastWriteWins`); it does not prevent the duplicate.

## Model

| member | source | states |
|---|---|---|
| AppGateway.CompactTokenValidity | app-gateway.js:34-41 | a token `header.payload.signature` is valid exactly when its payload decodes to an `exp` strictly greater than `floor(now / 1000)` |
| AppGateway.ExpiringNowIsInvalid | app-gateway.js:37-38 | a token whose `exp` is the current second is invalid |
| AppGateway.NoSegmentsIsInvalid | app-gateway.js:35-40 | a token with no `.` has no segment 1; the failure makes it invalid instead of throwing |
| AppGateway.ExpiryIsPermanent | app-gateway.js:34-41 | a token invalid at some time stays invalid at every later time |
| AppGateway.SplitJoin | app-gateway.js:36 | splitting joined `.`-free segments on `.` gives the segments back |
| AppGateway.SplitPrefix | app-gateway.js:36 | a `.`-free head followed by `.` is the first segment of the split |
| AppGateway.Access | app-gateway.js:15-32 | Authenticated exactly when the stored `idToken` is non-empty and valid; SessionGranted exactly when it is not and `sessionAccess` is "granted"; Anonymous otherwise |
| AppGateway.CheckAccess | app-gateway.js:15-32 | returns true exactly when the state is not Anonymous; the dialog is shown exactly on denial |
| AppGateway.TokenTakesPrecedence | app-gateway.js:19-21 | with a valid token the state is Authenticated whatever the session store holds |
| AppGateway.NewTabForgetsSessionGrant | app-gateway.js:24-31 | without a valid token, a fresh session store means access is denied |
| AppGateway.RejectionMessage | app-gateway.js:131 | the shown message is the reply's `message` when truthy, else "Invalid access code" |
| AppGateway.ValidateAccess | app-gateway.js:98-137 | a blank code sends nothing; only an ok reply with truthy `valid` writes: the grant, plus one "demo" log entry when the stored log parses (else the outcome is the connection error, grant kept); a rejection shows the reply's message; a failed request or unreadable reply shows the connection error and writes nothing |
| AppGateway.GrantOpensGate | app-gateway.js:123 | after the grant, the next access check allows, whatever the token |
| AppGateway.Truncate | app-gateway.js:197 | the stored user agent is its own prefix of exactly min(length, 100) characters |
| AppGateway.TrackAccess | app-gateway.js:189-206 | reports whether the stored log parses to an array, and leaves the store as `AfterTrack` says: capped log written back, or unchanged when it throws |
| AppGateway.CapAppend | app-gateway.js:194-203 | after a push and the cap there are exactly min(n + 1, 10) entries: the new one last, the most recent earlier ones before it in order |
| AppGateway.TrackedLogReadBack | app-gateway.js:193-205 | the written log reads back as exactly the earlier log with the new entry appended and capped: 1 to 10 entries ending with the new one |
| AppGateway.CapAbsorbs | app-gateway.js:201-203 | capping early and capping once at the end agree |
| AppGateway.TrackAllKeepsMostRecent | app-gateway.js:189-206 | starting from a log of at most 10 entries, any number of tracked accesses leaves exactly the 10 most recent entries in order |
| AppGateway.TwelveTracksKeepLastTen | app-gateway.js:201-203 | after 12 accesses, entries 1 and 2 are gone and 3 to 12 remain in order |
| AppGateway.DigitPrefix | app-gateway.js:209 | the longest all-digit prefix: a prefix, all digits, followed by a non-digit or the end |
| AppGateway.TrackVisit | app-gateway.js:208-212 | the counter is rewritten to the next count and `lastVisit` to the given time; no other key changes |
| AppGateway.VisitCounterCounts | app-gateway.js:209-210 | a stored count n becomes n + 1 |
| AppGateway.FirstVisitCountsOne | app-gateway.js:209-210 | an absent counter counts as 0 and becomes "1" |
| AppGateway.JsParseIntOfNat | app-gateway.js:209 | `parseInt` reads back every count the counter writes |
| AppGateway.DigitPrefixOfDigits | app-gateway.js:209 | an all-digit text is its own digit prefix |
| AppGateway.RevokeAccess | app-gateway.js:380-385 | removes exactly `systemLogs`, `systemVisits` and `lastVisit`, then reloads once |
| AppGateway.ClearAccess | app-gateway.js:388-390 | has the same effect as `revokeAccess` |
| AppGateway.RevokeKeepsAccess | app-gateway.js:380-385 | revoking changes no access decision: tokens and the session grant survive |
| Browser.GetParam | cognito-hosted.js:40-41 | `URLSearchParams.get`: None exactly when no parameter has the name, else the first value given for it |
| CognitoHosted.GetCognitoDomain | cognito-hosted.js:2-9 | null exactly when the configuration or its user pool id is missing; otherwise `insurance-quotes-….amazoncognito.com` |
| CognitoHosted.UnsetAccountIdNamesUndefined | cognito-hosted.js:7-8 | an unset account id is interpolated as "undefined" in the domain |
| CognitoHosted.GetClientId | cognito-hosted.js:11-13 | the configured client id, none without a configuration |
| CognitoHosted.SameRuleAsGateway | cognito-hosted.js:28-36 | this script's token check agrees with the gateway's on every token, time and decoder |
| CognitoHosted.ExchangeCodeForTokens | cognito-hosted.js:50-93 | without domain or client id nothing is sent; the request is the four-field authorization-code grant with redirect URI origin + pathname; issued tokens are both stored, the query string is dropped and the page goes to `quotes.html`; any failure writes no token and alerts once |
| CognitoHosted.HandleOAuthCallback | cognito-hosted.js:39-47 | with no or an empty `code` parameter nothing is sent and nothing changes; otherwise the code is exchanged: a request carrying it is sent exactly when configured, issued tokens are stored with the query dropped and the page moved to `quotes.html`, and any failure alerts once and writes nothing |
| CognitoHosted.Logout | cognito-hosted.js:101-108 | removes exactly `accessToken` and `idToken`, alerts, and goes to `index.html` |
| CognitoHosted.ButtonsFor | cognito-hosted.js:117-134 | the login button shows exactly when the other two are hidden, and those show exactly when the stored `idToken` is present and valid |
| CognitoHosted.ButtonsAgreeWithGate | cognito-hosted.js:123 | the buttons show a logged-in user exactly when the gate's state is Authenticated |
| CognitoHosted.LogoutEndsAuthentication | cognito-hosted.js:101-103 | after logout the state is SessionGranted or Anonymous, and the login button shows |
| CognitoHosted.ExchangeAuthenticates | cognito-hosted.js:75-78 | storing tokens whose `id_token` is valid makes the state Authenticated |
| CognitoHosted.MissingIdTokenIsStoredAsUndefined | cognito-hosted.js:78 | a reply without `id_token` stores "undefined", which never counts as logged in |
| ValidateAccessLambda.NormaliseCode | backend/lambda/validateAccess.py:33-36 | an unquoted code is just stripped; a stripped code of two or more characters that starts and ends with a quote is exactly the result wrapped in those two quotes, and a lone quote becomes empty |
| ValidateAccessLambda.LoneQuoteIsEmpty | backend/lambda/validateAccess.py:35-36 | a lone `"` normalises to the empty code |
| ValidateAccessLambda.EmptyQuotesAreEmpty | backend/lambda/validateAccess.py:35-36 | `""` normalises to the empty code |
| ValidateAccessLambda.QuotesOnlyAreEmpty | backend/lambda/validateAccess.py:35-36 | any quoted code of one or two characters, that is nothing but quotes, normalises to the empty code |
| ValidateAccessLambda.QuotedCodeKeepsInside | backend/lambda/validateAccess.py:35-36 | a quoted code keeps exactly what is inside the quotes, not stripped again |
| ValidateAccessLambda.TrimmedCodeIsKept | backend/lambda/validateAccess.py:33-36 | a code with no outer whitespace and no quotes is unchanged |
| ValidateAccessLambda.AllowList | backend/lambda/validateAccess.py:54 | one entry per comma-separated part, each stripped |
| ValidateAccessLambda.StripAll | backend/lambda/validateAccess.py:54 | every element stripped, order and length kept |
| ValidateAccessLambda.NoCommaInAllowList | backend/lambda/validateAccess.py:54 | no allow-list entry contains a comma |
| ValidateAccessLambda.Handle | backend/lambda/validateAccess.py:7-100 | a missing or empty body gives 400 "Missing request body"; 200 always carries valid true and "Access granted", 401 valid false and "Invalid access code"; no other status occurs |
| ValidateAccessLambda.ErrorChain | backend/lambda/validateAccess.py:21-100 | non-JSON gives 400 "Invalid JSON"; an unreadable code gives 500; for a non-empty code a secret-store client error gives 500 "Access codes not configured" and any other failure 500 "Internal server error" |
| ValidateAccessLambda.EmptyCodeIgnoresSecret | backend/lambda/validateAccess.py:38-46 | an empty normalised code gives 400 "Access code required" whatever the secret store would say |
| ValidateAccessLambda.AcceptedIffListed | backend/lambda/validateAccess.py:54-82 | the reply is 200 exactly when the normalised code is non-empty and equals some stripped allow-list part |
| ValidateAccessLambda.CodeLookup | backend/lambda/validateAccess.py:38-82 | once a string code is read, the reply is 400 for an empty normalised code, else 200 when it is in the allow-list and 401 when it is not |
| ValidateAccessLambda.StripAllIff | backend/lambda/validateAccess.py:54-56 | a code is in the stripped list exactly when some part strips to it |
| ValidateAccessLambda.CommaCodeNeverAccepted | backend/lambda/validateAccess.py:54-82 | a code containing a comma is always refused with 401 |
| Text.StripIsTrimmedInfix | backend/lambda/validateAccess.py:33 | `strip()` yields an infix with no whitespace at its ends, and everything cut off is whitespace |
| Text.StripIdempotent | backend/lambda/validateAccess.py:33 | stripping twice is stripping once |
| Text.StripKeepsAbsence | backend/lambda/validateAccess.py:54 | stripping never introduces a character |
| Text.Split | backend/lambda/validateAccess.py:54 | `str.split` with a separator always gives at least one part |
| Text.SplitPartsLackSeparator | backend/lambda/validateAccess.py:54 | no part of a split contains the separator |
| Text.SplitWithoutSeparator | app-gateway.js:36 | a text without the separator splits into itself alone |
| Text.JoinSplit | backend/lambda/validateAccess.py:54 | joining the split parts with the separator gives the text back |
| Text.SplitAtSeparator | backend/lambda/validateAccess.py:54 | a text containing the separator splits into at least two parts |
| Text.Capitalize | backend/lambda/submitQuote.py:112 | same length; the first character upper-cased, the rest lower-cased |
| Numbers.ParseIntToString | backend/lambda/calculatePremium.py:7 | `int()` reads back the decimal text of every integer |
| Numbers.DigitsOfNat | backend/lambda/calculatePremium.py:7 | the digits written for a natural number have that value |
| Numbers.NonDigitRefused | backend/lambda/calculatePremium.py:7 | `int()` refuses a stripped text holding a non-digit after its optional sign, or a lone sign |
| Numbers.FractionRefused | backend/lambda/calculatePremium.py:7 | `int()` refuses every decimal fraction `digits.digits` |
| Numbers.RefusedTexts | backend/lambda/calculatePremium.py:7 | `int()` refuses "abc" and the empty text |
| PremiumRules.AutoPremium | backend/lambda/calculatePremium.py:3-11 | an auto premium lies in 500..825 |
| PremiumRules.HomePremium | backend/lambda/calculatePremium.py:13-21 | a home premium lies in 400..675 |
| PremiumRules.LifePremium | backend/lambda/calculatePremium.py:23-32 | a life premium lies in 300..750 |
| PremiumRules.MissingFieldsCostNothing | backend/lambda/calculatePremium.py:3-32 | with every field missing the premiums are the bases 500, 400 and 300 |
| PremiumRules.FormNumber | backend/lambda/calculatePremium.py:7 | a number sent as decimal text is read as that number, not the default |
| PremiumRules.AutoSurcharges | backend/lambda/calculatePremium.py:3-11 | for form input: +100 for an SUV, +75 exactly for years up to 2019, +150 when the history mentions an accident |
| PremiumRules.HomeSurcharges | backend/lambda/calculatePremium.py:13-21 | +100 exactly from 2001 square feet, +100 exactly for homes built up to 1999, +75 without a security system |
| PremiumRules.LifeSurcharges | backend/lambda/calculatePremium.py:23-32 | +100 exactly from age 51, +150 for a smoker, +200 for poor health |
| PremiumRules.NonTextFieldRaises | backend/lambda/calculatePremium.py:5-30 | a non-text value in any text field (`vehicleType`, `drivingHistory`, `securitySystem`, `smoker`, `health`) makes its rule raise, whatever the other fields hold |
| PremiumRules.UnreadableNumberRaises | backend/lambda/calculatePremium.py:7-25 | a number field (`year`, `squareFootage`, `yearBuilt`, `age`) holding text `int()` refuses makes its rule raise whatever the other fields hold, and the handler answers 500 |
| PremiumRules.Handle | backend/lambda/calculatePremium.py:34-65 | the status is 200, 400 or 500; 200 exactly with a quote, and only for auto, home or life; a missing, non-JSON or non-object body gives 500 |
| PremiumRules.HandleQuotesTheRule | backend/lambda/calculatePremium.py:40-59 | a known type is quoted with exactly its rule's premium, or gets 500 when the rule raises |
| PremiumRules.HandleRefusesUnknownType | backend/lambda/calculatePremium.py:46-50 | any other type, a missing one included, gets 400 "Invalid insurance type" |
| SubmitQuote.CalculatePremium | backend/lambda/submitQuote.py:14-43 | any type other than auto, home and life is priced 0 |
| SubmitQuote.CopiedRulesAgree | backend/lambda/submitQuote.py:14-42 | the inlined rules equal the instant-quote rules for each type, raising included |
| SubmitQuote.SubmitQuotesLikeCalculator | backend/lambda/submitQuote.py:88-89 | the submit lambda prices a known type exactly as the instant-quote lambda does |
| SubmitQuote.Submit | backend/lambda/submitQuote.py:45-125 | the reply is `Outcome` of the table, body, topic and the two failure inputs; the table is left alone; exactly one publication of the body text is added when the reply is the success reply, none otherwise |
| SubmitQuote.Outcome | backend/lambda/submitQuote.py:45-125 | the status is 200, 400 or 500; 200 exactly for the duplicate and the success replies; success only for an object body whose type is text |
| SubmitQuote.ChecksInOrder | backend/lambda/submitQuote.py:47-83 | an unreadable body gives 500 "Internal server error"; then a falsy type gives 400 "Missing insuranceType"; then a missing topic gives 500 before any lookup; then, when the lookup works, an existing key gives the duplicate reply |
| SubmitQuote.SubmittedIff | backend/lambda/submitQuote.py:47-118 | success exactly for an object body with a non-empty text type, a topic, no stored key (or a failed lookup), a premium the rules compute and a publish that works; it then carries that premium, the type and the name |
| SubmitQuote.KeySeparatesTypes | backend/lambda/submitQuote.py:64 | one email with two types gives two different keys |
| SubmitQuote.MissingEmailKey | backend/lambda/submitQuote.py:64 | a missing email is keyed as "None" |
| QuoteWorkers.AutoWorkerPremium | backend/lambda/autoQuoteLambda.py:11-19 | the auto worker's premium lies in 500..825 |
| QuoteWorkers.HomeWorkerPremium | backend/lambda/homeQuoteLambda.py:11-19 | the home worker's premium lies in 400..675 |
| QuoteWorkers.LifeWorkerPremium | backend/lambda/LifeQuoteLambda.py:11-22 | the life worker's premium lies in 300..750 |
| QuoteWorkers.WorkerRulesAgree | backend/lambda/LifeQuoteLambda.py:11-22 | each worker's copy equals the instant-quote rule for its type on every flattened dict |
| QuoteWorkers.FlattenDetails | backend/lambda/LifeQuoteLambda.py:24-30 | keys are kept; an all-string dict, the empty one included, is returned as it is; a dict of dicts maps each key to its `S` member, `''` when absent; it raises exactly for a non-dict, or for a dict that has a non-string value and also a value that is not a dict |
| QuoteWorkers.FlattenDecodesAttributes | backend/lambda/LifeQuoteLambda.py:24-30 | DynamoDB string attributes flatten to the plain dict they encode; the plain dict flattens to itself |
| QuoteWorkers.MixedDetailsRaise | backend/lambda/LifeQuoteLambda.py:26-30 | a dict mixing a plain string with anything else makes flattening raise |
| QuoteWorkers.ItemFor | backend/lambda/LifeQuoteLambda.py:36-62 | a built item comes from a readable request: its details are the request's flattened details, its key is the worker's composite key of the request, its type the worker's own and its premium the worker's rule on those details |
| QuoteWorkers.StoredPremiumInRange | backend/lambda/LifeQuoteLambda.py:47-60 | a stored premium lies in its type's range |
| QuoteWorkers.DefaultKey | backend/lambda/LifeQuoteLambda.py:51 | with no email and no type the key is "unknown#" followed by the worker's type |
| QuoteWorkers.Put | backend/lambda/LifeQuoteLambda.py:36-73 | a record puts an item exactly when it builds one and the put succeeds, and then it puts that item |
| QuoteWorkers.ProcessRecord | backend/lambda/LifeQuoteLambda.py:36-73 | one record: the table gains its item under the composite key when it puts one, and is unchanged otherwise |
| QuoteWorkers.ProcessedStep | backend/lambda/LifeQuoteLambda.py:33-73 | the table after one more record is the table before it with that record's put applied |
| QuoteWorkers.HandleRecords | backend/lambda/LifeQuoteLambda.py:32-78 | the records are processed in order and each failing one is skipped; the table ends as `Processed` says and the status is always 200 |
| QuoteWorkers.FailedRecordIsSkipped | backend/lambda/LifeQuoteLambda.py:33-73 | wherever a failing record stands, the table ends as if it were absent |
| QuoteWorkers.UntouchedKeysKept | backend/lambda/LifeQuoteLambda.py:65 | no key is lost, and a key no record writes keeps its item |
| QuoteWorkers.LastWriteWins | backend/lambda/LifeQuoteLambda.py:65 | a key holds the item of the last record that stored under it |
| QuoteStore.NothingPutIsSkipped | backend/lambda/LifeQuoteLambda.py:65 | in a run of puts, a place that puts nothing can be dropped without changing the table |
| QuoteStore.UnwrittenKeyKept | backend/lambda/LifeQuoteLambda.py:65 | a run of puts loses no key, and a key none of them writes keeps its item |
| QuoteStore.LastPutWins | backend/lambda/LifeQuoteLambda.py:65 | a key holds the item of the last put under it |
| QuoteForm.FieldsPerType | script.js:314-380 | auto, home and life each require five distinct fields; any other type requires none |
| QuoteForm.Missing | script.js:321-369 | at most one label per field is reported |
| QuoteForm.MissingIff | script.js:321-369 | a label is reported exactly when a field carrying it has no element or an empty value |
| QuoteForm.NothingMissing | script.js:327-382 | nothing is reported exactly when every field has a non-empty value |
| QuoteForm.EmptyFormMissesAll | script.js:321-369 | on an empty form every label is reported, in the fields' order |
| QuoteForm.Details | script.js:328-334 | each detail is its element's text; with all elements present the keys are exactly the fields' ids |
| QuoteForm.ContactOf | script.js:298-301 | the check cannot run exactly when the name or email element is absent |
| QuoteForm.ContactIsTrimmed | script.js:298-308 | the check passes exactly when both trimmed values are non-empty, and the trimmed values are the ones sent |
| QuoteForm.Form.CollectMissing | script.js:311-380 | the pushed labels are exactly `Missing` of the fields, in order |
| QuoteForm.Form.RequestQuote | script.js:286-400 | type check first, then name and email, then missing fields; the payload is sent exactly when all pass, with trimmed contact data and the type's details; the button is disabled only then |
| QuoteForm.Form.ShowQuote | script.js:402-440 | an estimate for a truthy `premiumAmount`, "unable" otherwise, an error when the request or its JSON fails; the button is enabled again on every path |
| QuoteForm.SentDetailsHaveTypeKeys | script.js:327-335 | a form that passes the checks sends exactly the type's field ids as detail keys |
| QuoteForm.UnknownTypeSendsNoDetails | script.js:312-382 | any other non-empty type passes the field check and sends empty details |
| QuoteForm.SubmitDetails | script.js:155-202 | when all five elements of the type exist the details have exactly the type's field ids as keys, otherwise they are `{}`; each value is its element's text |
| QuoteForm.SubmitPayload | script.js:147-204 | the submit payload exists exactly when the name and email elements do; it holds the name and email untrimmed, the selected type and the submit details |
| QuoteForm.SubmitMatchesQuote | script.js:155-204 | a form that passes the instant-quote checks submits the details it was quoted on |
| QuotePipeline.InstantQuoteIsStoredQuote | backend/lambda/LifeQuoteLambda.py:36-65 | for text details the worker stores an item exactly when the instant quote succeeds; its premium equals the instant and the submit premiums, and its key is the one the submit lambda checks |
| QuotePipeline.StoredItem | backend/lambda/LifeQuoteLambda.py:36-62 | for a delivered form request, the item is keyed `email#type`, carries the name, email, details and the worker's premium, and is absent exactly when the worker's rule raises |
| QuotePipeline.DeliveredRequest | backend/lambda/LifeQuoteLambda.py:36-41 | the worker reads back from the SNS envelope the request the submit lambda published |
| QuotePipeline.SubmitKeyUsesTypedEmail | script.js:148-153 | the submit endpoint keys a submitted form by the email as typed; with surrounding spaces that key differs from the one built from the trimmed email |
| QuotePipeline.FormDetailsAreText | script.js:328-334 | every detail the form sends is text |

The three worker files are alike line for line except for the type: `autoQuoteLambda.py:21-67` and `homeQuoteLambda.py:21-67` match `LifeQuoteLambda.py:24-78`. One model, parameterised by `QuoteWorkers.Kind`, covers all three.

## Left out

- JSON text, base64 and the token payload are not decoded here. `JSON.parse`/`json.loads`, `JSON.stringify`/`json.dumps`, `atob` and reading `exp` are parameters, and no signature is checked.
- Clocks, `uuid4` and random values are left out. `Date.now` and the ISO timestamps are inputs. `getExpiryDate`, the validator's 5-minute `expires` field, the workers' `quoteId` and `createdAt` are not modelled.
- AWS calls are abstracted. The secret store is a `SecretLookup` input. The table and topic are `QuoteStore.Backend`; a failing lookup, publish or put is a boolean input.
- SQS delivery semantics (redelivery, batching, ordering across queues) are not modelled. `event['Records']` missing is not modelled either.
- DOM and CSS are left out: the dialog markup, `addStyles`, `addSystemBanner`, `showSuccessMessage`, the `showErrorMessage` styling and the overlay removal. What is modelled is which outcome or message is shown.
- The submit handler's button label and disabled state (`script.js:142-146`) are left out, as is everything after line 204 (`fetch`, rendering, form reset). `loginWithCognito`, `goToQuotes` and `redirectToQuotes` are single navigations and are left out too.
- Timers (`setTimeout`), cross-tab storage races and concurrent clicks are concurrency and timing, and are left out.
- Logging (`console.*`, `print`) is left out. This includes the worker's choice of log message for a failed record.
- `backend/lambda/getUserQuotes.py` is not part of this model. It is a table scan with a float conversion.
- HTTP headers (CORS) are left out.
- Numbers are integers. A JSON fraction, Python `int()` on a float and JavaScript number formatting are not modelled.
- `Text.Strip`: whitespace is the six ASCII characters space, tab, newline, vertical tab, form feed and carriage return. It stands for both Python `str.strip()` and JavaScript `trim()`. `str.strip()` also removes the separators `\x1c` to `\x1f` and Unicode spaces, and `trim()` also removes Unicode spaces such as `\u00A0` and `\uFEFF`; those are not stripped here.
- `Text.Lower`: ASCII only, as is `Text.Capitalize`; Unicode case mapping is not modelled.
- `Numbers.ParseInt`: ASCII digits only. Digit-group underscores and non-ASCII digits, which Python `int()` accepts, are refused.
- `AppGateway.JsParseInt`: decimal only. A "0x" prefix reads as 0, where `parseInt` would read hexadecimal.
- `Json.PyStr`: lists and dicts render as fixed placeholders, not as Python's `repr`. This matters only for composite keys built from such values.
- `PremiumRules.Handle`: a 500 reply carries an empty error text instead of the exception's message.
- `SubmitQuote.Submit`: a failed publish counts as nothing published. A request the topic accepted but whose reply was lost is not modelled.
- `QuoteForm.Form`: the type and the input values are read once, as they stand when the button is clicked. Edits between clicks are not modelled.
- `Browser.Page`: `setItem` never fails. Storage quota errors are not modelled.
