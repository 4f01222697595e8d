# Front-desk visitor log: a Dafny model

This project models the data core of a React Native front-desk app for
recording visitors at a company's branch offices. A receptionist signs in with
an e-mail address, a password and a branch. They record each visitor on a form
(name, optional e-mail, phone, purpose of visit, how the visitor heard of the
company, a photo and a drawn signature) and browse and search the visitor log
on a history screen.

The model covers:

- **Visitor log** (`VisitorStore`): an in-memory list of records, newest first,
  that starts with five demonstration records. It is a `class` whose methods
  prepend, read a window, set the loading flag and clear.
- **Schemas** (`SchemaRules`, `Validation`, and the screen modules): the Zod
  schemas become validity predicates and field-to-message error maps. There are
  two visitor schemas: the form's own, and a standalone one in the utility
  module. They differ, and the model proves how.
- **History screen** (`HistoryScreen`): the purpose and source label lookups.
  The search over the hundred newest records: a blank query lists the first
  twenty, any other query filters on case-insensitive substring occurrence in
  name, non-empty e-mail or phone. The choice between the empty view, the
  no-results notice and the list, with its count line.
- **Visitor form** (`VisitorFormScreen`): the form's values and signature state
  as a `class`, with the photo, signature, submit, success-reset and reset
  handlers. The record a submit prepends to the log. The "has data" test of the
  reset button.
- **Sign-in screen** (`LoginScreen`): the schema, its defaults, the
  demonstration session user built on submit, and the password visibility
  toggle.
- **Option tables** (`VisitPurposes`, `Sources`, `Branches`): the constant
  tables behind the dropdowns.
- **Shared building blocks**: `Types` holds the shared record shapes and
  JavaScript's `slice(0, end)`. `Text` holds JavaScript's `trim`,
  `toLowerCase`, `includes` and `String(n)` on strings.

Several things are parameters:

- the e-mail syntax check of Zod's `.email()` (`isEmail: string -> bool`);
- the clock (a `Timestamp`, or milliseconds as a `nat`);
- the signed-in session (`Option<AuthUser>`);
- the camera's permission answer and result;
- the user's answer to the reset confirmation.

## Behaviour worth knowing

Two behaviours of the app are proved as they are written:

- A whitespace-only query lists the unfiltered first page, but the count line reads "N results found" (`HistoryScreen.BlankQueryReportedAsResults`).
- The two visitor schemas disagree on `source`, `branch` and their messages (`VisitorFormScreen.StandaloneSchemaIgnoresSource`, `VisitorFormScreen.SubmittedRecordAgainstStandaloneSchema`, `VisitorFormScreen.SchemaMessagesDiffer`).

## Model

| member | source | states |
|---|---|---|
| `Types.SliceTo` | src/state/visitorStore.ts:88 | `slice(0, end)` returns a prefix whose length is `end` clamped to the length; a negative `end` counts back from the end |
| `Text.TrimEmptyIff` | src/screens/HistoryScreen.tsx:113 | a text trims to nothing exactly when every character is JavaScript whitespace |
| `Text.Lower` | src/screens/HistoryScreen.tsx:117-121 | `toLowerCase` on ASCII letters; its meaning is stated by `Text.LowerMeaning` |
| `Text.LowerMeaning` | src/screens/HistoryScreen.tsx:117-121 | `toLowerCase` keeps the length, leaves no upper-case ASCII letter, lowers each upper-case letter by the fixed offset, and keeps every other character |
| `Text.Trim` | src/screens/HistoryScreen.tsx:113-117 | `trim` drops the leading and trailing JavaScript whitespace; its meaning is stated by the `Trim*` lemmas |
| `Text.Includes` | src/screens/HistoryScreen.tsx:119-121 | `includes`: the empty query is included in every text, and an included query is no longer than the text |
| `Text.Decimal` | src/screens/LoginScreen.tsx:69 | `String(n)` is a non-empty run of decimal digits without a leading zero (unless n is 0) |
| `Text.TrimIdempotent` | src/screens/HistoryScreen.tsx:117 | trimming twice is trimming once |
| `Text.TrimIsSlice` | src/screens/HistoryScreen.tsx:117 | the trimmed text is a contiguous slice of the original |
| `Text.TrimEnds` | src/screens/HistoryScreen.tsx:117 | a non-empty trimmed text neither starts nor ends with whitespace |
| `Text.TrimPadding` | src/screens/HistoryScreen.tsx:117 | surrounding a text with whitespace does not change its trim |
| `Text.TrimLowerCommute` | src/screens/HistoryScreen.tsx:117 | lower-casing then trimming equals trimming then lower-casing |
| `Text.IncludesIff` | src/screens/HistoryScreen.tsx:119-121 | `includes` holds exactly when the query occurs at some position of the text |
| `Text.DecimalRoundTrip` | src/screens/LoginScreen.tsx:69 | the decimal digits of a millisecond count read back as that count |
| `VisitPurposes.PurposeTableShape` | src/constants/visitPurposes.ts:5-13 | seven purposes with ids "1" to "7" in order |
| `VisitPurposes.PurposeValuesDistinct` | src/constants/visitPurposes.ts:6-12 | no two purposes share a value |
| `VisitPurposes.PurposeValueIsLowerLabel` | src/constants/visitPurposes.ts:6-12 | each purpose value is its label lower-cased |
| `Sources.SourceTableShape` | src/constants/sources.ts:5-13 | seven sources with ids "1" to "7" in order |
| `Sources.SourceEntriesDistinct` | src/constants/sources.ts:6-12 | source values are pairwise distinct, and so are the labels |
| `Branches.BranchTableShape` | src/constants/branches.ts:5-10 | four branches with non-empty, pairwise distinct names, so each dropdown choice is unambiguous and passes the branch rule |
| `SchemaRules.Check` | src/utils/validation.ts:9-15 | a rule reports its message exactly when it fails |
| `SchemaRules.ErrorMap` | src/utils/validation.ts:8-16 | the error map holds exactly the failing fields, each with its rule's message |
| `SchemaRules.ErrorMapEmptyIff` | src/utils/validation.ts:8-16 | the error map is empty exactly when every field passes |
| `Validation.VisitorErrors` | src/utils/validation.ts:8-16 | each field of the standalone visitor schema is flagged exactly when it breaks its rule, with that rule's message; `source` and `password` are never flagged |
| `Validation.LoginErrors` | src/utils/validation.ts:19-23 | e-mail, password (fewer than 6) and branch (empty) are flagged exactly when they fail, with their messages |
| `Validation.VisitorErrorsEmptyIff` | src/utils/validation.ts:8-16 | the visitor schema reports nothing exactly when it accepts the record |
| `Validation.LoginErrorsEmptyIff` | src/utils/validation.ts:19-23 | the login schema reports nothing exactly when it accepts the credentials |
| `Validation.VisitorValid` | src/utils/validation.ts:8-16 | the standalone visitor schema: name of at least 2 characters, optional e-mail, phone of at least 10 characters, non-empty purpose, photo, signature and branch; `VisitorErrorsEmptyIff` ties it to the error map |
| `Validation.LoginValid` | src/utils/validation.ts:19-23 | the standalone login schema: an address, a password of at least 6 characters, a non-empty branch; `LoginErrorsEmptyIff` ties it to the error map |
| `Validation.EmptyEmailAccepted` | src/utils/validation.ts:10 | an empty e-mail passes whatever the address syntax |
| `Validation.PhoneIsLengthOnly` | src/utils/validation.ts:11 | the phone rule counts characters only: any ten characters pass |
| `VisitorStore.Recent` | src/state/visitorStore.ts:86-89 | `getRecentVisitors` returns a prefix of the log of length `min(limit, n)`, with 10 when no limit is given |
| `VisitorStore.Store.constructor` | src/state/visitorStore.ts:80-81 | the log starts as the five seed records, not loading |
| `VisitorStore.Store.AddVisitor` | src/state/visitorStore.ts:82-85 | the record is put in front of the old log, with no deduplication; the flag is unchanged |
| `VisitorStore.Store.GetRecentVisitors` | src/state/visitorStore.ts:86-89 | returns the recent window and changes nothing |
| `VisitorStore.Store.SetLoading` | src/state/visitorStore.ts:90 | sets the flag and leaves the log as it is |
| `VisitorStore.Store.ClearVisitors` | src/state/visitorStore.ts:91 | empties the log and keeps the flag |
| `VisitorStore.RecentAfterAdd` | src/state/visitorStore.ts:82-89 | after an add, every non-empty window starts with the new record, followed by the old log's window one shorter |
| `VisitorStore.DefaultLimitIsTen` | src/state/visitorStore.ts:86 | omitting the limit is passing 10 |
| `VisitorStore.AddTwiceKeepsBoth` | src/state/visitorStore.ts:82-85 | adding the same record twice keeps two copies in front of the old log |
| `VisitorStore.SeedNewestFirst` | src/state/visitorStore.ts:19-75 | the five seed records are in strictly decreasing time order |
| `VisitorStore.SeedUsesTables` | src/state/visitorStore.ts:19-75 | every seed record's purpose, source and branch is a listed value |
| `VisitorStore.SeedSignaturesEmpty` | src/state/visitorStore.ts:19-75 | every seed record has an empty signature |
| `VisitorStore.StoreSession` | src/state/visitorStore.ts:82-91 | a client run: after an add, a window of one holds the new record; after a clear, the window is empty |
| `HistoryScreen.FindByValue` | src/screens/HistoryScreen.tsx:24 | `find` gives the first entry with the value, or none when no entry has it |
| `HistoryScreen.LabelOrValue` | src/screens/HistoryScreen.tsx:24-25 | `find(...)?.label || value`: an unlisted value is shown as it is; otherwise the result is the value or the label of an entry with that value |
| `HistoryScreen.PurposeLabel` | src/screens/HistoryScreen.tsx:23-26 | `getPurposeLabel`: an unlisted purpose is shown raw; a listed one as the value or its entry's label |
| `HistoryScreen.SourceLabel` | src/screens/HistoryScreen.tsx:28-31 | `getSourceLabel`: an unlisted source is shown raw; a listed one as the value or its entry's label |
| `HistoryScreen.LabelOfListedValue` | src/screens/HistoryScreen.tsx:23-31 | with distinct values, a listed value is shown as its entry's label |
| `HistoryScreen.LabelOfUnlistedValue` | src/screens/HistoryScreen.tsx:25 | an unlisted value is shown as it is |
| `HistoryScreen.PurposeLabels` | src/screens/HistoryScreen.tsx:23-26 | each purpose value is shown as its label; other values raw |
| `HistoryScreen.SourceLabels` | src/screens/HistoryScreen.tsx:28-31 | each source value is shown as its label; other values raw |
| `HistoryScreen.KeepMatching` | src/screens/HistoryScreen.tsx:118-122 | `filter` keeps exactly the matching records, in their original order, each as many times as it occurs in the input; non-matching records not at all |
| `HistoryScreen.Matches` | src/screens/HistoryScreen.tsx:119-121 | the empty query matches every record, and a matching query is no longer than the name, the e-mail or the phone |
| `HistoryScreen.FilterVisitors` | src/screens/HistoryScreen.tsx:112-123 | `filteredVisitors`: a query that trims to nothing gives the first twenty fetched records; any other gives each matching fetched record as often as it was fetched and nothing else |
| `HistoryScreen.SearchResults` | src/screens/HistoryScreen.tsx:110-123 | the search lists at most one hundred records, all from the log |
| `HistoryScreen.MatchesMeaning` | src/screens/HistoryScreen.tsx:119-121 | a record matches when the query occurs in its lower-cased name, non-empty e-mail or phone |
| `HistoryScreen.SearchIgnoresOlderRecords` | src/screens/HistoryScreen.tsx:110 | records beyond the hundred newest never affect the search |
| `HistoryScreen.SearchResultsFromWindow` | src/screens/HistoryScreen.tsx:110-123 | every listed record is one of the hundred newest |
| `HistoryScreen.BlankQueryFetchedPage` | src/screens/HistoryScreen.tsx:113-115 | a query that trims to nothing lists the first twenty fetched records |
| `HistoryScreen.FirstTwentyOfWindow` | src/screens/HistoryScreen.tsx:110-114 | the first twenty of the hundred newest records are the first twenty records |
| `HistoryScreen.BlankQueryListsFirstTwenty` | src/screens/HistoryScreen.tsx:112-115 | a whitespace-only query lists the first twenty records, unfiltered |
| `HistoryScreen.QueryKeepsExactlyMatches` | src/screens/HistoryScreen.tsx:117-122 | any other query lists, in order, exactly the fetched records that match the lower-cased, trimmed query, each as many times as it was fetched |
| `HistoryScreen.SearchIgnoresCase` | src/screens/HistoryScreen.tsx:117 | queries equal up to letter case list the same records |
| `HistoryScreen.SearchIgnoresSurroundingWhitespace` | src/screens/HistoryScreen.tsx:113-117 | whitespace around a query does not change what it lists |
| `HistoryScreen.NoMatchKeepsNothing` | src/screens/HistoryScreen.tsx:118-122 | when no record matches, nothing is listed |
| `HistoryScreen.KeepMatchingSingle` | src/screens/HistoryScreen.tsx:118-122 | when exactly one record matches, exactly that record is listed |
| `HistoryScreen.MissesByChar` | src/screens/HistoryScreen.tsx:119-121 | a record none of whose searched fields holds some non-letter character of the query does not match |
| `HistoryScreen.ShuffledPhoneMisses` | src/screens/HistoryScreen.tsx:121 | "+1-555-0321" holds every character of "555-0123" but does not contain it |
| `HistoryScreen.PhoneContainsQuery` | src/screens/HistoryScreen.tsx:121 | "+1-555-0123" contains "555-0123" |
| `HistoryScreen.EmilyDavisMisses` | src/screens/HistoryScreen.tsx:118-122 | the Emily Davis seed record does not match "555-0123" |
| `HistoryScreen.SarahJohnsonMisses` | src/screens/HistoryScreen.tsx:118-122 | the Sarah Johnson seed record does not match "555-0123" |
| `HistoryScreen.MikeChenMisses` | src/screens/HistoryScreen.tsx:118-122 | the Mike Chen seed record does not match "555-0123" |
| `HistoryScreen.RobertWilsonMisses` | src/screens/HistoryScreen.tsx:118-122 | the Robert Wilson seed record does not match "555-0123" |
| `HistoryScreen.OnlyFirstOfFiveMatches` | src/screens/HistoryScreen.tsx:118-122 | of five records, when only the first matches, it alone is listed |
| `HistoryScreen.SeedPhoneMatches` | src/screens/HistoryScreen.tsx:118-122 | filtering the seed on "555-0123" keeps John Smith alone |
| `HistoryScreen.PlainQuerySearch` | src/screens/HistoryScreen.tsx:113-117 | a lower-case query without surrounding whitespace is searched for as it is |
| `HistoryScreen.SeedPhoneSearch` | src/screens/HistoryScreen.tsx:110-123 | searching the seed log for "555-0123" lists John Smith alone |
| `HistoryScreen.SuffixOfConcat` | src/screens/HistoryScreen.tsx:148-150 | the end of a count line is the end of its fixed wording |
| `HistoryScreen.Subtitle` | src/screens/HistoryScreen.tsx:148-150 | the header line starts with the count in decimal (the results with query text, the total otherwise), followed by a space |
| `HistoryScreen.ResultLineSingularIff` | src/screens/HistoryScreen.tsx:149 | with query text the line reads "result found" exactly when one record was found |
| `HistoryScreen.EntryLineSingularIff` | src/screens/HistoryScreen.tsx:150 | without query text the line reads "entry" exactly when the total is one |
| `HistoryScreen.SubtitleSingularIff` | src/screens/HistoryScreen.tsx:147-151 | the count line is singular exactly when its count is one |
| `HistoryScreen.Render` | src/screens/HistoryScreen.tsx:125-176 | the empty view shows exactly when the log is empty; otherwise "No visitors found" shows exactly when query text finds nothing, the list shows the search results, and the header counts the results when there is query text and the fetched records otherwise |
| `HistoryScreen.TotalCountCapped` | src/screens/HistoryScreen.tsx:110-150 | without query text the line counts the fetched records, at most one hundred, over the first twenty cards |
| `HistoryScreen.BlankQueryReportedAsResults` | src/screens/HistoryScreen.tsx:113-149 | a whitespace-only query lists the unfiltered page yet the line reads "N results found", because the line tests the raw query |
| `VisitorFormScreen.ScreenErrors` | src/screens/VisitorFormScreen.tsx:25-33 | each field of the form's schema is flagged exactly when it breaks its rule, with the form's own message; `branch` is never flagged |
| `VisitorFormScreen.ScreenErrorsEmptyIff` | src/screens/VisitorFormScreen.tsx:25-33 | the form reports nothing exactly when its schema accepts the values |
| `VisitorFormScreen.ScreenValid` | src/screens/VisitorFormScreen.tsx:25-33 | the form's schema: name of at least 2 characters, optional e-mail, phone of at least 10 characters, non-empty purpose, source, photo and signature; no branch; `ScreenErrorsEmptyIff` ties it to the error map |
| `VisitorFormScreen.DefaultsRejected` | src/screens/VisitorFormScreen.tsx:60-68 | a fresh form flags every field except the e-mail, and cannot be submitted |
| `VisitorFormScreen.ScreenAcceptsUnlistedChoices` | src/screens/VisitorFormScreen.tsx:29-30 | any non-empty purpose and source pass, including values in neither table |
| `VisitorFormScreen.SessionBranch` | src/screens/VisitorFormScreen.tsx:120 | the record's branch is the session's branch, or empty without a session |
| `VisitorFormScreen.SubmittedRecord` | src/screens/VisitorFormScreen.tsx:118-122 | the record built on submit carries the form data unchanged (`FormOf` recovers it), plus the session's branch and the submit time |
| `VisitorFormScreen.RecordFromForm` | src/screens/VisitorFormScreen.tsx:118-122 | decomposition, the converse of `SubmittedRecord`'s contract: any record value, seed records included, equals `SubmittedRecord` of its own form data under some session with its branch, at its own time |
| `VisitorFormScreen.SubmittedRecordAgainstStandaloneSchema` | src/screens/VisitorFormScreen.tsx:118-124 | an accepted form's record passes the standalone visitor schema exactly when the session gave a non-empty branch |
| `VisitorFormScreen.StandaloneSchemaIgnoresSource` | src/screens/VisitorFormScreen.tsx:30 | a record the standalone schema accepts with an empty source fails the form's schema on `source` alone |
| `VisitorFormScreen.SchemaMessagesDiffer` | src/screens/VisitorFormScreen.tsx:26-32 | the two visitor schemas flag name, e-mail, phone, purpose, photo and signature under the same conditions; only the name message is worded alike |
| `VisitorFormScreen.SeedNotFromForm` | src/screens/VisitorFormScreen.tsx:32 | no seed record passes the form's schema, since each has an empty signature |
| `VisitorFormScreen.PhotoValue` | src/screens/VisitorFormScreen.tsx:90 | an asset gives its base64 text, or the empty text when it has none |
| `VisitorFormScreen.AnyFilled` | src/screens/VisitorFormScreen.tsx:155 | "has data" holds exactly when some value is non-blank after trimming |
| `VisitorFormScreen.VisitorForm.constructor` | src/screens/VisitorFormScreen.tsx:44-46 | a new form has every value and the captured signature empty, the panel closed and no spinner |
| `VisitorFormScreen.VisitorForm.TakePhoto` | src/screens/VisitorFormScreen.tsx:73-95 | with permission and a first asset, the photo becomes that asset's text; otherwise nothing changes |
| `VisitorFormScreen.VisitorForm.SetSignaturePanel` | src/screens/VisitorFormScreen.tsx:191 | opening or closing the panel changes no value |
| `VisitorFormScreen.VisitorForm.HandleSignatureOK` | src/screens/VisitorFormScreen.tsx:97-102 | the captured signature becomes the signature value and the kept data, and the panel closes |
| `VisitorFormScreen.VisitorForm.HandleSignatureClear` | src/screens/VisitorFormScreen.tsx:109-113 | the signature value and the kept data become empty; nothing else changes |
| `VisitorFormScreen.VisitorForm.Submit` | src/screens/VisitorFormScreen.tsx:115-151 | the log gains exactly the submitted record in front; the form keeps its values and the spinner ends off |
| `VisitorFormScreen.VisitorForm.AcknowledgeSuccess` | src/screens/VisitorFormScreen.tsx:132-142 | every value and the kept signature are emptied |
| `VisitorFormScreen.VisitorForm.HandleReset` | src/screens/VisitorFormScreen.tsx:153-183 | asks exactly when some value has data; clears when nothing was filled or the reset is confirmed; otherwise changes nothing |
| `VisitorFormScreen.ClearedSignatureRejected` | src/screens/VisitorFormScreen.tsx:32 | an empty signature always blocks the submit, with its message |
| `VisitorFormScreen.PhotoWithoutTextRejected` | src/screens/VisitorFormScreen.tsx:31 | a captured asset without base64 text leaves a photo the schema rejects |
| `VisitorFormScreen.BlankValuesNotFilled` | src/screens/VisitorFormScreen.tsx:155-157 | values made only of whitespace are not data, so reset does not ask |
| `VisitorFormScreen.FormSession` | src/screens/VisitorFormScreen.tsx:73-142 | a client run: fill, photograph, sign, submit, acknowledge; the log gains exactly one accepted record with the session's branch |
| `LoginScreen.ScreenErrors` | src/screens/LoginScreen.tsx:31-35 | e-mail, password (fewer than 6) and branch (empty) are flagged exactly when they fail, with the screen's messages |
| `LoginScreen.ScreenErrorsEmptyIff` | src/screens/LoginScreen.tsx:31-35 | the screen reports nothing exactly when its schema accepts |
| `LoginScreen.ScreenValid` | src/screens/LoginScreen.tsx:31-35 | the screen's login schema: an address, a password of at least 6 characters, a non-empty branch; `ScreenErrorsEmptyIff` ties it to the error map |
| `LoginScreen.ScreenMatchesStandalone` | src/screens/LoginScreen.tsx:31-35 | the screen's schema and the standalone login schema accept the same credentials and flag the same fields; only the e-mail message differs |
| `LoginScreen.EmptyBranchRejected` | src/screens/LoginScreen.tsx:34 | an empty branch fails with "Please select a branch" |
| `LoginScreen.ListedBranchPasses` | src/screens/LoginScreen.tsx:34 | any branch the dropdown offers passes the branch rule |
| `LoginScreen.DefaultsPassLengthRules` | src/screens/LoginScreen.tsx:50-54 | the default password (11 characters) and branch pass; "Main Office" is a listed branch; the defaults are accepted exactly when the address check accepts the default address |
| `LoginScreen.MockUser` | src/screens/LoginScreen.tsx:65-70 | the session user has id "1", the entered e-mail and branch, and a token "mock-token-" followed by the clock's milliseconds in decimal |
| `LoginScreen.PasswordNotInSession` | src/screens/LoginScreen.tsx:65-70 | the session user does not depend on the password |
| `LoginScreen.TokensDifferByMillisecond` | src/screens/LoginScreen.tsx:69 | sign-ins at different milliseconds get different tokens |
| `LoginScreen.SignIn` | src/screens/LoginScreen.tsx:57-73 | a submit signs in exactly when the schema reports nothing, as a user with the entered e-mail and branch |
| `LoginScreen.NoCredentialCheck` | src/screens/LoginScreen.tsx:63-72 | any two schema-valid credentials with the same e-mail and branch sign in as the same user: the password is never checked |
| `LoginScreen.LoginForm.constructor` | src/screens/LoginScreen.tsx:40-41 | the screen starts with no spinner and the password hidden |
| `LoginScreen.LoginForm.TogglePassword` | src/screens/LoginScreen.tsx:127 | the eye icon flips the password's visibility |
| `LoginScreen.LoginForm.OnSubmit` | src/screens/LoginScreen.tsx:57-80 | hands the mock user to `login`, navigates to "Main", and ends with the spinner off |
| `LoginScreen.DefaultSignIn` | src/screens/LoginScreen.tsx:50-73 | a client run: submitting the defaults signs in as "admin@24karat.co.in" at "Main Office" |

## Left out

- Persistence: the log's on-device storage under the name "visitor-storage" is not modelled. The store is the in-memory state only.
- The auth store (`src/state/authStore`) is not part of this model. `login(user)` is modelled as the user the submit returns. The session the form reads is a parameter.
- The e-mail syntax that Zod's `.email()` checks is a library regular expression. It is a parameter `isEmail` of every schema.
- Strings are sequences of characters, not UTF-16 code units. `toLowerCase` folds ASCII letters only.
- The clock is a parameter: a `Timestamp` for records, a millisecond count for tokens. `Date.now()` is never negative here.
- Date formatting on the cards (`Intl.DateTimeFormat`) is not modelled.
- Rendering, styling, navigation other than the "Main" route, alerts and the one-second sign-in delay are not modelled. Each confirmation or notice is reduced to the answer the user gives, or to a separate method (`AcknowledgeSuccess`).
- Any catch branch is not modelled. In a catch branch the only effect is an alert, and nothing modelled throws.
- `handleSignatureEmpty` only shows an alert and changes no state. It is not modelled.
- VisitorFormScreen.VisitorForm.Submit: react-hook-form only calls `onSubmit` with values the schema accepts. The model states this as a precondition rather than as a separate gate.
- LoginScreen.LoginForm.OnSubmit: the same gate is stated as a precondition. `SignIn` models the gate itself.
- VisitorFormScreen.VisitorForm.Submit: the spinner's brief "on" state during the submit is not visible in the contract. Only its net effect is stated: off at the end.
- The camera permission request and the picker are parameters (`granted`, `CameraResult`). Permission dialogs and picker options are not modelled.
- VisitorFormScreen.VisitorForm.Values: the form's e-mail input always holds a text, so the form hands `Some(email)` to the schema. An absent e-mail only arises for stored records.
- The console logging in the signature handlers is not modelled.
