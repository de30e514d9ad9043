# KidGrowth+ core, modelled in Dafny

KidGrowth+ is a parenting web app: parents record their children's growth, milestones and
daily activities, ask an AI assistant for advice, sync events to Google Calendar, and share
a child's data with a doctor through a time-limited link protected by a six-character
access code. This project models the parts of the app that make decisions:

- the **doctor share-link lifecycle**: creating a link (`generate-share-link`), verifying a
  token and code on the shared page, and the parent's panel that lists, copies and deletes
  links;
- the **calendar credential broker** (`google-calendar`): one OAuth credential per user,
  cached until expiry and refreshed after, together with the OAuth callback page and the
  dashboard's calendar card;
- the **small decision helpers** of the other pages and functions:
  - the meal planner's age text and JSON extraction;
  - the growth assistant's request dispatch;
  - the dashboard's age arithmetic and latest measurement;
  - the activity log's records and totals;
  - milestone toggling and grouping;
  - the sign-in and sign-up checks;
  - the child picker;
  - the chat transcript.

The model is functional. Tables are sequences of row datatypes and the credential store is
a map from user id to credential. Every operation is a pure function. The clock (integer
milliseconds), the random token and code text, the signed-in user, and the answers of the
store, of Google and of the AI gateway are all parameters. Where a modelled operation calls
the store, a store error is a boolean or optional error parameter, and its contract says
what happens with and without it.

Modules:

| module | what it holds |
|---|---|
| `Common` | options and JavaScript truthiness; order-keeping filter; ASCII upper-casing; JavaScript whitespace |
| `Decimal` | integers rendered as decimal text, and parsing them back |
| `Ordering` | sorting by an integer key, newest first |
| `Records` | the `children` row |
| `ShareLinks` | the `share_links` row, share URL, clipboard text, counter update, delete by id, one child's links |
| `SharedView` | the verification page |
| `ShareLinkCreation` | the creation function, with its access code |
| `ShareLinkManager` | the parent's panel |
| `CalendarBroker` | the credential broker |
| `CalendarCallback` | the OAuth callback page |
| `CalendarClient` | the calendar card |
| `AiGateway` | the gateway answer, shared by the two AI functions |
| `MealPlan` | the meal-plan function |
| `GrowthAssistant` | the growth-assistant function |
| `Dashboard` | the dashboard page |
| `ActivityLog` | the activity log |
| `Milestones` | the milestone tracker |
| `AuthForm` | sign-in and sign-up |
| `ChildSelector` | the child picker |
| `Chatbot` | the chat window |

Some of the code's behaviour is easy to misread; the model keeps it exactly:

- a share link is still accepted at its exact expiry instant, because the check is a
  strict `expires_at < now`;
- the calendar broker treats a credential as expired already at `expires_at <= now`;
- a calendar request with no `Authorization` header, or with an unresolvable user, is
  thrown inside the `try`, so it ends in the catch-all with status 500, not 401;
- the shared page reports invalid credentials and expiry with two different messages,
  "Kode akses salah atau link tidak valid" and "Link sudah kadaluarsa";
- link creation stores the access code exactly as computed, which may be shorter than six
  characters (see "Findings"); the corrected variant is modelled alongside it.

## Model

| member | source | states |
|---|---|---|
| ShareLinks.ShareUrl | supabase/functions/generate-share-link/index.ts:61 | the share URL starts with the origin and ends with the token, with the shared-view route between them |
| ShareLinks.TokenOfShareUrl | supabase/functions/generate-share-link/index.ts:61 | the token can be read back from the URL, so two different tokens never share a URL |
| ShareLinks.RecordAccess | src/pages/SharedView.tsx:45-51 | rows with the given id get the new counter and the access stamp; every other row is unchanged |
| ShareLinks.DeleteById | src/components/ShareLinkManager.tsx:85-89 | the rows left are exactly the rows whose id differs |
| ShareLinks.ChildLinks | src/components/ShareLinkManager.tsx:40-50 | the panel lists exactly this child's links, newest first, as a permutation of the matching rows |
| SharedView.VerifyAccess | src/pages/SharedView.tsx:21-59 | invalid credentials (no unique active match, or a lookup error) are reported before expiry; expiry only for the unique match past `expires_at`; a refusal writes nothing; no row is added or removed |
| SharedView.GrantedOnlyForUniqueLiveRow | src/pages/SharedView.tsx:27-54 | a grant identifies the one active row with this token and upper-cased code, not yet expired; only that row's counter goes up by one and gets the access stamp |
| SharedView.BumpOnlyRow | src/pages/SharedView.tsx:45-51 | with unique ids, the update by id changes one row only |
| SharedView.UniqueLiveRowGranted | src/pages/SharedView.tsx:35-54 | conversely, the unique live match is always granted, including at its exact expiry instant, and the joined child is shown |
| SharedView.ExpiredRowDenied | src/pages/SharedView.tsx:39-42 | a unique match whose expiry is before now is refused as expired and nothing is written |
| SharedView.NoMatchDenied | src/pages/SharedView.tsx:27-37 | with no matching row, the invalid-link message is returned at every instant, whatever the expiry |
| SharedView.InactiveNeverGranted | src/pages/SharedView.tsx:30-36 | an inactive link is never granted, whatever code is entered |
| SharedView.CodeCaseInsensitive | src/pages/SharedView.tsx:27-33 | entering the code in any letter case gives the same outcome as entering it upper-cased |
| SharedView.VerdictIgnoresCounterWrite | src/pages/SharedView.tsx:44-54 | whether the counter write fails never changes the verdict |
| SharedView.TypeCode | src/pages/SharedView.tsx:88-94 | the code field never holds more than six characters and is always upper-case |
| SharedView.Submit | src/pages/SharedView.tsx:21-59 | each attempt clears the error and stops loading; the view becomes verified exactly when access is granted; a refusal leaves the view data and table alone |
| ShareLinkCreation.ExpiryDays | supabase/functions/generate-share-link/index.ts:39-41 | a missing or zero day count means seven days; any other count is used as given |
| ShareLinkCreation.AccessCodeAsWritten | supabase/functions/generate-share-link/index.ts:37 | the code as written is upper-case base-36 text of at most six characters |
| ShareLinkCreation.AccessCode | supabase/functions/generate-share-link/index.ts:36-37 | the corrected code has exactly six upper-case base-36 characters and starts with the code as written |
| ShareLinkCreation.AsWrittenCodeCanBeShort | supabase/functions/generate-share-link/index.ts:37 | the random text "0.i" yields the one-letter code "I" |
| ShareLinkCreation.ShortCodeNeverMatches | src/pages/SharedView.tsx:97-99 | a stored code that is not six characters long never matches a six-character entry |
| ShareLinkCreation.CorrectedCodeIsEnterable | src/pages/SharedView.tsx:88-99 | typing the corrected code as shown enables the button and matches the stored row |
| ShareLinkCreation.GenerateShareLink | supabase/functions/generate-share-link/index.ts:25-73 | no user gives 401 and no insert; an insert error gives 500 with the error's message; on success exactly one row is appended with the caller, doctor fields, fresh token, active flag and zero counter, and the response returns that row's code and expiry and the URL for its token; the code is upper-case and at most six characters long |
| ShareLinkCreation.GenerateShareLinkCorrected | supabase/functions/generate-share-link/index.ts:25-73 | the corrected function fails exactly when the function as written does, with the same answer; when it succeeds, the stored row and the response differ from the as-written ones only in the code, which has exactly six upper-case characters and extends the as-written code |
| ShareLinkCreation.ShortLinkNeverOpens | supabase/functions/generate-share-link/index.ts:37 | the link created as written from the random text "0.i" gets the code "I", and every six-character entry for its token is refused as invalid, at every instant |
| ShareLinkCreation.CorrectedLinkOpens | src/pages/SharedView.tsx:88-99 | the link created by the corrected function can be opened: typing its code as shown enables the button, and access is granted up to the expiry |
| ShareLinkCreation.SevenDayLinkLifecycle | supabase/functions/generate-share-link/index.ts:36-66 | a seven-day link is opened twice (the counter reaching 1, then 2, even when the code is typed in lower case) and is refused as expired eight days later, with the counter left at 2 |
| ShareLinkManager.FetchLinks | src/components/ShareLinkManager.tsx:40-50 | a successful fetch shows exactly this child's links, newest first; a failed one keeps the list |
| ShareLinkManager.CreateShareLink | src/components/ShareLinkManager.tsx:52-83 | something is copied exactly when the link was created; success closes the dialog and clears the doctor fields but keeps the expiry; failure changes only the busy flag |
| ShareLinkManager.CreatedCopyAgreesWithStoredRow | src/components/ShareLinkManager.tsx:69-71 | the text copied after creation equals what the copy button later produces for the stored row, and the new row is listed |
| ShareLinkManager.ClearedExpiryMeansSevenDays | src/components/ShareLinkManager.tsx:56-61 | an expiry field sent as 0 creates a seven-day link |
| ShareLinkManager.DeleteShareLink | src/components/ShareLinkManager.tsx:85-97 | a failed delete changes nothing; a successful one removes exactly the rows with that id, and the re-fetched list holds no row with that id |
| CalendarBroker.GetValidToken | supabase/functions/google-calendar/index.ts:101-145 | a failed read or no row gives no token, with no request; an unexpired row gives its token with no request and no write; an expired row causes one refresh request; a failed refresh gives no token and keeps the row; a successful one rewrites only the access token and expiry |
| CalendarBroker.ExchangeCode | supabase/functions/google-calendar/index.ts:56-98 | one token request; a provider error gives its description (else its error code) and writes nothing; a failed upsert gives "Failed to store tokens"; success stores the caller's row with the new token and expiry, keeps the previous refresh token when the provider sends none (none for a new row), and leaves other users' rows alone |
| CalendarBroker.Disconnect | supabase/functions/google-calendar/index.ts:156-165 | the caller's row is gone afterwards and every other user's row is unchanged |
| CalendarBroker.DisconnectIdempotent | supabase/functions/google-calendar/index.ts:156-165 | disconnecting twice is the same as disconnecting once |
| CalendarBroker.HandleAction | supabase/functions/google-calendar/index.ts:39-276 | no action touches another user's row |
| CalendarBroker.Handle | supabase/functions/google-calendar/index.ts:19-285 | a missing header or unresolvable user gives 500 before any store access; other users' rows are never changed; the status is always 200, 400, 401 or 500 |
| CalendarBroker.UnreadableRowNotConnected | supabase/functions/google-calendar/index.ts:102-110 | when the row cannot be read, even a live credential counts as not connected: `status` says so, calendar actions answer 401, and nothing is requested or written |
| CalendarBroker.StatusMeansValidToken | supabase/functions/google-calendar/index.ts:148-153 | `status` reports connected exactly when a valid token is obtained |
| CalendarBroker.NotConnectedNoRemoteCall | supabase/functions/google-calendar/index.ts:168-256 | without a token every calendar action answers 401 "Not connected to Google Calendar" and makes no calendar API call |
| CalendarBroker.UnknownActionRejected | supabase/functions/google-calendar/index.ts:273-276 | an unknown or missing action answers 400, writes nothing and makes no request |
| CalendarBroker.DisconnectThenNotConnected | supabase/functions/google-calendar/index.ts:148-165 | after a successful disconnect, `status` says not connected and makes no provider request |
| CalendarBroker.ExchangedTokenServedUntilExpiry | supabase/functions/google-calendar/index.ts:78-113 | a freshly exchanged token is served from the store, with no refresh and no write, until its expiry |
| CalendarBroker.RefreshExtendsExpiry | supabase/functions/google-calendar/index.ts:113-141 | a successful refresh moves the expiry strictly later and keeps the refresh token, so asking again at once needs no second refresh |
| CalendarBroker.FailedRefreshKeepsCredential | supabase/functions/google-calendar/index.ts:126-130 | a failed refresh yields no token and leaves the stored credential unchanged |
| CalendarBroker.ListEventsDefaults | supabase/functions/google-calendar/index.ts:197-199 | with no query parameters, `list-events` reads the primary calendar over the next 30 days |
| CalendarCallback.HandleCallback | src/pages/CalendarCallback.tsx:14-78 | the page always leaves the loading state; an `error` parameter fails even when a code is present; a missing code or session fails with no exchange; the exchange carries the code and the callback redirect URI; success exactly when the answer reports success |
| CalendarCallback.CallbackSuccessIffCredentialStored | src/pages/CalendarCallback.tsx:44-67 | end to end, the page shows success exactly when the broker stored a credential holding the provider's access token; on failure the store is unchanged |
| CalendarClient.RedirectUrisAgree | src/components/GoogleCalendar.tsx:103-110 | the connect button's redirect URI is the one the callback page sends, and the consent URL carries it |
| CalendarClient.EventSummary | src/components/GoogleCalendar.tsx:179 | the title gets a "[name] " prefix exactly when a child name is given |
| CalendarClient.SummaryEndsWithTitle | src/components/GoogleCalendar.tsx:179 | the typed title is always the tail of the sent title, and the prefix is the bracketed name alone |
| CalendarClient.CreateEvent | src/components/GoogleCalendar.tsx:161-218 | an empty title or date sends nothing; a sent event lasts exactly one hour from its start; the form resets to empty fields and "09:00" exactly when the answer carries an id |
| CalendarClient.ClientEventForwardedToPrimary | src/components/GoogleCalendar.tsx:181-197 | the event the card builds is inserted into the primary calendar exactly as built |
| CalendarClient.Disconnect | src/components/GoogleCalendar.tsx:134-159 | a delivered disconnect clears the connected flag and the events, whatever the answer |
| CalendarClient.LoadEvents | src/components/GoogleCalendar.tsx:75-101 | the event list is replaced exactly when the answer has `items` |
| CalendarClient.CheckConnection | src/components/GoogleCalendar.tsx:48-73 | loading always ends; the card shows connected exactly when the answer says so, and only then loads events |
| CalendarClient.DateDisplayOf | src/components/GoogleCalendar.tsx:251-263 | the date shown is the start date-time when present, else the all-day date, else nothing |
| CalendarClient.CardShowsBrokerStatus | src/components/GoogleCalendar.tsx:48-73 | fed the broker's `status` answer, the card shows connected, and loads events, exactly when the broker obtains a valid token for the user |
| CalendarClient.DisconnectedCardStaysDisconnected | src/components/GoogleCalendar.tsx:134-159 | after the card's disconnect deletes the broker's row, the next connection check shows the card disconnected, with no events and nothing to load |
| CalendarClient.LatestItemsShown | src/components/GoogleCalendar.tsx:75-101 | of two loads, the later answer carrying `items` decides the list; an answer without `items` never empties it; the connected flag is never touched |
| CalendarClient.DateTimeTakesPrecedence | src/components/GoogleCalendar.tsx:251-263 | a timed event's display ignores its all-day date; without a date-time, the all-day date is shown exactly when there is one |
| MealPlan.AgeText | supabase/functions/generate-meal-plan/index.ts:21-23 | read back word by word, the text gives the age: below twelve months two words, the month count (signed) and "bulan"; from twelve, four words "<y> tahun <m> bulan" whose numbers satisfy 12 * y + m = age with m below twelve |
| MealPlan.AgeTextInjective | supabase/functions/generate-meal-plan/index.ts:21-23 | different ages always give different texts, so the prompt identifies the age |
| MealPlan.JsonSpan | supabase/functions/generate-meal-plan/index.ts:87-89 | a span exists exactly when some `}` follows some `{`; it runs from the first `{` to the last `}` and is brace-delimited |
| MealPlan.SpanIsMaximal | supabase/functions/generate-meal-plan/index.ts:87-89 | no `{` comes before the span and no `}` after it |
| MealPlan.PreferencesOnlyWhenGiven | supabase/functions/generate-meal-plan/index.ts:27-57 | the preference clauses are empty exactly when no preferences are given, and otherwise end with the preferences verbatim |
| MealPlan.GenerateMealPlan | supabase/functions/generate-meal-plan/index.ts:13-109 | a missing key fails before any gateway call; 429 and 402 pass through; other non-OK statuses give 500 "AI gateway error"; missing content, no span or an unparsable span all give "Failed to parse meal plan response"; success returns the extracted object |
| MealPlan.SurroundingProseIgnored | supabase/functions/generate-meal-plan/index.ts:85-89 | prose around the object, containing no braces, does not change the meal plan returned |
| GrowthAssistant.KindNamesAccepted | supabase/functions/growth-assistant/index.ts:24-59 | exactly the three type names are accepted, each for its own kind |
| Common.SplitJoin | supabase/functions/growth-assistant/index.ts:44 | splitting joined pieces at the separator gives the pieces back, when none contains it |
| GrowthAssistant.MilestoneBlockLines | supabase/functions/growth-assistant/index.ts:44 | the milestone block has one line per milestone, in input order, saying "Tercapai" or "Belum tercapai" |
| GrowthAssistant.Advise | supabase/functions/growth-assistant/index.ts:13-108 | a missing key fails before dispatch; an unknown type gives 500 "Invalid request type" with no gateway call; 429 and 402 pass through with their messages; other non-OK statuses give 500 "AI service error"; a missing or empty completion gives the fallback advice |
| GrowthAssistant.QuestionSentVerbatim | supabase/functions/growth-assistant/index.ts:52-55 | a general question is sent exactly as typed, and a successful answer is never empty |
| Dashboard.AgeInMonths | src/pages/Dashboard.tsx:72-78 | the age is the difference of month indices, ignoring the day; the same year and month give 0 |
| Dashboard.AgeCountsMonths | src/pages/Dashboard.tsx:72-78 | k months after the birth month, on any day, the age is k, and a future birth date gives a negative age |
| Dashboard.AgeAdditive | src/pages/Dashboard.tsx:72-78 | ages compose over an intermediate date and are antisymmetric |
| Dashboard.Latest | src/pages/Dashboard.tsx:59-65 | the latest measurement belongs to the child and has the greatest date among that child's rows; there is none exactly when the child has no rows |
| Dashboard.FetchLatest | src/pages/Dashboard.tsx:56-70 | with a child selected and a row found, that row is shown; otherwise the previous value stays |
| Dashboard.MeasurementAdded | src/pages/Dashboard.tsx:50-54 | adding a measurement raises the refresh key by exactly one |
| Dashboard.NewestMeasurementShown | src/pages/Dashboard.tsx:138-141 | a measurement newer than all others of the selected child is shown right after it is added |
| ActivityLog.UnitOf | src/components/DailyActivityLog.tsx:84-92 | each unit belongs to exactly one measured type, and every other type, mood included, has no unit |
| ActivityLog.RecordOf | src/components/DailyActivityLog.tsx:97-109 | every record carries the child, date and notes; a mood record carries only the rating; any other type carries the parsed value and its unit |
| ActivityLog.SubmittedRecordInSummary | src/components/DailyActivityLog.tsx:97-140 | once listed, a submitted mood record leaves the summary unchanged; any other record adds its parsed amount (0 if it did not parse) to its own type's total and leaves every other total as it was |
| ActivityLog.AfterInsert | src/components/DailyActivityLog.tsx:111-129 | success clears value and notes, resets the rating to 3, closes the dialog and reloads; failure changes nothing |
| ActivityLog.SelectMood | src/components/DailyActivityLog.tsx:44-50 | a mood button always sets a rating from 1 to 5 |
| ActivityLog.RatingStaysValid | src/components/DailyActivityLog.tsx:58 | the default rating is a button value and submissions keep the rating valid |
| ActivityLog.SummaryIsTypeTotals | src/components/DailyActivityLog.tsx:132-140 | the summary has a key for exactly the non-mood types present, each holding the sum of that type's values; mood entries never contribute |
| ActivityLog.AverageMood | src/components/DailyActivityLog.tsx:143-146 | with no mood entries the average is 0; otherwise average times the number of all mood entries equals the sum of the truthy ratings |
| ActivityLog.AverageMoodInRange | src/components/DailyActivityLog.tsx:143-146 | when every mood entry has a button rating, the average lies between 1 and 5 |
| Milestones.Toggle | src/components/MilestoneTracker.tsx:67-91 | a failed update changes nothing; otherwise only rows with that id flip to the opposite of the shown status, with today's date exactly when they become achieved; the celebration appears only when becoming achieved and the update succeeded |
| Milestones.ToggleTwice | src/components/MilestoneTracker.tsx:67-74 | toggling twice restores the flag and leaves no achieved date behind |
| Milestones.SampleRows | src/components/MilestoneTracker.tsx:93-111 | no user means no rows; otherwise exactly the five samples, each for this child with an empty description |
| Milestones.SampleCategoriesDistinct | src/components/MilestoneTracker.tsx:94-100 | the five samples are in five different categories |
| Milestones.GroupedIsSpec | src/components/MilestoneTracker.tsx:142-148 | the reduce yields one group per category, in order of first occurrence, each holding that category's milestones in list order |
| Milestones.EveryMilestoneShownOnce | src/components/MilestoneTracker.tsx:142-148 | every milestone is shown in the group of its own category and in no other |
| AuthForm.SignIn | src/pages/Auth.tsx:20-47 | the service is called exactly when both fields are filled, and an empty field shows "Harap isi semua kolom"; the page goes to "/" exactly when the call succeeds |
| AuthForm.SignUp | src/pages/Auth.tsx:49-91 | the service is called exactly when both fields are filled and the password has at least six characters; the empty-fields message takes precedence over the length message; it never navigates |
| AuthForm.SignUpStricterThanSignIn | src/pages/Auth.tsx:22-67 | credentials that may register may also sign in, but a five-character password is sent by sign-in only |
| ChildSelector.FetchChildren | src/components/ChildSelector.tsx:37-52 | a failed fetch changes nothing; otherwise the list is the user's children newest first, and the first is auto-selected exactly when the list is non-empty and nothing is selected |
| ChildSelector.NewestFirst | src/components/ChildSelector.tsx:38-41 | the child created after all others heads the list |
| ChildSelector.AddChild | src/components/ChildSelector.tsx:54-110 | an empty name or birth date, no user, or an insert error means no insert; success appends the row, resets the form with gender "male" and selects the new child first |
| ChildSelector.AddedChildEndsSelected | src/components/ChildSelector.tsx:95-107 | after adding the newest child, that child ends selected, whichever selection happens last |
| ChildSelector.Choose | src/components/ChildSelector.tsx:114-119 | the dropdown selects the first listed child with that id, and nothing for an id not in the list |
| Chatbot.HandleSend | src/components/GeminiChatbot.tsx:23-52 | blank input changes nothing; otherwise the untrimmed input is appended as a user message and sent, and the input is cleared; a reply appends one assistant message; a failure appends nothing and shows the error's message (or "Gagal mengirim pesan") |
| Chatbot.RunKeepsAnswered | src/components/GeminiChatbot.tsx:23-52 | over any run of sends, every assistant message directly follows a user message |
| Decimal.NatToString | supabase/functions/generate-meal-plan/index.ts:22-23 | a number renders as digits only, with no leading zero |
| Decimal.ParseNatToString | supabase/functions/generate-meal-plan/index.ts:22-23 | parsing the rendered digits gives the number back |
| Ordering.SortDesc | src/components/ShareLinkManager.tsx:45 | the sorted list is a permutation of its input with keys never increasing |

## Left out

- HTTP, CORS, JSON encoding, the Supabase client and row-level security. The store is a table or map parameter, and a store error is a boolean or an optional error.
- Concurrency. Concurrent refreshes of one credential and React state races are not modelled; each handler is one sequential step.
- Random and generated values. `crypto.randomUUID` and the row ids are parameters. `Math.random().toString(36)` is a parameter constrained to its possible shapes.
- Dates. They are integer milliseconds (dashboard dates are year, month and day). `setDate(+n)` is n times 86,400,000 ms, so daylight-saving shifts are not modelled. Time zones and locale formatting are left out.
- ShareLinkCreation.GenerateShareLink: the URL uses the request's `origin` header, and the copy button uses the page origin. Both are one `origin` parameter, which is equal in a browser.
- ShareLinks: the `share_links` table is not declared in the generated types. Its defaults are assumed to be `is_active = true` and `access_count = 0`.
- Toast texts. Toasts whose text is fixed and not part of a decision are not modelled; the error messages returned or shown are.
- The wording of the AI prompts. Only the values inserted into them are modelled: the age text, name, preferences, milestone lines and question.
- The Google consent URL encoding. Only the parameter values of `auth-url` are modelled.
- `Common.ToUpper`: upper-cases ASCII letters only. Other characters are unchanged, whereas JavaScript's `toUpperCase` also maps non-ASCII letters.
- Trimming. `Common.IsJsSpace` models JavaScript's whitespace set, but without Unicode general-category lookups.
- AuthForm.SignUp: the password length is counted in Unicode scalar values. JavaScript counts UTF-16 code units, which differ for characters outside the Basic Multilingual Plane.
- Milestones: the fetch (src/components/MilestoneTracker.tsx:51-65) is not modelled as an operation. Its result, in the store's category order, is the input to grouping.
- Milestones.Grouped: uses insertion order for categories. JavaScript lists integer-like object keys first, and categories are never integer-like.
- Dashboard.Latest: among rows of equal date it picks the first listed. The store's order for ties is unspecified.
- MealPlan.GenerateMealPlan: `JSON.parse` is a parameter, and the returned body is the extracted text rather than its re-serialisation. A failure of `response.json()` itself is not modelled.
- GrowthAssistant.Advise: the growth figures are carried into the prompt as given. A missing `data.question` (an undefined prompt) is not modelled.
- ActivityLog: values are mathematical reals rather than IEEE doubles. A value that does not parse is stored as null and counts as 0.
- The measurement dialog, growth chart, disease detection, meal-planner rendering, AI assistant wrapper, `analyze-disease`, `chat-gemini` and footer are not part of this model. They are rendering, device I/O or plain proxies.

## Findings

| source | as written | input that shows it | evidently intended | confidence | as-written member | corrected member |
|---|---|---|---|---|---|---|
| supabase/functions/generate-share-link/index.ts:37 | the access code is characters 2 to 8 of `Math.random().toString(36)`, upper-cased, and can be shorter than six characters | `Math.random()` returning 0.5 renders as "0.i", giving the code "I"; the shared page only submits six-character codes, so that link can never be opened | a code of exactly six characters (here padded with '0') | not executed | ShareLinkCreation.ShortLinkNeverOpens | ShareLinkCreation.CorrectedLinkOpens |
