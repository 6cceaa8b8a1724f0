# IRIS Photography Society website — verified model of its core

This project is a Dafny model of the logic behind the IRIS Photography
Society website. It covers these parts of the site:

- **Roster import.** Two importers read a CSV roster of the society's
  members (headers `Email Address` and `Name`). They split it into
  records and upsert the records into the store:
  - the seeding endpoint upserts everything into `student` in one call;
  - the upload utility upserts into `authorized_users` in batches of 100
    and stops at the first batch the store rejects.
- **Sign-in and authorization.** The OAuth callback exchanges the code
  for a session. It then looks the session's email up in the `student`
  roster, records the profile of an authorized user in `users`, and
  answers with one redirect. The client-side authentication context keeps
  the session, its user, a loading flag and the roster verdict, updated by
  the auth-state listener and the initial session check. The shared route
  guard and the roster check complete this part.
- **Member pages.** The dashboard, the sign-in page, the password-reset
  page and the demonstration Google account picker.
- **Admin screens.** The editors for events, gallery, photo of the week,
  about text and contact details. Each keeps its data in memory and
  edits, adds and deletes records by id.
- **The public photo-of-the-week carousel.** It steps through the twelve
  months with wrap-around and shows the photos of the selected month.

The model follows the program's structure:

- **Pure request handlers become functions.** This covers the callback,
  the route guard and the renders.
- **Stateful screens become classes.** Each React component that updates
  its own state is a class whose fields are that state. Each handler is a
  method with a `modifies` clause that states the new state in full.
- **Loops stay loops.** The row loop of the CSV importers, the batch
  loop of the upload utility and the per-month deletion loop of the
  photo-of-the-week editor are proved against specification functions.
- **Everything outside the program is an input.** The store, the OAuth
  provider, the fetched file, the clock and the browser location are
  parameters. The calls the program makes to them are recorded in
  sequences: upserts, lookups, navigations and OAuth requests.

The model also needs the JavaScript built-ins these parts use, written out
with their JavaScript meaning:

- `String.prototype.trim`, over the WhiteSpace and LineTerminator
  characters of the ECMAScript standard (ECMA-262);
- `split` on one character;
- `endsWith` and `includes`;
- `Number.parseInt` with no radix;
- `encodeURIComponent`, together with the form-urlencoded decoding that
  `URLSearchParams.get` applies when the error page reads the message
  back (strict UTF-8 decoding, which agrees with the browser's on every
  value `encodeURIComponent` produces).

## Model

| member | source | states |
|---|---|---|
| `RosterCsv.FindColumn` | app/api/seed-authorized-users/route.ts:19-20 | the column index is the first header cell whose trimmed text is the title, or -1 when no cell's trimmed text is |
| `RosterCsv.ClassifyRow` | app/api/seed-authorized-users/route.ts:35-43 | a row is passed over as blank exactly when it trims to "", and an emitted record has a non-empty email and name; `EmittedFieldsClean` adds that both are trimmed |
| `RosterCsv.ParseRoster` | app/api/seed-authorized-users/route.ts:15-44 | the importers' parse before any store call; its meaning is given by `RecordsFollowRows`, `FailsIffShortRow`, `ParsedRecordsClean` and `TrailingNewlineIgnored` |
| `RosterCsv.CollectRecords` | app/api/seed-authorized-users/route.ts:32-44 | the row loop returns exactly the specification fold of the rows' outcomes: the records of the emitting rows in order, or the crash of the first short row |
| `RosterCsv.CollectRows` | app/api/seed-authorized-users/route.ts:34-44 | the loop over rows 1 .. n-1 keeps the fold of the rows seen so far, pushes each emitted record and returns at the first short row |
| `RosterCsv.ReadRow` | app/api/seed-authorized-users/route.ts:35-43 | one iteration: a row that trims to "" is skipped; a row with too few cells fails on `undefined.trim()`; otherwise a record is emitted exactly when both trimmed fields are non-empty |
| `RosterCsv.ParseRosterText` | app/api/seed-authorized-users/route.ts:15-44 | the parse step computes the specification `ParseRoster`: a missing header fails with the format error, otherwise the row loop's result |
| `RosterCsv.ErrorMessage` | app/api/seed-authorized-users/route.ts:22-30 | a missing header reports the exact format-error message, and a short row reports the engine's message for `trim` on `undefined` |
| `RosterCsv.FailureSticks` | app/api/seed-authorized-users/route.ts:34-39 | once a row has crashed the import, later rows never change the outcome |
| `RosterCsv.EmittingRows` | app/api/seed-authorized-users/route.ts:34-43 | the indices of the data rows that emit a record: all of them, in increasing order, and never the header row |
| `RosterCsv.RecordsFollowRows` | app/api/seed-authorized-users/route.ts:34-43 | a successful parse returns one record per emitting row, in row order, each equal to that row's emitted record |
| `RosterCsv.FailsIffShortRow` | app/api/seed-authorized-users/route.ts:37-39 | the parse fails exactly when some data row has fewer cells than a needed column index, and that failure is the `undefined` crash |
| `RosterCsv.EmittedFieldsClean` | app/api/seed-authorized-users/route.ts:38-42 | an emitted record's email and name are non-empty and already trimmed |
| `RosterCsv.ParsedRecordsClean` | app/api/seed-authorized-users/route.ts:38-42 | every record of a successful parse has a non-empty, trimmed email and name |
| `RosterCsv.CollectedPrefix` | app/api/seed-authorized-users/route.ts:34 | the fold of the first n rows depends on nothing beyond them |
| `RosterCsv.BlankRowAppended` | app/api/seed-authorized-users/route.ts:35 | a blank last row adds nothing to the outcome |
| `RosterCsv.TrailingNewlineColumns` | app/api/seed-authorized-users/route.ts:15-20 | a trailing newline adds one empty row and leaves the header row and the columns unchanged |
| `RosterCsv.TrailingNewlineIgnored` | app/api/seed-authorized-users/route.ts:15-44 | a roster with a trailing newline parses exactly like the same roster without it |
| `RosterCsv.CommaRowNotBlank` | app/api/seed-authorized-users/route.ts:35 | a row containing a comma is never skipped as blank |
| `RosterCsv.HeaderColumns` | app/api/seed-authorized-users/route.ts:16-20 | a two-cell header row yields the column pair (0, 1) when the email header comes first and (1, 0) otherwise |
| `RosterCsv.SingleDataRow` | app/api/seed-authorized-users/route.ts:15-44 | a roster of a header and one data row parses to that row's outcome alone |
| `RosterCsv.TwoCellRow` | app/api/seed-authorized-users/route.ts:37-43 | a two-cell data row yields the trimmed record when both cells trim to non-empty text, and nothing otherwise |
| `RosterCsv.ColumnOrderIrrelevant` | app/api/seed-authorized-users/route.ts:19-43 | columns are found by header text, so both column orders of a one-row roster give the same record |
| `SeedRoute.Get` | app/api/seed-authorized-users/route.ts:4-65 | the endpoint answers 500 with the fetch error, 400 with the format error, 500 on a short row, and otherwise one upsert of all parsed records into `student` keyed on `email`, then 500 with the store's message or 200 with the record count |
| `UploadRoster.BatchesPartition` | utils/upload-authorized-users.ts:45-47 | the batches concatenate back to the records; each holds 1 to 100 records, all but the last exactly 100; there are ceil(n / 100) of them |
| `UploadRoster.Batches` | utils/upload-authorized-users.ts:45-47 | the slices of at most 100 records the loop sends; `BatchesPartition`, `BatchAt` and `BatchesExact` pin them to `users.slice(i, i + 100)` for i = 0, 100, … below n |
| `UploadRoster.BatchAt` | utils/upload-authorized-users.ts:46-47 | batch b is `users.slice(100 * b, 100 * b + 100)` |
| `UploadRoster.BatchesExact` | utils/upload-authorized-users.ts:46 | batch b exists exactly when the loop index 100 * b is still below the record count |
| `UploadRoster.FirstRejected` | utils/upload-authorized-users.ts:46-53 | the index of the first rejected upsert: every earlier reply is clean, and the one at that index is an error unless no batch failed |
| `UploadRoster.FirstRejectedIs` | utils/upload-authorized-users.ts:46-53 | the first rejection is unique: any k with k clean replies before an error is it |
| `UploadRoster.UpsertCalls` | utils/upload-authorized-users.ts:48 | one upsert into `authorized_users` keyed on `email` per batch, in batch order |
| `UploadRoster.UploadBatches` | utils/upload-authorized-users.ts:42-56 | the batch loop makes exactly the specified calls (the client, then each batch up to and including the first rejected one) and returns the first rejection or the record count |
| `UploadRoster.UploadCalls` | utils/upload-authorized-users.ts:42-56 | the store calls of an upload: the client, then one upsert per batch through the first rejected one; `UploadBatches` proves the loop makes exactly these calls and `UploadSendsPrefix` says which records they carry |
| `UploadRoster.UploadOutcome` | utils/upload-authorized-users.ts:44-59 | the first rejection, or success with the record count; `UploadBatches` proves the loop returns it and `UploadSendsPrefix` relates it to the records sent |
| `UploadRoster.UploadAuthorizedUsers` | utils/upload-authorized-users.ts:8-61 | a fetch error or a parse error is caught and returned as the failure, with no store call; otherwise the result and calls are those of the batch loop on the parsed records |
| `UploadRoster.SentRecordsOfUpserts` | utils/upload-authorized-users.ts:46-48 | the upserts of the batches hand the store exactly the concatenated batches |
| `UploadRoster.FlattenFirstBatches` | utils/upload-authorized-users.ts:46-47 | the first m batches hold exactly the first 100 * m records |
| `UploadRoster.UploadSendsPrefix` | utils/upload-authorized-users.ts:44-56 | a successful upload sends every record exactly once, in order, and reports their number; a failed one sends exactly the records up to the end of the rejected batch and reports that batch's error |
| `AuthHelpers.CheckUserAuthorization` | utils/auth-helpers.ts:8-15 | an empty email is unauthorized with no lookup; otherwise one lookup of that email, and authorized exactly when the roster returned a row |
| `AuthHelpers.ProtectRoute` | utils/auth-helpers.ts:24-32 | no redirect while loading; afterwards to sign-in exactly when there is no user, and to the unauthorized page exactly when the user is known to be off the roster |
| `Records.SessionEmail` | app/auth/callback/route.ts:31 | the session's email is available exactly when there is a session with a user and a non-empty email |
| `Records.SessionUser` | contexts/auth-context.tsx:43 | the user is the session's user, and none without a session |
| `Records.DisplayName` | app/auth/callback/route.ts:46 | the profile name is the full name when non-empty, else the name when non-empty, else "User"; never empty |
| `Records.ProfileFor` | app/auth/callback/route.ts:42-49 | the `users` row carries the session user's id, the session email, the display name, the avatar URL and the time stamps it is given |
| `AuthCallback.ErrorRedirectCarries` | app/auth/callback/route.ts:14 | an error redirect puts the message into one query value that decodes back to the message exactly |
| `AuthCallback.Callback` | app/auth/callback/route.ts:4-69 | the code is exchanged exactly when there is no provider error and a code is present, and a profile is written only after a successful exchange and a roster row; the branch-by-branch lemmas below state each redirect |
| `AuthCallback.ProviderErrorShortCircuits` | app/auth/callback/route.ts:12-15 | a provider error redirects to the error page with the description (or the error), with no exchange and no profile write |
| `AuthCallback.ExchangeFailureReported` | app/auth/callback/route.ts:17-24 | a failed code exchange redirects to the error page carrying the exchange error's message, with no profile write |
| `AuthCallback.LookupErrorReported` | app/auth/callback/route.ts:33-38 | a roster lookup error other than no-data redirects to the error page carrying its message, with no profile write |
| `AuthCallback.ProfileOnlyWhenAuthorized` | app/auth/callback/route.ts:40-59 | a profile is written exactly when there is no provider error, a code, a successful exchange, a session email and a roster row; it carries the user's id, email, display name and the time, and the redirect goes to `next` or `/dashboard` |
| `AuthCallback.NotOnRosterIsUnauthorized` | app/auth/callback/route.ts:35-63 | an email the roster does not hold (no row, or the no-data code) redirects to the unauthorized page, with no profile write |
| `AuthCallback.BareErrorPage` | app/auth/callback/route.ts:17-68 | with no code, or with no email in the session, the answer is the bare error page, and the code was exchanged exactly when there was one |
| `AuthCallback.CallbackAgreesWithClientCheck` | app/auth/callback/route.ts:31-59 | after a good exchange, the callback writes a profile exactly when the shared roster check calls the email authorized |
| `AuthContext.AuthProvider.constructor` | contexts/auth-context.tsx:21-24 | a new provider has no user or session, is loading, has no verdict and has made no calls |
| `AuthContext.AuthProvider.Snapshot` | contexts/auth-context.tsx:123-133 | the context value exposes exactly the provider's user, session, loading flag and verdict |
| `AuthContext.AuthProvider.OnAuthStateChange` | contexts/auth-context.tsx:41-74 | the listener stores the session and its user. Without an email, the verdict is cleared and loading ends. Otherwise it runs the roster check: an unauthorized sign-in navigates to the unauthorized page and returns while still loading; an authorized user's profile is upserted and loading ends |
| `AuthContext.AuthProvider.InitialSessionCheck` | contexts/auth-context.tsx:77-93 | the initial check stores the session and its user and ends loading; with an email, it stores the roster verdict and navigates to the unauthorized page exactly when that verdict is negative and the path contains `/dashboard` |
| `AuthContext.AuthProvider.SignInWithGoogle` | contexts/auth-context.tsx:100-116 | one Google OAuth request redirecting to `${origin}/auth/callback` with offline access and forced consent; the provider's error is rethrown; nothing else changes |
| `AuthContext.AuthProvider.SignOut` | contexts/auth-context.tsx:118-121 | one sign-out, then a navigation home; nothing else changes |
| `AuthContext.UseAuth` | contexts/auth-context.tsx:140-146 | the hook returns the context inside a provider and fails with the exact message outside one |
| `DashboardPage.RedirectEffect` | app/dashboard/page.tsx:17-26 | the page's redirect effect asks for exactly the navigation of the shared route guard |
| `DashboardPage.Greeting` | app/dashboard/page.tsx:68 | the greeting is the metadata name when non-empty; otherwise there is one exactly when the user has an email |
| `DashboardPage.GreetingUsesLocalPart` | app/dashboard/page.tsx:68 | without a name, an email `local@domain` greets `local` |
| `DashboardPage.AvatarOf` | app/dashboard/page.tsx:52-64 | the avatar is the provider's picture exactly when its URL is non-empty; otherwise the first letter of the name, or else of the email |
| `DashboardPage.Render` | app/dashboard/page.tsx:28-70 | the spinner exactly while loading; the content shows the user's greeting, avatar and email |
| `DashboardPage.RenderAgreesWithRedirect` | app/dashboard/page.tsx:17-38 | the page renders nothing exactly when its effect redirects, and renders content only for a user not known to be off the roster |
| `SignInPage.RedirectEffect` | app/auth/signin/page.tsx:19-28 | to the dashboard exactly for an authorized user, to the unauthorized page exactly for a user off the roster, nowhere while either is unknown |
| `SignInPage.NoRedirectLoop` | app/auth/signin/page.tsx:19-28 | the sign-in page never sends a user to a dashboard that would send them back: the dashboard shows its content to anyone sign-in sends there, and sign-in stays put for anyone the dashboard sends to sign-in |
| `SignInPage.SignInPageState.constructor` | app/auth/signin/page.tsx:16-17 | the page starts idle with no error |
| `SignInPage.SignInPageState.Render` | app/auth/signin/page.tsx:43-84 | the spinner exactly while authentication loads; the form shows the page's error and the button's busy state |
| `SignInPage.SignInPageState.BeginGoogleSignIn` | app/auth/signin/page.tsx:31-32 | the button turns busy and the error is cleared |
| `SignInPage.SignInPageState.FinishGoogleSignIn` | app/auth/signin/page.tsx:35-40 | the button turns idle, and a thrown error shows the fixed failure message |
| `SignInPage.SignInPageState.HandleGoogleSignIn` | app/auth/signin/page.tsx:30-41 | one Google OAuth request; the page ends idle, showing the failure message exactly when the provider failed; no navigation and no change to the user or verdict |
| `EmailDomain.SuffixAccepted` | app/auth/forgot-password/page.tsx:26 | the `endsWith` test accepts any text ending in `@ds.study.iitm.ac.in`, the bare suffix included (the browser's email-field check is not modelled) |
| `EmailDomain.IsInstituteEmail` | app/auth/forgot-password/page.tsx:26 | `endsWith("@ds.study.iitm.ac.in")`; `SuffixAccepted` and `ShortRejected` give the addresses it accepts and rejects (the same test is at app/auth/google-signin/page.tsx:44) |
| `EmailDomain.ShortRejected` | app/auth/forgot-password/page.tsx:26 | an address shorter than the suffix is refused |
| `ForgotPasswordPage.ForgotPasswordPageState.constructor` | app/auth/forgot-password/page.tsx:14-17 | the page starts with an empty field, an idle button, no error and the form shown |
| `ForgotPasswordPage.ForgotPasswordPageState.Render` | app/auth/forgot-password/page.tsx:67-112 | the banner shows exactly when there is an error, and it shows that error; the confirmation replaces the form exactly after success |
| `ForgotPasswordPage.ForgotPasswordPageState.SetEmail` | app/auth/forgot-password/page.tsx:101 | typing sets the field and changes nothing else |
| `ForgotPasswordPage.ForgotPasswordPageState.BeginSubmit` | app/auth/forgot-password/page.tsx:20-22 | submitting clears the error and turns the button busy |
| `ForgotPasswordPage.ForgotPasswordPageState.FinishSubmit` | app/auth/forgot-password/page.tsx:24-43 | after the pause, success exactly for an institute address, and otherwise the institute-only error; the button turns idle |
| `ForgotPasswordPage.ForgotPasswordPageState.HandleSubmit` | app/auth/forgot-password/page.tsx:19-44 | a whole submission ends idle, confirming exactly an institute address and showing the institute-only error otherwise |
| `GoogleSignInPage.OnlyPersonalAccountRefused` | app/auth/google-signin/page.tsx:14-30 | of the sample accounts, exactly the personal one is refused by the domain check |
| `GoogleSignInPage.GoogleSignInPageState.constructor` | app/auth/google-signin/page.tsx:33-34 | the picker starts idle with no error |
| `GoogleSignInPage.GoogleSignInPageState.BeginSelect` | app/auth/google-signin/page.tsx:39-40 | choosing an account clears the error and turns the picker busy |
| `GoogleSignInPage.GoogleSignInPageState.HandleAccountSelect` | app/auth/google-signin/page.tsx:38-61 | a non-institute address shows the institute-only error with no OAuth request and no navigation; an institute address makes one Google OAuth request, then shows the provider's error or navigates to the dashboard; the picker ends idle |
| `Ids.MaxOrZero` | app/admin/dashboard/events/page.tsx:122 | `Math.max(...ids, 0)` is at least 0 and every id, and is 0 or one of the ids |
| `Ids.NextId` | app/admin/dashboard/events/page.tsx:122 | the new id is positive, above every existing id, and so not among them (for JavaScript, below 2^53; see Left out) |
| `Ids.DistinctAppendFresh` | app/admin/dashboard/events/page.tsx:122-134 | appending the new id keeps ids distinct |
| `Listing.Filter` | app/admin/dashboard/events/page.tsx:157 | a filter is never longer than its input |
| `Listing.FilterMembers` | app/admin/dashboard/events/page.tsx:157 | an element survives a filter exactly when it was present and passes |
| `Listing.FilterConcat` | app/admin/dashboard/events/page.tsx:157 | a filter keeps the relative order of what it keeps |
| `Listing.FilterKeepsAll` | app/admin/dashboard/events/page.tsx:157 | a filter that every element passes removes nothing |
| `Listing.FilterSplits` | app/admin/dashboard/events/page.tsx:335-392 | a filter and its complement hold every element exactly as often as the input |
| `Listing.Keys` | app/admin/dashboard/events/page.tsx:122 | the id list has one id per record, position by position |
| `Listing.FilterDistinct` | app/admin/dashboard/events/page.tsx:157 | removing records keeps ids distinct |
| `Listing.AppendAboveDistinct` | app/admin/dashboard/events/page.tsx:127-134 | appending a record whose id is above every id keeps ids distinct |
| `Listing.AppendFreshDistinct` | app/admin/dashboard/events/page.tsx:122-134 | appending a record under the next id keeps ids distinct |
| `Listing.IncreasingDistinct` | app/admin/dashboard/events/page.tsx:29-74 | a list with strictly increasing ids has distinct ids |
| `Listing.IncreasingBetween` | app/admin/dashboard/events/page.tsx:29-74 | in a list with strictly increasing ids, every earlier id is below every later one |
| `EventsAdmin.WithField` | app/admin/dashboard/events/page.tsx:100-110 | the named field takes the typed value and every other field keeps its text |
| `EventsAdmin.UpcomingAt` | app/admin/dashboard/events/page.tsx:125 | an event is upcoming exactly when its end date parses and is not before the current time; `EventsScreen.HandleAddEvent` stores this flag on the added event |
| `EventsAdmin.Replaced` | app/admin/dashboard/events/page.tsx:118 | every event carrying the edited event's id becomes the edited event, all others stay in place, and the ids are unchanged position by position |
| `EventsAdmin.DeleteRemovesOnlyId` | app/admin/dashboard/events/page.tsx:156-158 | deletion keeps exactly the events with another id, and an absent id changes nothing |
| `EventsAdmin.WithoutId` | app/admin/dashboard/events/page.tsx:157 | `events.filter(e => e.id !== id)`; `DeleteRemovesOnlyId` and `DeleteKeepsOrder` state what it keeps |
| `EventsAdmin.DeleteKeepsOrder` | app/admin/dashboard/events/page.tsx:157 | deletion keeps the remaining events in their order |
| `EventsAdmin.ListsPartition` | app/admin/dashboard/events/page.tsx:335-392 | every event is listed exactly once, among upcoming or among past events |
| `EventsAdmin.SampleIdsDistinct` | app/admin/dashboard/events/page.tsx:29-74 | the four sample events carry the distinct ids 1 to 4 |
| `EventsAdmin.EventsScreen.constructor` | app/admin/dashboard/events/page.tsx:27-83 | the screen starts with the sample events, an empty draft, no edit and the form hidden, with distinct ids |
| `EventsAdmin.EventsScreen.ToggleAddForm` | app/admin/dashboard/events/page.tsx:186-189 | the button leaves edit mode and toggles the form, changing nothing else |
| `EventsAdmin.EventsScreen.HandleInputChange` | app/admin/dashboard/events/page.tsx:97-111 | typing updates one field of the edited event in edit mode, else of the draft, and nothing else |
| `EventsAdmin.EventsScreen.HandleEditEvent` | app/admin/dashboard/events/page.tsx:151-154 | editing opens the form on the chosen event |
| `EventsAdmin.EventsScreen.HandleAddEvent` | app/admin/dashboard/events/page.tsx:113-149 | in edit mode the edited event replaces the one with its id; otherwise the draft is appended under a fresh id, upcoming exactly when its end date is not before now. Either way the draft resets, the form hides and ids stay distinct |
| `EventsAdmin.EventsScreen.HandleDeleteEvent` | app/admin/dashboard/events/page.tsx:156-158 | the events with that id are removed, the rest keep their order, and ids stay distinct |
| `GalleryAdmin.WithField` | app/admin/dashboard/gallery/page.tsx:107-113 | width and height take the parsed number and other fields the typed text; every other field keeps its value |
| `GalleryAdmin.SizeFieldStoresNumber` | app/admin/dashboard/gallery/page.tsx:111 | typing a whole number into a size field stores that number (for JavaScript, up to 2^53; see Left out) |
| `GalleryAdmin.DeleteRemovesOnlyId` | app/admin/dashboard/gallery/page.tsx:143-145 | deletion keeps exactly the pictures with another id, in their order |
| `GalleryAdmin.WithoutId` | app/admin/dashboard/gallery/page.tsx:144 | `items.filter(item => item.id !== id)`; `DeleteRemovesOnlyId` states that it keeps exactly the other ids, in order |
| `GalleryAdmin.SampleIdsDistinct` | app/admin/dashboard/gallery/page.tsx:25-86 | the eleven sample pictures carry distinct ids, and the next id is 12 |
| `GalleryAdmin.GalleryScreen.constructor` | app/admin/dashboard/gallery/page.tsx:24-93 | the screen starts with the sample pictures, the blank 400 by 400 draft and the form hidden, with distinct ids |
| `GalleryAdmin.GalleryScreen.ToggleAddForm` | app/admin/dashboard/gallery/page.tsx:173 | the button toggles the form and changes nothing else |
| `GalleryAdmin.GalleryScreen.HandleInputChange` | app/admin/dashboard/gallery/page.tsx:107-113 | typing updates one field of the draft and nothing else |
| `GalleryAdmin.GalleryScreen.HandleAddItem` | app/admin/dashboard/gallery/page.tsx:115-141 | the draft is appended under an id above every existing id; the draft resets, the form hides and ids stay distinct |
| `GalleryAdmin.GalleryScreen.HandleDeleteItem` | app/admin/dashboard/gallery/page.tsx:143-145 | the pictures with that id are removed, the rest keep their order, and ids stay distinct |
| `PotwAdmin.WithField` | app/admin/dashboard/potw/page.tsx:123-129 | the named field of the draft takes the typed text and every other field keeps its value |
| `PotwAdmin.PhotoFromDraft` | app/admin/dashboard/potw/page.tsx:145-154 | the new photo carries the new id, the selected month and the draft's week parsed as an integer |
| `PotwAdmin.WeekOptionParsed` | app/admin/dashboard/potw/page.tsx:147 | a week typed as a whole number is stored as that number (for JavaScript, up to 2^53; see Left out) |
| `PotwAdmin.BucketOf` | app/admin/dashboard/potw/page.tsx:158-161 | a month's photos, or the empty list for a month with no entry |
| `PotwAdmin.ListedFor` | app/admin/dashboard/potw/page.tsx:385-423 | the empty state shows exactly when the selected month has no photos; otherwise the grid shows that month's photos |
| `PotwAdmin.DeletedEverywhere` | app/admin/dashboard/potw/page.tsx:178-189 | deletion keeps every month key |
| `PotwAdmin.WithoutId` | app/admin/dashboard/potw/page.tsx:184 | one month's `filter(photo => photo.id !== id)`; `DeleteEverywhereMeaning` states what survives in every month |
| `PotwAdmin.NextPhotoId` | app/admin/dashboard/potw/page.tsx:137-143 | the loop over all months finds an id above every photo id of every month, equal to one more than the largest or 1 when there are none |
| `PotwAdmin.DeleteFromEveryMonth` | app/admin/dashboard/potw/page.tsx:180-187 | the loop over the months filters each month's photos and gives the specified map |
| `PotwAdmin.DeletedEverywhereByMonth` | app/admin/dashboard/potw/page.tsx:183-185 | a map with the same months, each filtered, is the deletion |
| `PotwAdmin.DeleteEverywhereMeaning` | app/admin/dashboard/potw/page.tsx:178-189 | a photo stays in its month exactly when it was there with another id, and no month keeps the deleted id |
| `PotwAdmin.DeletePreservesInvariant` | app/admin/dashboard/potw/page.tsx:178-189 | deletion keeps every photo in its own month's list and ids distinct across months |
| `PotwAdmin.AddPreservesInvariant` | app/admin/dashboard/potw/page.tsx:156-163 | appending a photo of the selected month with an id above all ids keeps photos in their own month and ids distinct |
| `PotwAdmin.AddKeepsOwnBucket` | app/admin/dashboard/potw/page.tsx:156-163 | appending a photo to its own month keeps every photo in its own month's list |
| `PotwAdmin.AddKeepsIdsDistinct` | app/admin/dashboard/potw/page.tsx:137-163 | appending a photo whose id is above all ids keeps ids distinct across months |
| `PotwAdmin.JanuaryFacts` | app/admin/dashboard/potw/page.tsx:40-82 | the January samples have distinct ids up to 4 and are all January photos |
| `PotwAdmin.FebruaryFacts` | app/admin/dashboard/potw/page.tsx:83-94 | the February sample is photo 5 of February |
| `PotwAdmin.SampleInvariant` | app/admin/dashboard/potw/page.tsx:39-95 | the sample data keeps photos in their own month and ids distinct |
| `PotwAdmin.PotwScreen.constructor` | app/admin/dashboard/potw/page.tsx:26-95 | the screen starts on January with the blank draft, the form hidden and the sample photos |
| `PotwAdmin.PotwScreen.SelectMonth` | app/admin/dashboard/potw/page.tsx:240-241 | choosing a month selects it and changes nothing else |
| `PotwAdmin.PotwScreen.ToggleAddForm` | app/admin/dashboard/potw/page.tsx:217 | the button toggles the form and changes nothing else |
| `PotwAdmin.PotwScreen.OpenAddForm` | app/admin/dashboard/potw/page.tsx:418 | the empty state's button shows the form and changes nothing else |
| `PotwAdmin.PotwScreen.HandleInputChange` | app/admin/dashboard/potw/page.tsx:123-129 | typing updates one draft field and nothing else |
| `PotwAdmin.PotwScreen.HandleAddPhoto` | app/admin/dashboard/potw/page.tsx:131-176 | the draft becomes a photo of the selected month, appended to that month (created if absent) under an id above every id. The draft resets, the form hides, the grid then shows, and the invariant holds |
| `PotwAdmin.PotwScreen.HandleDeletePhoto` | app/admin/dashboard/potw/page.tsx:178-189 | the photo id is removed from every month, keeping the invariant |
| `Calendar.IndexOf` | app/potw/page.tsx:200 | `indexOf` is the first position holding the month, or -1 exactly when it is absent |
| `Calendar.MonthsDistinct` | app/potw/page.tsx:178-191 | the twelve month names are distinct |
| `Calendar.IndexOfDistinct` | app/potw/page.tsx:200 | in a list of distinct names, `indexOf` finds each name at its own position |
| `PotwCarousel.StepsUndo` | app/potw/page.tsx:199-209 | in any list of twelve distinct months, one step forward and one step back undo each other and stay in the list |
| `PotwCarousel.NextIn` | app/potw/page.tsx:205-209 | `months[(months.indexOf(m) + 1) % 12]` is always one of the listed names; `StepAt` and `StepsUndo` place it one position on, wrapping |
| `PotwCarousel.PrevIn` | app/potw/page.tsx:199-203 | `months[(months.indexOf(m) - 1 + 12) % 12]` is always one of the listed names; `StepAt` and `StepsUndo` place it one position back, wrapping |
| `PotwCarousel.Rotate` | app/potw/page.tsx:207 | n steps forward from a month index stay among the twelve indices |
| `PotwCarousel.AdvanceInAt` | app/potw/page.tsx:205-209 | n presses of "next" from month i land on month i + n, wrapping around |
| `PotwCarousel.FullCircle` | app/potw/page.tsx:205-209 | twelve presses of "next" return to the starting month |
| `PotwCarousel.NextMonthAt` | app/potw/page.tsx:199-209 | "next" goes from each month to the following one and "previous" to the one before, wrapping at the ends |
| `PotwCarousel.NextMonth` | app/potw/page.tsx:205-209 | the next button over the twelve month names; `NextMonthAt`, `CarouselWraps`, `NextPrevInverse` and `TwelveNextsReturn` state its meaning |
| `PotwCarousel.PrevMonth` | app/potw/page.tsx:199-203 | the previous button over the twelve month names; `NextMonthAt`, `CarouselWraps` and `NextPrevInverse` state its meaning |
| `PotwCarousel.CarouselWraps` | app/potw/page.tsx:199-209 | "next" wraps from December to January and "previous" from January to December |
| `PotwCarousel.NextPrevInverse` | app/potw/page.tsx:199-209 | "previous" undoes "next" and "next" undoes "previous" for every month |
| `PotwCarousel.TwelveNextsReturn` | app/potw/page.tsx:205-209 | twelve presses of "next" return to the month shown |
| `PotwCarousel.ListedFor` | app/potw/page.tsx:315-353 | the "no photos" state shows exactly when the month has no photos; otherwise the grid shows that month's photos |
| `PotwCarousel.CatalogueShape` | app/potw/page.tsx:37-176 | January to March each show weeks 1 to 4, numbered consecutively by month; every other month shows "no photos" |
| `PotwCarousel.PotwPage.constructor` | app/potw/page.tsx:23-25 | the page opens on January with no photo selected and the modal closed |
| `PotwCarousel.PotwPage.HandleNextMonth` | app/potw/page.tsx:205-209 | the next month is selected, and the selection stays one of the twelve months |
| `PotwCarousel.PotwPage.HandlePrevMonth` | app/potw/page.tsx:199-203 | the previous month is selected, and the selection stays one of the twelve months |
| `PotwCarousel.PotwPage.HandlePhotoClick` | app/potw/page.tsx:193-197 | clicking a shown photo selects it and opens the modal |
| `PotwCarousel.PotwPage.CloseModal` | app/potw/page.tsx:361-380 | closing hides the modal and keeps the month |
| `AboutAdmin.WithoutPosition` | app/admin/dashboard/about/page.tsx:68 | removing by position never lengthens the list |
| `AboutAdmin.RemoveActivityMeaning` | app/admin/dashboard/about/page.tsx:65-71 | removing position k of a list is the list without element k, and an index outside the list changes nothing |
| `AboutAdmin.RemoveActivityKeepsOthers` | app/admin/dashboard/about/page.tsx:68 | removing an activity removes exactly that one occurrence and keeps every other |
| `AboutAdmin.AboutScreen.constructor` | app/admin/dashboard/about/page.tsx:13-23 | the screen starts with the sample text, the four sample activities and nothing saved |
| `AboutAdmin.AboutScreen.HandleMainTextChange` | app/admin/dashboard/about/page.tsx:37-43 | typing replaces the text, keeps the activities and clears the saved flag |
| `AboutAdmin.AboutScreen.HandleActivityChange` | app/admin/dashboard/about/page.tsx:45-55 | typing replaces one activity, keeps all others and the length, and clears the saved flag |
| `AboutAdmin.AboutScreen.HandleAddActivity` | app/admin/dashboard/about/page.tsx:57-63 | adding appends one empty activity and clears the saved flag |
| `AboutAdmin.AboutScreen.HandleRemoveActivity` | app/admin/dashboard/about/page.tsx:65-71 | removing drops the activity at that position, if any, and clears the saved flag |
| `AboutAdmin.AboutScreen.HandleSave` | app/admin/dashboard/about/page.tsx:73-75 | saving sets the saved flag and keeps the content |
| `ContactAdmin.WithLink` | app/admin/dashboard/contact/page.tsx:43-52 | the named platform's link takes the value and the other links keep theirs |
| `ContactAdmin.ContactScreen.constructor` | app/admin/dashboard/contact/page.tsx:13-21 | the screen starts with the sample contact details and nothing saved |
| `ContactAdmin.ContactScreen.HandleEmailChange` | app/admin/dashboard/contact/page.tsx:35-41 | typing replaces the email, keeps the links and clears the saved flag |
| `ContactAdmin.ContactScreen.HandleSocialLinkChange` | app/admin/dashboard/contact/page.tsx:43-52 | typing replaces one link, keeps the email and clears the saved flag |
| `ContactAdmin.ContactScreen.HandleSave` | app/admin/dashboard/contact/page.tsx:54-56 | saving sets the saved flag and keeps the details |
| `JsText.WhitespaceIsListed` | app/api/seed-authorized-users/route.ts:19 | every character `trim` strips is one of the listed ECMAScript white-space and line-terminator characters |
| `JsText.Trim` | app/api/seed-authorized-users/route.ts:19 | `String.prototype.trim`; `TrimShape`, `TrimUntouched` and `TrimIdempotent` state what it returns |
| `JsText.ListedIsWhitespace` | app/api/seed-authorized-users/route.ts:19 | every listed white-space character is one `trim` strips |
| `JsText.TrimStartShape` | app/api/seed-authorized-users/route.ts:35 | the trimmed start is a suffix of the text, what it dropped is all whitespace, and it starts with non-whitespace |
| `JsText.TrimEndShape` | app/api/seed-authorized-users/route.ts:35 | the trimmed end is a prefix of the text, what it dropped is all whitespace, and it ends with non-whitespace |
| `JsText.TrimShape` | app/api/seed-authorized-users/route.ts:38-39 | `trim` returns a piece of the text with no whitespace at either end, and it is empty exactly when the text is all whitespace |
| `JsText.TrimUntouched` | app/api/seed-authorized-users/route.ts:19-20 | text with no whitespace at either end trims to itself |
| `JsText.TrimIdempotent` | app/api/seed-authorized-users/route.ts:38-39 | trimming twice is trimming once |
| `JsText.Split` | app/api/seed-authorized-users/route.ts:15-16 | `split` on one character always yields at least one piece |
| `JsText.SplitShape` | app/api/seed-authorized-users/route.ts:15-16 | the pieces hold no separator, they join back to the text, and there is one more piece than separators |
| `JsText.SplitJoin` | app/api/seed-authorized-users/route.ts:37 | splitting the join of separator-free pieces gives those pieces back |
| `JsText.SplitNoSeparator` | app/api/seed-authorized-users/route.ts:16 | text without the separator splits into itself alone |
| `JsText.SplitPrefix` | app/api/seed-authorized-users/route.ts:15 | a separator-free first piece is split off as it is |
| `JsText.SplitAppendSeparator` | app/api/seed-authorized-users/route.ts:15 | a trailing separator adds one empty piece |
| `JsText.SplitTwo` | app/api/seed-authorized-users/route.ts:37 | two separator-free cells joined by the separator split into those two cells |
| `JsText.SplitFirstPiece` | app/api/seed-authorized-users/route.ts:16 | the first piece is the text before the first separator |
| `JsText.EndsWithConcat` | app/auth/forgot-password/page.tsx:26 | any text followed by a suffix ends with that suffix |
| `JsText.EndsWith` | app/auth/forgot-password/page.tsx:26 | `String.prototype.endsWith`; `EndsWithConcat` and `EmailDomain.ShortRejected` give the texts it accepts and rejects |
| `JsText.IncludesConcat` | contexts/auth-context.tsx:87 | a text contains every piece placed inside it |
| `JsText.Includes` | contexts/auth-context.tsx:87 | `String.prototype.includes`; `IncludesConcat` states that every text placed inside another is found |
| `JsText.FirstChar` | app/dashboard/page.tsx:62 | `charAt(0)` is the first character, or "" for empty text (a whole character rather than a UTF-16 code unit; see Left out) |
| `JsNumber.DigitPrefix` | app/admin/dashboard/gallery/page.tsx:111 | the digits `parseInt` reads are the longest prefix of digits |
| `JsNumber.ParseInt` | app/admin/dashboard/gallery/page.tsx:111 | `Number.parseInt` with no radix, None for NaN; `ParseIntToString` and `ParseMagnitudeNumeral` state what it reads (also used at app/admin/dashboard/potw/page.tsx:147) |
| `JsNumber.NatToString` | app/admin/dashboard/gallery/page.tsx:111 | the decimal numeral of n is all digits, has no leading zero, and denotes n |
| `JsNumber.ParseMagnitudeNumeral` | app/admin/dashboard/gallery/page.tsx:111 | reading the decimal numeral of n gives n |
| `JsNumber.ParseIntToString` | app/admin/dashboard/gallery/page.tsx:111 | `parseInt` of the decimal text of any integer gives that integer back (for JavaScript, up to 2^53; see Left out) |
| `UriComponent.Utf8Char` | app/auth/callback/route.ts:14 | a code point encodes to 1 to 4 bytes, one exactly for ASCII |
| `UriComponent.Utf8CharRoundTrip` | app/auth/callback/route.ts:14 | decoding the first character of a UTF-8 encoding gives the character and its length |
| `UriComponent.Utf8RoundTrip` | app/auth/callback/route.ts:14 | UTF-8 decoding undoes UTF-8 encoding |
| `UriComponent.PercentBytesAlphabet` | app/auth/callback/route.ts:14 | the escapes of bytes contain only '%' and characters `encodeURIComponent` leaves alone |
| `UriComponent.EncodedAlphabet` | app/auth/callback/route.ts:14 | `encodeURIComponent` produces only unreserved characters and '%' |
| `UriComponent.EncodeUriComponent` | app/auth/callback/route.ts:14 | `encodeURIComponent`; `EncodedAlphabet`, `EncodedValueStaysOneParameter`, `EncodeConcat`, `EncodeUnreserved` and `EncodeDecodeRoundTrip` state its output |
| `UriComponent.FormBytesPercent` | app/auth/callback/route.ts:14 | decoding escapes of bytes gives those bytes back |
| `UriComponent.FormBytesOfEncoding` | app/auth/callback/route.ts:14 | decoding the encoding of a string gives its UTF-8 bytes |
| `UriComponent.FormDecode` | app/auth/error/page.tsx:13 | what `searchParams.get("error")` reads from a query value produced by `encodeURIComponent`; `EncodeDecodeRoundTrip` states that it inverts `EncodeUriComponent` (strict decoding; see Left out) |
| `UriComponent.EncodeDecodeRoundTrip` | app/auth/callback/route.ts:14 | the error page reads back exactly the message the callback encoded |
| `UriComponent.EncodedValueStaysOneParameter` | app/auth/callback/route.ts:14 | the encoded message holds no '&', '#', '=' or '+', so it stays one query value |
| `UriComponent.EncodeConcat` | app/auth/callback/route.ts:23 | encoding a concatenation encodes each part |
| `UriComponent.EncodeUnreserved` | app/auth/callback/route.ts:23 | text of unreserved characters encodes to itself |

## Left out

- The network and the store are inputs, not modelled code. This covers
  the roster fetch, the `student`, `users` and `authorized_users` tables,
  and the OAuth provider. The fixed roster URL and the store client's
  construction are not modelled. A failure to create the store client is
  not modelled.
- Asynchronous interleaving is not modelled. Each handler runs to
  completion between two awaits. The one await of a page handler
  separates a `Begin…` and a `Finish…` method. The listener and the
  initial session check of the authentication context each run
  atomically, and in either order.
- Time is one input string. The callback stamps both `last_sign_in` and
  `created_at` with it. The event editor's `new Date(endDate) >= new Date()`
  takes the parsed end date (None for an invalid date) and the current
  time as inputs. Date parsing itself is not modelled.
- The 3-second `setTimeout` that clears the saved flag on the about and
  contact screens is not modelled (app/admin/dashboard/about/page.tsx:76-78,
  app/admin/dashboard/contact/page.tsx:57-59). So is the 1-second pause on
  the password-reset page, and typing during it.
- The admin screens' `adminToken` guard is not modelled. It reads
  `localStorage` and redirects to `/admin/login`.
- Not modelled:
  - animations and in-view effects;
  - the carousel's descriptions and styling;
  - the "Use another account" button of the account picker;
  - logging to the console;
  - photo-of-the-week click tracking (`utils/supabase/potw-tracking.ts`
    is not part of this model).
- The generic "An unexpected error occurred" branches are not modelled,
  because every value thrown there is an `Error`. So is the "Unknown
  error" branch of the seeding endpoint.
- The error the upload utility returns keeps the thrown message or the
  store's error object. It does not keep the object's identity.
- Quoted CSV fields. The importers split every row on every comma and
  keep quote characters, so `"Jane Doe"` is imported with its quotes.
- The callback appends the `next` query value to the origin without
  checking it. The model keeps that behaviour.
- JavaScript strings are sequences of UTF-16 code units; the model's
  strings are sequences of Unicode characters. This matters only for text
  outside the Basic Multilingual Plane.
- `JsText.FirstChar` returns the whole first character, while `charAt(0)`
  returns its first UTF-16 code unit. For a name starting outside the Basic
  Multilingual Plane ("😀Ana") the dashboard avatar shows half a surrogate
  pair, and `DashboardPage.AvatarOf` shows the whole character.
- JavaScript numbers are doubles; the model's numbers are unbounded
  integers. Integers above 2^53 in magnitude are not modelled.
- `JsNumber.ParseIntToString` is exact for every integer, but
  `Number.parseInt` rounds above 2^53 (`parseInt("9007199254740993")` is
  9007199254740992). The lemma holds of JavaScript only for |n| <= 2^53.
- `GalleryAdmin.SizeFieldStoresNumber` rests on `ParseIntToString`, so it
  holds of JavaScript only for widths and heights up to 2^53.
- `PotwAdmin.WeekOptionParsed` rests on `ParseIntToString`, so it holds of
  JavaScript only for weeks up to 2^53.
- `Ids.NextId` gives a fresh id for every list of ids, but
  `Math.max(...ids, 0) + 1` stops giving a fresh id once the maximum
  reaches 2^53. The same bound applies to `PotwAdmin.NextPhotoId`.
- `UriComponent.FormDecode` decodes UTF-8 strictly: it returns None when
  the percent-decoded bytes are not well-formed UTF-8 (`%FF`, the overlong
  `%C0%AF`, the surrogate `%ED%A0%80`). `URLSearchParams.get` never fails;
  it replaces each ill-formed sequence with U+FFFD. The two agree on every
  value `encodeURIComponent` produces, which is the only kind the callback
  writes. An error page URL edited by hand is not modelled.
- The browser's constraint validation is not modelled. The forms mark
  fields `required` and some `type="email"` or `type="number"`
  (app/auth/forgot-password/page.tsx:99-104,
  app/admin/dashboard/events/page.tsx:217-317,
  app/admin/dashboard/gallery/page.tsx:201-264,
  app/admin/dashboard/potw/page.tsx:281-351), and the browser does not
  submit a form that fails them.
  `ForgotPasswordPage.ForgotPasswordPageState.HandleSubmit`,
  `EventsAdmin.EventsScreen.HandleAddEvent`,
  `GalleryAdmin.GalleryScreen.HandleAddItem` and
  `PotwAdmin.PotwScreen.HandleAddPhoto` are specified for every draft,
  including drafts the browser would refuse (an empty email, an event
  with an empty title). No property depends on this: the model allows
  more inputs than the page can submit.
- The roster lookup's answer is an input. The callback treats an error
  with code `PGSQL_ERROR_NO_DATA_FOUND`, or no row, as "not on the
  roster" (the client-side checks refuse on any error). The store
  library's `.single()` may instead report zero rows as an error with
  another code (PGRST116). In that case `AuthCallback.LookupErrorReported`
  applies, and the user reaches the error page rather than
  `/auth/unauthorized`. The library is not part of this model.
- `AboutAdmin.AboutScreen.HandleActivityChange` requires an index inside
  the list. Each input rendered per activity passes its own index.
  Assigning past the end of a JavaScript array is not modelled.
- `EventsAdmin.EventsScreen.HandleEditEvent` requires a listed event,
  because it is only reachable from the listed events' buttons.
- `PotwAdmin.PotwScreen.SelectMonth` requires one of the twelve month
  names, because the select offers only those.
- `PotwCarousel.PotwPage.HandlePhotoClick` requires a photo of the shown
  grid, because only those are clickable.
- `ForgotPasswordPage.ForgotPasswordPageState.BeginSubmit` and
  `ForgotPasswordPage.ForgotPasswordPageState.HandleSubmit` require an
  idle button, because the submit button is disabled while submitting.
  They also require that the form is still shown.
- `ForgotPasswordPage.ForgotPasswordPageState.SetEmail` requires that
  the form is still shown, because the field is gone after success.
- `GoogleSignInPage.GoogleSignInPageState.HandleAccountSelect` requires
  an idle picker, because the account buttons are disabled while it is
  busy.
