# Code Olympics challenge generator, modelled in Dafny

Code Olympics is a hackathon site. A participant signs up with an email and a
Discord username. They then draw a random challenge made of three parts:
- a core constraint (8 choices);
- a line budget (8 choices);
- a project domain (10 choices).

They may decline and redraw until their play count reaches three. Then they
accept a combination, which is saved with their record in a Firestore
"participants" collection. This project models the logic behind that flow.

- `Wrappers` holds `Option`.
- `Separator` models JavaScript's `split` with a string separator and its
  inverse `join`. It proves that join undoes split for every string, and
  that split undoes join for pieces that lack a character occurring in the
  separator only once (for " → " the arrow, for a line break the line break
  itself).
- `ChallengeData` is the challenge catalog with its exact strings, and
  `generateRandomChallenge` with `Math.random()` given as three reals in
  [0, 1).
- `Firebase` models the store:
  - the collection is a sequence of participant records;
  - `docs[0]` of an email query is the first record with that email;
  - `DEV_BYPASS`, the `db` initialisation and the three helpers are modelled.
    Each helper has a `Store` method or function, proved against a pure
    update function.
- `ChallengeResults` models the results view:
  - `parseChallengePart`;
  - the buttons rendered for a play count;
  - the clipboard text and its inverse;
  - `handleAcceptCombo`.
- `ChallengeAccepted` models the 5-second countdown overlay as pure tick
  functions and a `Countdown` class.
- `ChallengeVisualizer` models the challenge page:
  - its state and render guards;
  - the sessions a participant can click through, with the bound of three
    draws;
  - a `Visualizer` class whose methods call the store.
- `EmailForm` models the sign-up form: a pure `Submit` and a `Form` class
  whose `HandleSubmit` is proved equal to it.

Where the code does something other than its own comments or the flow
above suggest, the model follows the code:
- The comment on `DEV_BYPASS` (lib/firebase.ts:5) says it bypasses the
  Firebase checks during development. The form, however, tests only `db`
  (components/email-form.tsx:31), and with `DEV_BYPASS = true` as shipped
  `db` stays null. So every submission ends with the "Firebase is not
  configured" error instead of being let through
  (`EmailForm.BypassRejectsEverySubmission`).
- "Generate My Challenge" is shown whenever there is no challenge and no
  animation, whatever the play count (components/challenge-visualizer.tsx:66).
  So a participant who comes back to the challenge page gets at least one
  more draw on every visit (`ChallengeVisualizer.ReturningParticipantDrawsAgain`).
  With the bypass, `getUserData` returns null, so the count restarts at 0
  and they get three draws per visit
  (`ChallengeVisualizer.BypassVisitAllowsThreeDraws`).
- The countdown overlay is not rendered by the results view. Accepting only
  saves the combination, and on a draw before the third the redraw button
  stays on screen (`ChallengeVisualizer.RedrawStillOfferedAfterAccept`).

## Model

| member | source | states |
|---|---|---|
| Separator.IndexOf | components/challenge-results.tsx:23 | finds the leftmost occurrence of the separator at or after a position; None exactly when none follows |
| Separator.Split | components/challenge-results.tsx:23 | `split` returns at least one piece, and no piece contains the separator |
| Separator.PrefixBeforeFirstIsFree | components/challenge-results.tsx:23 | the text before the first occurrence contains no occurrence |
| Separator.JoinSplit | components/challenge-results.tsx:23 | joining the pieces of a split with the separator gives back the original string |
| Separator.NoMarkerIsFree | components/challenge-results.tsx:23 | a string lacking a character that occurs once in the separator cannot contain the separator |
| Separator.FirstOccurrenceAfter | components/challenge-results.tsx:23 | in t + sep + r with t marker-free, the first occurrence is right after t |
| Separator.OnlyOccurrenceBetween | components/challenge-results.tsx:23 | in t + sep + r with both sides marker-free, that is the only occurrence |
| Separator.SplitOnlyOccurrence | components/challenge-results.tsx:23 | a string with a single occurrence splits into exactly the text before and after it |
| Separator.SplitAfterFirstPiece | components/challenge-results.tsx:23 | splitting t + sep + r with t marker-free yields t followed by the pieces of r |
| Separator.SplitJoin | components/challenge-results.tsx:23 | splitting the join of marker-free pieces gives the pieces back |
| ChallengeData.Entries | lib/challenge-data.ts:2-33 | each catalog string is a title, " → " and a description, in list order |
| ChallengeData.CatalogSizes | lib/challenge-data.ts:2-33 | the lists hold 8, 8 and 10 entries: 640 combinations |
| ChallengeData.EntryHasOneArrow | lib/challenge-data.ts:2-33 | a catalog-style entry contains " → " exactly once, right after its title |
| ChallengeData.CatalogEntryHasOneArrow | lib/challenge-data.ts:2-33 | every string of the three lists contains " → " exactly once |
| ChallengeData.DrawIndex | lib/challenge-data.ts:37-39 | `Math.floor(Math.random() * length)` is a valid index of the list |
| ChallengeData.GenerateRandomChallenge | lib/challenge-data.ts:36-42 | the constraint, budget and domain each come from their own list |
| ChallengeData.DrawIndexReaches | lib/challenge-data.ts:37-39 | every index k is drawn by some random value, namely k / length |
| ChallengeData.EveryCombinationDrawable | lib/challenge-data.ts:36-42 | every one of the combinations can be generated |
| ChallengeData.FieldsDrawnIndependently | lib/challenge-data.ts:37-39 | each field depends only on its own random value |
| Firebase.FirstMatch | lib/firebase.ts:40-44 | `docs[0]` of an email query: the first record with that email, or None exactly when there is none |
| Firebase.FirstMatchFollowsEmails | lib/firebase.ts:40-44 | the query result depends only on the emails of the records, in order |
| Firebase.IncrementFirst | lib/firebase.ts:43-47 | the matched record's play count goes up by one; every other record and field is unchanged |
| Firebase.SaveComboFirst | lib/firebase.ts:78-83 | the matched record gets the combination and hasPlayed = true; every other record is unchanged |
| Firebase.IncrementSeenByLookup | lib/firebase.ts:35-69 | after an increment, getUserData finds the same record with one more play; lookups of other emails see no change |
| Firebase.SaveComboIdempotent | lib/firebase.ts:71-88 | saving the same combination twice equals saving it once |
| Firebase.UpdatesKeepEmailsUnique | lib/firebase.ts:35-88 | neither update creates a duplicate email |
| Firebase.DbInitialised | lib/firebase.ts:21-30 | `db` ends up set exactly when the bypass is off, the API key is present and non-empty, and initialisation does not throw |
| Firebase.Store.constructor | lib/firebase.ts:6-30 | `db` is set only without the bypass, with a non-empty API key, and when initialisation does not throw |
| Firebase.Store.Enabled | lib/firebase.ts:36 | a helper goes past its guard only when the bypass is off and `db` is set; the same guard is at lines 55 and 72 |
| Firebase.Store.GetUserData | lib/firebase.ts:54-69 | returns the first matching record; null when bypassed, when `db` is unset, when the call fails or when there is no match |
| Firebase.Store.IncrementPlayCount | lib/firebase.ts:35-52 | applies IncrementFirst when enabled and not failing; otherwise the collection is unchanged |
| Firebase.Store.SaveAcceptedCombo | lib/firebase.ts:71-88 | applies SaveComboFirst when enabled and not failing; otherwise the collection is unchanged |
| Firebase.BypassDisablesStore | lib/firebase.ts:6 | with DEV_BYPASS as shipped, every helper is a no-op and getUserData returns null |
| ChallengeResults.ParseChallengePart | components/challenge-results.tsx:22-25 | the title is the text before the first " → "; the description is the text between it and the next " → ", or undefined when there is none |
| ChallengeResults.FirstPiecesOfSplit | components/challenge-results.tsx:24 | the first two elements of the split are those two texts |
| ChallengeResults.ParseOneArrow | components/challenge-results.tsx:22-25 | a string with one " → " parses into the text on either side, which rebuild it |
| ChallengeResults.ParseEntry | components/challenge-results.tsx:22-29 | parsing undoes building an entry from a title and a description |
| ChallengeResults.ParseCatalogEntry | components/challenge-results.tsx:27-29 | every catalog string has a description, and title + " → " + description is the string |
| ChallengeResults.IsLastAttempt | components/challenge-results.tsx:36 | the last attempt is reached exactly when the "attempts left" count 3 - playCount is no longer positive; before it, at least one attempt is left |
| ChallengeResults.ResultControls | components/challenge-results.tsx:121-150 | redraw is offered exactly while the play count is below 3, showing 3 - playCount (at least 1) attempts left; accept and copy are always offered |
| ChallengeResults.CopyText | components/challenge-results.tsx:145 | the clipboard text is five lines joined by line breaks: the header, a blank line, and one labelled line per field |
| ChallengeResults.JoinFiveLines | components/challenge-results.tsx:145 | joining five lines with "\n" puts a line break between each pair |
| ChallengeResults.CopyTextRoundTrip | components/challenge-results.tsx:145 | the clipboard text reads back as the same challenge whenever no field holds a line break |
| ChallengeResults.CatalogHasNoLineBreak | lib/challenge-data.ts:2-33 | no catalog string contains a line break |
| ChallengeResults.DrawnChallengeCopyRoundTrip | components/challenge-results.tsx:141-147 | every drawn challenge is recovered exactly from its clipboard text |
| ChallengeResults.HandleAcceptCombo | components/challenge-results.tsx:31-34 | saves the challenge shown, unchanged, under the user's email, with saveAcceptedCombo's effect |
| ChallengeAccepted.CeilDiv | components/challenge-accepted.tsx:41 | `Math.ceil(x / d)`: the least q with x <= q * d |
| ChallengeAccepted.SecondsLeft | components/challenge-accepted.tsx:41 | the seconds shown are the whole seconds still to wait, never negative, at most 5 for elapsed ≥ 0, and 0 from the deadline on |
| ChallengeAccepted.SecondsLeftNonIncreasing | components/challenge-accepted.tsx:41 | the seconds shown never go up |
| ChallengeAccepted.ProgressPercent | components/challenge-accepted.tsx:40 | progress is elapsed / 5000 as a percentage, capped at 100, and is 100 from the deadline on |
| ChallengeAccepted.ProgressNonDecreasing | components/challenge-accepted.tsx:40 | the progress bar never goes back |
| ChallengeAccepted.Start | components/challenge-accepted.tsx:20-33 | the interval runs only when visible; nothing has fired yet; the initial progress 0 and 5 seconds are what a tick at 0 ms would show |
| ChallengeAccepted.Tick | components/challenge-accepted.tsx:38-52 | a cleared interval changes nothing; a running one shows the progress and seconds for the elapsed time, and at 5000 ms or later stops and fires onComplete and the redirect once, together |
| ChallengeAccepted.CompletesOnce | components/challenge-accepted.tsx:38-52 | onComplete and the redirect fire together, at most once, exactly when a tick reaches 5000 ms; the interval is cleared then |
| ChallengeAccepted.NoCompletionBeforeDeadline | components/challenge-accepted.tsx:46 | ticks before 5000 ms never complete and leave the interval running |
| ChallengeAccepted.HiddenDoesNothing | components/challenge-accepted.tsx:33 | an invisible overlay starts no interval, so no tick changes anything |
| ChallengeAccepted.FiftiethTickCompletes | components/challenge-accepted.tsx:36-52 | with 100 ms ticks, completion and redirect happen once, at the 50th tick |
| ChallengeAccepted.Countdown.constructor | components/challenge-accepted.tsx:20-57 | starts at progress 0 and 5 seconds, with the interval running exactly when the overlay is rendered, that is when visible |
| ChallengeAccepted.Countdown.OnTick | components/challenge-accepted.tsx:38-52 | the interval callback has exactly Tick's effect |
| ChallengeVisualizer.Initial | components/challenge-visualizer.tsx:16-23 | the page opens with a play count of 0, showing the generate button and no results |
| ChallengeVisualizer.ShowsGenerateButton | components/challenge-visualizer.tsx:66 | the generate button shows exactly when there is no challenge and no animation |
| ChallengeVisualizer.ShowsResults | components/challenge-visualizer.tsx:75 | the results show exactly when there is a challenge and no animation |
| ChallengeVisualizer.Loaded | components/challenge-visualizer.tsx:25-33 | the play count becomes the stored count, or 0 without data; the rest is unchanged |
| ChallengeVisualizer.Generated | components/challenge-visualizer.tsx:35-41 | one more play; the animation is on; the previous challenge is cleared |
| ChallengeVisualizer.AnimationDone | components/challenge-visualizer.tsx:44-48 | the drawn challenge is shown and the animation stops, with the play count unchanged |
| ChallengeVisualizer.GuardsExclusive | components/challenge-visualizer.tsx:66-82 | the generate button and the results never show together, neither shows while animating, and one always shows otherwise |
| ChallengeVisualizer.Offered | components/challenge-visualizer.tsx:66-82 | generate is clickable exactly when its button shows; accept exactly when the results show; redraw exactly when the results show and the count is below 3; no button while animating, and the timeout fires only while animating |
| ChallengeVisualizer.Apply | components/challenge-visualizer.tsx:35-48 | generate and redraw both run handleGenerateChallenge (one more play, animating, no challenge); the timeout shows a catalog challenge with the count unchanged; accept leaves the page as it is |
| ChallengeVisualizer.Generations | components/challenge-visualizer.tsx:35-38 | counts the clicks that start a draw |
| ChallengeVisualizer.PlayCountCountsDraws | components/challenge-visualizer.tsx:35-38 | the page's play count is the loaded count plus the number of draws |
| ChallengeVisualizer.DrawsWithinRemaining | components/challenge-visualizer.tsx:66-82 | no click sequence starts more draws than the generate button plus the redraws still allowed |
| ChallengeVisualizer.AtMostThreeDraws | components/challenge-visualizer.tsx:25-82 | a visit allows at most max(1, 3 - stored count) draws: three for a new participant |
| ChallengeVisualizer.ThreeDrawsReachable | components/challenge-results.tsx:121-140 | a new participant can draw three times; after that redraw is gone and accept remains |
| ChallengeVisualizer.ShownChallengeFromCatalog | components/challenge-visualizer.tsx:44-48 | any challenge on the page is a combination of catalog strings |
| ChallengeVisualizer.RedrawStillOfferedAfterAccept | components/challenge-results.tsx:121-131 | accepting does not change the page, so before the third draw redraw stays offered |
| ChallengeVisualizer.ReturningParticipantDrawsAgain | components/challenge-visualizer.tsx:66 | a participant whose stored count is 3 or more still gets one draw per visit, since the generate button ignores the count |
| ChallengeVisualizer.BypassVisitAllowsThreeDraws | components/challenge-visualizer.tsx:25-33 | with the bypass, every visit starts at a count of 0 and allows three draws again |
| ChallengeVisualizer.Visualizer.constructor | components/challenge-visualizer.tsx:16-23 | the page starts not animating, with no challenge, a play count of 0 and no user data |
| ChallengeVisualizer.Visualizer.LoadUserData | components/challenge-visualizer.tsx:25-33 | stores getUserData's result and takes its play count, as Loaded states |
| ChallengeVisualizer.Visualizer.HandleGenerateChallenge | components/challenge-visualizer.tsx:35-42 | increments the stored count through the helper and moves the page to Generated |
| ChallengeVisualizer.Visualizer.FinishAnimation | components/challenge-visualizer.tsx:44-48 | shows generateRandomChallenge's result and stops the animation |
| EmailForm.Submit | components/email-form.tsx:24-68 | appends a new record and hands on (email, username) with no error exactly when `db` is set, nothing throws and the email is new; otherwise the collection is unchanged: without `db` the configuration error, when the lookup or the insert throws the generic error, and for a known email the "already played" error together with that record's saved combination |
| EmailForm.NewParticipant | components/email-form.tsx:52-59 | the new record holds the email and username, a play count of 0, no combination and hasPlayed false, and is found by an email lookup |
| EmailForm.FirstMatchAppend | components/email-form.tsx:38-59 | the email query on a collection with one more record |
| EmailForm.NewParticipantFound | components/email-form.tsx:52-59 | after sign-up the email is found at the new record, with a play count of 0, no combination and hasPlayed false |
| EmailForm.SecondSubmissionTurnedAway | components/email-form.tsx:41-49 | a registered email is never handed on again; unless the lookup throws, it gets the "already played" message |
| EmailForm.SubmitKeepsEmailsUnique | components/email-form.tsx:38-59 | the form never creates a duplicate email |
| EmailForm.BypassRejectsEverySubmission | components/email-form.tsx:31-35 | with DEV_BYPASS as shipped, every submission fails with the configuration error |
| EmailForm.Form.constructor | components/email-form.tsx:18-22 | empty fields, not loading, no error, no combination |
| EmailForm.Form.SetEmail | components/email-form.tsx:84 | the email input sets the email |
| EmailForm.Form.SetDiscordUsername | components/email-form.tsx:92 | the Discord input sets the username |
| EmailForm.Form.HandleSubmit | components/email-form.tsx:24-68 | the collection, error, shown combination and onEmailSubmitted call are those of Submit; loading ends |

## Left out

- Timestamps: the `timestamp: new Date()` field of a new record is not modelled.
- Firestore itself: the collection is a sequence, and `docs[0]` is taken to be the first record in that sequence. The SDK, its ordering and its network calls are outside the model. A thrown call is a `fails` flag or a `Fault` value.
- Asynchrony: every `await`, `setTimeout` and `setInterval` callback is one atomic step. Races are not modelled, such as a second click on "Generate My Challenge" before the first increment resolves, or a `getUserData` result that arrives after a draw. Loading the user's data is taken as the page's first event.
- Two browser tabs signing up the same email at once can both pass the lookup. The model treats submissions one at a time.
- `Date.now()` is replaced by the elapsed milliseconds a tick receives, as a whole number. Progress is an exact rational, not a floating-point number.
- ChallengeAccepted.FiftiethTickCompletes: assumes that the interval fires at exact multiples of 100 ms. The callback reads `Date.now()`, and real timers promise no such thing. `CompletesOnce` holds for any sequence of tick times.
- The effect re-running when `isVisible` or `onComplete` changes is not modelled, nor is its cleanup on unmount. A re-run restarts the interval with a new start time, but does not reset the progress or the seconds shown. `Countdown` fixes `isVisible` when it is created.
- ChallengeAccepted.CompletesOnce: "at most once" holds for one run of the effect. A re-run after completion, caused by a new `onComplete`, starts a fresh interval, so `onComplete` and the redirect would fire again 5 s later.
- Side effects outside the page's state are reduced to what can be observed of them:
  - the clipboard text is returned by `CopyText`;
  - each `window.open` of the Discord invite is counted as a redirect;
  - each `onComplete` call is counted as a completion, and the callback's body is not modelled;
  - `console.error` is dropped, and the error it logs is represented by the `fails` or `Fault` parameter.
- `toLowerCase` on the titles in the results text, the cube animation, the mobile lockout, the page routing and all styling are presentation only.
- Browser-side form validation (`required`, `type="email"`) is not modelled: `Submit` accepts any strings, as the handler does.
- The `app` object and the Firebase configuration fields other than `apiKey` do not affect any modelled behaviour.
