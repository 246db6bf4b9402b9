# Verified model of the recipe backend's concurrency protocols and loop cores

The backend is a FastAPI service over PostgreSQL. Its hard parts are small protocols written as
compare-and-set SQL statements whose readers, writers, retries and crashes interleave, and a few
loops with delicate arithmetic. This project models both and proves what they are for.

## How it is modelled

Tables are maps. Every SQL statement is one atomic step, and a "read, decide, compare-and-set,
mark" sequence is several. Each protocol has

- a state machine: a `State` of the tables, an `Action` for everything anybody can do, a total
  `Apply` for one action and `Exec` for a run, with lemmas over every run;
- a class whose fields are the tables and whose methods are the source's functions in the
  source's order of statements. Their contracts say what the new state is, or that what they
  did, with any interference between two statements, was a run of the state machine. `Interfere`
  stands for the actions of everybody else: its body does nothing, its contract lets them do
  anything, and callers see the contract only.

Ghost parts (`log`, `trace`, `accepted`, `rotations`, `made`, `held`, `offered`, a row's `lineage`, a
receipt's `setBy`) are history. No decision of the modelled code reads them.

| file | what it models |
|---|---|
| `Subscriptions.dfy`, `SubscriptionInvariant.dfy`, `SubscriptionTheorems.dfy`, `SubscriptionConvergence.dfy`, `SubscriptionServer.dfy` | Superwall webhooks, Apple notifications and StoreKit restores writing one profile |
| `RestoreSelection.dfy` | the choice of the transaction a restore reconciles with |
| `RefreshTokens.dfy` | refresh-token rotation, replay of a lost answer, logout |
| `PushQueue.dfy` | push deliveries: leases, retries, attempt cap, device ownership |
| `LibraryState.dfy` | the revisioned library snapshot and account deletion |
| `TranslationCache.dfy` | fingerprint-guarded translations of changing recipes |
| `RateLimits.dfy`, `BanLadder.dfy` | the sliding-window limiter and the bans that follow it |
| `JobSlots.dfy` | the slot guard, the admission of an import, the recursive drain |
| `FrameSampling.dfy`, `VisionBudget.dfy` | frame and time-stamp selection, the vision pass under its cost ceiling |
| `IngredientSections.dfy` | the ingredient-section rebuilder |

Where a promise holds only under a condition, the project proves when it holds:

- A webhook is applied at most once over all redeliveries and crashes exactly when no two handled
  Superwall events of one user carry the same time and no handled webhook without a timestamp
  shares its user with another event that touches profiles (`AtMostOnceExactly`). A webhook without
  a timestamp goes by the clock of each delivery, so its redelivery can overwrite a newer event
  (`UndatedOverwritesNewer`). Superwall's check lets a tie through and Apple's does not
  (`AppleAtMostOnce`).
- The order in which events arrive makes no difference to the event a profile ends with exactly when
  every two of them have times of their own that differ, or tie as a Superwall event and another one
  (`ConvergesExactly`).
- A logout ends the session exactly when the unrevoked token of the session, if any, is the one
  presented or the successor made of it under the presented request id (`LogoutExactly`). When the
  logout has to wait for the rotation's row lock and goes by an older view of the table, the session
  ends exactly when that rotation does not commit in between (`LogoutRace`).
- The limiter reads its clock before it takes its lock, so calls may enter with an older time than
  the call before. Its bound holds for all calls that step back by at most some lag exactly when
  the lag is zero or the limit is one or none (`BoundedExactly`). The service's limits are larger.
- The ban table does the same. Its rungs, its three causes and the distance between bans hold at any
  times (`LadderHolds`); that the causes lie within five minutes, that the table agrees with the
  definition, and that requests are refused only while a ban runs hold exactly when nothing steps
  back (`FiveMinutesExactly`, `StateRefinesLedger`, `ShutExactlyDuringBans`).
- Releasing a slot keeps the guard's books exactly when the user held one or nobody held any
  (`ReleaseKeepsBooksExactly`).

Assumptions that stand for things outside the model: hashes and derived tokens are injective
functions (so rows are keyed by the token, and a fingerprint is the content it fingerprints);
random tokens are new; a redelivered webhook carries the content it carried the first time, its
timestamp or the lack of one included; the clock of a database never steps back; the default ingredient-section title does not look optional.

## Model

| member | source | states |
|---|---|---|
| SubscriptionInvariant.StepKeepsInv | app/superwall.py:105-322 | Any one statement of any delivery keeps the invariant: profile columns are what the log of writes replays to, writes to a profile never go back in time (Apple's and restores' go strictly forward), no profile is rewritten by the event it carries, every receipt and every delivery in flight is truthful; and no profile time decreases, no terminal receipt changes |
| SubscriptionInvariant.WriteStep | app/superwall.py:285-317 | The compare-and-set either writes exactly this event on the row it had read, or changes nothing, and keeps the invariant either way |
| SubscriptionInvariant.ReadStep | app/superwall.py:204-224 | The ordering check keeps the invariant: duplicates are vouched for by an earlier write, out-of-order events by a later profile time |
| SubscriptionInvariant.MarkStep | app/superwall.py:127-143 | Marking, confirming and failing a receipt never makes it say something untrue and never undoes a terminal mark |
| SubscriptionInvariant.RunKeepsInv | app/apple_notifications.py:127-230 | The invariant holds, and nothing goes back, along every run of interleaved, repeated, failing and crashing deliveries of both stores, restores, sign-ins and account closures |
| SubscriptionInvariant.GrantEntitles | app/superwall.py:252-281 | What each kind of event grants, column by column: an activation its own expiry; an end no entitlement and its own expiry or the present; a cancellation and the like its own expiry and the entitlement until then; an Apple notification and a restore likewise |
| SubscriptionInvariant.KeyTells | app/apple_notifications.py:218 | Two events have one key exactly if they come from the same writer with the same id |
| SubscriptionTheorems.NothingGoesBack | app/superwall.py:204-317 | Over any continuation of any run subscription_event_at never decreases, terminal receipts never change and the log only grows |
| SubscriptionTheorems.ReceiptsTellTheTruth | app/superwall.py:127-143 | A receipt reads processed only if that very event was written; skipped as out of order only if the profile has passed the time the delivery that said so went by; what a caller was told is true in the same way |
| SubscriptionTheorems.MarkIsAlwaysConfirmed | app/superwall.py:127-143 | The second read after a mark that changed nothing always finds a terminal receipt, so its error is never raised |
| SubscriptionTheorems.ClosedAccountIsLeftAlone | app/superwall.py:285-299 | In every reachable state a closed account has no entitlement, and nothing but a sign-in changes anything about it |
| SubscriptionTheorems.SignInAndClosure | app/store.py:584-592 | A sign-in opens the profile and leaves the rest of it; a closure takes the entitlement and leaves the event |
| SubscriptionTheorems.GoesOnExactly | app/superwall.py:188-202 | An event goes on to the profile exactly if it names an account and, as a webhook, is of a handled kind, at most seven days old and at most five minutes ahead; else the receipt says which failed first |
| SubscriptionTheorems.OrderingCheckExactly | app/superwall.py:204-224 | Where the ordering check sends a delivery, by the columns of the profile, ties included |
| SubscriptionTheorems.NewestEventWins | app/superwall.py:204-317 | Event id, time and entitlement of a profile all come from one event that is at least as new as every event of that user that reached the ordering check, each by the time its delivery went by: its own, or for a webhook without a timestamp the clock; is_pro and expiry are, case by case, what that kind of event entitles to; a profile without an event was reached by none |
| SubscriptionTheorems.AppleAtMostOnce | app/apple_notifications.py:134-154 | An Apple notification is written at most once on every run, even with tied times |
| SubscriptionTheorems.RestoreAtMostOnce | app/apple_notifications.py:134-154 | Two writes of one restored transaction are of two restores, the second strictly newer |
| SubscriptionTheorems.ClashIsRewritten | app/superwall.py:73-89 | For any pair that clashes (two Superwall events of a user that tie, or one without a timestamp and any other of the user) there is a run that writes the first of the two twice, with the second in between, and leaves the first on the profile |
| SubscriptionTheorems.UndatedOverwritesNewer | app/superwall.py:73-89 | The failing input without a tie: a webhook without a timestamp comes in at 1, a newer event is written at 2, the redelivery at 3 overwrites it |
| SubscriptionTheorems.AtMostOnceExactly | app/superwall.py:212-317 | All webhooks are written at most once on all runs if and only if no two handled Superwall events of a user tie on their time and no handled webhook without a timestamp shares its user with another event that touches profiles |
| SubscriptionTheorems.RewriteNeedsClash | app/superwall.py:285-299 | Two writes under one key, whatever times their deliveries went by, leave behind two sent events that clash, one of them with that key |
| SubscriptionTheorems.RedeliverySettles | app/superwall.py:105-161 | From every reachable state, five uninterrupted statements of a fresh delivery leave the event's receipt terminal and answer the sender without an error |
| SubscriptionConvergence.SuperwallWinsTies | app/superwall.py:212-224 | Of a Superwall event and another with one time the Superwall event ends on the profile, in either order |
| SubscriptionConvergence.Convergence | app/apple_notifications.py:127-169 | Two runs in which the same events reached the ordering check leave the same event on the profile, its time if it is its own, and its entitlement unless that depends on the clock or the account was closed, whatever the order, duplicates, faults and crashes |
| SubscriptionConvergence.Diverge | app/superwall.py:212-224 | For any two events that only arrival tells apart there are two runs in which both reached the ordering check and that end with different events |
| SubscriptionConvergence.ConvergesExactly | app/apple_notifications.py:127-169 | Arrival order makes no difference to the event a profile ends with if and only if no two events of the user lack a time of their own or tie while the ordering check treats them alike |
| SubscriptionServer.Server.SelectReceipt | app/superwall.py:105-124 | The receipt as it is in the table, and where the delivery goes from there |
| SubscriptionServer.Server.InsertReceipt | app/superwall.py:105-124 | Inserts a received receipt iff there is none, changes nothing else, and tells a unique violation from an insertion |
| SubscriptionServer.Server.SelectProfile | app/superwall.py:204-224 | The profile row as it is, and where the ordering check sends the delivery |
| SubscriptionServer.Server.UpdateProfile | app/superwall.py:285-299 | Writes iff the open row still carries what was seen; then the row carries the event's time and key and, case by case, what that kind of event entitles to, and nothing else changes |
| SubscriptionServer.Server.UpdateStatus | app/superwall.py:127-143 | Sets the status iff the receipt is received or failed, changes nothing else, and reports whether a row came back |
| SubscriptionServer.Server.ConfirmStatus | app/superwall.py:127-143 | The read after an update of no row always succeeds |
| SubscriptionServer.Server.RecordEvent | app/superwall.py:105-124 | With interference between its statements: pending exactly if the receipt read last is not terminal, a run of the machine throughout |
| SubscriptionServer.Server.ApplyToProfile | app/apple_notifications.py:127-169 | Read, decide, compare-and-set, re-read under interference is a run of the machine; nothing returned means the retry exception |
| SubscriptionServer.Server.MarkEvent | app/apple_notifications.py:110-124 | The mark always completes, whoever else marks meanwhile |
| SubscriptionServer.Server.Reconcile | app/superwall.py:190-317 | Gate, profile and mark, with the failure path marking the receipt failed, end in the outcome returned |
| SubscriptionServer.Server.ProcessEvent | app/superwall.py:146-322 | A whole webhook under interference at every statement, its time the one it carries or the clock when it comes in: the answer is true of the tables, and any answer but an error leaves a terminal receipt |
| SubscriptionServer.Server.RestoreSubscription | app/apple_notifications.py:277-307 | The reconciliation of a restore at its own time; what it reports is the entitlement on the open profile as read last |
| SubscriptionServer.OthersLeaveAlone | app/superwall.py:164-322 | No actions of others move a delivery, so the interference contract covers all of them |
| SubscriptionServer.AnswerIsTrue | app/superwall.py:146-161 | On every run a finished delivery's outcome is true, and any outcome but an error or a crash has a terminal receipt |
| RestoreSelection.EntryOrder | app/apple_notifications.py:285 | The order in which the newest transaction is chosen is total, transitive and antisymmetric, so the maximum is unique |
| RestoreSelection.FirstDifferenceDecides | app/apple_notifications.py:285 | Ids compare by their first differing character, a beginning coming first |
| RestoreSelection.TakenExactly | app/apple_notifications.py:243-275 | A transaction counts exactly if it is well signed, of this application, environment and a known product, of this account or none, with an id and two dates, running and unrevoked |
| RestoreSelection.RefusedExactly | app/apple_notifications.py:243-258 | The restore is refused exactly for a bad signature, another application or environment, or a known product of an unreadable or other account |
| RestoreSelection.Latest | app/apple_notifications.py:285 | The maximum of the valid transactions |
| RestoreSelection.SelectTransaction | app/apple_notifications.py:240-285 | Refused iff some transaction is unverifiable, foreign or misaddressed, with the reason of the first; else the newest purchase among the valid ones, and none only if there is none |
| RestoreSelection.RestoreTakesEffect | app/apple_notifications.py:243-291 | From any state with an open profile that has seen neither this restore nor an event as new, the restore leaves an entitlement that is active at its time, by an unrevoked transaction of this application and of no other account |
| RefreshTokens.SuccessorIsNew | app/auth_tokens.py:23-29 | The successor of an unrevoked token is never already in the table, so issuing cannot collide |
| RefreshTokens.ExchangeExactly | app/auth_tokens.py:68-108 | An exchange happens exactly if the token is in the table, unrevoked and unexpired and its profile open; then it is revoked now and remembers the request for 900 s, and exactly one row is new, of the same user and login with the expiry given |
| RefreshTokens.ExpiredIsRefused | app/auth_tokens.py:75 | An expired token is never exchanged in any later state |
| RefreshTokens.RotateKeepsInv | app/auth_tokens.py:58-115 | A rotation keeps: one unrevoked token per login, no token exchanged twice, remembered requests point at the derived successor; and revoked rows stay as they are |
| RefreshTokens.RevokeKeepsInv | app/auth_tokens.py:141-196 | Any revocation keeps the invariant and changes no row that was revoked before |
| RefreshTokens.LineageIsLinear | app/auth_tokens.py:45-138 | On every run of logins, rotations, retries, logouts and closures each login has at most one unrevoked token, no token is exchanged twice, no rotation meets an existing successor |
| RefreshTokens.DeadForever | app/auth_tokens.py:58-138 | A lineage without an unrevoked token stays so, and neither statement of an exchange ever does anything for any of its tokens again |
| RefreshTokens.ReplayExactly | app/auth_tokens.py:115-138 | In every later state a retry of a rotation adds no row and is answered, with the same successor, exactly if it names the same request within 900 s while the successor is unrevoked and unexpired and the profile open |
| RefreshTokens.NoReplayAfterExchange | app/auth_tokens.py:115-131 | Once the successor was itself exchanged the old request is refused in every later state, whatever request id is named |
| RefreshTokens.LogoutWins | app/auth_tokens.py:141-184 | However a logout with the pending request id, the rotation it races with, its retries and everybody else's actions interleave statement by statement, the lineage ends dead and inert |
| RefreshTokens.LogoutConfluent | app/auth_tokens.py:58-164 | Logout before rotation and rotation before logout both leave the lineage dead |
| RefreshTokens.LogoutExactly | app/auth_tokens.py:149-164 | A logout kills the lineage if and only if its unrevoked token, if any, is the presented one or the matching request's successor |
| RefreshTokens.LateLogoutExactly | app/auth_tokens.py:149-164 | A logout that waited for a row lock with an older view of the table kills the lineage iff every token of it unrevoked by then was seen and named |
| RefreshTokens.LogoutRace | app/auth_tokens.py:58-164 | Such a logout, waiting while others act and nobody else ends the session, leaves the lineage dead if and only if no rotation of its token was committed in between |
| RefreshTokens.TokenStore.CreateRefreshToken | app/auth_tokens.py:45-55 | Issues one row, of this user with this expiry and of a login of its own, for a token that was not in the table |
| RefreshTokens.TokenStore.RevokeAndIssue | app/auth_tokens.py:67-115 | The first statement by columns: a token comes back iff the one presented was there, unrevoked, unexpired and of an open profile; what becomes of the old row and what is in the new one |
| RefreshTokens.TokenStore.RotateRefreshToken | app/auth_tokens.py:58-138 | Exchanged iff the token was there, unrevoked, unexpired and of an open profile, with the columns of both rows; else the replay answer of the later state, or nothing without a request; whoever gets a token gets the one unrevoked token of the lineage presented |
| RefreshTokens.TokenStore.RevokeRefreshToken | app/auth_tokens.py:141-169 | Exactly the presented token and the successor of the matching request are revoked, keeping an earlier revocation; no other row or column changes |
| RefreshTokens.TokenStore.RevokeAllRefreshTokens | app/auth_tokens.py:187-196 | Afterwards no token of the user is unrevoked; rows of others and rows revoked before are unchanged |
| PushQueue.ApplyKeepsInv | app/store.py:638-767 | Registration, unregistration, deletion, enqueueing, claims and reports keep the shape of rows (pending below 8 attempts, live rows hold a token, terminal rows none) and their ownership |
| PushQueue.EnqueueKeepsInv | migrations/010_apns_recipe_completion.sql:113-150 | Completion enqueues one row per device of its recipients, owned by the device's present account |
| PushQueue.FinishKeepsInv | app/store.py:719-767 | A report of any worker, however stale and about whatever row, keeps shape and ownership |
| PushQueue.RunKeepsInv | app/store.py:638-767 | Every delivery of a registered device names the device's present owner, on every run of any number of workers, leases and re-registrations |
| PushQueue.HandedToOwner | app/store.py:677-716 | What a claim hands out belongs to the present owner of the device and carries a token; a claimed row whose device is registered is always handed out |
| PushQueue.ChangeDecreases | app/store.py:677-767 | Every change of a row decreases (8 - attempts, processing > pending > terminal); attempts never fall; terminal rows never change |
| PushQueue.DeliveryTerminates | app/store.py:677-767 | Along every run attempts count the claims exactly, a row is claimed at most 8 times, and it changes at most as often as its measure |
| PushQueue.NoRowIsStuck | app/store.py:677-716 | Once retry time and lease have passed an active row is either claimable or closed by the next claim, and no unhindered claim overlooks it |
| PushQueue.ClaimExactly | app/store.py:677-716 | What a claim does to every row, column by column: the chosen one was due, is leased for 90 s and counts one attempt more; lapsed rows in their eighth attempt are closed; all others stay |
| PushQueue.LeaseHolds | app/store.py:686-697 | While a lease runs or a retry is not due no claim changes the row |
| PushQueue.FirstDueIsTaken | app/store.py:694-696 | Nothing unlocked and claimable was due before the row taken, or due with it and created before it |
| PushQueue.ReportExactly | app/store.py:719-767 | What each of the four reports does to every row and device, column by column |
| PushQueue.SentExactly | app/store.py:758-767 | Along its life a row becomes sent exactly by a report of success that meets it while it is processing |
| PushQueue.RegisterExactly | app/store.py:638-660 | The device is the account's, the former owner's deliveries for it are gone, all else is kept |
| PushQueue.UnregisterExactly | app/store.py:663-674 | The account has neither the device nor deliveries for it, all else is kept |
| PushQueue.DeleteExactly | app/store.py:594-595 | The account has no devices and no deliveries, others keep theirs |
| PushQueue.EnqueueExactly | migrations/010_apns_recipe_completion.sql:132-145 | One pending row, due at once and not yet attempted, for each recipient's device without a row for the job |
| PushQueue.BackoffIsExact | app/worker.py:79-90 | For every row a claim can hand out, up to the eighth attempt, and every reported delay, the next attempt is set to the longer of that delay and 5 s doubled per attempt, capped at an hour once; the row stays open iff this was not the eighth |
| PushQueue.PushStore.UpsertPushDevice | app/store.py:638-660 | Exactly the machine's registration; the former owner's queue for the device is gone |
| PushQueue.PushStore.DeletePushDevice | app/store.py:663-674 | Exactly the machine's unregistration: neither the device nor a delivery for it is the account's any more |
| PushQueue.PushStore.DeleteAccountPushes | app/store.py:594-595 | Exactly the machine's deletion: no device and no delivery of the account is left |
| PushQueue.PushStore.EnqueueCompletionPushes | migrations/010_apns_recipe_completion.sql:113-150 | Exactly the machine's enqueueing: one new row per recipient's device, existing rows untouched |
| PushQueue.PushStore.FindCandidate | app/store.py:686-697 | The earliest claimable row not locked by others, and nothing only if there is none |
| PushQueue.PushStore.SweepAndTake | app/store.py:680-705 | Closes exactly the exhausted rows and takes exactly the candidate |
| PushQueue.PushStore.ClaimPushDelivery | app/store.py:677-716 | The claim with its candidate and what the joins hand to the worker |
| PushQueue.PushStore.FinishPushDelivery | app/store.py:719-767 | Exactly the machine's report, for each of the four results: a row being processed ends sent, failed or pending as reported, an invalid device is gone with the active rows of its user |
| PushQueue.PushStore.RunPushDelivery | app/worker.py:66-103 | What it did is a run, with any actions of others, that ends with exactly the report of the push service's answer with the worker's backoff, or of a retry in 60 s after an exception; the state is that report's effect on whatever became of the row |
| LibraryState.RowOfNext | app/library_state.py:69-80 | Appending to and cutting the stored history gives the last three superseded versions of the extended chain of writes |
| LibraryState.SaveKeepsInv | app/library_state.py:34-87 | A save keeps the row equal to what its accepted writes amount to |
| LibraryState.ApplyKeepsInv | app/main.py:649-662 | Every single action, a sign-in that reactivates a closed profile included, keeps rows exact and closed accounts empty |
| LibraryState.RunKeepsInv | app/store.py:575-597 | On every run, deletions interleaved statement by statement with saves and reactivations, rows are what their accepted writes amount to and no closed account owns one |
| LibraryState.HistoryIsTheLastThree | app/library_state.py:61-87 | Revision is the number of accepted writes, each writer named the revision before its own, history is exactly the last min(3, revision - 1) versions in order |
| LibraryState.RevisionOnlyGrows | app/library_state.py:61-87 | Until the account's deletion commits the row stays, its revision never falls and accepted writes stay accepted |
| LibraryState.StaleWriterIsRefused | app/library_state.py:61-87 | Of all saves naming one revision at most the first is accepted until the account is deleted, and it is never lost from the chain |
| LibraryState.DeletionCommits | app/store.py:575-597 | A committed deletion leaves a closed profile without a library row, whatever ran meanwhile |
| LibraryState.SaveExactly | app/library_state.py:34-87 | A save is accepted exactly if the profile is there, open and not being deleted and the revision named is the row's, 0 for none; what the row then holds; nobody else's row changes |
| LibraryState.SignInReopens | app/main.py:649-662 | A sign-in opens a closed profile and brings no row back: the next save is a first revision |
| LibraryState.WaitIsDecided | app/store.py:575-597 | A save that waits for a deletion is refused by its commit, and after a rollback decided by the revision it names |
| LibraryState.LibraryStore.GetUserLibraryState | app/library_state.py:19-31 | The stored row, or revision 0 exactly when there is none |
| LibraryState.LibraryStore.SaveUserLibraryState | app/library_state.py:34-87 | Exactly the machine's save; the row if accepted, a refusal, or no answer yet while a deletion in progress holds the lock |
| LibraryState.LibraryStore.DeleteAccountData | app/store.py:575-597 | With others acting between its statements, ends with the profile closed and no library row |
| TranslationCache.RunKeepsInv | app/pipeline.py:629-646 | Every cache entry and every payload about to be stored was made for its recipe and language from a row with the fingerprint it names, on every run of rewrites and jobs |
| TranslationCache.FingerprintIsContent | app/translation_cache.py:93-111 | Two rows have one fingerprint exactly if title, description, steps, tags, missing fields, tips, servings and minutes agree and they show the same sections, old rows one default section |
| TranslationCache.ServedExactly | app/translation_cache.py:114-133 | A row is served in another language exactly if the entry was made from a row of the same content, and then shows that translation and else the base |
| TranslationCache.CacheIsCoherent | app/translation_cache.py:93-133 | A row served at any later moment is the base as read, or a translation of this recipe into the language asked for, made from a row that agrees with the base in every field a translation depends on |
| TranslationCache.LastStoreDecides | app/pipeline.py:641-646 | After a store and any run without another store of that recipe and language, the recipe is served with that payload iff its content is then, field by field, that of the row the job had read, else untranslated: a late job may hide a good translation but never shows a wrong one |
| TranslationCache.Store.UpsertRecipe | app/store.py:228-245 | Rewrites one recipe and leaves every cache entry as it is, to be told outdated by its fingerprint |
| TranslationCache.Store.GetRecipeTranslation | app/translation_cache.py:12-31 | An entry iff there is one with the fingerprint asked for |
| TranslationCache.Store.LocalizedRecipeRow | app/translation_cache.py:114-133 | The base in its own language; else the overlay iff the entry was made from a row of the same content, field by field; else nothing |
| TranslationCache.Store.GetRecipeTranslations | app/translation_cache.py:34-46 | Exactly the entries of the given recipes in one language |
| TranslationCache.Store.ListUserRecipeSummaries | app/store.py:264-294 | The batch path equals, row by row and in order, the single-row path with the base as fallback |
| TranslationCache.Store.UpsertRecipeTranslation | app/translation_cache.py:49-73 | Replaces the entry of one recipe and language and nothing else |
| TranslationCache.Store.RunTranslationJob | app/pipeline.py:619-646 | Under interference, the stored payload is paired with the content that was read, not with the recipe as it is by then |
| RateLimits.CutIsRecent | app/security.py:150-151 | For times in order, popping the front of a deque is filtering the whole history |
| RateLimits.PopFinds | app/security.py:148-152 | A deque left over from an earlier cutoff, popped again, is what the full history leaves, and its length counts the window that ends now |
| RateLimits.DequeRefinesHistory | app/security.py:146-156 | For calls in order the limiter admits exactly the calls a definition over the full history admits, and its deque is the admitted calls still inside the window |
| RateLimits.WindowBound | app/security.py:146-156 | No interval (x - W, x], for any x, holds more than the limit of admitted calls of a key |
| RateLimits.RefusedOnlyWhenFull | app/security.py:146-156 | A call is refused iff its window holds exactly the limit |
| RateLimits.LateCallBreaks | app/security.py:146-156 | For every limit of two or more, and every step back of the clock shorter than the window, a run of calls admitting more than the limit inside one window |
| RateLimits.BoundedExactly | app/security.py:146-156 | For calls stepping back by at most a lag, the bound holds on all of them iff the lag is zero or the limit is at most one |
| RateLimits.SlidingWindowLimiter.PopOld | app/security.py:150-151 | The popping loop leaves what the specification of a cut deque says |
| RateLimits.SlidingWindowLimiter.Allow | app/security.py:146-156 | The new table of deques differs in this key only; the answer is yes iff the window of the full history had room; the deque is the window's admitted calls |
| BanLadder.HistorySound | app/security.py:222-239 | On every history of violations, in any order of their times: every ban has exactly three causes, the last starting it, all at or after the end of the ban before, and its rung's length; level and deadline are those of the bans imposed |
| BanLadder.LadderHolds | app/security.py:222-239 | On every history the n-th ban lasts 300, 3600 and then 86400 s after three violations, and any two bans are disjoint with the later one's causes after the earlier one's end |
| BanLadder.NoneCountsTwice | app/security.py:229-238 | The causes of all bans and the violations still watched are violations that took place, none counted twice |
| BanLadder.OldCauseBans | app/security.py:223-231 | The failing input: two violations with their times swapped let a third ban the key with a cause more than five minutes old |
| BanLadder.FiveMinutesExactly | app/security.py:223-231 | For violations stepping back by at most a lag, all causes of all bans lie within five minutes iff the lag is zero |
| BanLadder.StateRefinesLedger | app/security.py:178-239 | For violations stepping back by at most a lag, bans and deque are what a definition over the whole history determines iff the lag is zero |
| BanLadder.RunningBanIsLast | app/security.py:222-228 | On every history no two bans run at one moment, and a running one is the last iff no newer thread has imposed a later one |
| BanLadder.ShutUntilTheLastEnd | app/security.py:207-219 | On every history the gate is shut exactly until the end of every ban there was |
| BanLadder.ShutExactlyDuringBans | app/security.py:207-219 | For readings of the clock, from zero on, that lag behind the violations by at most a lag, the gate is shut exactly while some ban runs iff the lag is zero |
| BanLadder.ExtractBansStayScoped | app/security.py:189-199 | A ban of an extract key never has the ban key of any plain address or user |
| BanLadder.AddressesMeetTheGate | app/security.py:189-199 | A violation under any other key that ends in an address lands on the ban key every request from that address asks about |
| BanLadder.UsersMeetTheGate | app/security.py:189-199 | And under a key that ends in a user, on the one every request of that user asks about |
| BanLadder.RetryAfter | app/security.py:202-204 | The whole seconds left, never less than one |
| BanLadder.BanTable.RaiseIfBanned | app/security.py:207-219 | Refuses iff the deadline that the key's whole history leads to lies ahead, and says how long |
| BanLadder.BanTable.Strike | app/security.py:225-239 | The next state is the specification's; seconds are returned iff the key is banned now, and which |
| BanLadder.BanTable.RecordViolation | app/security.py:222-239 | One more violation in the history of this ban key; seconds iff banned, those left of a running ban or those of the new rung |
| JobSlots.ReleaseGivesBack | app/job_guard.py:39-45 | A release by a holder gives back exactly that user's slot |
| JobSlots.ReleaseKeepsBooksExactly | app/job_guard.py:39-45 | Counter and dictionary still describe some set of held slots after a release iff the user held one or nobody held any |
| JobSlots.Oldest | app/store.py:510-531 | The claim's choice: the first pending job of the user, or of all, and none only if there is none |
| JobSlots.OrderedOneMore | app/pipeline.py:562-580 | Running a user's oldest job first keeps each user's jobs in order of creation |
| JobSlots.DrainedOneMore | app/pipeline.py:562-596 | One job run before a drain of the rest is a drain of the whole |
| JobSlots.OldestOfItsOwner | app/pipeline.py:573-580 | The oldest job of all is its owner's oldest |
| JobSlots.Pipeline.TryClaim | app/job_guard.py:16-26 | Takes a slot iff both bounds leave one |
| JobSlots.Pipeline.Release | app/job_guard.py:39-45 | Gives back the slot of a holder |
| JobSlots.Pipeline.ClaimNextPending | app/store.py:510-531 | The oldest pending job becomes processing, no other changes |
| JobSlots.Pipeline.RunExtractJob | app/pipeline.py:481-487 | Run, release, recursive drain terminates, gives back every slot taken since within both bounds, runs each pending job at most once to the end its extraction has, the owner's own oldest first after every run and else the oldest of all, and stops only when none is pending or the oldest one's owner has no free slot |
| JobSlots.Pipeline.ReleaseAndDrain | app/pipeline.py:481-487 | The finally block: the same for what follows a run |
| JobSlots.Pipeline.Drain | app/pipeline.py:562-580 | With a free slot and a pending job of its own the user's oldest runs first, else if anything the oldest of all; then each run's owner's own oldest before the oldest of all; slots as before, jobs drained, stopped |
| JobSlots.Pipeline.DrainOldest | app/pipeline.py:573-580 | The same for its second half; a job whose owner has no slot is put back as it was |
| JobSlots.Pipeline.RunClaimed | app/pipeline.py:583-596 | The same for a claimed job and all that follows it |
| JobSlots.Pipeline.RunAlone | app/pipeline.py:481-487 | With no other slot held, one run leaves no pending extract behind |
| JobSlots.Pipeline.AdmitExtract | app/main.py:1062-1153 | The slot is kept by exactly the admissions that schedule a run, and which those are; every refusal, replay and failure gives it back |
| FrameSampling.RoundIsNearest | app/extract.py:938-939 | Half-even rounding gives a nearest integer, the even one of two |
| FrameSampling.SpreadIncreases | app/extract.py:936-941 | Rounded spread positions of different frames differ and keep their order |
| FrameSampling.SpreadIsNear | app/extract.py:936-939 | Each position is a nearest integer to its exact place |
| FrameSampling.SpreadEnds | app/extract.py:936-941 | The first and the last position are the first and the last frame |
| FrameSampling.EvenPicks | app/extract.py:936-941 | The rounding loop never drops an index |
| FrameSampling.Backfill | app/extract.py:942-948 | The backfill loop only appends, and does nothing when there are enough |
| FrameSampling.SelectSpreadFrameIndexes | app/extract.py:927-948 | For all arguments: strictly increasing, in range, as many as can be had, from the first frame to the last, each nearest to its exact position; sorting and backfill change nothing |
| FrameSampling.IntervalReaches | app/extract.py:173-176 | As many intervals as there are frames reach beyond the clip, and one frame's interval is the whole clip |
| FrameSampling.IntervalExactly | app/extract.py:173-176 | The interval is the larger of 1.5 s and the clip divided by its frames, one to 32 |
| FrameSampling.FirstTick | app/extract.py:183 | The first sample: 8 % into the clip, between 0.2 and 1.2 s, and before its end |
| FrameSampling.LastIsRegular | app/extract.py:190-197 | The stamps start with the first sample, follow at intervals to the millisecond and end within 0.45 intervals of 0.35 s before the end |
| FrameSampling.SamplesFit | app/extract.py:186-188 | The sampling loop takes no more stamps than frames, also when the caller asks for more than the maximum |
| FrameSampling.LastFits | app/extract.py:190-197 | Appending or replacing the final stamp keeps the stamps spaced, inside and without a gap over two intervals |
| FrameSampling.TightCovers | app/extract.py:179-202 | Without gaps over two intervals every moment of the clip lies within one interval of a stamp |
| FrameSampling.SampleTimes | app/extract.py:183-188 | The loop's stamps are the rounded ticks, never more than asked for, up to the end of the clip |
| FrameSampling.Dedupe | app/extract.py:198-202 | Clipping and dropping change nothing about spaced stamps |
| FrameSampling.OverlaySampleTimes | app/extract.py:179-202 | At most max_frames stamps, more than 0.2 s apart, inside the clip, at regular intervals from the first sample to the end, and every moment within one sampling interval of a stamp |
| VisionBudget.PlanIsAnArrangement | app/pipeline.py:510-537 | First-pass frames followed by the leftover ones name every affordable frame once and no other |
| VisionBudget.SentOnce | app/pipeline.py:515-543 | Of a plan carried out up to some point nothing was sent twice, and all of it was sent or skipped |
| VisionBudget.Affordable | app/pipeline.py:503-509 | At least one frame if there are any, never more than there are |
| VisionBudget.AffordableExactly | app/pipeline.py:503-509 | As many frames as the remaining budget pays for at a price of 0.01 or more: more than one cost no more than it, and where frames are left out one more would |
| VisionBudget.VisionRun.RunBatch | app/pipeline.py:515-529 | A batch is sent iff its own estimate stays within the ceiling, else it is skipped and costs nothing |
| VisionBudget.VisionRun.RunLeftover | app/pipeline.py:537-543 | The leftover frames in order, four an attempt and fewer only at the end, until the first attempt that succeeds |
| VisionBudget.VisionRun.IncrementalBuild | app/pipeline.py:490-543 | For all costs, charges and outcomes: first as many spread frames as asked for, then the others; no frame sent twice, none beyond the affordable ones, no batch started over the ceiling; it stops at the first attempt that succeeds, and otherwise every affordable frame was sent or in a batch that would not fit |
| IngredientSections.NearestHeadingRules | app/recipe_builder.py:548-566 | The title over a row is that of the nearest heading above it in its section |
| IngredientSections.SectionRules | app/recipe_builder.py:534-546 | Without a heading above it is the section's own |
| IngredientSections.UnderItsSection | app/recipe_builder.py:534-546 | A row under its section's title is optional if that looks optional or the row has a marker, else filed under the default title if it is generic or blank, else under the title itself |
| IngredientSections.UnderItsHeading | app/recipe_builder.py:548-566 | Under a heading the same by the heading's text, whatever the section's title |
| IngredientSections.LongLinesAreIngredients | app/recipe_builder.py:465-476 | A line that ends like a heading is one with six words at most; with more only its words can make it one |
| IngredientSections.MarkersAreTakenOff | app/recipe_builder.py:479-497 | A marker in front or inside makes the row optional and is taken off its name |
| IngredientSections.ToTaste | app/recipe_builder.py:517-525 | A kept row without an amount gets the to-taste quantity, no unit and no density |
| IngredientSections.FirstOptional | app/recipe_builder.py:575-579 | The first optional-looking section, past the end if there is none |
| IngredientSections.MergeOptional | app/recipe_builder.py:573-581 | The first optional-looking section takes the bucket, without one it becomes a last section of its own |
| IngredientSections.FileSection | app/recipe_builder.py:534-569 | The inner loop over a section computes the specified run over its rows |
| IngredientSections.SectionsFile | app/recipe_builder.py:528-571 | The closed and the open sections together hold exactly the required rows under their titles, in order; the bucket holds exactly the optional ones |
| IngredientSections.PowerUp | app/recipe_builder.py:500-584 | Unless nothing survives: required rows once each, in order, under the right titles; optional ones in order in one last section; no empty section; the merge never happens |
| IngredientSections.EveryRowOnce | app/recipe_builder.py:548-571 | Required and optional rows together are the rows to keep, each as often as given |
| IngredientSections.AmountIsKept | app/recipe_builder.py:465-497 | A row with a quantity or a unit is never taken for a heading and keeps its amounts, dropped only if its name is blank without its marker |
| IngredientSections.EveryKeptRowHasAnAmount | app/recipe_builder.py:517-525 | Every row kept has an amount, to taste if it had none |
| IngredientSections.DroppedOnlyIfBlank | app/recipe_builder.py:479-497 | A row without a marker is dropped iff its name is blank |

## Left out

- Convergence: states nothing about entitlements after an account closure, which scrubs them without changing the event id; about an entitlement that depends on the clock of the delivery; and about two restores of one transaction at one moment with different expiries.
- LogoutWins: requires that the client rotates the token only under the request id it logs out with and does not use the successor it has not been told; LogoutExactly says what happens otherwise.
- Effects of database snapshots inside one statement, in the runs of the state machines: every statement is atomic there. What a logout does that waits with an older view is stated beside them (`LateLogoutExactly`, `LogoutRace`).
- The columns of a subscription that no decision reads (product, price, proceeds, limits), the redacted payloads, and unparsable stored datetimes.
- The profile lookup for the receipt's user column, JWS verification (its result is a parameter), missing configuration and maintenance mode.
- A Superwall event id that is spelled like one of Apple's: keys are tagged by their writer here, the source uses a text prefix.
- Access tokens, user agents, address hashes, the missing-secret error, and the push unregistration that may accompany a logout.
- The pieces of one push transaction seen by another: each function is one step; the completion trigger against a re-registration in progress is not interleaved, and its recipients are a parameter.
- A failure to report a push result (it is logged and dropped; the lease then expires), language and environment columns, and the heartbeats.
- The other tables of an account deletion, and its library interleaving beyond the statements that touch the profile and the library row.
- Language normalisation and name tables are parameters; a translation payload is the complete text of a recipe.
- The Redis limiter.
- The drain with database errors, with a separate worker, in maintenance mode or with other actors; translation jobs, which release their slot without draining; status updates of a job after its failure; accounting of spend.
- Floating point: durations, stamps, costs and the spread step are exact reals and rationals; rounding to milliseconds and to the even integer is modelled.
- An OCR call that fails outright ends the vision pass; what OCR returns, how evidence is merged and what a built recipe is are parameters.
- Regular expressions, word tables and string trimming of the section rebuilder are parameters; the density restoration that follows it is not modelled.
- The yearly free cap, spend reservation, job leases, row-level security, and the reset scripts.
