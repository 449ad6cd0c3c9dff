# Cheti, modelled and proved in Dafny

Cheti obtains certificates with ACME DNS-01 challenges (section 8.4 of RFC 8555):
it places TXT values under `_acme-challenge` names through the API of a DNS
provider, waits until they are visible, lets the ACME server validate, and takes
them down again. Several issuances share names, every call can fail, and every
future can be dropped at any await. This project models that core as state
machines and imperative code and proves what it promises over all runs and all
inputs.

## How the parts fit

- `KeyedLock` is the in-process lock whose table prunes itself; `LockedCalls`
  runs provider calls under it.
- `AtomicRecords` is the contract of `DnsProvider`: each call adds or removes its
  value atomically, at most once, and Ok means it did. `WholeSetRewrite` (Gandi,
  PowerDNS, Route53) and `CompareAndSwap` (Google Cloud DNS) refine it.
  `RecordPerValue` (Infomaniak, Bunny) lists records page by page and refines it
  but for one guarantee: a cleanup may overlook a record on a later page.
  `StableListing` says what a call makes of the pages it reads, `RecordCounts`
  when nothing is overlooked and how many records there can be, and `RecordRuns`
  gives the runs in which paging and replays do harm. `Providers` is the union of
  the three; `CompletionRewriting`, `CompletionSwapping` and `CompletionListing`
  show that their calls get done.
- `CleanupGuard`, `Solver`, `SolveOrder` and `AcmeDriver` are one solve: its
  guard, its steps, the order of its events and its ACME driver, and
  `SolveCompletion` shows that it gets done, after an error or a drop too. The
  challenges of a `Solver` are the records that the driver's loop places, in order.
- `EndToEnd` runs any number of solves over any of the three designs, and
  `SharedNames` adds the names as callers spell them.
- `Names`, `ZoneResolution`, `Pages` and `RecordListing` find the record set that
  a name stands for; `TxtValues` reads and writes the values in it.
- `Retry`, `Polling`, `CanonicalQuery` and `AccountStore` are the loops and the
  two smaller cores around it.

`dafny verify dfyconfig.toml` checks all of it.

## What the model takes for granted

- A server applies each request atomically. A request that was cut off has taken
  effect by then or never does.
- The lock covers one process. Other writers appear where a property mentions
  them: for Google Cloud DNS, and there at any time.
- A server that answers 429, or a Route53 throttling code, has not processed the
  request. The two at-most-once properties take this as a hypothesis; the step
  systems build it in, as they replay no POST (Google's changes, Infomaniak's
  creations).
- A server lists the records of a zone in some order, and a creation or deletion
  changes the order of no other two.
- Clocks, answers of servers and resolvers, and allocation addresses are
  parameters that the properties quantify over.
- Text is a sequence of characters; lengths agree with the bytes of the source
  on the ASCII names that validation lets through.

## Where the code does less than one might expect

- PowerDNS answers Ok to `present` when a disabled record holds the value, which
  is then not served: `TxtValues.PresentServesUnlessDisabled` has the exact
  condition.
- Infomaniak's listing can miss a record that is there throughout, if a record of
  another name is removed in front of it between two pages. Two cleanups of one
  process for two names suffice for one to return Ok and leave its record:
  `RecordRuns.OtherNameHidesOurRecord`. A record is certain to be listed if and
  only if it is on the first page when that is requested:
  `RecordListing.SafeIffOnTheFirstPage`. Under that condition cleanups leave
  nothing behind: `RecordCounts.CleanupLeavesNoRecord`,
  `EndToEnd.NothingIsLeftBehind`. So they do, on whatever page a record stands,
  when the zone stays as it is while it is listed:
  `StableListing.StableListingMissesNothing`.
- Bunny creates records with PUT, which the retry rule replays after a 503; one
  present can leave two records: `RecordRuns.ReplayLeavesTwoRecords`. Every
  replay costs at most one record: `RecordCounts.RecordsAreBounded`.
- A label `@` directly below a zone reads as the zone's apex; validation excludes
  it: `Names.RelativeNameRejoins`.
- Google's longest match accepts a zone of one label, the other strategies do
  not: they agree if and only if some zone of two labels or more encloses the
  name, or no zone does: `ZoneResolution.AgreeUnlessOneLabel`, with a witness in
  `ZoneResolution.OneLabelZoneParts`.
- The SOA walk finds a zone if and only if one is served that is not behind an
  empty label: `ZoneResolution.FindZone`, with a witness in
  `ZoneResolution.EmptyLabelHidesTheZone`.
- Temporary names of the account file repeat when processes over one directory
  have equal pids, as in separate pid namespaces. Two saves of one name do no
  harm: `AccountStore.TwoAlikeAreSafe`. Three can leave a partial account file:
  `AccountStore.ThreeAlikeExposeAPart`.

## Model

| member | source | states |
|---|---|---|
| `EndToEnd.PresentedValueStays` | src/solver.rs:139-191 | In every state of every run of any number of solves, over each of the three provider designs, with errors, drops and other clients anywhere: a value whose present succeeded is stored under its name until its own cleanup starts |
| `EndToEnd.NothingIsLeftBehind` | src/cleanup.rs:50-73 | Once all cleanups have succeeded, a value is stored if and only if it would be without the solves and no solve pushed it: always for the designs that rewrite a set, and for the one that lists records while those of the value are on the first page |
| `EndToEnd.OnlyTheOverlookedStay` | src/providers/infomaniak.rs:424-437 | Without that condition the same holds of every value but those a cleanup overlooked while it returned Ok |
| `EndToEnd.OverlookedWasBehind` | src/providers/infomaniak.rs:192-234 | An overlooked value had, at an earlier moment of the run, a record beyond the first page of the listing |
| `EndToEnd.InitialValuesMinusTheSolves` | src/solver.rs:139-191 | Under the lock and with no other writer, and under the same condition, that is the initial values minus the solves' own |
| `EndToEnd.BaseIsInitial` | src/providers/common.rs:120-128 | In the locked designs nothing but the solves changes a record set |
| `EndToEnd.RunKeepsInv` | src/solver.rs:139-191 | The invariant that ties each solve's books to its provider call and to the stored values holds in every state of every run |
| `EndToEnd.StepKeepsInv` | src/solver.rs:139-191 | Every step of a solve, the provider or another client keeps that invariant |
| `Providers.StepRefines` | src/provider.rs:32-41 | Each step of each design is, with the same event, a step of the contract in which a cleanup may overlook a record, and a step of the full contract for the designs that rewrite a set |
| `Providers.StoredIsAbs` | src/provider.rs:32-41 | The abstract set of a name is the set of unquoted values stored there, in all three designs |
| `KeyedLock.LockTable.constructor` | src/providers/common.rs:133-138 | The table starts empty |
| `KeyedLock.LockTable.Retain` | src/providers/common.rs:150 | The key-by-key loop removes exactly the entries whose strong count is at most one |
| `KeyedLock.LockTable.Enter` | src/providers/common.rs:145-154 | One call prunes, then gets or inserts the entry of its key and clones it, counting the clone |
| `KeyedLock.MutualExclusion` | src/providers/common.rs:145-156 | In every state of every run at most one task holds a key, and all tasks of a key share the mutex the table maps it to, however often the table was pruned and addresses reused |
| `KeyedLock.HolderOfKeyIsUnique` | src/providers/common.rs:145-156 | Two holders of one key are one task, in every state that meets the invariant |
| `KeyedLock.PrunedIffUnused` | src/providers/common.rs:148-150 | Pruning keeps an entry if and only if some task waits for it or holds it |
| `KeyedLock.BlockedOnlyByOwnKey` | src/providers/common.rs:120-128 | A waiting task can acquire if and only if no task holds its own key: other keys never block it |
| `KeyedLock.FreeKeyCanBeTaken` | src/providers/common.rs:145-156 | After any run a new task can look up a key nobody holds, acquire it and leave, with the others' tickets as they were |
| `KeyedLock.TableIsWhatTasksUse` | src/providers/common.rs:148-153 | After every lock call the table holds exactly the keys in use and is no larger than the number of tasks |
| `KeyedLock.StepKeepsInv` | src/providers/common.rs:145-156 | Entering, acquiring, releasing and cancelling keep exact reference counts, distinct entries and unique holders |
| `KeyedLock.RunKeepsInv` | src/providers/common.rs:145-156 | That invariant holds in every state of every run |
| `LockedCalls.HolderIsAlone` | src/providers/gandi.rs:234-252 | While a call works under its key, no other call of that key has begun its work |
| `LockedCalls.WaitKeepsInv` | src/providers/common.rs:145-156 | Locking and acquiring change no call's request and no call's progress, and keep the invariant |
| `WholeSetRewrite.PlanHasTheAtomicEffect` | src/providers/gandi.rs:225-277 | The planned write adds or removes exactly the value, is skipped exactly when that changes nothing, deletes the set exactly when its last value goes, and is accepted by the server |
| `WholeSetRewrite.PlanWritesOthersVerbatim` | src/providers/route53.rs:792-842 | What is written back are the other entries, byte for byte and in order, plus the quoted new value for present |
| `WholeSetRewrite.TtlStays` | src/providers/powerdns.rs:350-429 | In every run, while a set exists and no Gandi call writes it, it keeps its TTL through any presents and cleanups, failed, dropped or replayed |
| `WholeSetRewrite.TtlOfWhatIsWritten` | src/providers/gandi.rs:153-156 | In every run a write leaves the configured TTL if Gandi wrote or there was no set, and else the TTL of the set that was there |
| `WholeSetRewrite.StepRefines` | src/providers/gandi.rs:225-265 | Each step of concurrent calls, replays of a write included, keeps the invariant and is a step of the atomic contract |
| `WholeSetRewrite.RunRefines` | src/providers/powerdns.rs:350-429 | Every run, with failures and drops anywhere, is a run of the atomic contract with the same events |
| `WholeSetRewrite.WritesMeetWhatTheyRead` | src/providers/route53.rs:792-842 | In every state of every run a call about to write finds the very set it fetched, so no update is overwritten and Route53's exact delete matches |
| `WholeSetRewrite.OtherEntriesNeverChange` | src/providers/gandi.rs:238-264 | At every moment of every run the entries holding none of the values asked for are the initial ones, verbatim and in order |
| `CompareAndSwap.PlanHasTheAtomicEffect` | src/providers/google_cloud_dns.rs:634-693 | The change deletes the set as fetched and adds one with exactly the atomic effect; there is none exactly when nothing would change |
| `CompareAndSwap.StepRefines` | src/providers/google_cloud_dns.rs:403-451 | Each step, foreign writes at any time included, keeps the invariant and is a step of the atomic contract |
| `CompareAndSwap.RunRefines` | src/providers/google_cloud_dns.rs:634-693 | Every run with foreign writers is a run of the atomic contract with the same events |
| `CompareAndSwap.NoUpdateIsLost` | src/providers/google_cloud_dns.rs:403-451 | A change commits if and only if the stored set is the one fetched; it then is the operation applied to the set of that moment, TTL kept or the configured one where there is none, and others verbatim, and otherwise nothing changes |
| `CompareAndSwap.CommittedEntries` | src/providers/google_cloud_dns.rs:642-693 | The added set holds the other entries verbatim and in order and the existing TTL, or the configured one when there is none |
| `RecordPerValue.StepRefines` | src/providers/infomaniak.rs:410-437 | Each step of reading a page, creating, finding existing and deleting keeps the invariant and is a step of the contract in which a cleanup may overlook a record, and of the full one unless a cleanup returns Ok in doubt |
| `RecordPerValue.RunRefinesWeakly` | src/providers/infomaniak.rs:192-234 | Every run, other names' calls between two pages included, is a run of that contract; presents lose nothing |
| `RecordPerValue.PageFinds` | src/providers/infomaniak.rs:192-234 | What a listing has found is there, and it has found all if all were on the first page when that was requested |
| `StableListing.PageStepCollects` | src/providers/infomaniak.rs:198-231 | A page request keeps what was found and adds exactly the records of the value on that page; the listing goes on if and only if more pages are reported, then a cleanup deletes exactly what was found and a present creates if and only if nothing was |
| `StableListing.UpToAHundredPages` | src/providers/infomaniak.rs:221-231 | A page can be requested exactly as long as the listing is not over and fewer than a hundred were read |
| `StableListing.StepOnCall` | src/providers/infomaniak.rs:410-437 | Every step is one of a given call, or leaves its progress and, once it has the lock, the records of its value as they were |
| `StableListing.SeenIsHandled` | src/providers/infomaniak.rs:410-437 | In every run, a record of the value that stood on a page when a call requested it keeps that call from creating, and is gone when a cleanup returns Ok |
| `StableListing.PagesHoldAll` | src/providers/infomaniak.rs:192-234 | As many pages as reported hold every record of the zone |
| `StableListing.StableListingMissesNothing` | src/providers/infomaniak.rs:410-437 | In every run, if the zone is the same at all page requests of a call, a cleanup that returns Ok leaves no record of its value and a present creates one only when there is none, over however many pages |
| `LockedCalls.ReachesTheLock` | src/providers/common.rs:145-156 | A call whose key nobody holds can take the lock in two steps |
| `CompletionRewriting.LeftAloneSucceeds` | src/providers/gandi.rs:223-268 | From any state of a run, the steps lead a call whose key nobody holds to an Ok with exactly its atomic effect on its set and no other set changed |
| `CompletionSwapping.LeftAloneSucceeds` | src/providers/google_cloud_dns.rs:632-692 | The same for Google Cloud DNS when nobody else writes the set meanwhile |
| `CompletionListing.LeftAloneSucceeds` | src/providers/infomaniak.rs:410-437 | The same page by page, up to a hundred: a present leaves the records of its value, or exactly one if there were none, a cleanup none, and no other record changes |
| `RecordCounts.RunRefines` | src/providers/bunny.rs:429-463 | Every run in which listings are single requests, as Bunny's are, is a run of the full contract |
| `RecordCounts.UnsureSinceFirstRequest` | src/providers/infomaniak.rs:192-234 | A call is in doubt only if a record of its value was beyond the first page when it requested that page |
| `RecordCounts.CleanupLeavesNoRecord` | src/providers/infomaniak.rs:424-437 | A cleanup that returns Ok leaves no record of its value, duplicates included, if all were on the first page when it requested that |
| `RecordCounts.CleanupDeletesOnlyItsValue` | src/providers/bunny.rs:447-463 | A deletion touches no record of another name or value |
| `RecordCounts.RecordsAreBounded` | src/providers/infomaniak.rs:410-422 | Over any run of either provider a value never has more records than one, or than at first, plus one per replayed creation and per creation after a listing in doubt |
| `RecordCounts.ConcurrentPresentsAddOneRecord` | src/providers/infomaniak.rs:410-422 | However many presents of a value run, there are never more records of it than one or the initial number, while its records are on the first page and nothing is replayed |
| `RecordCounts.InfomaniakNeverReplays` | src/providers/infomaniak.rs:236-273 | Infomaniak's creations are never replayed |
| `RecordCounts.ReplayedPutDuplicates` | src/providers/bunny.rs:247-253 | Every replay of Bunny's PUT leaves one record more of the value, at least two in all |
| `RecordRuns.OtherNameHidesOurRecord` | src/providers/infomaniak.rs:424-437 | A run from an empty lock table: a cleanup for another name deletes a record between two pages of ours, which returns Ok with its record still there |
| `RecordRuns.ReplayLeavesTwoRecords` | src/providers/bunny.rs:239-263 | A run in which one present of Bunny, its PUT replayed after a 503 as the retry rule says, returns Ok and leaves two records |
| `RecordPerValue.CreatedValues` | src/providers/infomaniak.rs:236-273 | A created record adds exactly its value to exactly its name |
| `RecordPerValue.DeletedValues` | src/providers/infomaniak.rs:275-295 | Deleting a record takes its value out of the set exactly when it was the last to hold it |
| `TxtValues.UnquoteQuote` | src/providers/gandi.rs:271-277 | Unquoting undoes quoting for every value |
| `TxtValues.ReadsBetweenWhitespace` | src/providers/gandi.rs:271-277 | Whatever Unicode white space is around it, a quoted text is read without its quotes and any other as it stands |
| `TxtValues.BunnyReadsBetweenQuotes` | src/providers/bunny.rs:299-308 | Bunny reads what is between any number of quotes inside the white space |
| `TxtValues.ValidIffShortBase64Url` | src/providers/common.rs:162-178 | A value is valid if and only if it is 1 to 128 characters of the base64url alphabet |
| `TxtValues.ValidValueReadsBack` | src/providers/common.rs:162-178 | A value that passes validation and is written bare reads back as itself, with either provider's way of unquoting |
| `TxtValues.MergedValues` | src/providers/gandi.rs:236-241 | Merging adds exactly the value to the set of unquoted values |
| `TxtValues.KeptValues` | src/providers/gandi.rs:253-255 | Filtering removes exactly the value |
| `TxtValues.KeptLength` | src/providers/gandi.rs:257-259 | The filter shortens the list if and only if the value was there, which is the test the providers use |
| `TxtValues.KeptSelectsTheOthers` | src/providers/gandi.rs:253-264 | What remains are the entries at exactly the other positions, in order and verbatim |
| `TxtValues.PresentServesUnlessDisabled` | src/providers/powerdns.rs:359-386 | After present the value is served if and only if it was served before or no entry held it |
| `TxtValues.DisabledEntryIsNotServed` | src/providers/powerdns.rs:359-386 | A set on which present succeeds without serving the value |
| `CleanupGuard.Guard.constructor` | src/cleanup.rs:28-37 | A new guard is empty |
| `CleanupGuard.Guard.Push` | src/cleanup.rs:39-41 | Push appends to what is pending |
| `CleanupGuard.Guard.Run` | src/cleanup.rs:50-55 | Cut after any number of completions, the items left pending are exactly those not completed, and the starts exceed the completions by at most the one in flight |
| `CleanupGuard.Guard.Drop` | src/cleanup.rs:58-73 | With a runtime everything pending is handed to a task that works in order; without one nothing happens |
| `CleanupGuard.Lifetime` | src/cleanup.rs:22-73 | Over a whole life the completed cleanups are a prefix of the pushes, in order and once each, all of them exactly if neither run nor drop task is cut short, and only the item in flight at the cut is started twice |
| `Solver.StepKeepsBooks` | src/solver.rs:139-191 | Every step of a solve, drops included, keeps pushed = completed + remaining, in order, and the shape of the cleanup starts |
| `SolveCompletion.SolveSucceeds` | src/solver.rs:139-206 | With or without the propagation check, the steps lead from a fresh solve to Ok with every record placed, finalized and cleaned up in order |
| `SolveCompletion.ErrorsAreCleanedUp` | src/solver.rs:139-150 | From every await at which a solve can fail, the steps lead to an error result with every record of the guard cleaned |
| `SolveCompletion.DropsAreCleanedUp` | src/cleanup.rs:58-73 | Dropped at any moment with a runtime there, the spawned task gets to clean every record the guard still had |
| `SolveCompletion.DropsLoseOnlyTheRest` | src/cleanup.rs:58-73 | Without a runtime exactly the records not yet cleaned are left |
| `SolveOrder.ReadyComesLast` | src/solver.rs:171-206 | In every run `set_ready` is sent at most once, after every present and only after every value was confirmed by every polled target since it was presented, or the delay elapsed; `finalize` succeeds only right after `set_ready` did |
| `SolveOrder.CleanupNeverChangesTheOutcome` | src/solver.rs:139-150 | A finished solve is Ok if and only if `finalize` succeeded, whatever the cleanups did |
| `SolveOrder.EveryRecordIsAccountedFor` | src/solver.rs:178-191 | In every state each record whose present was started is cleaned or still to be cleaned, in push order; after a finished run or drop task the completed cleanups are exactly those records, once each |
| `SolveOrder.AtMostOneCleanupStartsTwice` | src/cleanup.rs:50-73 | The cleanup starts are two stretches of the pushed records that overlap in at most one |
| `AcmeDriver.Driver.constructor` | src/solver.rs:224-232 | A new driver has collected nothing |
| `AcmeDriver.Driver.Collect` | src/solver.rs:235-286 | One pass queues exactly the pending challenges before the first error, numbered on from the known URLs, then that error |
| `AcmeDriver.CollectsThePending` | src/solver.rs:235-286 | In terms of the authorizations alone: with e the first whose fetch failed, that is neither pending nor valid, or that is pending without domain or challenge, the URLs and records collected are exactly those of the pending ones before e, in order, and the error is the one e calls for |
| `AcmeDriver.ItemAt` | src/solver.rs:253-286 | Queued item i is challenge i with the record of its authorization, and the one after the last challenge is the first error |
| `AcmeDriver.SameAuthorization` | src/solver.rs:253-286 | Record i and URL i belong to one authorization |
| `AcmeDriver.Driver.NextDns01` | src/solver.rs:289-294 | The first call collects; each call yields the front of the queue and leaves the rest |
| `AcmeDriver.Driver.Targets` | src/solver.rs:296-303 | The lookup fails if and only if some token is out of range, and otherwise is the URLs asked for, in order |
| `AcmeDriver.Driver.SetReady` | src/solver.rs:296-325 | An invalid token sends nothing; otherwise what is sent was asked for and accepted where it was offered; an ACME error if and only if a fetch fails or a challenge still wanted is not accepted, and else Ok, with exactly the requested multiset sent, if and only if every requested URL is offered often enough |
| `AcmeDriver.ReadyPass` | src/solver.rs:304-325 | The pass is the offers taken one by one; every URL sent was accepted at the position that offered it; an ACME error if and only if some fetch fails, or some URL requested more often than offered before is not accepted |
| `AcmeDriver.SentWasAccepted` | src/solver.rs:306-317 | As long as nothing is rejected, each URL sent was offered and accepted at its own position, in order |
| `AcmeDriver.SwapRemoveTakesOne` | src/solver.rs:310-316 | `swap_remove` takes out exactly one occurrence of the element at its position |
| `AcmeDriver.OffersBalance` | src/solver.rs:304-320 | At every point sent plus still wanted is the request, and still wanted is the request less what was offered |
| `AcmeDriver.OffersSettle` | src/solver.rs:304-325 | Nothing is left wanted if and only if the request is within the offers, and then exactly the request was sent |
| `AcmeDriver.CollectTokens` | src/solver.rs:176-191 | The tokens collected are 0 to n-1, the records pushed are those of the same challenges and one more at most; the loop ends with a failed present if and only if some present fails, else with the error that ended the collection, else well |
| `AcmeDriver.PresentThenReady` | src/solver.rs:171-206 | The invalid-token error is unreachable; the outcome is that of the collection, or else that of the second pass; Ok means exactly the collected challenges were set ready and accepted, each as often as collected, and the records of exactly their authorizations were pushed |
| `AcmeDriver.DistinctOccurOnce` | src/solver.rs:296-325 | With distinct URLs that is exactly once each |
| `Retry.SendRetrying` | src/providers/common.rs:38-68 | The loop sends, waits and returns as the recursive account of the attempts says |
| `Retry.SentUpToThreeTimes` | src/providers/common.rs:14-93 | A second and a third request go out exactly after a 429, or a 503 unless the method is POST, PATCH or CONNECT, with no wait above ten seconds asked for; the waits are those asked for, else one and two seconds; the last answer is returned |
| `Retry.RetriesAreBounded` | src/providers/common.rs:14-99 | Whatever the server answers, at most 3 sends and 20 seconds of sleep |
| `Retry.LastAnswerIsReturned` | src/providers/common.rs:24-68 | The answer returned is the last one, unchanged; a body that cannot be cloned is sent once |
| `Retry.GivesUpEarlyOnlyAt` | src/providers/common.rs:70-93 | A replayable request stops before the last attempt only at an answer that is neither 429 nor 503 to a method other than POST, PATCH and CONNECT, or that asks for more than 10 seconds |
| `Retry.EarlierAnswersWereTransient` | src/providers/common.rs:70-93 | Every answer before the last was such a 429 or 503 with an acceptable wait |
| `Retry.ResentOnlyAfter429` | src/providers/common.rs:26-93 | A POST, PATCH or CONNECT is followed by another only after a 429 |
| `Retry.AppliedAtMostOnce` | src/providers/common.rs:26-93 | A server that leaves 429 requests unprocessed applies a POST, PATCH or CONNECT at most once |
| `Retry.Route53Send` | src/providers/route53.rs:194-210 | The outer loop over retried requests sends, waits and returns as the recursive account of its rounds says |
| `Retry.UpToThreeRounds` | src/providers/route53.rs:194-210 | A second and a third round follow exactly a throttled one, after one and two seconds more, and the last round is the answer |
| `Retry.Route53ReturnsTheLastAnswer` | src/providers/route53.rs:198-207 | The answer returned is the last one the server gave; every round before ended throttled, and so does the last only if it is the third |
| `Retry.Route53IsBounded` | src/providers/route53.rs:194-210 | One Route53 request makes at most 9 HTTP sends and sleeps at most 63 seconds, whatever the server answers |
| `Retry.Route53BoundsAreTight` | src/providers/route53.rs:194-210 | A server exists that makes it exactly 9 sends and 63 seconds |
| `Retry.OnlyTheLastIsProcessed` | src/providers/route53.rs:198-207 | Across the rounds no request but the very last can have been processed |
| `Retry.Route53AppliesAtMostOnce` | src/providers/route53.rs:194-210 | The nested loops apply a change batch at most once, with 429 and throttled requests unprocessed |
| `Polling.Sweep` | src/dns/propagation.rs:67-73 | A sweep asks every pending target once and keeps exactly those that did not confirm |
| `Polling.PollUntilAllConfirm` | src/dns/propagation.rs:55-88 | Each sweep asks exactly the targets still pending; Ok if and only if none is left, an error only when the clock has reached the timeout, and no sweep before went past it |
| `Polling.PendingMeansNeverConfirmed` | src/dns/propagation.rs:53-54 | A target is asked in a sweep if and only if it confirmed in none before: never again after its first confirmation |
| `Polling.OkIffAllConfirmInTime` | src/dns/propagation.rs:65-87 | The wait succeeds if and only if all targets have confirmed by some sweep that no earlier clock reading cut off |
| `Polling.SweepsAreBounded` | src/dns/propagation.rs:78-86 | With a positive interval there are at most ceil(timeout/interval) + 1 sweeps |
| `Polling.WaitForChange` | src/providers/route53.rs:380-397 | Done if and only if the last status is the final one, an error only when the next sleep would pass the deadline; every earlier status was read, not final and in time |
| `Polling.AtMostSixtyPolls` | src/providers/google_cloud_dns.rs:453-475 | Route53 and Google both poll at most 60 times |
| `Names.JoinSplit` | src/providers/powerdns.rs:164-167 | Splitting a name at dots and joining is the identity |
| `Names.SplitJoin` | src/providers/powerdns.rs:164-167 | Joining dot-free labels and splitting is the identity |
| `Names.EnclosesIffLabelsEnd` | src/providers/common.rs:235-245 | Ending in a dot and the zone's text is the same as ending in the zone's labels, for all texts |
| `Names.RelativeNameRejoins` | src/providers/common.rs:235-245 | A relative name exists if and only if the zone encloses the name, and rejoining gives the name back if and only if it is not `@` below the zone |
| `Names.TrimTakesOffDots` | src/providers/common.rs:211 | Trimming takes off all trailing dots and nothing else |
| `Names.NormalIffSameButCase` | src/providers/gandi.rs:225-234 | Two names have one spelling if and only if, trailing dots apart, they agree character by character up to ASCII case |
| `Names.ValidIffSegmentsGood` | src/providers/common.rs:210-233 | A name is valid if and only if, trailing dots apart, it has 1 to 253 characters and 1 to 63 letters, digits, hyphens and underscores between dots |
| `Names.ValidZoneIffTwoLabels` | src/providers/common.rs:182-191 | A zone is valid if and only if it is a valid name of two labels or more |
| `Names.ValidNamesAvoidTheAt` | src/providers/common.rs:210-233 | A validated name is never that exception |
| `Names.CandidateIsValidZone` | src/providers/common.rs:182-233 | Every suffix of two labels or more of a validated name passes zone validation |
| `Names.LowerIsValid` | src/providers/common.rs:210-233 | Lower-casing and trimming keep a name valid |
| `Names.OneLockPerRecordSet` | src/providers/gandi.rs:226-234 | Two callers get the same lock key if and only if namespace, zone and normalised name agree: spelling never separates them |
| `Names.KeyParts` | src/providers/common.rs:151 | A lock key determines its three parts |
| `SharedNames.SpellingsTakeTurns` | src/providers/gandi.rs:226-234 | Two calls that work at once are never for spellings of one name in one zone of one provider |
| `SharedNames.PresentedUnderEverySpelling` | src/providers/gandi.rs:225-234 | In every run, what a solve has presented for a name is stored in the record set another solve reaches under any spelling of it |
| `ZoneResolution.ResolutionIsUnique` | src/providers/bunny.rs:135-160 | A name has at most one longest enclosing zone, so all strategies that find one agree |
| `ZoneResolution.Walk` | src/providers/powerdns.rs:164-179 | The walk asks the candidates from the longest on and judges the first that is not absent |
| `ZoneResolution.WalkFindsTheOwner` | src/providers/route53.rs:272-284 | For a validated name the walk refuses exactly when a request fails before an answer; otherwise it finds the longest enclosing zone of two labels or more, or none exactly when there is none |
| `ZoneResolution.ZoneCache.constructor` | src/providers/powerdns.rs:112-123 | The cache starts empty |
| `ZoneResolution.ZoneCache.Resolve` | src/providers/powerdns.rs:154-180 | An override wins; a cached name is answered from the cache; a walk's success is stored and a failure never; the relative name exists for every zone returned |
| `ZoneResolution.ZoneCache.ResolveStable` | src/providers/infomaniak.rs:138-164 | While the account does not change, every answer is that of a fresh walk, whatever was asked or failed before and however the name is spelled, and a failure leaves no trace |
| `ZoneResolution.FindZone` | src/dns/zone.rs:31-55 | The SOA walk finds a zone if and only if a candidate is served that is not behind an empty label, and what it finds is the longest enclosing zone |
| `ZoneResolution.EmptyLabelHidesTheZone` | src/dns/zone.rs:47-53 | The names, such as `a..example.com`, whose one enclosing zone is served and not found |
| `ZoneResolution.SoaWalkResolves` | src/dns/zone.rs:31-55 | For a validated name it therefore resolves as the label walk does |
| `ZoneResolution.AfterDotDropsALabel` | src/dns/zone.rs:47-53 | Cutting at the first dot drops exactly the first label |
| `ZoneResolution.IsSuffixMeansEncloses` | src/providers/bunny.rs:284-289 | Bunny's comparison of the end and the byte before it is enclosure |
| `ZoneResolution.LongestMatch` | src/providers/bunny.rs:154-159 | Filter and maximum resolve the name among the listed zones, the last listed of equal ones |
| `ZoneResolution.SearchLosesNothing` | src/providers/bunny.rs:149-153 | Searching for the last two labels leaves the resolution unchanged |
| `ZoneResolution.ReadPage` | src/providers/google_cloud_dns.rs:379-388 | Reading a page keeps the running best the first longest public match of all zones seen |
| `ZoneResolution.PagedBest` | src/providers/google_cloud_dns.rs:364-401 | Too many pages exactly if the first fifty all announce another; otherwise the answer is the best over all pages up to the last |
| `ZoneResolution.BestIsOwner` | src/providers/google_cloud_dns.rs:369-388 | That best is the longest enclosing public zone, absolute names or not |
| `ZoneResolution.AbsoluteEncloses` | src/providers/google_cloud_dns.rs:526-529 | Trailing dots on both sides do not change enclosure |
| `ZoneResolution.AgreeUnlessOneLabel` | src/providers/google_cloud_dns.rs:384-388 | The longest match of a listing is the walk's answer if and only if some zone of two labels or more encloses the name, or no zone does |
| `ZoneResolution.OneLabelZoneParts` | src/providers/google_cloud_dns.rs:384-388 | An account with a single one-label zone, which the listing finds and the walk does not |
| `ZoneResolution.AllStrategiesAgree` | src/providers/bunny.rs:138-160 | On one account of zones with two labels or more and for one validated name, the label walk, Bunny's longest match, Google's paged best and the SOA walk give one answer, unless a request fails or there are too many pages |
| `RecordListing.ListTxtRecords` | src/providers/infomaniak.rs:192-234 | Pages are read up to the last one reported or an error after a hundred, and an Ok result is all they hold, never a partial list |
| `Pages.PageHolds` | src/providers/infomaniak.rs:198-212 | Page k holds the items from number (k - 1) * size on, size at most |
| `RecordListing.StableZoneIsListedWhole` | src/providers/infomaniak.rs:192-234 | A zone that stays as it is gives exactly its matching records, in order |
| `RecordListing.ListedIffOnAPageRead` | src/providers/infomaniak.rs:192-234 | In a changing zone a record is listed if and only if it matches and stands on some page when that page is read |
| `RecordListing.RecordThatNeverMovesForwardIsListed` | src/providers/infomaniak.rs:192-234 | A matching record that is there throughout and never moves towards the front is listed, on whatever page |
| `RecordListing.SafeIffOnTheFirstPage` | src/providers/infomaniak.rs:192-234 | A matching record at position i when the first page is requested is listed in every evolution of the zone that keeps it if and only if i is less than the page size |
| `RecordListing.LaterPagesAreNot` | src/providers/infomaniak.rs:192-234 | Any record beyond the first page is missed in some evolution that keeps it, by removals alone |
| `RecordListing.RemovalInFrontHidesARecord` | src/providers/infomaniak.rs:192-234 | Removing another name's record between two pages can hide one that was there throughout |
| `RecordListing.SameSourceIffSameName` | src/providers/infomaniak.rs:298-306 | The comparison of sources finds exactly the records of the name, however the API writes the apex and the case |
| `RecordListing.MatchesIffTxt` | src/providers/infomaniak.rs:214-219 | A record matches if and only if its type reads TXT, in any case, and its source is the name's |
| `RecordListing.MatchingMembers` | src/providers/infomaniak.rs:214-219 | The filter keeps exactly the TXT records of the name |
| `CanonicalQuery.DecodeEncode` | src/providers/route53.rs:58-62 | Percent-decoding undoes the encoding for every byte string |
| `CanonicalQuery.EncodedByteIs` | src/providers/route53.rs:56-62 | Letters, digits, hyphen, full stop, underscore and tilde stand for themselves, every other byte is a percent sign and two upper-case digits |
| `CanonicalQuery.EncodesByteForByte` | src/providers/route53.rs:58-62 | Encoding distributes over concatenation |
| `CanonicalQuery.EncodedIsClean` | src/providers/route53.rs:56-62 | Encoded text contains neither separator |
| `CanonicalQuery.SortSorts` | src/providers/route53.rs:578 | Sorting orders the encoded pairs and keeps each as often; `CanonicalIsInOrder` says which order that is |
| `CanonicalQuery.TextLeIsDictionaryOrder` | src/providers/route53.rs:578 | The comparison is ascending dictionary order: a prefix first, else the smaller character where two texts first differ |
| `CanonicalQuery.CanonicalIsInOrder` | src/providers/route53.rs:566-584 | The pairs of the query are the encoded parameters, by ascending keys, and by ascending values where keys are equal |
| `CanonicalQuery.OrderedIsUnique` | src/providers/route53.rs:578 | Any two orderings of the same pairs are equal, so the algorithm does not matter |
| `CanonicalQuery.ParseJoin` | src/providers/route53.rs:579-583 | Splitting at `&` and `=` gives back the pairs in order |
| `CanonicalQuery.JoinsAtMarks` | src/providers/route53.rs:579-583 | One pair is key, equals sign and value, and lists of pairs are joined by an ampersand |
| `CanonicalQuery.CanonicalReadsBack` | src/providers/route53.rs:566-584 | Splitting and decoding the query gives back exactly the parameters, in the order of their encodings |
| `CanonicalQuery.CanonicalIffSameParameters` | src/providers/route53.rs:566-584 | Two parameter lists give the same query if and only if one permutes the other |
| `CanonicalQuery.EmptyQueryIffNoParameters` | src/providers/route53.rs:185-190 | The query is empty, and no `?` is appended, if and only if there are no parameters |
| `AccountStore.TempNamesDiffer` | src/account_store.rs:100-111 | Temporary names differ if and only if the process or the call does, and never are the account file |
| `AccountStore.SaveSucceeds` | src/account_store.rs:65-98 | A save whose temporary name is free can go through: its system calls make the account exactly its bytes, flushed, and leave every other name and file alone |
| `AccountStore.ActKeepsInv` | src/account_store.rs:65-98 | While no save meets two of its number, every system call, failure, process stop and power loss keeps the invariant, and only a rename changes the account file, to exactly that save's bytes |
| `AccountStore.AccountIsAlwaysWhole` | src/account_store.rs:65-129 | At every moment of every run in which no save meets two of its number, the account file is the initial one or one complete, flushed credential |
| `AccountStore.DistinctPidsAreSafe` | src/account_store.rs:100-111 | So it is in every run of processes with distinct pids, reused pids included |
| `AccountStore.TwoAlikeAreSafe` | src/account_store.rs:79-98 | So it is as long as no temporary name was given to three saves |
| `AccountStore.NoSaveWritesAnothersFile` | src/account_store.rs:100-111 | In all those runs no two saves have the same file open, and none the account file |
| `AccountStore.ThreeAlikeExposeAPart` | src/account_store.rs:83-98 | A run from an empty disk in which three saves of one temporary name leave a part of one as the account file |

## Left out

- HTTP, JSON, XML, sockets, TLS and configuration builders: calls into other libraries, which appear as answers of an oracle.
- Cryptography (request signatures, tokens, challenge certificates), `rfc2136`, `tls_alpn` and `renewal`: library calls or easy members.
- Cloudflare, OVH, Hetzner, deSEC, DigitalOcean, Porkbun and Scaleway: variants of the three designs, or dependent on facts about an API.
- Google's access token cache, and the 401 that drops it.
- The provider calls are step systems on values, not class methods: interleaving between awaits is what matters there, and Dafny methods do not interleave.
- Bunny's pages of zones, Route53 sets without a TTL (aliases) and its lookup of hosted zone ids, several zones of one name included.
- KeyedLock.LockTable.Enter: giving up a lock releases the mutex and drops the clone in one step; between the two only the count is one higher, which can keep an entry in the table for one more call.
- WholeSetRewrite.TtlStays: claims no TTL retention for Gandi, because it writes its configured TTL on every set.
- ZoneResolution.WalkFindsTheOwner: needs a validated name, which every provider checks first, and an API that answers with the zone it was asked for.
- ZoneResolution.SearchLosesNothing: is about names of two labels or more, as every `_acme-challenge` name is.
- The cleanup error hook, error texts and the choice of fallback resolvers.
- Other writers in the locked designs: the lock does not reach other processes, and the guarantees do not either.
- Directory entries are taken as durable at once, so a power loss that undoes a rename is not modelled; file permissions are not modelled either.
- Polling with an interval of zero is covered only by the assumption that the clock reaches the timeout.
