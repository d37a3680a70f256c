# Vixen: a verified model of its protocol and codec core

This project models the parts of the Vixen browser whose correctness is hardest to see by
reading, and proves what they are for.

- **Pending navigations of the CDP server.** `CdpState` keeps one map of navigations that
  socket operations, blocking waiters and pruning share. `NavigationModel` gives every
  operation as a function on a ledger value; the class `CdpState.CdpState` performs the same
  operations in place, with the source's loops, and each method is proved to change its
  state exactly as the function says. `NavigationPrune`, `NavigationAdopt`,
  `NavigationCancel`, `NavigationOwnership` and `NavigationPoll` prove what one operation
  does, and `NavigationEvents`, `NavigationVerdict` and `NavigationSteps` spell out, on the
  fields of the entries, what each event records, how each operation is answered and what
  starting, adopting and disconnecting leave; `NavigationHistory` traces every answer back to
  the events behind it; `NavigationRun`, `NavigationClaims`, `NavigationAnswers` and
  `NavigationBound` prove what holds in every run, for any number of connections and any
  interleaving;
  `NavigationExample` exhibits a run that meets the assumptions about the engine.
- **Presentation swap.** `Presentation` proves that the live fields plus the map of saved
  presentations behave as a plain map from context to presentation, and pins down the two
  places where one context's state reaches beyond it; `PresentationFields` spells out its
  fields and queues.
- **Calendar.** `Calendar` proves the closed forms of `date_units.rs` against a day count
  made of month and year lengths, and the ISO week arithmetic against the tiling of days by
  weeks.
- **Codecs.** `Multipart`, `Urlencoded`, `HtmlSerialize`, `AccessibilityHash`, `Dataset`,
  `TokenList` and `PngUnfilter` each pair a writer of the source with a reader (or the
  reverse) and prove that one undoes the other, with the exact condition where there is one.
  What the two sides share is stated a second time on its own terms: `PngEquations` has the
  filter equations of RFC 2083, `HtmlTables` and `TokenTables` the escapes, element tables and
  separators.
- **Render projection.** `RenderProjection` proves that three independent element numberings
  of one document agree, and what is rendered; `ImageItems` says which images and policies
  are listed, and `RenderTables` what is metadata.

`dafny verify dfyconfig.toml` checks the whole project.

## How the engine is modelled

The browser engine behind `CdpState` is an environment. Event pumps deliver arbitrary
batches of events, context-state queries get arbitrary answers, and deadlines are compared
with an arbitrary `now`. Theorems about runs hold for every such environment. Those that
need the engine to keep its word are stated for runs whose `lawful` flag is still true; the
flag falls, for good, when

- a started operation names a navigation id that was seen before, or names one twice, or
- an event creates an entry for a context already closed, or re-creates an entry under
  another context than before.

The ledger also keeps `heard`, the set of events recorded so far. No operation reads it; it
lets theorems say which event an answer rests on.

Nothing is assumed about the order or number of events of one navigation. The two `expect`
calls of `remove_navigation_outcome` and the one on the last id of a timed-out operation set
the flag `panicked` instead of stopping the run, and are proved never to set it. The `expect`s
"successor exists" and "pending operation length is stable" hold by construction: the model
claims an entry only where it is present, and its polling loop runs over the queue itself.

## Where the code and its documentation differ

- The two comments of `dataset.rs` on accepted property characters disagree: the one on
  `property_to_attribute` gives `[A-Za-z0-9_-]`, the one on `DatasetError` also `.` and `:`.
  The code accepts both (`Dataset.PunctuationAccepted`), and the model follows it.
- `dataset.rs` calls `property_to_attribute` the inverse of `attribute_to_property` for
  every property the parser would produce. That fails for suffixes with uppercase or
  unaccepted characters; `Dataset.AttributeRoundTrip` gives the exact condition and
  `Dataset.InverseFails` an input.
- `class_list.rs` attributes its `replace` to the DOM Standard. When the new token is
  already in the list more than one place after the old one, the standard moves it up and
  the code does not; `TokenList.ReplaceAgreesWithStandard` gives the exact condition and
  `TokenList.ReplaceDiffers` an input.
- `html_serialize.rs` says its comment escaping makes the output always a parseable comment.
  It does not escape `--!>`, which also ends a comment; `HtmlSerialize.CommentSurvives` gives
  the exact condition and `HtmlSerialize.BangCloses` an input.
- The presentation of a context is meant to be its own. Closing the first target resets the
  input state of whatever context is active; `Presentation.CloseSpares` gives the exact
  condition and `Presentation.CloseSpills` a run. A drain after closing the active context
  still delivers that context's effects; `Presentation.DrainDelivers` and
  `Presentation.ClosedDelivers` do the same for it.
- `form_submission.rs` asks for a boundary that occurs in no body. Reading back needs less:
  no line of a body, counting the one after the blank line, may start with the dashed
  boundary. `Multipart.ReadBackExact` shows that to be exact; `Multipart.FirstLineClashes`
  and `Multipart.MidLineReads` give inputs on either side.
- A blocking waiter is meant to get its navigation's outcome. When more than 1024 entries are
  pending and none can be evicted, recording the outcome evicts it;
  `NavigationPrune.WaiterServed` gives the exact condition and `NavigationPrune.WaiterLoses`
  all states in which it is lost.

## Model

| member | source | states |
|---|---|---|
| NavigationRun.OwnershipHolds | flutter/crates/vixen-cdp/src/lib.rs:1220-1233 | in every lawful run no expect has failed, every id of a live operation is claimed and not abandoned unless its context was closed, ids of one operation are distinct, and no id belongs to two live operations |
| NavigationRun.NeverPanics | flutter/crates/vixen-cdp/src/lib.rs:1957-1969 | in every lawful run no modelled expect has failed, whether or not anything is pending |
| NavigationClaims.NoClaimLeaks | flutter/crates/vixen-cdp/src/lib.rs:1376-1430 | in every run, lawful or not, an entry that is claimed and not abandoned belongs to a pending operation |
| NavigationClaims.ClaimsExact | flutter/crates/vixen-cdp/src/lib.rs:1220-1489 | in every lawful run an entry is claimed and not abandoned exactly when a pending operation owns it |
| NavigationRun.WaiterNeverSteals | flutter/crates/vixen-cdp/src/lib.rs:1751-1774 | in every lawful run a blocking wait on an id of a live operation returns nothing, whatever events arrive |
| NavigationRun.RunSafe | flutter/crates/vixen-cdp/src/lib.rs:262-345 | the ownership invariant holds after every sequence of starts, polls, disconnections, waits, drains and target removals on any number of connections |
| NavigationRun.ApplySafe | flutter/crates/vixen-cdp/src/lib.rs:273-344 | every single step keeps the ownership invariant of all connections |
| NavigationRun.PollSafe | flutter/crates/vixen-cdp/src/lib.rs:1255-1365 | a poll keeps the invariant for the polled queue against everything owned elsewhere |
| NavigationRun.StartSafe | flutter/crates/vixen-cdp/src/lib.rs:1125-1253 | starting adds the operation to the queue safely, and starting then cancelling at capacity leaves the queue safe |
| NavigationRun.CancelAllSafe | flutter/crates/vixen-cdp/src/lib.rs:340-346 | disconnecting cancels every operation of the connection without touching what others own |
| NavigationAnswers.AnsweredOnce | flutter/crates/vixen-cdp/src/lib.rs:1255-1365 | in every run no request is answered twice and no answered request is still queued anywhere |
| NavigationAnswers.QueuesBounded | flutter/crates/vixen-cdp/src/lib.rs:285-296 | in every run no connection holds more than 64 pending operations |
| NavigationAnswers.ExpiredAnswered | flutter/crates/vixen-cdp/src/lib.rs:1291-1301 | whatever else is queued, an operation still pending after a poll has not reached its deadline |
| NavigationPoll.PollConserves | flutter/crates/vixen-cdp/src/lib.rs:1255-1365 | one mask splits the queue: the survivors, in order, are the unmasked operations and the answers, in order, the masked ones |
| NavigationPoll.PollPartitions | flutter/crates/vixen-cdp/src/lib.rs:1255-1365 | answered plus still pending equals the starting queue, as multisets |
| NavigationPoll.PollAllConserves | flutter/crates/vixen-cdp/src/lib.rs:1262-1306 | the same split for the polling loop from any intermediate point |
| NavigationPoll.PollOneKeeps | flutter/crates/vixen-cdp/src/lib.rs:1262-1306 | polling changes of a pending operation only its list of actions, which it can only extend |
| NavigationPoll.SuccessExact | flutter/crates/vixen-cdp/src/lib.rs:1255-1350 | an operation that owns its ids is answered with success if and only if pump, adoption and confirmation raised no error, all its navigations are claimed and terminal, the last one settled, and the context answers the completion handler where that handler asks; the flag is the last one's commit flag |
| NavigationPoll.SuccessOnly | flutter/crates/vixen-cdp/src/lib.rs:1939-1955 | success is never reported for less, with no assumption on ownership or the engine |
| NavigationPoll.SuccessConsumes | flutter/crates/vixen-cdp/src/lib.rs:1939-1955 | a reported success has removed every navigation of the operation |
| NavigationCancel.CancelExact | flutter/crates/vixen-cdp/src/lib.rs:1390-1430 | cancelling removes exactly the terminal members of the predecessor closure, turns its other members into claimed tombstones, and changes nothing else except entries pruning may evict |
| NavigationCancel.CancelSevers | flutter/crates/vixen-cdp/src/lib.rs:1396-1415 | afterwards no unclaimed entry of the context has a predecessor in the closure |
| NavigationCancel.CancelTableExact | flutter/crates/vixen-cdp/src/lib.rs:1395-1425 | the same before pruning, as an if-and-only-if for every id |
| NavigationCancel.GrowExact | flutter/crates/vixen-cdp/src/lib.rs:1395-1415 | the claiming loop collects exactly the ids reachable from the operation's ids along predecessor links through unclaimed entries of the context, and claims exactly those it adds |
| NavigationCancel.ConsumeExact | flutter/crates/vixen-cdp/src/lib.rs:1416-1425 | the consuming loop removes terminal entries and tombstones claimed ones, each id once |
| NavigationOwnership.CancelSpares | flutter/crates/vixen-cdp/src/lib.rs:1390-1430 | cancelling leaves every entry owned by another operation as it was |
| NavigationOwnership.CancelSound | flutter/crates/vixen-cdp/src/lib.rs:1390-1430 | cancelling keeps every other owner's entries claimed and not abandoned, target creation included |
| NavigationOwnership.AdoptSound | flutter/crates/vixen-cdp/src/lib.rs:1432-1489 | adoption keeps ids distinct, claimed and disjoint from everybody else's |
| NavigationOwnership.StartSound | flutter/crates/vixen-cdp/src/lib.rs:1220-1235 | a started operation holds its ids and takes nobody else's |
| NavigationOwnership.PollOneSound | flutter/crates/vixen-cdp/src/lib.rs:1262-1365 | one polled operation keeps the invariant whether it is answered or waits |
| NavigationOwnership.RecordSound | flutter/crates/vixen-cdp/src/lib.rs:1776-1896 | recording any event keeps owned entries claimed and present |
| NavigationOwnership.WaitSound | flutter/crates/vixen-cdp/src/lib.rs:1751-1774 | a blocking wait keeps the invariant and gets nothing for an owned id |
| NavigationOwnership.RemoveTargetSound | flutter/crates/vixen-cdp/src/lib.rs:4702-4720 | dropping a target keeps the invariant, its own ids counting as closed |
| NavigationOwnership.TakeSocketExact | flutter/crates/vixen-cdp/src/lib.rs:1939-1969 | for distinct ids the outcome is taken if and only if all are claimed and terminal; then all are removed, the last one's outcome is returned and no expect fails |
| NavigationOwnership.RemoveOutcomesExact | flutter/crates/vixen-cdp/src/lib.rs:1950-1969 | removing distinct terminal outcomes removes exactly them and panics on none |
| NavigationAdopt.AdoptChain | flutter/crates/vixen-cdp/src/lib.rs:1432-1489 | adoption extends the list by a chain: each new id is the smallest same-context entry whose predecessor is the id before it and was unclaimed, all ids but the last are terminal, and the list never grows past 1024 |
| NavigationAdopt.AdoptStops | flutter/crates/vixen-cdp/src/lib.rs:1432-1489 | afterwards something adoptable remains exactly when the limit error was raised, which needs 1024 ids |
| NavigationAdopt.AdoptFrame | flutter/crates/vixen-cdp/src/lib.rs:1432-1489 | adoption changes only the claim bits of the ids it appends, each unclaimed before |
| NavigationPrune.PruneExact | flutter/crates/vixen-cdp/src/lib.rs:1898-1913 | pruning removes exactly k evictable ids, k the lesser of the overflow above 1024 and the evictable count, each smaller than every evictable id kept, and changes no other entry |
| NavigationPrune.PruneSpares | flutter/crates/vixen-cdp/src/lib.rs:1898-1913 | an evictable entry survives pruning exactly when the smaller evictable ids absorb the whole overflow |
| NavigationPrune.WaiterServed | flutter/crates/vixen-cdp/src/lib.rs:1751-1774 | a blocking waiter whose navigation ends gets its outcome exactly when pruning after that event spares the entry |
| NavigationPrune.WaiterLoses | flutter/crates/vixen-cdp/src/lib.rs:1751-1774 | with more than 1024 entries and none evictable, the waiter's own outcome is dropped before it can be taken, for every such state and terminal event |
| NavigationBound.TableBounded | flutter/crates/vixen-cdp/src/lib.rs:1898-1913 | in every run, lawful or not, the map holds at most 1024 entries unless none of them may be dropped |
| NavigationExample.LawfulRun | flutter/crates/vixen-cdp/src/lib.rs:1125-1365 | a run exists in which the engine keeps its word and a started navigation is answered with success |
| NavigationEvents.NoteExact | flutter/crates/vixen-cdp/src/lib.rs:1776-1896 | per kind of event, in entry fields: a request sets kind and predecessor, a commit the flag, a settlement, failure or cancellation the outcome with its own error; context and ownership marks stay, or are new and unclaimed; no other entry changes |
| NavigationEvents.RecordExact | flutter/crates/vixen-cdp/src/lib.rs:1776-1896 | the same for whatever is still there after the final prune |
| NavigationEvents.BatchHeld | flutter/crates/vixen-cdp/src/lib.rs:1740-1749 | a claimed and not abandoned entry survives any batch of events, with the outcome of the last terminal event of its navigation in the batch, or its old one, and the commit flag set if any commit was among them |
| NavigationVerdict.VerdictExact | flutter/crates/vixen-cdp/src/lib.rs:1255-1365 | the answer to every polled operation: the pump's error, else the fault of settling, else the last navigation's own error or its commit flag once all are taken, else waiting before the deadline and a timeout naming the last navigation from then on |
| NavigationVerdict.DecideExact | flutter/crates/vixen-cdp/src/lib.rs:1283-1302 | the same before the completion handler runs |
| NavigationVerdict.WaitsExactly | flutter/crates/vixen-cdp/src/lib.rs:1291-1306 | an operation waits if and only if the pump worked, settling raised no fault, not all its navigations are claimed and terminal, and the deadline has not come |
| NavigationVerdict.SettleFault | flutter/crates/vixen-cdp/src/lib.rs:1266-1282 | which fault settling raises: the adoption limit, an unanswered context or a failed pump at the second look, or none |
| NavigationVerdict.SettleStops | flutter/crates/vixen-cdp/src/lib.rs:1266-1282 | after settling without a fault nothing is left to adopt |
| NavigationVerdict.SuccessIsFinal | flutter/crates/vixen-cdp/src/lib.rs:1255-1350 | success is never answered while the last navigation has an unclaimed smallest successor |
| NavigationVerdict.VerdictEffect | flutter/crates/vixen-cdp/src/lib.rs:1283-1302 | the map is left alone while waiting, loses exactly the operation's entries when they are taken, and is cancelled after a fault or timeout |
| NavigationVerdict.FinishExact | flutter/crates/vixen-cdp/src/lib.rs:2336-2360 | a success becomes an error exactly when the handler asks for the context and gets no answer; a failed target creation leaves no entry of its context; other handlers change no entry |
| NavigationVerdict.PumpFailureAnswersAll | flutter/crates/vixen-cdp/src/lib.rs:1255-1306 | a failing pump answers every pending operation with that failure, in order, and keeps none |
| NavigationVerdict.TakeSocketWhen | flutter/crates/vixen-cdp/src/lib.rs:1939-1955 | for any ids, repeated ones included, an outcome is taken exactly when all are claimed and terminal and the last is listed once, and it is the last one's |
| NavigationVerdict.AnswerFollowsEvents | flutter/crates/vixen-cdp/src/lib.rs:1255-1365 | a poll that takes an operation whose last navigation it held answers with what the last terminal event of that navigation reported, whichever of the two pumps brought it: the failure or cancellation with its error, or success with the commit flag |
| NavigationHistory.RunGrounded | flutter/crates/vixen-cdp/src/lib.rs:1776-1896 | in every run, lawful or not, every outcome and commit flag in the map was reported by a recorded event of that very navigation |
| NavigationHistory.SuccessHeard | flutter/crates/vixen-cdp/src/lib.rs:1255-1350 | success needs a NavigationSettled event of the operation's last navigation, and a commit flag a NavigationCommitted one |
| NavigationHistory.FailureHeard | flutter/crates/vixen-cdp/src/lib.rs:1283-1302 | every answered failure is the server's own, a timeout after the deadline, or the error of a failure or cancellation event of the last navigation |
| NavigationHistory.TimeoutOnlyAfter | flutter/crates/vixen-cdp/src/lib.rs:1294-1302 | nothing is answered as timed out before its deadline |
| NavigationHistory.PumpHears | flutter/crates/vixen-cdp/src/lib.rs:1740-1749 | a pump records every event of its batch and no other |
| NavigationHistory.StepsHear | flutter/crates/vixen-cdp/src/lib.rs:1390-1430 | so do cancelling, dropping a target, starting and the second look |
| NavigationSteps.IdsExact | flutter/crates/vixen-cdp/src/lib.rs:5361-5365 | only cross-document actions have an id, in order |
| NavigationSteps.StartExact | flutter/crates/vixen-cdp/src/lib.rs:1220-1237 | every entry present after a start is claimed if the operation names it, with its context and first kind if it is new and otherwise unchanged, and is as the events left it if not |
| NavigationSteps.StartQueues | flutter/crates/vixen-cdp/src/lib.rs:285-296 | a started operation with navigations is queued last exactly while fewer than 64 are pending on its connection |
| NavigationSteps.AdoptKinds | flutter/crates/vixen-cdp/src/lib.rs:1466-1480 | every adopted action is a cross-document one with the kind its entry has |
| NavigationSteps.WaitAppend | flutter/crates/vixen-cdp/src/lib.rs:1751-1774 | a blocking wait over a longer run of events is the wait over the first part, continued only if that gave nothing |
| NavigationSteps.RemoveTargetExact | flutter/crates/vixen-cdp/src/lib.rs:4702-4720 | dropping a target leaves exactly the entries of other contexts, as the events left them |
| NavigationSteps.CancelTargetExact | flutter/crates/vixen-cdp/src/lib.rs:1426-1430 | cancelling a target creation leaves no entry of its context |
| NavigationSteps.PumpExact | flutter/crates/vixen-cdp/src/lib.rs:1740-1749 | a pump takes one batch, records it in order and reports the engine's word |
| NavigationSteps.DisconnectExact | flutter/crates/vixen-cdp/src/lib.rs:338-345 | disconnecting takes in events, adopts, cancels and takes in events again |
| CdpState.CdpState.constructor | flutter/crates/vixen-cdp/src/lib.rs:591-618 | a new state has no pending navigation |
| CdpState.CdpState.PrunePendingCoreNavigations | flutter/crates/vixen-cdp/src/lib.rs:1898-1913 | the loop over the mutable map ends in the pruned table of PruneExact and touches no other field |
| CdpState.CdpState.RecordCoreEvent | flutter/crates/vixen-cdp/src/lib.rs:1776-1896 | records in place what NavigationEvents.RecordExact spells out, field by field, and prunes |
| CdpState.CdpState.PumpCoreEvents | flutter/crates/vixen-cdp/src/lib.rs:1740-1749 | records a batch of events in order, as NavigationSteps.PumpExact and NavigationEvents.BatchHeld say, and reports the engine's error |
| CdpState.CdpState.ContextState | flutter/crates/vixen-cdp/src/lib.rs:1635-1647 | asks the engine and changes no navigation |
| CdpState.CdpState.RemoveFailedTarget | flutter/crates/vixen-cdp/src/lib.rs:4702-4720 | drops exactly the entries of the context |
| CdpState.CdpState.RemoveNavigationOutcome | flutter/crates/vixen-cdp/src/lib.rs:1957-1969 | removes an entry and returns its outcome; panics exactly when absent or not terminal |
| CdpState.CdpState.TakeNavigationOutcome | flutter/crates/vixen-cdp/src/lib.rs:1915-1925 | takes only unclaimed terminal entries |
| CdpState.CdpState.TakeSocketNavigationOutcome | flutter/crates/vixen-cdp/src/lib.rs:1927-1937 | takes only claimed terminal entries |
| CdpState.CdpState.TakeSocketOperationOutcome | flutter/crates/vixen-cdp/src/lib.rs:1939-1955 | all or nothing: checks every id, removes the superseded ones, takes the last |
| CdpState.CdpState.WaitForNavigation | flutter/crates/vixen-cdp/src/lib.rs:1751-1774 | takes the outcome as soon as it is there, recording events in between |
| CdpState.CdpState.FindSuccessor | flutter/crates/vixen-cdp/src/lib.rs:1437-1465 | finds the smallest successor exactly when one may be adopted |
| CdpState.CdpState.AdoptActiveSocketSuccessor | flutter/crates/vixen-cdp/src/lib.rs:1432-1489 | the loop over the mutable map and operation ends in the adoption of AdoptChain, or its limit error |
| CdpState.CdpState.AbandonNavigationIds | flutter/crates/vixen-cdp/src/lib.rs:1376-1384 | marks exactly the claimed ones of the given ids |
| CdpState.CdpState.CancelAndConsumeSocketOperation | flutter/crates/vixen-cdp/src/lib.rs:1390-1430 | pump, claiming loop, consuming loop, target removal and prune in place end in the ledger of CancelExact |
| CdpState.CdpState.StartSocketOperation | flutter/crates/vixen-cdp/src/lib.rs:1220-1237 | inserts or claims each navigation of the operation as NavigationSteps.StartExact spells out, then prunes |
| CdpState.CdpState.SettleSocketOperation | flutter/crates/vixen-cdp/src/lib.rs:1266-1282 | adoption, and when everything is terminal the second look and second adoption |
| CdpState.CdpState.DecideSocketOperation | flutter/crates/vixen-cdp/src/lib.rs:1283-1305 | the decision of NavigationVerdict.DecideExact, with the effect of VerdictEffect on the map |
| CdpState.CdpState.FinishSocketOperation | flutter/crates/vixen-cdp/src/lib.rs:2336-2360 | the completion handlers of NavigationVerdict.FinishExact |
| CdpState.CdpState.PollSocketOperations | flutter/crates/vixen-cdp/src/lib.rs:1255-1365 | the loop that pops, decides and pushes back ends in the ledger, queue and answers of PollConserves |
| CdpState.CdpState.CloseConnection | flutter/crates/vixen-cdp/src/lib.rs:338-345 | the clean-up of NavigationSteps.DisconnectExact when a connection ends |
| Presentation.LoadPreserves | flutter/crates/vixen-cdp/src/lib.rs:1568-1627 | loading or storing changes no context's effective presentation, and the loaded one becomes live |
| Presentation.EnqueueLands | flutter/crates/vixen-cdp/src/lib.rs:1999-2033 | queued effects reach exactly their own context, active or not |
| Presentation.CoalesceFlattens | flutter/crates/vixen-cdp/src/lib.rs:2011-2032 | per effect category the coalesced queue flattens to the old flattening followed by the new effects, tagged with their generation |
| Presentation.StepRefines | flutter/crates/vixen-cdp/src/lib.rs:1568-1627 | every step of the cache, closing and failed-target removal included, is a step of a plain map whose queues are uncoalesced logs |
| Presentation.RunRefines | flutter/crates/vixen-cdp/src/lib.rs:1568-2040 | so is every run |
| Presentation.NoLeak | flutter/crates/vixen-cdp/src/lib.rs:1568-2040 | from the initial state, after every run, each context has exactly what the plain map has for it, where closing the first target also resets the active context's input state; and a drain delivers what the map holds if and only if a context is active or no item of the drained one lingers |
| Presentation.Isolation | flutter/crates/vixen-cdp/src/lib.rs:1568-2398 | a step changes the presentation of a context it is not about if and only if it closes the first target while that context is active and holds input state or object handles |
| Presentation.RunIsolation | flutter/crates/vixen-cdp/src/lib.rs:1568-2398 | the same in every reachable state |
| Presentation.CloseSpares | flutter/crates/vixen-cdp/src/lib.rs:2370-2398 | closing leaves every other context's presentation unchanged if and only if the target is not the first, or no other context is active, or the active one's four input fields are already clear |
| Presentation.CloseSpills | flutter/crates/vixen-cdp/src/lib.rs:2396-2398 | a run in which closing target 1 for target 2 wipes the key that 2 has pressed |
| Presentation.DrainDelivers | flutter/crates/vixen-cdp/src/lib.rs:5105-5116 | what a drain delivers flattens to the plain map's log for the context if and only if a context is active or no item of the drained one lingers in the live queue |
| Presentation.ClosedDelivers | flutter/crates/vixen-cdp/src/lib.rs:1353-1358 | for all effects: queued for a context that is then closed, they are still delivered to it although the plain map has none |
| Presentation.DrainConserves | flutter/crates/vixen-cdp/src/lib.rs:5105-5116 | a drain delivers or retains every queued item |
| PresentationFields.FreshContext | flutter/crates/vixen-cdp/src/lib.rs:427-449 | a context never seen has all twenty fields off, empty or zero |
| PresentationFields.ResetExact | flutter/crates/vixen-cdp/src/lib.rs:5177-5182 | the reset clears four named fields and keeps the other sixteen |
| PresentationFields.CloseSparesFields | flutter/crates/vixen-cdp/src/lib.rs:2370-2398 | when closing spares the other contexts, in terms of those fields |
| PresentationFields.NothingDropped | flutter/crates/vixen-cdp/src/lib.rs:1999-2033 | whatever effects are queued, of whichever of the five categories, are the end of their own context's log |
| PresentationFields.CoalesceExact | flutter/crates/vixen-cdp/src/lib.rs:2011-2032 | effects of the last item's generation join that item and others get one of their own |
| PresentationFields.RunCompact | flutter/crates/vixen-cdp/src/lib.rs:1568-2040 | in every run no context has two neighbouring items of one generation |
| Presentation.SplitQueue | flutter/crates/vixen-cdp/src/lib.rs:5110-5116 | the drain loop: delivered and retained items, each in order |
| Presentation.PresentationState.StoreActivePresentation | flutter/crates/vixen-cdp/src/lib.rs:1568-1597 | saves all twenty live fields under the active context, or nothing |
| Presentation.PresentationState.LoadPresentation | flutter/crates/vixen-cdp/src/lib.rs:1599-1627 | saves, then installs all twenty fields of the requested context or the defaults |
| Presentation.PresentationState.QueueRuntimeEffectsForContext | flutter/crates/vixen-cdp/src/lib.rs:1999-2033 | coalesces into the last item of the same generation or appends, in the live or the saved queue |
| Presentation.PresentationState.DrainPendingEffects | flutter/crates/vixen-cdp/src/lib.rs:5105-5116 | takes the items of one context out of the live queue |
| Presentation.PresentationState.DiscardPendingRuntimeEffects | flutter/crates/vixen-cdp/src/lib.rs:2035-2040 | empties the live queue and every saved one |
| Presentation.PresentationState.CloseTarget | flutter/crates/vixen-cdp/src/lib.rs:2388-2398 | forgets the context's presentation, deactivates it, and for the first target clears the four live input fields |
| Presentation.PresentationState.ResetInputForNavigation | flutter/crates/vixen-cdp/src/lib.rs:5177-5182 | clears exactly the pressed button, hovered node, typed text and object handles |
| Presentation.PresentationState.RemoveFailedTarget | flutter/crates/vixen-cdp/src/lib.rs:4702-4733 | forgets the context's presentation and, with nothing active left, loads the dispatch context |
| Calendar.CivilExact | flutter/crates/vixen-engine/src/date_units.rs:28-35 | for every integer year and month 1 to 12 the closed form equals the day count from 1970-01-01 built from month and year lengths |
| Calendar.NextDay | flutter/crates/vixen-engine/src/date_units.rs:28-35 | consecutive real dates differ by exactly 1 |
| Calendar.DaysIncrease | flutter/crates/vixen-engine/src/date_units.rs:28-35 | later dates have larger numbers |
| Calendar.DaysInjective | flutter/crates/vixen-engine/src/date_units.rs:28-35 | two real dates have one number exactly when they are the same |
| Calendar.DaysOnto | flutter/crates/vixen-engine/src/date_units.rs:28-35 | every integer is the number of a real date |
| Calendar.LeapExact | flutter/crates/vixen-engine/src/date_units.rs:235-237 | the truncating leap-year test is the Gregorian rule for negative years too |
| Calendar.WeekdayExact | flutter/crates/vixen-engine/src/date_units.rs:128-162 | the truncating weekday gives the right Monday offset and Thursday test for every day, before 1970 too |
| Calendar.Week1Exact | flutter/crates/vixen-engine/src/date_units.rs:138-148 | week 1 starts on a Monday, contains January 4th and holds the year's first Thursday |
| Calendar.WeeksTile | flutter/crates/vixen-engine/src/date_units.rs:128-162 | first Mondays of consecutive years are 371 days apart exactly when the week-53 test holds, else 364 |
| Calendar.WeekNumberExact | flutter/crates/vixen-engine/src/date_units.rs:145-150 | the final division by 7 is exact for every year and week |
| Calendar.WeeksConsecutive | flutter/crates/vixen-engine/src/date_units.rs:128-162 | successive weeks have successive numbers, across year ends |
| Calendar.WeekNumberInjective | flutter/crates/vixen-engine/src/date_units.rs:128-162 | two valid weeks share a number exactly when they are the same |
| Calendar.DayHasWeek | flutter/crates/vixen-engine/src/date_units.rs:128-162 | every day lies in a valid ISO week |
| Calendar.DayHasOneWeek | flutter/crates/vixen-engine/src/date_units.rs:128-162 | and in only one |
| Calendar.ParseDateExact | flutter/crates/vixen-engine/src/date_units.rs:78-90 | a string parses to a number exactly when it is the zero-padded text of a valid date with that day number |
| Calendar.ParseWeekReads | flutter/crates/vixen-engine/src/date_units.rs:128-153 | the text of every valid week parses to its number |
| Calendar.ParseWeekSpells | flutter/crates/vixen-engine/src/date_units.rs:128-153 | whatever parses is the text of a valid week with that number |
| Calendar.ParseWeekInjective | flutter/crates/vixen-engine/src/date_units.rs:128-153 | two strings with one week number are equal |
| Multipart.ReadBackExact | flutter/crates/vixen-engine/src/form_submission.rs:264-304 | for a boundary and content types without CR and LF, the reader recovers the entries (names and filenames minus CR and LF) if and only if no line of a body, the first included, starts with the dashed boundary |
| Multipart.ReadBack | flutter/crates/vixen-engine/src/form_submission.rs:264-304 | in particular whenever no body contains the dashed boundary |
| Multipart.FirstLineClashes | flutter/crates/vixen-engine/src/form_submission.rs:264-304 | for every boundary, a text value that is the dashed boundary holds no delimiter and still does not read back |
| Multipart.MidLineReads | flutter/crates/vixen-engine/src/form_submission.rs:264-304 | for every boundary, a text value with the dashed boundary inside a line reads back |
| Multipart.EncodeInjective | flutter/crates/vixen-engine/src/form_submission.rs:264-304 | equal bodies come from equal entries, up to CR and LF in names |
| Multipart.PartReads | flutter/crates/vixen-engine/src/form_submission.rs:267-301 | no false delimiter straddles a body and the real one; a part is cut short exactly when a line of its body starts with the dashed boundary |
| Multipart.BodyReads | flutter/crates/vixen-engine/src/form_submission.rs:291-301 | the same for a body alone, searched from the CRLF of the blank line as section 5.1.1 of RFC 2046 has it |
| Multipart.QuotedReads | flutter/crates/vixen-engine/src/form_submission.rs:342-355 | a quoted name is read back minus CR and LF, quotes and backslashes included |
| Multipart.HeaderReads | flutter/crates/vixen-engine/src/form_submission.rs:270-294 | part headers determine kind, name, filename and content type |
| Multipart.TextPartSpelled | flutter/crates/vixen-engine/src/form_submission.rs:267-301 | a text part byte for byte |
| Multipart.FilePartSpelled | flutter/crates/vixen-engine/src/form_submission.rs:267-301 | a file part byte for byte |
| Multipart.ClosingSpelled | flutter/crates/vixen-engine/src/form_submission.rs:299-304 | the closing delimiter, and what each byte of a name becomes |
| Multipart.AppendEscapedQuoted | flutter/crates/vixen-engine/src/form_submission.rs:342-355 | the escaping loop appends the escaped form |
| Multipart.AppendHeader | flutter/crates/vixen-engine/src/form_submission.rs:270-294 | appends the header of one part |
| Multipart.EncodeMultipart | flutter/crates/vixen-engine/src/form_submission.rs:264-304 | the encoding loop produces the framed body |
| Urlencoded.ReadBack | flutter/crates/vixen-engine/src/form_submission.rs:167-206 | cutting at ampersand and equals sign, mapping plus to space and percent-decoding returns exactly the names and textual values |
| Urlencoded.EncodeInjective | flutter/crates/vixen-engine/src/form_submission.rs:167-206 | two entry lists encode alike exactly when their names and textual values agree |
| Urlencoded.PairReadBack | flutter/crates/vixen-engine/src/form_submission.rs:100-105 | the i-th pair read back is a text entry's name and text, a file entry's name and filename |
| Urlencoded.ContentsUnsent | flutter/crates/vixen-engine/src/form_submission.rs:100-105 | entry lists that differ only in content types and file bodies encode alike |
| Urlencoded.ByteExact | flutter/crates/vixen-engine/src/form_submission.rs:182-206 | a space becomes a plus, ASCII letters, digits and * - . _ stay, every other byte becomes a percent sign and two uppercase hexadecimal digits |
| Urlencoded.HexDigitExact | flutter/crates/vixen-engine/src/data_url.rs:160-186 | hexadecimal digits of either case have their value, and nothing else has one |
| Urlencoded.EscapeDecodes | flutter/crates/vixen-engine/src/data_url.rs:160-186 | an escape in either case is one byte |
| Urlencoded.OtherKept | flutter/crates/vixen-engine/src/data_url.rs:160-186 | any other byte, a stray percent sign included, is kept |
| Urlencoded.BytesDecode | flutter/crates/vixen-engine/src/form_submission.rs:182-206 | percent-decoding undoes the byte encoding for every byte string |
| Urlencoded.UrlencodedByteEncode | flutter/crates/vixen-engine/src/form_submission.rs:182-206 | the byte loop appends the encoded form |
| Urlencoded.EncodeUrlencoded | flutter/crates/vixen-engine/src/form_submission.rs:167-180 | the entry loop joins the pairs of names and values, a file's value being its filename, which PairReadBack reads back |
| Urlencoded.DecodePercent | flutter/crates/vixen-engine/src/data_url.rs:160-186 | the index-driven loop decodes valid escapes and keeps everything else |
| HtmlSerialize.OuterIsTaggedInner | flutter/crates/vixen-engine/src/html_serialize.rs:78-203 | for every tree a non-void element's outer form is its open tag, its inner form and its close tag, although raw text takes another path |
| HtmlSerialize.RawPathsAgree | flutter/crates/vixen-engine/src/html_serialize.rs:205-214 | the raw-child path and the ordinary path write the same text below a raw-text element |
| HtmlSerialize.OuterReadsBack | flutter/crates/vixen-engine/src/html_serialize.rs:88-203 | a structural reader recovers every well-formed element from its serialization |
| HtmlSerialize.InnerReadsBack | flutter/crates/vixen-engine/src/html_serialize.rs:78-86 | a structural reader recovers the children of every well-formed element that is neither void nor raw text from the inner form |
| HtmlSerialize.RawInnerReadsBack | flutter/crates/vixen-engine/src/html_serialize.rs:78-86 | the inner form of a well-formed raw-text element is its text, which determines its children |
| HtmlSerialize.OuterInjective | flutter/crates/vixen-engine/src/html_serialize.rs:88-203 | two well-formed elements with one serialization are equal |
| HtmlSerialize.CommentUnchanged | flutter/crates/vixen-engine/src/html_serialize.rs:216-232 | the comment loop changes nothing exactly when the contents, after the opening hyphens, never close a comment |
| HtmlSerialize.CommentNeverCloses | flutter/crates/vixen-engine/src/html_serialize.rs:145-154 | whatever its contents, a written comment does not spell the closer "-->" before its end |
| HtmlSerialize.CommentSurvives | flutter/crates/vixen-engine/src/html_serialize.rs:145-154 | a tokenizer with the comment states of the HTML Standard reads a written comment exactly to its end if and only if the contents do not contain "--!>" |
| HtmlSerialize.BangCloses | flutter/crates/vixen-engine/src/html_serialize.rs:216-232 | the contents "a--!>b" are written unchanged and close after five characters |
| HtmlSerialize.CommentIdempotent | flutter/crates/vixen-engine/src/html_serialize.rs:216-232 | the comment loop leaves its own output alone |
| HtmlSerialize.UnescapeText | flutter/crates/vixen-engine/src/html_serialize.rs:240-250 | text escaping is undone by entity decoding and leaves no angle bracket |
| HtmlSerialize.UnescapeAttribute | flutter/crates/vixen-engine/src/html_serialize.rs:256-265 | attribute escaping is undone by entity decoding and leaves no quote |
| HtmlTables.TextCharacterExact | flutter/crates/vixen-engine/src/html_serialize.rs:240-250 | what each character of a text becomes: four have an entity, the others stay |
| HtmlTables.TextEscapes | flutter/crates/vixen-engine/src/html_serialize.rs:240-250 | escaped text holds no angle bracket and no no-break space |
| HtmlTables.TextKept | flutter/crates/vixen-engine/src/html_serialize.rs:240-250 | text without the four characters is unchanged |
| HtmlTables.AttributeCharacterExact | flutter/crates/vixen-engine/src/html_serialize.rs:256-265 | what each character of an attribute value becomes: three have an entity, angle brackets stay |
| HtmlTables.AttributeEscapes | flutter/crates/vixen-engine/src/html_serialize.rs:256-265 | an escaped value holds no quote and no no-break space |
| HtmlTables.AttributeKept | flutter/crates/vixen-engine/src/html_serialize.rs:256-265 | a value without the three characters is unchanged |
| HtmlTables.EmptyElement | flutter/crates/vixen-engine/src/html_serialize.rs:274-295 | an empty element is one tag for the fourteen void elements and a pair of tags for all others |
| HtmlTables.TextElement | flutter/crates/vixen-engine/src/html_serialize.rs:297-306 | the text of an element is written verbatim exactly below the seven raw-text elements, and below noscript while scripting is on |
| HtmlTables.AttributeSpelled | flutter/crates/vixen-engine/src/html_serialize.rs:114-203 | attributes in order, each with its escaped value in double quotes |
| HtmlTables.OtherNodes | flutter/crates/vixen-engine/src/html_serialize.rs:114-203 | comments, doctypes and processing instructions, with their delimiters |
| HtmlTables.DocumentSpelled | flutter/crates/vixen-engine/src/html_serialize.rs:114-144 | a document is its children one after the other |
| HtmlSerialize.PushEscapedText | flutter/crates/vixen-engine/src/html_serialize.rs:240-250 | the character loop appends the text with its four escapes |
| HtmlSerialize.PushEscapedAttribute | flutter/crates/vixen-engine/src/html_serialize.rs:256-265 | the character loop appends the value with its three escapes |
| HtmlSerialize.PushCommentContents | flutter/crates/vixen-engine/src/html_serialize.rs:216-232 | the loop that looks back at its own output and pops from it appends the comment text with each closing angle bracket after two hyphens escaped |
| HtmlSerialize.SerializeNodeInner | flutter/crates/vixen-engine/src/html_serialize.rs:114-203 | the appending recursion writes the specified text |
| HtmlSerialize.SerializeToString | flutter/crates/vixen-engine/src/html_serialize.rs:95-102 | the outer form |
| HtmlSerialize.SerializeChildrenToString | flutter/crates/vixen-engine/src/html_serialize.rs:104-112 | the inner form |
| PngUnfilter.ImageRoundTrip | flutter/scripts/flutter-automation-smoke.py:80-114 | decoding undoes filtering for every image size, content and per-row choice of filters 0 to 4 |
| PngUnfilter.DecodeEncode | flutter/scripts/flutter-automation-smoke.py:86-113 | the same from any prior row |
| PngUnfilter.EncodeDecode | flutter/scripts/flutter-automation-smoke.py:86-113 | whatever decodes filters back to the same stream |
| PngUnfilter.DecodeExact | flutter/scripts/flutter-automation-smoke.py:92-112 | decoding fails exactly when a non-empty row has an unsupported filter |
| PngUnfilter.PaethAgrees | flutter/scripts/flutter-automation-smoke.py:103-110 | the index-of-minimum predictor is the Paeth predictor of section 6.6 of RFC 2083, ties included |
| PngEquations.PaethNearest | flutter/scripts/flutter-automation-smoke.py:103-110 | the predictor of filter 4 is the nearest of left, above and upper left to their estimate, the earliest on a tie |
| PngEquations.ByteReconstructs | flutter/scripts/flutter-automation-smoke.py:97-112 | sections 6.2 to 6.6 of RFC 2083 as arithmetic on the bytes: nothing, left, above, floor of the half sum, or the nearest value, added modulo 256 |
| PngEquations.DecodeReconstructs | flutter/scripts/flutter-automation-smoke.py:86-113 | every byte of every row of every image that decodes meets these equations, from its own row four bytes before and the row above |
| PngEquations.PixelsReconstruct | flutter/scripts/flutter-automation-smoke.py:79-114 | so do the returned pixels, below a row of zeros |
| PngEquations.DecodesExactly | flutter/scripts/flutter-automation-smoke.py:92-112 | decoding fails exactly on a filter byte above 4 before a row that has bytes |
| PngEquations.PixelAt | flutter/scripts/flutter-automation-smoke.py:86-114 | byte x of row y stands at y times the stride plus x |
| PngUnfilter.AddPrediction | flutter/scripts/flutter-automation-smoke.py:97-112 | adds to one byte what PngEquations.ByteReconstructs spells out for each filter, or fails |
| PngUnfilter.UnfilterRow | flutter/scripts/flutter-automation-smoke.py:92-112 | rewrites one row in place into its reconstruction |
| PngUnfilter.DecodeImage | flutter/scripts/flutter-automation-smoke.py:84-114 | fills the pixel buffer with all rows in order |
| PngUnfilter.DecodeRgba | flutter/scripts/flutter-automation-smoke.py:79-114 | fails on exactly the wrong lengths, and otherwise returns the pixels or the filter error |
| RenderProjection.NodeIdResolves | flutter/crates/vixen-engine/src/doc.rs:633-649 | the id of a rendered element finds that same element exactly when its true number fits the machine word |
| RenderProjection.ImageNumberAgrees | flutter/crates/vixen-engine/src/doc.rs:305-334 | an image's number finds an element, and a rendered element carries that number exactly when it is that element |
| RenderProjection.RenderedExact | flutter/crates/vixen-engine/src/doc.rs:900-959 | a node is rendered exactly when neither it nor an ancestor is metadata and, for text, it is not blank and lies in an element; each once, with its content, in document order |
| RenderProjection.TreeShape | flutter/crates/vixen-engine/src/doc.rs:900-959 | parents come first, depth is the parent's plus one, and every parent's children count from 0 without gaps |
| RenderProjection.InBounds | flutter/crates/vixen-engine/src/doc.rs:900-959 | within the integer widths the saturating projection is the unbounded one |
| RenderProjection.ElementsOrdered | flutter/crates/vixen-engine/src/doc.rs:892-898 | the walk meets elements in strict document order |
| RenderProjection.ImagesExact | flutter/crates/vixen-engine/src/doc.rs:305-334 | images are listed with exactly the numbers of img elements that have a non-blank source |
| RenderProjection.ItemsInOrder | flutter/crates/vixen-engine/src/doc.rs:305-334 | what stands before an image in the list is exactly the policies and images of the elements before it |
| ImageItems.ImageListed | flutter/crates/vixen-engine/src/doc.rs:319-328 | an image is listed with a number and source if and only if the element met at that number is an img whose first src is that source and is not all white space |
| ImageItems.PolicyListed | flutter/crates/vixen-engine/src/doc.rs:314-318 | a policy is listed if and only if some meta element declares a content security policy and has it as its first content |
| ImageItems.CspPolicyExact | flutter/crates/vixen-engine/src/doc.rs:652-666 | an element declares one exactly when an http-equiv is white space around "Content-Security-Policy" in any ASCII case |
| ImageItems.PolicyPrecedes | flutter/crates/vixen-engine/src/doc.rs:305-334 | a policy stands before an image in the list exactly when its element comes first |
| ImageItems.WhitespaceExact | flutter/crates/vixen-engine/src/doc.rs:319-328 | the white space that is trimmed is the Unicode property White_Space |
| RenderTables.ElementShown | flutter/crates/vixen-engine/src/doc.rs:961-966 | an element is rendered unless its name is one of the eight metadata names |
| RenderTables.TextShown | flutter/crates/vixen-engine/src/doc.rs:900-959 | a text in an element is rendered as its child exactly when it is more than white space |
| RenderTables.TopLevelText | flutter/crates/vixen-engine/src/doc.rs:900-959 | a text outside any element is never rendered, and number 0 finds no element |
| RenderTables.Saturates | flutter/crates/vixen-engine/src/doc.rs:900-959 | beyond 64, 32 and 16 bits numbers stay at their maximum |
| RenderProjection.WalkNumbered | flutter/crates/vixen-engine/src/doc.rs:892-898 | the generic walk with a counting callback collects, for any callback, what the elements contribute in document order |
| RenderProjection.ProjectRenderChildren | flutter/crates/vixen-engine/src/doc.rs:900-959 | the recursion with its threaded counter emits the projection clamped to the machine integers, for every tree |
| RenderProjection.RenderNodes | flutter/crates/vixen-engine/src/doc.rs:205-217 | the same for a whole document |
| RenderProjection.ElementHandleByNodeId | flutter/crates/vixen-engine/src/doc.rs:633-649 | the callback walk finds the element met at the given number |
| RenderProjection.ImageExecutionItems | flutter/crates/vixen-engine/src/doc.rs:305-334 | the callback walk lists exactly the images of ImageItems.ImageListed and the policies of ImageItems.PolicyListed |
| AccessibilityHash.SnapshotReads | flutter/crates/vixen-api/src/browser.rs:33-125 | a reader recovers every hashed field from the byte stream and stops exactly at its end |
| AccessibilityHash.StreamDetermines | flutter/crates/vixen-api/src/browser.rs:33-125 | the encoding is prefix-free: streams with anything after them agree exactly when snapshots and remainders agree |
| AccessibilityHash.NodeReads | flutter/crates/vixen-api/src/browser.rs:40-122 | the same for one node |
| AccessibilityHash.MixBijective | flutter/crates/vixen-api/src/browser.rs:135-138 | each hash step is a bijection on 64-bit states for a fixed byte, with its inverse |
| AccessibilityHash.MixSeparates | flutter/crates/vixen-api/src/browser.rs:135-138 | different bytes lead one state to different states |
| AccessibilityHash.PublishedValue | flutter/crates/vixen-api/src/browser.rs:127-138 | the hash is 64-bit FNV-1a: it starts at the offset basis and takes the byte "a" to its published value |
| AccessibilityHash.AbsorbInjective | flutter/crates/vixen-api/src/browser.rs:135-138 | states stay distinct under a common suffix |
| AccessibilityHash.OneByteShows | flutter/crates/vixen-api/src/browser.rs:135-138 | changing one byte of a stream always changes the resulting state |
| AccessibilityHash.OneByteShowsLow | flutter/crates/vixen-api/src/browser.rs:135-138 | changing one byte of a stream always changes the low 63 bits of the resulting state |
| AccessibilityHash.AbsorbLow | flutter/crates/vixen-api/src/browser.rs:135-138 | low 63 bits stay distinct, and equal, under a common suffix |
| AccessibilityHash.FinishExact | flutter/crates/vixen-api/src/browser.rs:177-180 | fingerprints are positive 63-bit numbers, and two states share one exactly when they agree but for the top bit or both have 0 or 1 below it |
| AccessibilityHash.OneByteFingerprint | flutter/crates/vixen-api/src/browser.rs:33-181 | snapshots whose streams differ in one byte have states that differ in the low 63 bits, and share a fingerprint if and only if those bits are 0 and 1 |
| AccessibilityHash.TruncationShows | flutter/crates/vixen-api/src/browser.rs:33-125 | flipping the truncation flag alone changes the fingerprint, except when the low 63 bits of the two states are 0 and 1 |
| AccessibilityHash.Hasher.PushByte | flutter/crates/vixen-api/src/browser.rs:135-138 | one in-place step |
| AccessibilityHash.Hasher.Word | flutter/crates/vixen-api/src/browser.rs:144-148 | eight bytes, low byte first |
| AccessibilityHash.Hasher.String | flutter/crates/vixen-api/src/browser.rs:150-155 | length, then bytes |
| AccessibilityHash.Hasher.OptionalString | flutter/crates/vixen-api/src/browser.rs:157-165 | tag, then string |
| AccessibilityHash.Hasher.OptionalBool | flutter/crates/vixen-api/src/browser.rs:167-175 | tag, then flag |
| AccessibilityHash.Hasher.HashNode | flutter/crates/vixen-api/src/browser.rs:40-122 | absorbs exactly the encoding of a node |
| AccessibilityHash.AccessibilitySnapshot.RefreshGeneration | flutter/crates/vixen-api/src/browser.rs:33-125 | the new generation is the fingerprint of the hashed fields, which do not change |
| Dataset.AttributeRoundTrip | flutter/crates/vixen-engine/src/dataset.rs:64-137 | an exposed attribute's property names the same attribute exactly when the suffix has only accepted characters and no uppercase |
| Dataset.InverseFails | flutter/crates/vixen-engine/src/dataset.rs:102-119 | the exposed attribute data-A has property A, which names data--a |
| Dataset.PunctuationAccepted | flutter/crates/vixen-engine/src/dataset.rs:102-137 | the property a.b:c is accepted and names data-a.b:c |
| Dataset.PropertyRoundTrip | flutter/crates/vixen-engine/src/dataset.rs:64-137 | an accepted property comes back with its hyphen-lowercase pairs rewritten, so unchanged exactly when it has none |
| Dataset.PropertiesCollide | flutter/crates/vixen-engine/src/dataset.rs:120-137 | two accepted properties share an attribute exactly when they agree after rewriting hyphen-lowercase pairs |
| Dataset.AttributesCollide | flutter/crates/vixen-engine/src/dataset.rs:64-100 | two exposed attributes share a property exactly when they agree after writing uppercase letters as pairs |
| Dataset.FirstRefused | flutter/crates/vixen-engine/src/dataset.rs:126-135 | the reported character is the first unaccepted one, and there is none exactly when all are accepted |
| Dataset.OneCharacter | flutter/crates/vixen-engine/src/dataset.rs:120-137 | a property of one character: an uppercase letter becomes a hyphen and its lowercase, letters, digits and four marks stay, all others are refused |
| Dataset.ExposedExactly | flutter/crates/vixen-engine/src/dataset.rs:64-100 | an attribute is exposed exactly when it is "data-" and at least one character more, with no hyphen before an uppercase letter |
| Dataset.AttributeToProperty | flutter/crates/vixen-engine/src/dataset.rs:64-100 | the scanning and rewriting loops give the property of an exposed attribute and nothing for a hidden one: wrong prefix, empty suffix, or a hyphen before an uppercase letter |
| Dataset.PropertyToAttribute | flutter/crates/vixen-engine/src/dataset.rs:120-137 | the writing loop gives the attribute name, or the error for an empty name or the first unaccepted character |
| Dataset.CollectDataset | flutter/crates/vixen-engine/src/dataset.rs:148-168 | the entries are exactly those of the attributes that are first to expose their property, in document order |
| Dataset.CollectedExact | flutter/crates/vixen-engine/src/dataset.rs:148-168 | a property is collected exactly when some attribute exposes it |
| Dataset.CollectedOnce | flutter/crates/vixen-engine/src/dataset.rs:148-168 | no property is collected twice |
| TokenList.ParsedRun | flutter/crates/vixen-engine/src/class_list.rs:129-269 | after any run of add, remove, toggle and replace a parsed list holds distinct, non-empty, whitespace-free tokens and survives serializing and parsing |
| TokenList.RunKeeps | flutter/crates/vixen-engine/src/class_list.rs:181-269 | the same from any token set |
| TokenList.RoundTrip | flutter/crates/vixen-engine/src/class_list.rs:69-98 | a list survives serializing and parsing exactly when it is a token set |
| TokenList.ParseExact | flutter/crates/vixen-engine/src/class_list.rs:69-80 | parsing finds exactly the maximal runs of non-whitespace |
| TokenList.ParseValid | flutter/crates/vixen-engine/src/class_list.rs:69-80 | every parsed list is a token set |
| TokenList.FromTokensValid | flutter/crates/vixen-engine/src/class_list.rs:137-147 | a list built from given tokens is a token set exactly when all of them are valid |
| TokenList.ApplyKeeps | flutter/crates/vixen-engine/src/class_list.rs:181-269 | each operation keeps the token set, fails exactly when an argument is invalid, and then changes nothing |
| TokenList.ApplyMeets | flutter/crates/vixen-engine/src/class_list.rs:181-269 | membership and answer after each operation |
| TokenList.ReplaceAgreesWithStandard | flutter/crates/vixen-engine/src/class_list.rs:248-269 | replace does what the DOM Standard's ordered-set replace does exactly when the new token is absent or stands at most one place after the old one |
| TokenList.ReplaceDiffers | flutter/crates/vixen-engine/src/class_list.rs:248-269 | a list on which they differ |
| TokenTables.SeparatorExact | flutter/crates/vixen-engine/src/class_list.rs:69-80 | two letters with a character between them are two tokens exactly for the five ASCII white space characters |
| TokenTables.FirstFaultExact | flutter/crates/vixen-engine/src/class_list.rs:103-113 | the error of a failing call is the first bad argument's: empty, or holding white space |
| TokenTables.SerializeAppends | flutter/crates/vixen-engine/src/class_list.rs:85-98 | tokens are joined by one space each |
| TokenTables.PositionsExact | flutter/crates/vixen-engine/src/class_list.rs:181-220 | new tokens go to the end in the order given, and removal keeps the order of the rest |
| TokenList.ParseTokenSet | flutter/crates/vixen-engine/src/class_list.rs:69-80 | the splitting loop yields the first occurrence of every non-empty piece, in order |
| TokenList.SerializeTokenSet | flutter/crates/vixen-engine/src/class_list.rs:85-98 | the loop yields the tokens joined by single spaces |
| TokenList.DomTokenList.Parse | flutter/crates/vixen-engine/src/class_list.rs:129-133 | a parsed list is a token set |
| TokenList.DomTokenList.FromTokens | flutter/crates/vixen-engine/src/class_list.rs:137-147 | first occurrences in order, unvalidated |
| TokenList.DomTokenList.Contains | flutter/crates/vixen-engine/src/class_list.rs:173-176 | validation error or membership |
| TokenList.DomTokenList.Add | flutter/crates/vixen-engine/src/class_list.rs:181-201 | all or nothing, in place |
| TokenList.DomTokenList.Remove | flutter/crates/vixen-engine/src/class_list.rs:205-220 | all or nothing, survivors in order |
| TokenList.DomTokenList.Toggle | flutter/crates/vixen-engine/src/class_list.rs:229-243 | with and without force |
| TokenList.DomTokenList.Replace | flutter/crates/vixen-engine/src/class_list.rs:248-269 | in place, or removal when the new token is present |

## Left out

- WebSocket transport, JSON requests and responses, notification text, tracing, screenshots and profile directories of the CDP server: I/O and formatting. Answers carry the verdict, not the response body.
- Method routing and parameter checks of `dispatch`, and the command that produces an operation: an operation and the events of its dispatch are inputs of a start step. A command that fails or yields no navigation is a start step without navigation ids, which only records events.
- The order in which the engine reacts to `Stop` and `CloseBrowsingContext`: its reaction is part of the events of the next pump. The discarded answer of the context query made after adopting an unfinished successor is not modelled.
- The target and session lists, and the presentation reload inside a poll: the navigation and presentation sides are modelled separately and share no field but the context id.
- CdpState.CdpState.ContextState: returns only whether the engine answered, because the state it answers with feeds notifications alone.
- CdpState.CdpState.RemoveFailedTarget: changes the navigation map only; the presentation side is `PresentationState.RemoveFailedTarget`, the target and session lists are not modelled.
- CdpState.CdpState.FinishSocketOperation: has no response body and no target list, so the `expect` "created target is stored" is not modelled.
- PresentationState.CloseTarget: takes the position of the target as input; the lookup by target id and the failure answers of `target_close` change no presentation.
- Wall-clock time: deadlines and `now` are numbers; error messages are constructors, not text.
- HTML parsing: trees are inputs. Doctypes and processing instructions are serialized by the source but are not in the reader's grammar, and non-element nodes have no children.
- zlib, chunk structure and CRC of PNG files: the filtered bytes are the input.
- Floating-point values of the accessibility snapshot are their 64-bit patterns, strings are byte strings, and vector lengths are machine words.
- `parse_time`, `parse_month` and `parse_datetime_local`, the text/plain form encoding, boundary generation and `relList.supports`: only easy members.
- Integer overflow of `i64` in the calendar: arithmetic is unbounded, and parsed years have four digits.
