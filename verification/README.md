# Verified models of the distributed-systems exercises

Dafny models of the eight pieces of this repository that carry protocols, data structures or
arithmetic, with proofs of what they keep. Databases, Redis and HTTP are in-memory maps and atomic
steps; everything else (handlers' answers, clocks, faults, other tasks) is an arbitrary input, so
results hold for all of them. Code that updates state in place is a class whose methods are proved
against a step function, and the results about all runs are proved about that function.

| part | files |
|---|---|
| TCC saga engine with three services | `Workflow`, `WorkflowErrors`, `WorkflowManager`, `TccServices`, `PaymentRecords`, `TccReplies`, `TccAccounting`, `PurchaseSaga`, `PurchaseSafety`, `PurchaseReservations`, `PurchaseOutcome`, `PurchaseExamples`, `PurchaseExtremes`, `PurchaseWorkflow` |
| Orchestrated saga with its inventory | `OrderWorkflow`, `OrderCommands`, `OrderRecord`, `InventoryService`, `OrderSaga`, `OldFormatOrders` |
| Autocomplete trie and cache | `Ranking`, `SearchTrie`, `SearchService` |
| Quorum store | `QuorumStore`, `QuorumMeaning`, `QuorumCluster` |
| URL shortener | `Bits`, `IdGenerator`, `Base62`, `Shortener` |
| Consistent hash ring | `HashRing` |
| Rate limiters | `FixedWindow`, `OverlappingRequests`, `EventHistories`, `OverlapReached`, `SlidingWindow`, `EqualTimes` |
| Chat connections and message sync | `ChatConnections`, `ChatOutside`, `ChatManager`, `MessageSync` |
| Shared | `Basics`, `Sums`, `Decimals` |

`dafny verify dfyconfig.toml` checks the whole project.

Some promises do not hold of the code as it stands. Each is stated with the exact condition under
which it does, a concrete run in which it does not, or both:

- The manager calls a compensation with the parameters of the reservation, which the cancel methods
  of the services do not take (manager.py:249), so with handlers bound as in main.py:86-121 nothing
  is ever compensated. Both bindings are modelled: `Bare`, and `Projecting`, which passes on what the
  cancel methods take. The all-or-nothing results are about `Projecting`.
- `cancel_balance` does not tell a confirmed transaction from a reserved one, so a purchase that fails
  while charging leaves the books inexact, and a later confirmation can take the reservation below zero.
- A purchase whose compensation runs out of its five attempts is FAILED and not undone, unless it was
  the last compensation and only its replies were lost; every purchase that fails in confirming the
  order ends so, debited and charged. It can even be settled, if that confirmation only lost its
  replies.
- A reservation that commits in its last attempt and loses its reply is not compensated.
- Insufficient funds is retried, although the comment at manager.py:203 says it is not.
- An order without an item list reserves nothing, but its compensation releases: it harms other orders
  exactly if the opening stock covers what it names.
- A rebuild whose load or flush fails leaves stale answers in the cache.
- A store node that rejoins before its hints are flushed can answer a stale value although W + R > N,
  unless writes need every node; and a key at which another one keeps its clock is overwritten.
- Two URLs with one hash share a slug; colliding ring points make routing depend on history.
- Removing a ring node that is listed more than once leaves it listed without points, until it is
  added again; that is exactly when the ring stops being that of its listed nodes.
- A fixed-window counter that expires between the read and the increment never expires again, and
  requests that overlap between the two can exceed the limit, without bound if their number has none.
- Requests with equal timestamps are one entry of the sliding log; messages inserted below a
  device's cursor are never synced.
- Two devices can share a stored cursor, for some rooms, exactly if one's name goes on after the other's
  like the text between device and room in the key.

## Model

| member | source | states |
|---|---|---|
| Workflow.RunOrder | distributed_transaction_management/src/workflow/manager.py:132-277 | In every run, at every point, the handlers that returned are exactly activities 0 to index-1 in order, and the compensations that returned are exactly the compensable ones among them in reverse, down to 0 unless one ran out of retries |
| Workflow.RunTerminates | distributed_transaction_management/src/workflow/manager.py:145-166 | Whatever the handlers answer, the run has finished after at most the calls its activities allow |
| Workflow.RunCallBounds | distributed_transaction_management/src/workflow/manager.py:187-255 | At most max_retries+1 handler calls per activity and five per compensation; the retry counter of a failed activity is the number of its calls |
| Workflow.RunCounts | distributed_transaction_management/src/workflow/manager.py:187-255 | At every point of every run, what the record says of an activity (status, retry counter, phase) fits the number of handler and compensation calls the trace shows |
| Workflow.ReachableShape | distributed_transaction_management/src/workflow/manager.py:145-174 | Strict prefix machine: in every reachable record the activities below the index have completed (or been compensated), the one at it is being tried or has failed, the later ones are untouched |
| Workflow.CallsLeftDecreases | distributed_transaction_management/src/workflow/manager.py:226-277 | Every call strictly decreases what is left of the allowance of calls, which never becomes negative |
| Workflow.RetriedUnlessCompletable | distributed_transaction_management/src/workflow/manager.py:187-222 | At any point of any run, at any activity, under any errors in a row: still being tried exactly if none was completable and the retries are not used up; otherwise failed at the first that was completable or met the last retry, and counted so. Insufficient funds is not completable, against the comment at line 203 |
| WorkflowErrors.GivenUpAfter | distributed_transaction_management/src/workflow/manager.py:187-298 | At any activity just begun in any run, a handler that raises the same error again and again is called exactly once for an unknown user, an invalid payment method and a product out of stock, and max_retries+1 times for every other error; the retry counter then says so |
| WorkflowErrors.RunErrors | distributed_transaction_management/src/workflow/manager.py:187-222 | In every run an activity keeps the error its handler raised last, even if a later call returned; compensations leave it alone |
| WorkflowManager.SagaWorkflowManager.ExecuteActivity | distributed_transaction_management/src/workflow/manager.py:178-224 | The retry loop leaves the record where the step function of the run results stands after the same calls, on success and on failure |
| WorkflowManager.SagaWorkflowManager.CompensateWorkflow | distributed_transaction_management/src/workflow/manager.py:226-277 | The backward loop with its own retries ends in the finished state of the step function; FAILED exactly when it raises |
| WorkflowManager.SagaWorkflowManager.ExecuteWorkflow | distributed_transaction_management/src/workflow/manager.py:132-176 | The in-place run ends in exactly the record the step function reaches after the calls made, and not before; it raises exactly when the status is FAILED |
| TccServices.UserService.Reserve | distributed_transaction_management/src/services/user_service.py:71-121 | Whole new state and reply: a repeat is a no-op, a transaction past reserving, an unknown user or too small a free balance is refused, otherwise the amount is reserved |
| TccServices.UserService.Confirm | distributed_transaction_management/src/services/user_service.py:123-167 | Whole new state and reply: an unknown transaction or user is refused, a confirmed transaction is a no-op, any other is taken off balance and reservation |
| TccServices.UserService.Cancel | distributed_transaction_management/src/services/user_service.py:169-208 | Whole new state and reply, including that a confirmed transaction is not told apart from a reserved one |
| TccServices.OrderService.Reserve | distributed_transaction_management/src/services/order_service.py:70-131 | Whole new state and reply of reserving stock |
| TccServices.OrderService.Confirm | distributed_transaction_management/src/services/order_service.py:133-189 | Whole new state and reply of confirming an order |
| TccServices.OrderService.Cancel | distributed_transaction_management/src/services/order_service.py:191-243 | Whole new state and reply of cancelling an order |
| TccServices.PaymentService.Reserve | distributed_transaction_management/src/services/payment_service.py:84-142 | Whole new state and reply of reserving a payment: made exactly if the transaction is new, the method is an active one of the user and the amount is positive |
| TccServices.PaymentService.Charge | distributed_transaction_management/src/services/payment_service.py:144-193 | Whole new state and reply of charging |
| TccServices.PaymentService.Cancel | distributed_transaction_management/src/services/payment_service.py:195-244 | Whole new state and reply of cancelling a payment |
| PaymentRecords.EveryPaymentSound | distributed_transaction_management/src/services/payment_service.py:84-244 | Whatever is called in whatever order, every payment is made with an active method of its own user, over a positive amount |
| PaymentRecords.SettledForEver | distributed_transaction_management/src/services/payment_service.py:144-244 | A charged payment is never cancelled and a cancelled one never charged, whatever is called; user, method and amount never change |
| TccReplies.Idempotent | distributed_transaction_management/src/services/user_service.py:71-208 | Each of the nine calls of the three services, in any state: only a call that takes effect changes anything, and making it again finds the work done and changes nothing |
| TccReplies.DoneIff | distributed_transaction_management/src/services/user_service.py:71-208 | A call finds its work done exactly if the row of the transaction has the status it would give it; only cancelling a balance that was never reserved passes for done as well |
| TccReplies.AppliedIff | distributed_transaction_management/src/services/order_service.py:70-243 | A call takes effect exactly if its row, its user and what is free allow it: payments and orders are settled only out of a reservation of the same user |
| TccAccounting.ReserveKeepsAccount | distributed_transaction_management/src/services/user_service.py:71-121 | Reserving keeps reserved = sum of reserved transactions and balance + confirmed = opening balance |
| TccAccounting.ConfirmKeepsAccount | distributed_transaction_management/src/services/user_service.py:123-167 | Confirming a transaction keeps the books of a user if and only if it is reserved or confirmed, or another user's: a cancelled one is debited and taken off the reservation again, unless its amount is zero |
| TccAccounting.CancelAccount | distributed_transaction_management/src/services/user_service.py:169-208 | Cancelling keeps the books if the transaction was reserved; if it was confirmed, both columns fall short by exactly its amount |
| TccAccounting.CancelExactIff | distributed_transaction_management/src/services/user_service.py:181-200 | Cancelling keeps exact books exact if and only if the transaction is not confirmed |
| TccAccounting.SettleKeepsStock | distributed_transaction_management/src/services/order_service.py:133-243 | Confirming and cancelling an order keep the stock books in any order of calls |
| TccAccounting.ReserveKeepsStock | distributed_transaction_management/src/services/order_service.py:70-131 | Reserving keeps the stock books of every product, whatever the reply |
| TccAccounting.ExactAccountBounds | distributed_transaction_management/src/services/user_service.py:71-208 | Exact books imply 0 <= reserved <= balance |
| TccAccounting.StockBounds | distributed_transaction_management/src/services/order_service.py:70-243 | The stock books imply 0 <= reserved <= stock |
| PurchaseSaga.PurchaseActivities | distributed_transaction_management/src/main.py:85-152 | Six fresh activities, three tries with compensations and three confirmations without, three retries each |
| PurchaseSaga.CallReply | distributed_transaction_management/src/main.py:85-152 | What each of the nine calls answers in any state fits the history of its purchase, and a call that is refused changes nothing |
| PurchaseSaga.CallRows | distributed_transaction_management/src/main.py:85-152 | A call that takes effect leaves the rows of its transaction as the extended history says |
| PurchaseSaga.OtherFlows | distributed_transaction_management/src/workflow/manager.py:132-176 | No event touches the record of another or of a finished purchase |
| PurchaseSaga.StepKeepsFlows | distributed_transaction_management/src/main.py:85-152 | Interleaving: every step of every purchase, lost replies included, keeps the rows of all purchases in the three services in step with their histories |
| PurchaseSafety.ReachedOk | distributed_transaction_management/src/services/user_service.py:71-208 | In every state reached by any interleaving of purchases, the flows, all accounts and all stocks are in order |
| PurchaseSafety.AccountExactIff | distributed_transaction_management/src/services/user_service.py:71-208 | In every reachable state reserved = sum of reserved transactions and balance + confirmed = opening balance if and only if none of the user's purchases was cancelled after being confirmed; then 0 <= reserved <= balance |
| PurchaseSafety.LostIffSpoiled | distributed_transaction_management/src/services/user_service.py:181-200 | The shortfall of a user's account is zero if and only if no purchase of the user was cancelled after being confirmed |
| PurchaseSafety.StockExact | distributed_transaction_management/src/services/order_service.py:70-243 | In every reachable state reserved = sum of reserved orders, stock + sold = opening stock and 0 <= reserved <= stock, unconditionally |
| PurchaseReservations.PaidWithOwnMethod | distributed_transaction_management/src/services/payment_service.py:111-119 | In every reachable state every payment is made with a method of the opening table that belongs to the payer and is active |
| PurchaseReservations.OrderTotals | distributed_transaction_management/src/services/order_service.py:105-116 | In every reachable state every order is over the opening price of its product times its quantity |
| PurchaseReservations.GrantedIff | distributed_transaction_management/src/main.py:85-121 | In every reachable state, the exact reply to the first attempt at each reservation in terms of the opening state: balance and stock less all that is confirmed, sold or reserved, and the table of payment methods |
| PurchaseReservations.AttemptProgress | distributed_transaction_management/src/workflow/manager.py:187-222 | and what the manager makes of it: on to the next activity, given up at once for an unknown user, an invalid method or a product out of stock, tried again three times for missing funds or an unknown product |
| PurchaseOutcome.ConfirmsNeverRefused | distributed_transaction_management/src/main.py:123-152 | Once the three reservations are made no confirmation is refused, whatever other purchases do in between |
| PurchaseOutcome.ConfirmsStayAboveZero | distributed_transaction_management/src/services/user_service.py:123-167 | ... and none drives a stock or its reservation below zero, or a balance below its reservation; the user's reservation stays at or above zero exactly if it covers, before the call, the amount the call debits; equivalently if what spoiled purchases took off it is no more than what is then reserved, so always if there are none |
| PurchaseExtremes.ConfirmationGoesBelowZero | distributed_transaction_management/src/services/user_service.py:145-154 | A concrete run in which it does not: after another purchase of the user was confirmed and then compensated, a purchase confirms 100 out of a reservation of 0 and leaves -100 |
| PurchaseOutcome.ExactlyOnce | distributed_transaction_management/src/workflow/manager.py:187-222 | With attempts that may commit and still raise: a completed activity has taken effect exactly once, a failed or running one at most once, a pending one never |
| PurchaseOutcome.CompletedIsSettled | distributed_transaction_management/src/main.py:85-152 | A completed purchase is confirmed, charged and confirmed in the three services |
| PurchaseOutcome.SettledIff | distributed_transaction_management/src/main.py:85-152 | With or without lost replies, in every reachable state a purchase is settled in all three services if and only if all six activities have taken effect, and then nothing of it is undone, whatever its workflow reports |
| PurchaseExtremes.FailedButSettled | distributed_transaction_management/src/workflow/manager.py:235-277 | A concrete run in which the replies of the last confirmation are lost: reported FAILED, settled in all three services |
| PurchaseOutcome.CompensatedLeavesNothingIff | distributed_transaction_management/src/workflow/manager.py:226-277 | A compensated purchase has nothing left if and only if the failed activity had not taken effect and the balance had not been confirmed |
| PurchaseOutcome.FailedLeavesNothingIff | distributed_transaction_management/src/workflow/manager.py:247-275 | A FAILED purchase has nothing left if and only if the compensation that ran out was the last one and had taken effect with its replies lost, the failed activity had not taken effect and the balance had not been confirmed |
| PurchaseOutcome.FailedOrderStaysCharged | distributed_transaction_management/src/services/payment_service.py:195-244 | A purchase that fails in confirming the order always ends FAILED, with the balance debited and the payment charged |
| PurchaseExamples.FailedOrderIsDebitedAndCharged | distributed_transaction_management/src/services/payment_service.py:195-244 | A concrete run that ends so: FAILED, the order cancelled, the balance confirmed and the payment charged |
| PurchaseOutcome.AllOrNothing | distributed_transaction_management/src/main.py:62-157 | Every finished purchase none of whose replies was lost, in any interleaving: settled in all three services exactly when COMPLETED, nothing left exactly when COMPENSATED having failed no later than in confirming the balance; so a FAILED one is neither |
| PurchaseOutcome.SpoiledOnlyWhileConfirming | distributed_transaction_management/src/services/user_service.py:181-200 | Only a purchase that failed in confirming the balance or in charging can leave the books inexact |
| PurchaseOutcome.ExactUnlessConfirmationFails | distributed_transaction_management/src/services/user_service.py:71-208 | As long as no purchase failed in a confirmation every account is exact and within bounds |
| PurchaseOutcome.BareNeverCompensates | distributed_transaction_management/src/workflow/manager.py:244-255 | With the compensation handlers called as the manager calls them, with the parameters of the reservation, every compensation raises and none takes anything back; a finished purchase has nothing left only if its first activity failed without effect |
| PurchaseExamples.ConfirmedThenCompensated | distributed_transaction_management/src/services/user_service.py:181-200 | A concrete run in which charging fails: reported compensated, but the user is debited and the books disagree |
| PurchaseExamples.BareLeavesReservation | distributed_transaction_management/src/workflow/manager.py:249-249 | A concrete run in which the refused compensations leave the balance reserved |
| PurchaseExamples.LostReplyLeavesReservation | distributed_transaction_management/src/workflow/manager.py:235-240 | A concrete run in which the last attempt commits and raises: compensation starts below it and leaves the amount reserved |
| PurchaseWorkflow.CreatePurchaseWorkflow | distributed_transaction_management/src/main.py:62-157 | The loop builds a workflow of exactly the six activities, not started |
| PurchaseWorkflow.ExecutePurchase | distributed_transaction_management/src/main.py:159-183 | A purchase executed by the manager ends where the step function first finishes, after at most 54 calls |
| OrderWorkflow.SagaRun.ReserveItems | saga_pattern/orchestration_pattern/saga_orchestrator/app.py:137-188 | The loop with its inner rollback: either every listed item was reserved, or all reserved before the refused one were sent back |
| OrderWorkflow.SagaRun.ExecuteStep | saga_pattern/orchestration_pattern/saga_orchestrator/app.py:102-251 | The step and its log entry end where the control function stands after the same commands |
| OrderWorkflow.SagaRun.ExecuteCompensation | saga_pattern/orchestration_pattern/saga_orchestrator/app.py:254-350 | The compensation commands, each refused one passed over; a list returns early, and without one (an empty list included) a single command is sent for what the payload names |
| OrderWorkflow.SagaRun.CompensateSteps | saga_pattern/orchestration_pattern/saga_orchestrator/app.py:372-427 | The completed steps before the failed one are compensated last first and the saga is FAILED |
| OrderWorkflow.SagaRun.Run | saga_pattern/orchestration_pattern/saga_orchestrator/app.py:353-439 | The in-place run ends exactly where the control function ends, COMPLETED or FAILED |
| OrderCommands.RunLeads | saga_pattern/orchestration_pattern/saga_orchestrator/app.py:137-188 | At every point of every run the commands sent are exactly those that lead there: items in order, an inner rollback of those reserved before a refused one, later steps only after earlier ones |
| OrderCommands.FailureCompensatesAll | saga_pattern/orchestration_pattern/saga_orchestrator/app.py:372-427 | A saga that fails after its first step has compensated the completed steps in reverse: the payment cancelled exactly once if shipping failed and never otherwise, then every release, whatever the replies |
| OrderCommands.RunEnds | saga_pattern/orchestration_pattern/saga_orchestrator/app.py:353-439 | Every saga ends, after at most two commands per reserved item, one per released item and three more |
| OrderRecord.RunOnTheWay | saga_pattern/orchestration_pattern/saga_orchestrator/app.py:137-251 | At every point of every run, status and step log are those of the replies so far, which are given one by one |
| OrderRecord.EndIsRecorded | saga_pattern/orchestration_pattern/saga_orchestrator/app.py:310-350 | An ended saga's status and log by the first command refused: all three steps completed, or the failed step and before it the payment COMPENSATED exactly if its cancellation was answered with success, the inventory step only if there is no list |
| InventoryService.ReleaseUndoesReserve | saga_pattern/orchestration_pattern/inventory_service/app.py:44-107 | A successful reservation can be released, and that restores the whole inventory |
| InventoryService.InventoryService.ReserveStock | saga_pattern/orchestration_pattern/inventory_service/app.py:29-77 | Whole new inventory and reply: unknown book, too little stock, or moved from available to reserved |
| InventoryService.InventoryService.ReleaseStock | saga_pattern/orchestration_pattern/inventory_service/app.py:80-126 | Whole new inventory and reply of releasing |
| OrderSaga.StepKeepsSystem | saga_pattern/orchestration_pattern/saga_orchestrator/app.py:137-188 | Every step of every saga, lost commands and replies included, keeps the books of every book and the holdings of every saga |
| OrderSaga.ReachedOk | saga_pattern/orchestration_pattern/saga_orchestrator/app.py:102-439 | Every reachable state has all books balanced and every saga holding what its control says |
| OrderSaga.StockConserved | saga_pattern/orchestration_pattern/inventory_service/app.py:44-107 | Under any interleaving each book has available + reserved constant and both >= 0 |
| OrderSaga.GrantedIff | saga_pattern/orchestration_pattern/inventory_service/app.py:44-126 | In every reachable state a reservation is granted exactly if the opening stock covers it besides what the sagas hold (less what was released without having been reserved), a release exactly if that covers it |
| OrderSaga.ReservedIsHeldIff | saga_pattern/orchestration_pattern/inventory_service/app.py:44-107 | In each reachable state reserved = sum of what the sagas hold, if and only if no compensation has released of the book what its saga had not reserved |
| OrderSaga.ReservedIsHeldInRunIff | saga_pattern/orchestration_pattern/inventory_service/app.py:44-107 | After any run reserved = sum of what the sagas hold if and only if no event of the run was a release, by an order without a list, that reached the service and succeeded |
| OrderSaga.ReleaseNeverRefused | saga_pattern/orchestration_pattern/saga_orchestrator/app.py:278-305 | In such a state no compensating release of a listed order is refused |
| OrderSaga.EndedSagas | saga_pattern/orchestration_pattern/saga_orchestrator/app.py:372-427 | In any run a FAILED saga holds exactly the items of which some event of the run was a reservation whose reply was lost, or a release that was lost on the way or refused; a COMPLETED one exactly its items, with no such event |
| OldFormatOrders.FailedHoldsNothing | saga_pattern/orchestration_pattern/saga_orchestrator/app.py:372-427 | If no order without a list that is placed names a book in a quantity the opening stock covers, a saga that lost no message holds nothing when FAILED and exactly its items when COMPLETED, whatever other sagas do and lose |
| OldFormatOrders.PromisesIffHarmless | saga_pattern/orchestration_pattern/saga_orchestrator/app.py:278-305 | For any opening stock and any set of such orders: reserved = held in every run, no release of a listed order is ever refused, and no undisturbed failed saga holds anything, each if and only if none of the orders names a book of the inventory in a quantity its opening stock covers |
| OldFormatOrders.OneOrderHarmsIff | saga_pattern/orchestration_pattern/saga_orchestrator/app.py:307-331 | One such order can make another, undisturbed saga fail holding stock if and only if the inventory has the book and its opening stock covers the quantity |
| OldFormatOrders.OldFormatReleasesOthersStock | saga_pattern/orchestration_pattern/saga_orchestrator/app.py:278-331 | The run that shows it, for every opening stock and every such order: the compensation of a saga that reserved nothing releases another's stock, which is then refused its own release |
| Ranking.SortedInOrder | search_autocomplete_system/backend/app.py:73-76 | Sorting gives the same entries in the order of `Before`, which `SearchTrie.AnswerOrder` spells out |
| Ranking.SortedForgetsOrder | search_autocomplete_system/backend/app.py:73-76 | The sorted list does not depend on the order in which entries were collected |
| Ranking.Take | search_autocomplete_system/backend/app.py:77-77 | Python's slice, negative limits included |
| SearchTrie.AnswerOrder | search_autocomplete_system/backend/app.py:73-76 | In every answer popularity falls, and among equally popular entries the term rises: at the first place where two terms part, the earlier one ends or has the lower character |
| SearchTrie.AnswerMembers | search_autocomplete_system/backend/app.py:58-77 | Only entries whose key starts with the lower-cased prefix are answered, all of them if the limit allows; none left out is more popular than one listed; an empty prefix answers nothing |
| SearchTrie.AnswerMeaning | search_autocomplete_system/backend/app.py:58-77 | An answer lists matching entries in order, everything left out comes after all those listed, and its length is the limit or all there are |
| SearchTrie.AnswerFromListing | search_autocomplete_system/backend/app.py:58-85 | Any listing of the matching entries gives the same answer: neither insertion order nor child order matters |
| SearchTrie.SearchTrie.Insert | search_autocomplete_system/backend/app.py:47-56 | The heap trie changes exactly one entry of its map, the lower-cased term, to the last inserted data |
| SearchTrie.SearchTrie.CollectWords | search_autocomplete_system/backend/app.py:79-85 | The recursion appends every entry at or below the node once |
| SearchTrie.SearchTrie.FindNode | search_autocomplete_system/backend/app.py:63-68 | Finds the node of a path; if there is none, no entry matches |
| SearchTrie.SearchTrie.SearchPrefix | search_autocomplete_system/backend/app.py:58-77 | On the heap trie search_prefix equals filter, sort and take on the plain map, for every prefix and limit, by falling popularity |
| SearchService.CacheKeyInjective | search_autocomplete_system/backend/app.py:164-169 | Cache keys are injective in query and limit |
| SearchService.LoadOrderIrrelevant | search_autocomplete_system/backend/app.py:138-161 | The loaded trie does not depend on the order of rows with distinct keys |
| SearchService.LoadedIs | search_autocomplete_system/backend/app.py:138-161 | The loaded trie holds under each key exactly the row with that key |
| SearchService.LastRowWins | search_autocomplete_system/backend/app.py:47-56 | Whatever the keys, of several rows with one key the last is kept |
| SearchService.StepKeepsTransparent | search_autocomplete_system/backend/app.py:254-276 | One search, clean rebuild, clearing or expiry keeps the cache in agreement with the trie |
| SearchService.RunTransparent | search_autocomplete_system/backend/app.py:172-195 | Every run of searches, clean rebuilds, clearings and expiries keeps every cached answer equal to the trie's |
| SearchService.CacheTransparent | search_autocomplete_system/backend/app.py:254-276 | After any such run a search answers what the current trie would |
| SearchService.AnsweredFromCache | search_autocomplete_system/backend/app.py:254-275 | A search that was answered is answered the same way, whatever else is searched for or rebuilt, until its entry expires or the cache is emptied |
| SearchService.DirtyRebuild | search_autocomplete_system/backend/app.py:382-395 | A rebuild keeps every cached answer right, whatever was cached, if and only if it loaded every row and emptied the cache, or every query finds the same entries in the new trie as in the old one |
| SearchService.StaleAfterFailedFlush | search_autocomplete_system/backend/app.py:382-395 | A concrete run with a failed flush that answers a deleted term |
| SearchService.Service.SearchAutocomplete | search_autocomplete_system/backend/app.py:249-276 | The endpoint on the heap trie and cache makes exactly the step of the state machine |
| SearchService.Service.LoadDataToTrie | search_autocomplete_system/backend/app.py:138-161 | Loading into an empty trie leaves the map of the rows inserted before it stopped |
| SearchService.Service.RebuildTrie | search_autocomplete_system/backend/app.py:380-400 | So does the rebuild, with loading cut short anywhere and the flush failing or not |
| QuorumStore.FirstIsFresh | key_value_store/2-quorum-consistency/app.py:124-141 | With W + R > N, whenever a read meets its quorum the first node alive holds the last written value |
| QuorumStore.WriteFresh | key_value_store/2-quorum-consistency/app.py:106-121 | After an accepted write W of the nodes before any later one hold the value, or a hint of it |
| QuorumStore.ReadIsLatest | key_value_store/2-quorum-consistency/app.py:124-141 | Hence the read answers the last written value and does not crash in repair |
| QuorumStore.RepairKeepsKey | key_value_store/2-quorum-consistency/app.py:133-138 | Read repair only spreads the latest value |
| QuorumStore.StepKeepsOk | key_value_store/2-quorum-consistency/app.py:77-141 | Every failure, rejoin with flush, later flush, write and read keeps that a stale node has at least W fresh or freshly hinted nodes before it, for any client keys none of which is where another keeps its clock |
| QuorumStore.ConsistentIffQuorumsOverlap | key_value_store/2-quorum-consistency/app.py:106-141 | If nodes rejoin with their hints, for every N, W, R and any set of client keys: every read in every run answers the last written value if and only if W + R > N and no key is where another keeps its clock (or writes or reads are impossible) |
| QuorumStore.ConsistentUnflushedIff | key_value_store/2-quorum-consistency/app.py:77-144 | If nodes may rejoin without their hints and have them written later or never, likewise if and only if a write needs every node, in place of W + R > N |
| QuorumStore.UnflushedRejoinIsStale | key_value_store/2-quorum-consistency/app.py:77-83 | The run that shows it for N = 3, W = R = 2: a node that rejoins before its hints are flushed answers a stale read although the quorums overlap |
| QuorumStore.UnflushedIsStale | key_value_store/2-quorum-consistency/app.py:77-83 | The same for every N, every W < N and every R <= N |
| QuorumStore.ClockOverwrites | key_value_store/2-quorum-consistency/app.py:64-66 | For every N, W and R that allow writes and reads: a value written where another key keeps its clock is lost at that key's next write |
| QuorumStore.FlushedFor | key_value_store/2-quorum-consistency/app.py:80-83 | If no key is where another keeps its clock, writing the hints in order leaves under each key its hint if it has one and what was there if not |
| QuorumStore.WithoutOverlap | key_value_store/2-quorum-consistency/app.py:106-141 | With W + R <= N, a write and the failure of the nodes it reached leave a quorum read without the value |
| QuorumStore.ReadKeepsKey | key_value_store/2-quorum-consistency/app.py:124-141 | A read of one key keeps the freshness invariant of every key |
| QuorumMeaning.ReadMeaning | key_value_store/2-quorum-consistency/app.py:124-141 | Node by node: the answer is what the first node alive holds; if two of the first R nodes alive report different clocks, every node alive, asked or not, has that value and clock afterwards (without a value the request fails); otherwise no node changes |
| QuorumMeaning.WriteMeaning | key_value_store/2-quorum-consistency/app.py:106-121 | Node by node: accepted exactly if W nodes are alive; then the first W of them tick their own counter once and store value and clock, those not alive get a hint with their own clock, the others do not change |
| QuorumMeaning.FlushMeaning | key_value_store/2-quorum-consistency/app.py:80-83 | Flushing writes value and clock of every hint, leaves other keys as they are, and forgets the hints |
| QuorumMeaning.RunClocks | key_value_store/2-quorum-consistency/app.py:29-46 | In every run a node's clock counts exactly the writes it stored itself; it never learns of another node's |
| QuorumCluster.KVSNode.Increment | key_value_store/2-quorum-consistency/app.py:34-35 | Adds one to the node's own counter and changes nothing else |
| QuorumCluster.KVSNode.Set | key_value_store/2-quorum-consistency/app.py:64-66 | Writes the value and the clock under their two keys |
| QuorumCluster.KVSNode.Get | key_value_store/2-quorum-consistency/app.py:68-75 | Answers the value and the clock, none if it is missing or unreadable |
| QuorumCluster.KVSNode.StoreHinted | key_value_store/2-quorum-consistency/app.py:77-78 | Replaces the hint of the key in its place, or adds one at the end |
| QuorumCluster.KVSNode.FlushHinted | key_value_store/2-quorum-consistency/app.py:80-83 | The loop writes every hint in the order of the dictionary, whatever the keys, and empties it |
| QuorumCluster.Cluster.Write | key_value_store/2-quorum-consistency/app.py:106-121 | The loops over node objects make exactly the write of the state machine |
| QuorumCluster.Cluster.Read | key_value_store/2-quorum-consistency/app.py:124-141 | The loops over nodes, the set of clocks and the repair make exactly the state machine's read, which `QuorumMeaning.ReadMeaning` spells out |
| Bits.OrIsSum | shortify/backend/app/core/id_generator.py:44-48 | bitwise or of a shifted number and a smaller one is their sum, for negative numbers too |
| Bits.AndMask | shortify/backend/app/core/id_generator.py:35-42 | `&` with a mask of ones keeps the lowest bits |
| IdGenerator.OrJoins | shortify/backend/app/core/id_generator.py:44-48 | The OR of the three shifted fields equals their sum, even before the epoch |
| IdGenerator.FieldsRecovered | shortify/backend/app/core/id_generator.py:44-48 | Timestamp, sequence and random bits can be read back from an ID |
| IdGenerator.FitsIff | shortify/backend/app/core/id_generator.py:44-48 | An ID fits b + sequence_bits + random_bits bits if and only if the elapsed time fits b; it is negative if and only if the time is before the epoch |
| IdGenerator.DefaultFitsIff | shortify/backend/app/core/id_generator.py:15-17 | With the default layout an ID fits 63 bits if and only if the elapsed time fits 41 |
| IdGenerator.IdsIncrease | shortify/backend/app/core/id_generator.py:27-48 | For any clock readings, backward jumps included, and any random bits every ID is greater than all before it |
| IdGenerator.SameMillisecond | shortify/backend/app/core/id_generator.py:34-39 | IDs that carry the same millisecond are numbered consecutively by their sequence |
| IdGenerator.TimestampIs | shortify/backend/app/core/id_generator.py:30-48 | An ID carries the clock's reading, with sequence 0, if that is past the timestamp before; otherwise the timestamp before and the next number; only if the numbers are used up the reading that was waited for |
| IdGenerator.TimestampWasRead | shortify/backend/app/core/id_generator.py:30-48 | Every ID carries a reading made for its own call or an earlier one |
| IdGenerator.RandomIs | shortify/backend/app/core/id_generator.py:43-49 | Its lowest bits are the random bits given |
| IdGenerator.AtMostPerMillisecond | shortify/backend/app/core/id_generator.py:34-39 | At most 2^sequence_bits IDs of any run carry the same millisecond |
| IdGenerator.DefaultPerMillisecond | shortify/backend/app/core/id_generator.py:15-17 | With the default layout at most 4096 |
| IdGenerator.LateResultRepeatsIff | shortify/backend/app/core/id_generator.py:44-48 | If the sequence has moved on when the result is computed after the lock, two calls return the same ID exactly when timestamps and random bits agree |
| IdGenerator.NextIdWithin | shortify/backend/app/core/id_generator.py:27-48 | A new ID is at or above the bound of everything issued before and below the bound after it |
| IdGenerator.SnowflakeGenerator.Advance | shortify/backend/app/core/id_generator.py:29-42 | The locked section on the fields makes the step on the state, waiting for exactly the first reading past the last timestamp |
| IdGenerator.SnowflakeGenerator.WaitNextMillis | shortify/backend/app/core/id_generator.py:53-58 | The waiting loop ends, with the first reading past the last timestamp |
| IdGenerator.SnowflakeGenerator.GenerateId | shortify/backend/app/core/id_generator.py:27-48 | The bit operations on the fields make exactly the arithmetic step the run results are about |
| Base62.DecodeEncode | shortify/backend/app/core/base62.py:9-34 | decode(encode(n)) = n for every n >= 0 |
| Base62.EncodeDecodeIff | shortify/backend/app/core/base62.py:9-34 | encode(decode(s)) = s if and only if s is canonical: digits only, not empty, no leading zero but in "0" |
| Base62.EncodeInjective | shortify/backend/app/core/base62.py:9-22 | encode is injective |
| Base62.DigitsCanonical | shortify/backend/app/core/base62.py:9-22 | The numeral of a positive number has digits only and no leading zero |
| Base62.DecodesIff | shortify/backend/app/core/base62.py:25-34 | decode succeeds exactly on digit strings and reports the first character that is not a digit |
| Base62.LengthIff | shortify/backend/app/core/base62.py:9-22 | A number has at most k digits if and only if it is below 62^k |
| Base62.DigitValues | shortify/backend/app/core/base62.py:5-33 | What each single character decodes to: 0-9, then a-z, then A-Z, anything else being invalid |
| Base62.OneMoreDigit | shortify/backend/app/core/base62.py:25-34 | A further digit counts once and multiplies what comes before it by 62 |
| Base62.ElevenCharacters | shortify/backend/app/core/base62.py:9-22 | Every n < 2^63 takes 1 to 11 characters |
| Base62.Encode | shortify/backend/app/core/base62.py:9-22 | The divmod loop and the reversal produce the numeral, or an error below zero |
| Base62.Decode | shortify/backend/app/core/base62.py:25-34 | The loop computes the value, or the error at the first invalid character |
| Shortener.StepKeepsOk | shortify/backend/app/main.py:57-76 | Every step of every request between awaits, and every interruption, keeps: a stored slug is issued, a slug about to be stored is free, reverse[h] = s implies forward[s] is a URL hashing to h |
| Shortener.StepKeepsForward | shortify/backend/app/main.py:72-74 | No forward entry is ever overwritten |
| Shortener.SlugsAreDrawn | shortify/backend/app/main.py:51-76 | In every run every slug stored or answered is the Base62 numeral of an ID that some request drew |
| Shortener.ForwardForever | shortify/backend/app/main.py:72-85 | A slug leads for ever where it led |
| Shortener.AnswersLead | shortify/backend/app/main.py:57-85 | A returned slug leads, now and after any further steps, to a URL with the hash of the one it was returned for |
| Shortener.AnsweredIsFound | shortify/backend/app/main.py:61-66 | Once a URL has an answer, later requests for it find a stored slug and draw no ID |
| Shortener.RightIffCollisionFree | shortify/backend/app/main.py:57-85 | Every slug ever returned redirects for ever to exactly its URL, in every interleaving, if and only if no two URLs share a hash |
| Shortener.CollisionMisleads | shortify/backend/app/main.py:59-66 | With a shared hash, the second URL is answered with the first one's slug |
| Shortener.RequestsStay | shortify/backend/app/main.py:51-76 | An answer once given is never revised |
| Shortener.Service.ShortenUrl | shortify/backend/app/main.py:51-76 | An uninterrupted request on the class makes exactly the steps of the protocol, or fails before storing anything |
| Shortener.Service.RedirectTo | shortify/backend/app/main.py:79-85 | The stored destination, or not found |
| HashRing.AddMovesOnlyToNew | key_value_store/3-sharding-replica/app.py:34-39 | Adding a node moves a key only to that node, even with colliding points |
| HashRing.RoutesMeaning | key_value_store/3-sharding-replica/app.py:25-32 | Going up from the hash, the hash included, the first point met decides, or the lowest of all if there is none; only an empty ring has no owner |
| HashRing.TakenOver | key_value_store/3-sharding-replica/app.py:34-39 | A node that is added takes over every key whose hash is at one of its points, or below it with no other point in between |
| HashRing.RemoveMovesOnlyOwned | key_value_store/3-sharding-replica/app.py:41-48 | Removing a node moves only keys it owned and leaves it none, even with colliding points |
| HashRing.AddRemoveIff | key_value_store/3-sharding-replica/app.py:34-48 | Add-then-remove is the identity on the ring if and only if the node had no point and its points were free |
| HashRing.RunIsRingOf | key_value_store/3-sharding-replica/app.py:13-48 | Without collisions, after any additions and removals, repeated ones included, the ring holds exactly the points of the nodes whose last change is not a removal |
| HashRing.RoutingByNodesIff | key_value_store/3-sharding-replica/app.py:13-48 | Routing depends only on which nodes are served (last change not a removal), over all histories, if and only if no two nodes share a point |
| HashRing.CollisionShows | key_value_store/3-sharding-replica/app.py:13-20 | Two nodes that share a point route differently when given in the other order: the one that came last wins it |
| HashRing.VirtualKeyInjective | key_value_store/3-sharding-replica/app.py:18-18 | node:i names one node and one number, whatever the names |
| HashRing.InjectiveHash | key_value_store/3-sharding-replica/app.py:18-23 | Hence a collision-free hash gives a ring without shared points |
| HashRing.ListedIsServedIff | key_value_store/3-sharding-replica/app.py:34-48 | After any history without collisions the ring is that of the listed nodes if and only if the last change of each of them is not a removal, or there are no points |
| HashRing.ChangeKeepsRingIff | key_value_store/3-sharding-replica/app.py:34-48 | One change keeps the ring that of the listed nodes if and only if it does not remove a node that is listed more than once |
| HashRing.NeverLeavesListed | key_value_store/3-sharding-replica/app.py:34-48 | So a history that never does that serves every listed node, however often nodes are added again |
| HashRing.RoutingByListedIff | key_value_store/3-sharding-replica/app.py:13-48 | Hence routing depends only on which nodes are listed, over all histories, only if there are no points at all |
| HashRing.RemovedAfterSecondAdd | key_value_store/3-sharding-replica/app.py:34-48 | A node added twice and removed once is still listed but owns nothing |
| HashRing.SortedLists | key_value_store/3-sharding-replica/app.py:20-20 | The sorted keys are strictly increasing and exactly the keys of the ring |
| HashRing.HashRing.GetNode | key_value_store/3-sharding-replica/app.py:25-32 | The scan returns the owner of the first point at or after the hash, going round, or None for an empty ring |
| HashRing.HashRing.constructor | key_value_store/3-sharding-replica/app.py:13-20 | The loops build the ring of the given nodes, with sorted keys; the list object is kept, not copied |
| HashRing.HashRing.AddNode | key_value_store/3-sharding-replica/app.py:34-39 | Nodes and ring change exactly as in the histories, and the keys stay sorted |
| HashRing.HashRing.RemoveNode | key_value_store/3-sharding-replica/app.py:41-48 | Likewise for removal, deletion loop included |
| FixedWindow.WindowCount | key_value_store/7-rate-limiting/app.py:15-28 | A counter counts what was admitted since it was started: at most limit, or one if the limit is not positive |
| FixedWindow.LimitedIff | key_value_store/7-rate-limiting/app.py:15-28 | A request is limited exactly if limit requests were let in since the counter it finds was started and that counter has not expired |
| FixedWindow.StartersApart | key_value_store/7-rate-limiting/app.py:20-22 | Without overlap, counters start at least a window apart |
| FixedWindow.AnyStretch | key_value_store/7-rate-limiting/app.py:15-28 | Any stretch shorter than a window of requests that do not overlap admits at most 2*limit-1, whatever the history |
| FixedWindow.BoundIsReached | key_value_store/7-rate-limiting/app.py:15-28 | For every limit and window some history reaches that bound |
| FixedWindow.NeverExpiresIff | key_value_store/7-rate-limiting/app.py:18-28 | The counter is left without an expiry if and only if some request incremented it after it had expired under its read |
| FixedWindow.SlippedLocksOut | key_value_store/7-rate-limiting/app.py:27-28 | After that the user is admitted at most limit times ever again |
| FixedWindow.SlipHappens | key_value_store/7-rate-limiting/app.py:18-28 | A two-request history in which it happens, for every limit above one |
| OverlappingRequests.AnyStretch | key_value_store/7-rate-limiting/app.py:15-28 | Requests that interleave between reading and writing the counter, at most c at a time: any stretch shorter than a window lets in at most Bound(limit, c), whatever the history |
| OverlappingRequests.BoundOfOne | key_value_store/7-rate-limiting/app.py:15-28 | which is 2*limit-1 for one at a time |
| OverlapReached.PromiseIffOneAtATime | key_value_store/7-rate-limiting/app.py:15-28 | Every stretch shorter than a window of every history with at most c requests at a time lets in at most 2*limit-1, if and only if c is one |
| OverlapReached.BoundIsReached | key_value_store/7-rate-limiting/app.py:15-28 | For every limit, every window and every c some history with at most c overlapping reaches that bound |
| OverlappingRequests.Unbounded | key_value_store/7-rate-limiting/app.py:18-28 | Without a limit on how many overlap, any number is let in at one instant |
| OverlappingRequests.OneByOneIsHistory | key_value_store/7-rate-limiting/app.py:15-28 | Requests that do not overlap go exactly as in the histories of `FixedWindow` |
| FixedWindow.Limiter.IsRateLimited | key_value_store/7-rate-limiting/app.py:15-28 | The check changes only the user's counter, as the histories say |
| SlidingWindow.LogIsWindow | rate_limiter_design/app/main.py:46-61 | Pruning and key expiry lose nothing: the log is the full history in (now-W, now] |
| SlidingWindow.AdmittedIff | rate_limiter_design/app/main.py:63-72 | A request is admitted if and only if the full history, rejected requests included, has at most limit instants in (now-W, now] |
| SlidingWindow.AnyStretch | rate_limiter_design/app/main.py:39-74 | Any stretch shorter than a window was admitted at no more than limit different times, whatever the times |
| SlidingWindow.StrictStretch | rate_limiter_design/app/main.py:39-74 | With increasing timestamps any stretch shorter than a window admits at most limit |
| SlidingWindow.UpToAdmitted | key_value_store/7-rate-limiting/app.py:32-52 | An admitted request and all requests, limited or not, less than a window before it have at most limit different times |
| SlidingWindow.SameInstant | rate_limiter_design/app/main.py:50-52 | Requests that read the same time are one member of the set: any number of them is admitted |
| EqualTimes.AnyStretchAtMost | rate_limiter_design/app/main.py:39-74 | If at most c requests of a stretch shorter than a window read the same time, it admits at most c*limit |
| EqualTimes.BoundIsReached | rate_limiter_design/app/main.py:39-74 | For every limit, window and c some history with at most c requests at each time admits c*limit within a window |
| SlidingWindow.Limiter.CheckRateLimit | rate_limiter_design/app/main.py:29-74 | The check replaces only the client's log by the pruned and extended one and answers from its size |
| ChatConnections.RunAgrees | chat_system_design/ws/connection_manager.py:40-112 | Whatever tasks do between awaits, the three indexes describe the same connections, without empty buckets, and no user exceeds the limit |
| ChatConnections.GoneForever | chat_system_design/ws/connection_manager.py:83-104 | A dropped socket never returns to the registry |
| ChatConnections.GoneFromIndexes | chat_system_design/ws/connection_manager.py:83-104 | A dropped connection is in no index |
| ChatConnections.DropMeaning | chat_system_design/ws/connection_manager.py:83-104 | Dropping a connection takes it, and no other, out of the three indexes |
| ChatConnections.JoinMeaning | chat_system_design/ws/connection_manager.py:46-68 | Joining adds the connection to the three indexes exactly if its socket is new and its user has no connection or fewer than the limit, and removes nobody |
| ChatConnections.Totals | chat_system_design/ws/connection_manager.py:203-211 | Users' buckets and rooms' buckets both add up to the number of sockets |
| ChatManager.ConnectionManager.Connect | chat_system_design/ws/connection_manager.py:40-81 | Registered exactly if the socket was accepted for the first time and the user is below the limit at that moment; everything else that changed was done by other tasks |
| ChatManager.ConnectionManager.Register | chat_system_design/ws/connection_manager.py:48-77 | Once accepted: refused, or added to all three indexes, in one piece |
| ChatManager.ConnectionManager.Add | chat_system_design/ws/connection_manager.py:60-68 | Adds to all three indexes and keeps them in agreement |
| ChatManager.ConnectionManager.Remove | chat_system_design/ws/connection_manager.py:85-104 | Removes from all three indexes, deleting empty buckets, and keeps them in agreement |
| ChatManager.ConnectionManager.Disconnect | chat_system_design/ws/connection_manager.py:83-108 | Drops the connection from all three indexes in one piece, others running only after that |
| ChatManager.ConnectionManager.SendAll | chat_system_design/ws/connection_manager.py:125-134 | The loop over the snapshot: sent + skipped + failed = snapshot size, and sent is the number of sends that succeeded |
| ChatManager.ConnectionManager.CleanUp | chat_system_design/ws/connection_manager.py:136-138 | Every failed socket ends up in no index although other tasks run in between |
| ChatManager.ConnectionManager.SendToUser | chat_system_design/ws/connection_manager.py:114-140 | Counts, failures and all changes since the call are accounted for |
| ChatManager.SentToUser | chat_system_design/ws/connection_manager.py:114-140 | Those sent to are exactly the user's connections but the excluded socket: each send succeeded and is counted, or failed |
| ChatManager.ConnectionManager.SendToRoom | chat_system_design/ws/connection_manager.py:142-168 | The same for a room, excluding a user |
| ChatManager.SentToOthers | chat_system_design/ws/connection_manager.py:142-168 | exactly the room's connections of other users; an empty name excludes nobody |
| ChatManager.ConnectionManager.BroadcastToRoom | chat_system_design/ws/connection_manager.py:170-196 | The same for a room, excluding the sender's socket |
| ChatManager.SentToRoomBut | chat_system_design/ws/connection_manager.py:170-196 | exactly the room's connections but the sender's socket |
| ChatManager.ConnectionManager.GetConnectionStats | chat_system_design/ws/connection_manager.py:203-219 | total_connections = number of sockets = sum of room sizes |
| MessageSync.PendingMeaning | chat_system_design/api/main.py:184-190 | The query selects exactly the room's messages past the cursor that are not deleted, ascending, each once |
| MessageSync.PageIsComplete | chat_system_design/api/main.py:184-211 | A page is everything the table has between the two cursors |
| MessageSync.PendingAfterPage | chat_system_design/api/main.py:184-211 | What is pending after a page is what was pending before, less the page |
| MessageSync.PagesAreComplete | chat_system_design/api/main.py:184-224 | Over a fixed table, paging until has_more is false ends and yields exactly the pending messages, for any limits >= 1 |
| MessageSync.PageCount | chat_system_design/api/main.py:184-211 | With one limit, no page but the last is short |
| MessageSync.PagesInOrder | chat_system_design/api/main.py:184-211 | However the table changes between pages, no message comes twice and all come in ascending order |
| MessageSync.LastingMessageComes | chat_system_design/api/main.py:184-211 | A message there throughout has come exactly if the cursor has reached it |
| MessageSync.LateMessageComesIff | chat_system_design/api/main.py:184-190 | A message inserted at page j, and there from then on, has come exactly if its ID is above the cursor of that moment and the cursor has reached it |
| MessageSync.SyncApi.SyncMessages | chat_system_design/api/main.py:168-224 | The loop returns the page and moves the device's cursor exactly when the page is not empty |
| MessageSync.RoomsApart | chat_system_design/api/main.py:216-216 | A sync of one room never writes the cursor of another room of the device |
| MessageSync.DevicesShareIff | chat_system_design/api/main.py:216-216 | Two devices can share a cursor key, in some rooms, if and only if one's name followed by the text before the room is the start of the other's name followed by a colon |

## Left out

- Web frameworks, SQL sessions, Redis and HTTP clients, JSON, logging and sleeps: replaced by atomic steps and maps. A database transaction or a Redis pipeline is one step.
- `_load_workflow_execution` restores placeholder handlers; the model is of a registry that gives the real ones back. `execution.result` is never set, so `execute_purchase`'s success flag is not modelled; a workflow is executed once, from a fresh record.
- Transaction IDs are fresh, quantities and prices are positive (`Submit` and `StartSaga` with other values are not part of the runs), and balances are integers: rounding of floating-point amounts is not modelled.
- PurchaseOutcome.AllOrNothing: for a purchase whose replies are lost the exact conditions are `CompensatedLeavesNothingIff` and `FailedLeavesNothingIff` instead.
- The event listeners, the choreography services, the manual cancel endpoint and the single-database saga. Payment and shipping of the orchestrated saga are accept-or-refuse answers.
- The items of a list name a book and a quantity; the orchestrator's error for one that does not is not modelled.
- The SHIPPING_ARRANGED status, which COMPLETED replaces before anything else is done.
- The step log's COMPENSATED entry of the inventory step, which the early return never writes.
- The popular-terms and history endpoints of the search service. A cache entry's time to live is an expiry that may happen at any step; `lower()` is an arbitrary function, and a query is what is left after stripping.
- Merkle root, status and health endpoints of the quorum store. The set of nodes alive does not change within a request. A vector clock lists only the counters that are not zero, and a client's text under a clock key is never read as a clock.
- A request of the shortener is abandoned between its steps by `Abort`; a failed Redis command is one that took effect or did not. `generate_id` is one step there; `IdGenerator.LateResultRepeatsIff` says what its unlocked return expression can do.
- The generator's wait ends because the clock is assumed to pass every instant at some point.
- The hash functions are arbitrary functions; freedom from collisions is assumed only where a result names it. Moving data between shards is left out: `rebalance` reads the value from its target.
- Redis' clock is the application's in both rate limiters.
- SlidingWindow.AdmittedIff: times do not go backwards and are not negative. The fail-open branch on Redis errors is left out. Both sliding-window checks of the repository are this one step.
- Presence, session keys, pings and the periodic cleanup of the chat server; a socket is accepted at most once. The order in which a send loop visits its snapshot is arbitrary.
- MessageSync.SyncApi.SyncMessages: the SQL query is the function `Query`; a message's kind and time are not modelled.
- The Bloom filter, cache-aside, lock, stream, session, leaderboard, ticket-server and notification exercises.
