# Bookstore back end: replicated book database, order-executor token ring, payment participant, transaction verification

This project models four services of a distributed online bookstore in
Dafny and proves properties of them.

- **Book database** (`book_database.dfy`, module `BookDatabase`). N replicas each hold a map from book id to
  book. A write (AddBook / UpdateBook) enters at replica 1. It travels replica by replica to the tail
  (`Head2Tail`) and is applied on the way back to the head (`Tail2Head`). Reads are served from the
  local replica. The replicas are the class `BookChain`, whose array `stores` holds one map per
  replica. The write methods are proved against the specification functions `Head2TailSpec`,
  `Tail2HeadSpec` and `ChainWrite`. A closed form of those functions gives the outcome of a write for
  every pattern of unreachable replicas.
- **Order executor** (`order_executor.dfy`, module `OrderExecutor`). Replicas form a token ring. The
  holder of the token dequeues one order, hands the token to the next live replica (probing in ring
  order, itself last), and then coordinates a two-phase commit for the order. Each replica is an
  object of class `OrderExecutor` with the fields `hasToken` and `isBusy`. The proofs cover the probe
  order, who receives the token, and that "at most one replica holds the token" is preserved.
- **Payment executor** (`payment_executor.dfy`, module `PaymentExecutor`). The participant's vote and
  its answer to the global decision.
- **Transaction verification** (`transaction_verification.dfy`, module `TransactionVerification`).
  The service keeps the order id announced by the orchestrator and its own vector clock. It checks
  the vector clock that comes with each request against the expected one, checks the item, user and
  credit-card fields, and forwards the request with the incremented clock. The handlers are methods of
  `TransactionVerificationService`. They are proved against the pure functions `ItemAndUserdataOutcome`
  and `CardinfoOutcome`, whose cases are stated by the lemmas `ItemAndUserdataCases` and `CardinfoCases`.

Modelling conventions:

- A remote call to replica j is a call of the same method on replica j. Whether it can be reached is
  a set of replica ids passed in: `forward`/`backward` for the two passes of a chain write, `live`
  for the ring.
- An unreachable peer whose `grpc.RpcError` is caught and printed leaves the handler without a return
  value. That is `None`.
- Python exceptions that end a handler (a missing dictionary key, a failed tuple unpacking) are
  `None` or `Raised`.
- Each `datetime.now()` is a reading passed in, in call order. The payment participant's random draw
  is a parameter.
- Vector clocks are `seq<int>`. The service's own clock array is an `array<int>`, because
  `increment_vector_clock` adds one to the array in place.

Behaviours of the code a reader might not expect, which the model keeps:

- GetBook answers from the replica that receives the request, not from the tail.
- ExecutePayment always answers `success = False`, even on a global commit.
- SendVoteToCordinator draws a vote but always answers commit.
- The book database exposes no vote endpoint. Its vote is a parameter.
- No inventory (stock) update follows the commit decision.
- pass_token probes the replica itself last. When no other replica is live, the token goes back to
  the sender through the health check and `PassToken`, and then the final `has_token = False` drops
  it. The token is then lost (see `HandoffKeepsOneHolder`).

## Model

| member | source | states |
|---|---|---|
| BookDatabase.CatalogDomain | book_database/src/app.py:22-28 | an id is a key of the loaded map iff some book in the list has that id |
| BookDatabase.CatalogLastWins | book_database/src/app.py:26-28 | the entry stored under an id is the last book in the list with that id (later duplicates overwrite) |
| BookDatabase.BuildStore | book_database/src/app.py:22-28 | the loading loop produces exactly the catalogue map of the list, whose keys are the list's ids |
| BookDatabase.Tail2HeadSpec | book_database/src/app.py:75-93 | the acknowledgement walk keeps one map per replica (its full effect is stated by Tail2HeadClosedForm) |
| BookDatabase.Head2TailSpec | book_database/src/app.py:51-73 | the forward walk keeps one map per replica (its full effect is stated by Head2TailClosedForm) |
| BookDatabase.ChainWrite | book_database/src/app.py:30-34 | a write through replica 1 keeps one map per replica (its full effect is stated by ChainWriteClosedForm) |
| BookDatabase.WalkLow | book_database/src/app.py:77-93 | the lowest replica the acknowledgement walk reaches: every replica between it and the start is reachable, and the one below it is not (or it is replica 1) |
| BookDatabase.Tail2HeadClosedForm | book_database/src/app.py:75-93 | Tail2Head from replica k stores the book on exactly the replicas WalkLow(k)..k, and answers success iff the walk reaches replica 1 |
| BookDatabase.Head2TailClosedForm | book_database/src/app.py:51-73 | Head2Tail from replica k reaches the tail iff every replica after k and the tail itself are reachable; otherwise no replica changes and there is no answer |
| BookDatabase.ChainWriteClosedForm | book_database/src/app.py:30-34 | the complete effect and answer of a write, for every reachability pattern |
| BookDatabase.ChainWriteConverges | book_database/src/app.py:30-34 | with all replicas reachable, every replica stores the book under its id, no other key changes, and the answer is success |
| BookDatabase.ChainWriteForwardFailure | book_database/src/app.py:57-63 | if a replica is unreachable on the way to the tail, no replica changes and there is no answer |
| BookDatabase.ChainWriteBackwardFailure | book_database/src/app.py:85-91 | if the acknowledgement stops at replica k, replicas k..N hold the book, replicas 1..k-1 are unchanged, and there is no answer |
| BookDatabase.ChainWriteShape | book_database/src/app.py:51-93 | under any reachability: only the book's key changes, the changed replicas form a suffix ending at the tail, success means every replica holds the book, and the answer is never a failure value |
| BookDatabase.ChainWriteIdempotent | book_database/src/app.py:79 | repeating a write under the same reachability changes nothing more |
| BookDatabase.Lookup | book_database/src/app.py:36-37 | a replica's read gives the stored book iff its id is a key, and fails otherwise |
| BookDatabase.SuccessfulWriteReadableEverywhere | book_database/src/app.py:30-37 | after a write answered with success, a read of that id on any replica gives the new book |
| BookDatabase.BookChain.constructor | book_database/src/app.py:22-28 | every replica starts with the catalogue map of the same book list |
| BookDatabase.BookChain.AddBook | book_database/src/app.py:30-34 | the replicas' new maps and the answer are those of ChainWrite on the old maps |
| BookDatabase.BookChain.UpdateBook | book_database/src/app.py:42-46 | the same as AddBook |
| BookDatabase.BookChain.GetBook | book_database/src/app.py:36-37 | the replica's entry for the id, or a failure when the key is missing |
| BookDatabase.BookChain.Head2Tail | book_database/src/app.py:51-73 | the new maps and the answer are those of Head2TailSpec on the old maps |
| BookDatabase.BookChain.Tail2Head | book_database/src/app.py:75-93 | the new maps and the answer are those of Tail2HeadSpec on the old maps |
| OrderExecutor.ProbeId | order_executor/src/app.py:131-132 | the probed replica id is always a valid id 1..total |
| OrderExecutor.ProbeClosedForm | order_executor/src/app.py:131-132 | within one round, probe i is the replica id + i + 1, wrapped once past the last replica |
| OrderExecutor.ProbeStepOf | order_executor/src/app.py:131-132 | the step at which a given replica is probed lies within the round |
| OrderExecutor.ProbeOrder | order_executor/src/app.py:131-132 | the probes start at the ring successor, end at the replica itself, never repeat, and reach every replica |
| OrderExecutor.FirstLiveIndex | order_executor/src/app.py:131-142 | the first probe step from i whose replica is live: all earlier probes are unreachable |
| OrderExecutor.ReceiverIsLiveIfAny | order_executor/src/app.py:130-148 | the token reaches a live replica whenever one exists, and nobody receives it only when no replica is live |
| OrderExecutor.HandoffKeepsOneHolder | order_executor/src/app.py:130-148 | after the only holder passes the token, exactly the receiver holds it, or nobody when there was no receiver or it was the sender itself |
| OrderExecutor.InitialRingHasOneHolder | order_executor/src/app.py:56-60 | a ring whose replicas are each as the constructor leaves them (idle, holding the token iff replica 1) has replica 1 as its one and only holder |
| OrderExecutor.GlobalDecision | order_executor/src/app.py:71-85 | global commit iff both participants vote commit |
| OrderExecutor.DecisionFollowsBookVote | payment_executor/src/app.py:31-38 | because the payment participant always votes commit, the global decision equals the book database's vote, and the payment is never reported executed |
| OrderExecutor.OrderExecutor.constructor | order_executor/src/app.py:56-60 | a replica starts idle and holds the token iff it is replica 1 |
| OrderExecutor.OrderExecutor.PassToken | order_executor/src/app.py:62-65 | the receiver becomes a holder and answers success |
| OrderExecutor.OrderExecutor.CheckHealth | order_executor/src/app.py:67-69 | a reachable replica answers alive |
| OrderExecutor.OrderExecutor.HandOffToken | order_executor/src/app.py:130-148 | the token goes to the first live replica in probe order, exactly the receiver's flag is set, the sender's flag is cleared, and no busy flag changes |
| OrderExecutor.OrderExecutor.ExecuteOrder | order_executor/src/app.py:94-107 | the global decision is the conjunction of the votes, the payment answer is never success, and the replica is idle afterwards |
| OrderExecutor.OrderExecutor.DequeueOrderStep | order_executor/src/app.py:109-128 | without the token nothing happens; with it, the replica reports busy, or finds the queue empty, or dequeues the head order, passes the token and executes it; "at most one holder" is preserved; the replica's own busy flag is the same after the pass as before |
| PaymentExecutor.ExecutePayment | payment_executor/src/app.py:21-29 | the answer is never success, whatever the global decision |
| PaymentExecutor.SendVoteToCoordinator | payment_executor/src/app.py:31-38 | the vote sent is always commit, whatever the draw |
| TransactionVerification.Zeros | transaction_verification/src/app.py:89 | a fresh vector of n zero slots |
| TransactionVerification.Incremented | transaction_verification/src/app.py:88-94 | one more in this service's slot, every other slot and the length unchanged |
| TransactionVerification.IncrementVectorClock | transaction_verification/src/app.py:88-94 | an existing array is incremented in place and returned; a clock without an array gets a fresh [0,0,1,0,0]; the timestamp is now |
| TransactionVerification.CheckVcAfterOrchestrator | transaction_verification/src/app.py:110-114 | raises iff a key is missing; passes iff the request clock is [0,1,0,0,0], the local clock [0,0,0,0,0], and the request timestamp is earlier than now |
| TransactionVerification.CheckVcAfterItemVerification | transaction_verification/src/app.py:116-120 | the same test against [0,1,1,0,0] and [0,0,1,0,0] |
| TransactionVerification.CheckVcAfterUserdataFraudDetection | transaction_verification/src/app.py:218-222 | the same test against [0,1,2,1,0] and [0,0,2,0,0] |
| TransactionVerification.SplitSlash | transaction_verification/src/app.py:232 | splitting always gives at least one part |
| TransactionVerification.SplitSlashCount | transaction_verification/src/app.py:232 | the split has one more part than the text has slashes |
| TransactionVerification.NoSlashSplit | transaction_verification/src/app.py:232 | text without a slash splits into itself |
| TransactionVerification.SplitAtOnlySlash | transaction_verification/src/app.py:232 | text with one slash splits into the month and year around it |
| TransactionVerification.ExpirationValid | transaction_verification/src/app.py:229-233 | the date check raises iff the date has two or more slashes, and a date without a slash is invalid |
| TransactionVerification.ExpirationOfMonthYear | transaction_verification/src/app.py:229-233 | with one slash, the date is valid iff the month is digits with value 1..12 and the year digits with value 24..49 |
| TransactionVerification.IsCreditCardValid | transaction_verification/src/app.py:224-239 | raises iff the date has two or more slashes; valid iff the date is valid, the number is 10..19 digits, and the CVV is 3 or 4 digits |
| TransactionVerification.TwoDigitValue | transaction_verification/src/app.py:233 | the integer value of a two-digit string |
| TransactionVerification.ExpirationExampleValid | cypress/e2e/multiple_withconflict/multiple_withconflict_3.cy.js:17 | the expiration date "12/25" is accepted |
| TransactionVerification.ExpirationExampleExpired | cypress/e2e/multiple_withfraud_noconflict/multiple_withfraud_noconflict_4.cy.js:17 | the expiration date "12/20" is rejected, because year 20 is before 24 |
| TransactionVerification.ExampleNumberDigits | cypress/e2e/multiple_withconflict/multiple_withconflict_3.cy.js:16 | the scenarios' card number is sixteen digits |
| TransactionVerification.CardExampleValid | cypress/e2e/multiple_withconflict/multiple_withconflict_3.cy.js:16-18 | card 3412341234123412, 12/25, CVV 123 is accepted |
| TransactionVerification.CardExampleExpired | cypress/e2e/multiple_withfraud_noconflict/multiple_withfraud_noconflict_4.cy.js:16-18 | the same card expiring 12/20 is rejected |
| TransactionVerification.CardExampleDashes | cypress/e2e/multiple_withfraud_noconflict/multiple_withfraud_noconflict_2.cy.js:16-18 | a card number of dashes is rejected |
| TransactionVerification.ItemAndUserdataCases | transaction_verification/src/app.py:122-209 | the first failing check ends the handler: a wrong order id or a failed vector-clock check answers the server error, a failed item check the order-information error, a failed user check the user-information error (each stated as an iff), and no other message occurs; a missing clock key raises; the request is forwarded iff the order id, the clocks and the item and user fields all pass, and then with clock [0,1,2,0,0] while the local clock becomes [0,0,2,0,0] |
| TransactionVerification.CardinfoCases | transaction_verification/src/app.py:241-298 | forwarded iff the order id, the clocks ([0,1,2,1,0] and local [0,0,2,0,0]) and the card pass, and then with clock [0,1,3,1,0] and local [0,0,3,0,0]; the payment message iff only the card fails; raises on a missing key or a date with two or more slashes; otherwise the local clock is untouched; a wrong order id or a failed vector-clock check answers the server error (iff), and no message other than the server error and the payment error occurs |
| TransactionVerification.VerificationFlow | transaction_verification/src/app.py:51-58 | in the intended sequence, item and user data are forwarded with [0,1,2,0,0], and a valid card then forwards [0,1,3,1,0] with local clock [0,0,3,0,0] |
| TransactionVerification.CardinfoNeedsItemAndUserdata | transaction_verification/src/app.py:268-273 | card details are forwarded only if the item and user data of the same order were forwarded before, since the card handler's clock check needs the local clock the item handler leaves after both increments |
| TransactionVerification.TransactionVerificationService.constructor | transaction_verification/src/app.py:61-64 | no stored order id and an empty local clock |
| TransactionVerification.TransactionVerificationService.CheckOrderId | transaction_verification/src/app.py:106-108 | valid iff the id equals the stored one |
| TransactionVerification.TransactionVerificationService.StorageOrderId | transaction_verification/src/app.py:98-102 | the stored id becomes the request's id, only that id then passes the check, and the clock is untouched |
| TransactionVerification.TransactionVerificationService.VerifyItemAndUserdata | transaction_verification/src/app.py:122-209 | the answer, the reset local clock and its timestamp are those of ItemAndUserdataOutcome |
| TransactionVerification.TransactionVerificationService.VerifyCardinfo | transaction_verification/src/app.py:241-298 | the answer and the local clock array are those of CardinfoOutcome on the clock left by the previous call; the local timestamp becomes the reading taken at the increment when the request is forwarded, and is unchanged otherwise |

## Left out

- gRPC channels, stubs, servers and message classes: each remote call is a method call on the model of the peer.
- Tracing spans, metrics counters, latency histograms and the `active_verifications_count` global have no effect on any answer.
- Concurrency: the thread pools, the parallel vote requests and the replicas running at the same time. The ring is modelled as one replica taking a step at a time.
- `time.sleep` delays and the infinite polling loop: `DequeueOrderStep` is one pass of the loop.
- The order queue service: its content is the sequence `queue` and its `Dequeue` removes the head.
- The fraud-detection service: a forwarded request returns fraud detection's answer unchanged, so the model ends at `Forwarded` with the clock sent.
- Reading `book_list.json`: the book list is a parameter of the constructor.
- Environment variables `DB_NODE_ID`, `REPLICA_ID` and `TOTAL_REPLICAS`: they are the replica's position and the ring or chain size. Ids outside 1..N are not modelled.
- `ListBooks` and `DeleteBook` return nothing and are not modelled. The unused helper `dequeue()` is not modelled either.
- `SendVoteRequestToParticipants` tests and combines the `Future` objects rather than their results: a `Future` is always truthy, so `payment_executor_vote and book_database_vote` yields the book database's `Future`, and `execute_order` then reads `.response` from that `Future`, which has no such attribute, so the call raises and ends the polling loop. The model uses the evidently intended conjunction of the two votes (`GlobalDecision`).
- `execute_order` passes `global_commit` as the second positional argument of the `ExecutePayment` stub call, which is the call's `timeout`, not a request field; the request itself is empty, so the payment participant always reads `global_commit` as false. As written, an abort decision (`False`) becomes a 0-second deadline, so the call fails at once and `execute_order` raises with `is_busy` still set; a commit decision (`True`) becomes a 1-second deadline, and the participant answers false. The model makes the intended call with the decision in the request, after which the replica is idle.
- The busy branch of `dequeue_order` (lines 124-126) is never reached: `is_busy` is set only by `__init__` and `execute_order`, which runs on the polling loop's own thread: on the intended path it clears the flag before the next check, and as written it raises at the `.response` read (line 97) before clearing it, which ends the polling loop. Either way the busy branch is never run. `DequeueOrderStep` keeps the branch for a replica whose `isBusy` holds, and its contract `isBusy == old(isBusy)` together with the constructor's `!isBusy` shows that no replica reaches that state.
- `send_vote_request_to_book_database` calls an endpoint the book database does not define. The book database's vote is a parameter.
- The random draw of the payment vote is a parameter. It does not affect the answer.
- OrderExecutor.OrderExecutor.HandOffToken: a `PassToken` call that fails after a successful health check is not modelled. A replica in `live` answers both calls.
- BookDatabase.BookChain.Head2Tail: the branch for a node id larger than the chain size, which returns nothing, is left out by the requirement `node <= stores.Length`.
- TransactionVerification.IncrementVectorClock: requires an array longer than 2. The handlers only pass arrays that have just matched a five-slot expected clock.
- `str.isdigit` is modelled on ASCII digits only. Other Unicode digit characters are not modelled.
- Protobuf's `MessageToDict` is modelled only for the two clock fields. An empty array and a zero timestamp leave no key.
- Timestamps are integers rather than floating-point seconds; only their order matters.
- Response messages are reduced to the verdict, the error message and the forwarded clock. The `books` field of an error response is always empty.
