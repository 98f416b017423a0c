# A verified model of the JSON-RPC HAL stack

The repository is a small RPC stack. A client library sends JSON requests over a TCP socket and
blocks each caller until the reply arrives or a tick budget runs out. A server library dispatches
requests to registered callbacks and publishes events to subscribers, some of which must
acknowledge. Two socket threads drive the libraries, and the linked-list macros of utlist hold
their tables. This project models those parts in Dafny and proves what they keep.

| file | models |
|---|---|
| `SortSpec`, `ListSort`, `ListOps` | utlist: the in-place merge sort in three link disciplines, append, delete, deletion during a safe traversal, ordered insertion |
| `ClientTracking`, `ClientTrackingProofs`, `ClientExpiry`, `ClientTheorems`, `ClientProgress`, `ClientReplies`, `ClientHazards` | request tracking in the client, as a step system of requester threads and the socket thread |
| `AppendRace` | the append to the list of outstanding requests, which runs outside the list lock |
| `RequestKeys`, `IdCounter`, `Decimal` | request ids, their counter as threads use it, their text and the keys they are tracked under |
| `ClientParse` | the client's parse loop on glued messages |
| `SendLoop`, `ConnectionMachine` | the send loop and the client's socket thread |
| `SelectLoop`, `SubscriptionSafety` | the server's select loop, and the subscription list shared with publishers |
| `Events`, `EventRuns`, `WaitReply` | subscriptions, publish, acknowledgements, the publish wait |
| `Dispatch`, `DispatchTheorems` | message dispatch and replies |
| `Params` | packing and unpacking of typed parameters |
| `Common` | return codes and collection notions the other modules share |

Objects that the C code updates in place are classes or heap nodes, its loops are loops with
invariants, and each is proved against a specification about which the lemmas then speak. The
client's request tracking is concurrent, so it is a step system: one step is one lock operation,
one list operation or one piece of code under a lock, and the theorems range over all
interleavings of all its threads. System calls, the JSON tokenizer, the clock and user callbacks
are parameters with contracts (`SendContract`, `AcceptContract`, `TokenContract`, `Tokenize`,
`ReadsBack`) and otherwise arbitrary.

Assumptions stated in the model, because the code depends on them:

- `LL_APPEND` at json_hal_client.c:662 runs outside the list lock; in the request tracking it is one
  atomic step, which may fall into another thread's traversal. `AppendRace` splits it into its walk
  and its link. `KeptIffAlone`: no entry is lost exactly as long as no two appends overlap.
  `KeptDespiteDeletionsIff`: with deletions in between, exactly as long as no append under way has
  found a node.
- `pthread_cond_wait` at json_hal_client.c:681 is not in a loop; a wait ends only by a signal.
- Outstanding requests have distinct keys (`DistinctKeys`). The code leaves this to its callers:
  `get_req_id` (json_hal_client.c:959-966) increments and re-reads its counter without a lock.
  `SafeIffAlone`: ids stay distinct exactly as long as no two of its calls overlap. `LibraryIdsSuffice`:
  then the keys are distinct, too. `SharedKeyAbandons` with `AbandonedForever`: what happens otherwise.
- Counters stay below INT_MAX; the wrap tests at json_hal_client.c:962 and json_hal_server.c:1069
  compare an int with INT_MAX and can never be true.
- int has 32 bits and long 64; `JSON_BLOCKING_SUBSCRIBE_EVENT` is on.

Where the code does not do what it is documented to do, the model follows the code:

- The send loop stops as soon as half of the message is out (tcp_client.c:67). `WholeMessageIff`:
  the promise of tcp_client.h:61-67 holds exactly for messages of at most one byte, and always
  with the guard `left > 0`. `AllAtOnce`: it also holds for a socket that takes all it is offered.
- The retry window for glued replies is stored as a relative offset (json_hal_client.c:371).
  `ParseBuffer`: with a tokenizer that refuses trailing characters, a buffer is read completely if
  and only if it holds at most two messages. In a longer one only the first message is delivered:
  the loop never ends if the first two are equally long, and otherwise hands the tokenizer a
  negative length.
- Each requester gets the whole receive buffer and parses its first message
  (json_hal_client.c:500, 691). `OwnReplyIff`: every requester served obtains its own reply exactly
  when no reply is read behind another message, be it a reply or an event; with copies of single
  messages, always. `SecondGetsFirst`: the second of two glued replies is lost.
- A socket thread that picks up an entry whose send is failing may lock a mutex that has been
  destroyed (json_hal_client.c:665-675). `MutexOutlivesSignal`: only then; `FailingSendPickedUp`: it
  can, from every state in which a call is sending and the list is free.
- Publishing a null value to a matching subscription returns with the subscription mutex held
  (json_hal_server.c:757-758). `Publish` states exactly when.
- Acknowledgements match ids by prefix (json_hal_server.c:427). `StopsWaitingIff`,
  `SameDigitsSameId` and `PrefixCrossTalk`, with its instance `CrossTalkExists`, state what that means.
- The result of the wait for acknowledgements is dropped (json_hal_server.c:798). `PublishEvent`: the
  return code tells of the sends alone; `FailureUnreported`: a failed or missing answer is not told.
- `unsignedLong` parameters go through a 32-bit variable and `unsignedInt` values print as signed
  (json_hal_common.c:112, 152, 207). `InRangeUnchanged` gives the exact range that survives,
  `UnsignedLost` what becomes of the rest. Booleans come back as "1" or "0", which the packer
  refuses. `RepackedIff`: it accepts exactly what is not a boolean.
- Texts that fill their arrays are copied without a terminator (json_hal_server.c:383, 393, 931);
  `Copied` reads on into whatever bytes follow. `OwnIdIff`, `HandlerFoundIff` and `OwnEventIff` give
  the exact lengths for which replies carry the request's id, the handler is that of its action and
  the subscription that of its event.
- Built without `JSON_TOKENER_ALLOW_TRAILING_CHARS` the server refuses every buffer with two requests
  (json_hal_server.c:344-348). `StrictGluedRequests`: one request is found, and of several none.

## Model

| member | source | states |
|---|---|---|
| SortSpec.MergeSortCorrect | json-rpc-common/utlist.h:111-169 | for every list and every total preorder, the bottom-up merge sort yields a sorted permutation in which equivalent nodes keep their order |
| SortSpec.MergeSortSorts | json-rpc-common/utlist.h:122-167 | from sorted blocks of length k, sweeps with doubling k end in one sorted list |
| SortSpec.MergeStable | json-rpc-common/utlist.h:137-157 | merging takes from the left run on ties, so every class of equivalent nodes keeps its order |
| SortSpec.StableSortUnique | json-rpc-common/utlist.h:111-309 | two sorted lists with the same equivalence classes are the same list: the result of a stable sort is unique |
| ListSort.TakeRun | json-rpc-common/utlist.h:129-135 | the left run has min(insize, rest) nodes and q is the first node behind it, also at the wrap of a circular list |
| ListSort.MergeRuns | json-rpc-common/utlist.h:136-158 | relinks the two runs in place into their merge, behind the nodes emitted so far, and leaves the input behind them linked |
| ListSort.SweepList | json-rpc-common/utlist.h:123-166 | one round restores all links of its discipline, orders the nodes as one sweep does, and counts at most one merge exactly when one merge covers the list |
| ListSort.SortList | json-rpc-common/utlist.h:111-309 | for single, double and circular lists alike: terminates, keeps exactly the same nodes, leaves the stable sort with every next and prev link, head prev and tail next restored |
| ListOps.Append | json-rpc-common/utlist.h:341-352 | the list is the old one followed by the new node |
| ListOps.Delete | json-rpc-common/utlist.h:388-402 | exactly the given node is unlinked, and a node that is not in the list changes nothing; the deleted node's own next is not written |
| ListOps.RemoveIf | json-rpc-common/utlist.h:388-423 | deleting during a safe traversal visits every node and keeps exactly the non-matching ones in order |
| ListOps.KeepMeaning | json-rpc-common/utlist.h:419-423 | what a deleting traversal keeps: exactly the nodes that do not match, each pair in its order |
| ListOps.LowerBound | json-rpc-common/utlist.h:372-383 | finds the insertion point in front of the first node not smaller than the given one |
| ListOps.AppendElem | json-rpc-common/utlist.h:494-504 | links the new node in behind the given one, or at the front |
| ListOps.InsertInOrder | json-rpc-common/utlist.h:357-367 | the list becomes the ordered insertion of the node |
| ListOps.InsertAllSorts | json-rpc-common/utlist.h:357-383 | inserting the nodes one by one, last one first, is a stable sort |
| ListOps.InsertionAgreesWithSort | json-rpc-common/utlist.h:111-383 | ordered insertion from the back and the sort macro build the same list |
| ClientTrackingProofs.StepKeepsInv | json_hal_client.c:492-704 | every step of every thread keeps the protocol invariant, as long as outstanding keys are distinct |
| ClientTheorems.ExactlyOnce | json_hal_client.c:655-704 | in every interleaving a sent request completes exactly once, by reply or expiry and never both, its entry leaves the list exactly once, and its return code tells which |
| ClientTheorems.CompletesOnlyBy | json_hal_client.c:496-541 | a request is answered only by a reply that carries its key, and expires only in a pass that brings its ticker to zero |
| ClientTheorems.OutcomeFixed | json_hal_client.c:492-552 | once a request has completed, no later step changes its outcome or puts it back in the list |
| ClientTheorems.NoLostWakeup | json_hal_client.c:655-685 | a waiting request is in the list or its signal is still to come |
| ClientTheorems.SomeoneMoves | json_hal_client.c:503-505 | unless the system is quiescent some thread can take a step: a chain of blocked threads ends at one that runs |
| ClientTheorems.NoDeadlock | json_hal_client.c:543-545 | when no thread can move, all locks are free, the socket thread is idle and every unfinished call waits unanswered in the list |
| ClientTheorems.TouchedIsAlive | json_hal_client.c:531-570 | an entry in the list, under a traversal, saved as its next pointer, about to be signalled, or still to be logged after its lock was released is neither freed nor about to be freed |
| ClientTheorems.MutexOutlivesSignal | json_hal_client.c:681-685 | the socket thread works on a request's mutex after its destruction only if that request's send failed |
| ClientTheorems.SentMutexSafe | json_hal_client.c:681-685 | in every run, a request whose send does not fail never has its mutex touched after the mutex is destroyed |
| ClientHazards.FailingSendPickedUp | json_hal_client.c:665-675 | from every state of every run with a call sending, the list free and the socket thread idle, there are steps after which a reply has picked up the entry although its mutex is destroyed |
| ClientHazards.SharedKeyAbandons | json_hal_client.c:555-570 | from every such state with a call waiting, a new call with its key can lose its entry to the first call's clean-up and is left waiting |
| ClientHazards.AbandonedForever | json_hal_client.c:681-685 | a waiting request that nobody can signal any more waits through every continuation of the run |
| ClientTheorems.ExpiresOnTime | json_hal_client.c:531-552 | between passes an unanswered request has had one decrement per pass since its append and fewer than its budget; an expired one has had exactly its budget, an answered one fewer |
| ClientTheorems.LibraryIdsSuffice | json_hal_client.c:848-857 | requests that carry the ids of different, non-overlapping calls of the library's counter, at most 10^8 calls apart, are tracked under different keys |
| ClientExpiry.TickBudget | json_hal_client.c:583-595 | the budget is four ticks a second, clamped to 40 and 480, also for negative timeouts |
| ClientExpiry.EndPass | json_hal_client.c:535-549 | when a pass ends it has decremented every entry that was there when it began, despite deletions and concurrent appends |
| ClientProgress.InternalStretchBounded | json_hal_client.c:655-704 | a stretch of steps without new calls or new socket work is bounded by the work it started with |
| ClientProgress.CallReturnsInTime | json_hal_client.c:531-552 | once the threads have settled, a call that has seen as many passes as its budget has returned |
| ClientProgress.OrderKept | json_hal_client.c:535-549 | in every run, entries that are both in the list at two moments stand in the same order, despite deletions during traversals and concurrent appends |
| ClientProgress.ListedThroughout | json_hal_client.c:662-685 | an entry is in the list for one uninterrupted stretch of the run |
| ClientReplies.ReplyAnswers | json_hal_client.c:492-510 | when the traversal for a reply ends, a request with the reply's key that was in the list when it began has been answered, whatever the other threads did meanwhile |
| RequestKeys.KeysAgree | json_hal_client.c:642-642 | two ids printed with "%8.8d" and read in base 16 into an int share a key exactly when they agree modulo 10^8 |
| RequestKeys.KeyIs | json_hal_client.c:642-642 | the nibbles of a key are the last eight decimal digits of the id |
| RequestKeys.IdTextLength | json_hal_client.c:852-852 | ids below 10^8 are printed with exactly eight digits that denote them |
| RequestKeys.WindowDistinct | json_hal_client.c:851-852 | fewer than 10^8 consecutive ids have pairwise distinct keys |
| RequestKeys.RequestIds.Issue | json_hal_client.c:959-966 | ids of successive calls, fewer than 10^8 apart, are tracked under different keys |
| IdCounter.SerialIds | json_hal_client.c:959-966 | in every run of calls that do not overlap the ids returned are consecutive |
| IdCounter.OverlapClashes | json_hal_client.c:961-965 | from every state with two calls under way there are steps that make both return the same id |
| IdCounter.SafeIffAlone | json_hal_client.c:959-966 | after any history of non-overlapping calls, no continuation without further overlaps returns an id twice if and only if at most one call is under way |
| AppendRace.UndisturbedComplete | json-rpc-common/utlist.h:341-352 | as long as no append begins during another and no node is deleted that an append has found, the list has exactly the entries appended and not deleted, in the order of their links |
| AppendRace.KeptIffAlone | json_hal_client.c:662-662 | after such a history, no undisturbed continuation loses an entry if and only if at most one append is under way |
| AppendRace.KeptDespiteDeletionsIff | json_hal_client.c:662-662 | with deletions by the holder of the list lock in between, if and only if no append is under way, or a single one that found the list empty |
| ClientParse.ParseBuffer | json_hal_client.c:356-526 | the parse loop reads a whole buffer, delivering the replies in order, if the tokenizer accepts trailing characters, the retry offset is absolute, or at most two messages are glued; otherwise it reads the first message only and runs forever (equal lengths) or hands over the negative window of minus the length difference; with distinct ids every requester served obtains its own reply if and only if single messages are copied, the buffer is not read, or no reply stands behind the first message |
| ClientParse.Fate | json_hal_client.c:357-381 | the complete case split on where the loop stands after any number of turns |
| ClientParse.LoopsForever | json_hal_client.c:361-381 | with equally long first messages the loop is still running after every number of turns |
| ClientParse.LongerSecond | json_hal_client.c:362-381 | a longer second message: the held token takes the window, then the rest of the message, reports the next one, and the window is negative |
| ClientParse.DeliveredMeaning | json_hal_client.c:478-510 | every reply read is delivered once, in order, to the requester with its id; events are not |
| ClientParse.OwnIffFirst | json_hal_client.c:500-500 | with whole buffers copied, every requester served obtains its own reply if and only if all replies read have the id of the first message |
| ClientParse.OwnReplyIff | json_hal_client.c:688-692 | with distinct ids: if and only if no reply is read behind another message; with single messages copied, always |
| ClientParse.SecondGetsFirst | json_hal_client.c:688-692 | of two glued replies with different ids the second requester obtains the first one's reply |
| SendLoop.SendData | tcp_client.c:59-79 | the bytes handed over are an in-order, duplicate-free prefix of the message; OK means at least half of it |
| SendLoop.ErrorMeansFailure | tcp_client.c:67-75 | an error is reported only when a send fails, and then at once |
| SendLoop.WholeMessageIff | tcp_client.h:61-68 | for every socket behaviour OK means the whole message, exactly when the message has at most one byte; with the guard left > 0, always |
| ConnectionMachine.ClientThread.Step | tcp_client.c:124-215 | each round keeps the loop-head invariant: connected exactly in RECEIVE, a socket exactly in CONNECT and RECEIVE; it adds exactly the calls of its stage, and runs the idle callback |
| ConnectionMachine.ClientThread.Run | tcp_client.c:118-228 | for every history: connection callbacks strictly alternate starting with connected, the log follows the socket protocol, each round logs its calls, the parser is called exactly once for every round with data on a live connection, and on exit every opened socket was closed exactly once |
| ConnectionMachine.ParsesCounted | tcp_client.c:199-203 | calls of the parser are as many as rounds in which data arrived on a live connection |
| ConnectionMachine.OpenedSocketsClosed | tcp_client.c:222-226 | in a log that follows the protocol, opens and closes balance exactly when no socket is open |
| ConnectionMachine.CallbacksAlternate | json_hal_client.c:229-241 | in such a log the connection callbacks alternate, and the last one is connected exactly while a connection is live or was closed by the exit |
| SelectLoop.Server.Accept | tcp_server.c:188-213 | at most one new descriptor joins the set and the end of the client list, and max_sd stays the maximum |
| SelectLoop.Server.Hangup | tcp_server.c:226-252 | the subscriptions of the descriptor go before it is closed; it leaves the set and the list, and the loop that lowers max_sd ends at the new maximum |
| SelectLoop.Server.Pass | tcp_server.c:169-266 | every ready descriptor is served exactly once in ascending order although max_sd moves; a ready listening socket adds exactly the descriptor that accept gives for the set at that moment; the client list is the surviving clients in order and then the newcomer; data goes to the process callback once per ready client; the subscriptions are those of the surviving clients in order and then those made in the pass |
| SelectLoop.Server.Run | tcp_server.c:165-268 | over any number of passes the listening socket is in the set, max_sd is its maximum, the client list is the rest of it without duplicates, and every subscription belongs to a descriptor of that list |
| SubscriptionSafety.SendsReachSubscribers | json_hal_server.c:750-791 | whatever the interleaving, a publisher sends only on open descriptors, to the connection that subscribed and not a later one with the same descriptor |
| SubscriptionSafety.OpenUntilUnlocked | tcp_server.c:231-237 | while a publisher holds the mutex, the list does not change and none of its descriptors is closed |
| SubscriptionSafety.RunInvariant | json_hal_server.c:600-633 | at every moment every subscription belongs to an open connection, and a connection being closed has none |
| SubscriptionSafety.LeavesOnlyByHangUp | json_hal_server.c:620-633 | a subscription leaves the list only as its own connection hangs up |
| SubscriptionSafety.JoinsBySubscribing | json_hal_server.c:600-614 | a subscription joins at the end exactly as its own connection subscribes |
| SubscriptionSafety.KeptUntilHangUp | json_hal_server.c:624-631 | in every run subscriptions stay, and in their order, as long as their connections do not hang up |
| SubscriptionSafety.EndsOnlyByHangUp | tcp_server.c:225-237 | a connection ends only by the close that follows its own hang-up |
| SubscriptionSafety.PublisherVisitsAll | json_hal_server.c:750-791 | between taking and releasing the mutex a publisher deals with every subscription of the list |
| Events.EventServer.Publish | json_hal_server.c:742-804 | sends, new statuses, counter, return code, decision to wait, and the one case in which the mutex stays locked |
| Events.EventServer.Unsubscribe | json_hal_server.c:620-633 | exactly the subscriptions of the descriptor go; every two that stay keep their order |
| Events.EventServer.Acknowledge | json_hal_server.c:418-434 | records the status in exactly the subscriptions with the descriptor whose event and outstanding id begin as the reply says; every other one is unchanged |
| EventRuns.PublishMeaning | json_hal_server.c:752-789 | the k-th matching subscription gets the k-th message and the k-th id; exactly the matching synchronous ones wait, each for the id of its own message |
| EventRuns.MatchingCount | json_hal_server.c:752-752 | as many messages as there are subscriptions whose event begins with the published name |
| EventRuns.SendIds | json_hal_server.c:757-757 | ids grow by one along the messages of a publish |
| EventRuns.WaitMeaning | json_hal_server.c:761-798 | publishing waits exactly when some synchronous match is followed, itself included, by successful sends only |
| EventRuns.HistoryIds | json_hal_server.c:771-773 | in every history of subscriptions, publishes, acknowledgements and hang-ups, outstanding subscriptions wait for pairwise distinct ids |
| EventRuns.StopsWaitingIff | json_hal_server.c:418-434 | an outstanding subscription stops waiting exactly when a reply comes on its descriptor whose event prefixes the subscribed one and whose id prefixes the outstanding one, and then records success or error as the reply says |
| EventRuns.SameDigitsSameId | json_hal_server.c:427-430 | a reply that answers and has as many digits carries the very id that is waited for |
| EventRuns.ReplyEndsOneWait | json_hal_server.c:423-432 | among ids of one digit count a reply ends at most one wait |
| EventRuns.PrefixCrossTalk | json_hal_server.c:427-427 | after a history of two subscriptions on one connection and 909 publishes, the reply to message 101 also ends the wait for message 1010 |
| WaitReply.Scan | json_hal_server.c:684-725 | one walk finds out whether anyone waits, whether all who wait are overdue timeout subscribers, and whether one has failed |
| WaitReply.ScanMeaning | json_hal_server.c:691-724 | the flags in the fields of the list: who waits without a timeout, or with one and for fewer than eleven full seconds, keeps the wait going |
| WaitReply.WaitForReplies | json_hal_server.c:671-739 | the wait leaves, if ever, at the first scan in which only overdue timeout subscribers wait, and returns OK exactly when nobody waited then and no scan saw a failed subscriber |
| WaitReply.EndsAfterLimit | json_hal_server.c:696-714 | with a monotone clock, a scan past the limit ends the wait exactly when everyone who still waits has a timeout |
| WaitReply.PublishEvent | json_hal_server.c:742-804 | waits exactly when it must; returns OK exactly when all sends succeed, whatever the wait reports |
| WaitReply.FailureUnreported | json_hal_server.c:795-803 | a subscriber that answers with an error or is overdue makes the wait fail while all sends succeed |
| Dispatch.Dispatcher.Register | json_hal_server.c:635-656 | registers a name exactly when it is not taken |
| Dispatch.Dispatcher.HandleRequest | json_hal_server.c:376-587 | at most one reply attempt, on the request's descriptor with the request's id; the effect on the subscriptions; and whether the loop ends |
| Dispatch.Dispatcher.ProcessMessage | json_hal_server.c:317-594 | handles the requests of a buffer in order up to one whose accepted subscription cannot be parsed; an error exactly for a parse error that is reached |
| DispatchTheorems.RepliesConserved | json_hal_server.c:376-587 | replies are as many as answerable requests and stand in their order, each on its request's descriptor with its id as copied; only requests without id or action and unregistered results get none |
| DispatchTheorems.AnswerMeaning | json_hal_server.c:376-587 | the reply owed to a request is the handler's exactly when a callback is registered, returned OK and gave a valid message, with the response action that belongs to the request's; Failure exactly when the callback failed; NotSupported otherwise |
| DispatchTheorems.SubscriptionMeaning | json_hal_server.c:536-566 | an accepted subscription is stored with the request's descriptor, event and notification type; one that does not name them ends the loop; other requests store nothing |
| DispatchTheorems.AcknowledgementMeaning | json_hal_server.c:398-434 | an acknowledgement records success exactly for a status that begins with Success, in exactly the subscriptions it answers |
| DispatchTheorems.CopiedExact | json_hal_server.c:383-393 | a copied text reads as the original, whatever bytes follow the array, if and only if it is shorter than the array |
| DispatchTheorems.OwnIdIff | json_hal_server.c:383-383 | whatever bytes follow the array, the reply to a request carries its own id if and only if the id has fewer than 64 characters |
| DispatchTheorems.HandlerFoundIff | json_hal_server.c:393-396 | whatever bytes follow the array, the handler found is that of the request's action if and only if the action has fewer than 64 characters or no registered name begins with its first 64 |
| DispatchTheorems.OwnEventIff | json_hal_server.c:922-934 | a subscription is stored under the event it names if and only if the name has fewer than 512 characters |
| DispatchTheorems.HandledMeaning | json_hal_server.c:544-563 | all requests are handled, or the last one handled is the first whose accepted subscription cannot be parsed |
| DispatchTheorems.GluedRequests | json_hal_server.c:349-365 | with a tokenizer that accepts trailing characters, requests sent back to back are all found in order, and what follows decides about a parse error |
| DispatchTheorems.StrictGluedRequests | json_hal_server.c:344-364 | a strict tokenizer finds a single request, and none of several glued ones, which are a parse error |
| DispatchTheorems.StrictServer | json_hal_server.c:344-364 | such a buffer is answered with an error and changes nothing |
| Params.Message.AddParam | json_hal_common.c:144-241 | appends the packed parameter, or for a published event sets its name and value fields; leaves the message alone and reports an error exactly when params is missing or a boolean is misspelt |
| Params.Message.GetParam | json_hal_common.c:26-142 | reads what the parameter object says, with every error path |
| Params.AddAll | json_hal_common.c:159-212 | after any list of valid parameters, index i reads back the i-th name, type and normalised value, and no other index reads |
| Params.ObjectRoundTrip | json_hal_common.c:58-133 | one parameter survives packing and unpacking up to normalisation |
| Params.PackMeaning | json_hal_common.c:159-212 | the object on the wire has the name, the type and the value: text as it is, a truth value as a boolean, a number as the integer its text denotes |
| Params.PackFails | json_hal_common.c:178-189 | packing fails exactly for a boolean that spells no truth value |
| Params.NormalMeaning | json_hal_common.c:58-133 | text comes back as it was, truth values as "1" and "0", numbers in decimal without leading zeros |
| Params.NameRoundTrip | json_hal_common.c:46-56 | the parameter a get or delete request names reads back as that name |
| Params.ReadFails | json_hal_common.c:58-133 | reading fails exactly where the name or the type is missing or a text has no value |
| Params.UnpackNumber | json_hal_common.c:102-129 | an integer on the wire reads as the nearest int, or as the long it is |
| Params.NormalIdempotent | json_hal_common.c:102-129 | normalisation is idempotent for every type but boolean |
| Params.InRangeUnchanged | json_hal_common.c:190-209 | a number in canonical form comes back unchanged if and only if it fits 32 signed bits (int and unsignedInt), 32 unsigned bits (unsignedLong) or a long (long) |
| Params.UnsignedLost | json_hal_common.c:195-209 | the upper half of unsignedInt comes back as a negative number, an unsignedLong beyond 32 bits is cut, and one beyond a long comes back as 4294967295 |
| Params.RepackedIff | json_hal_common.c:178-189 | what was read back can be packed again if and only if it is not a boolean |
| Decimal.StrtolFormat | json_hal_common.c:116-121 | every long survives printing with "%ld" and reading with strtol; other numbers come back as the nearest long |
| Decimal.FormatCanonical | json_hal_common.c:104-128 | "%d" and "%ld" print a minus sign exactly for negative numbers, digits, and no leading zero |
| Decimal.TextDigit | json_hal_client.c:852-852 | the digit of weight 10^i stands at the i-th place from the right |
| Decimal.TextLength | json_hal_client.c:852-852 | a number takes as many digits as it has, and at least the width asked for |
| Decimal.StrtolReads | json_hal_common.c:192-206 | strtol skips white space, takes one sign and reads digits up to the first other character |

## Left out

- json-c itself: tokenizing, serialising and reference counts; the tokenizer is a parameter with a contract, and only string, boolean and integer values occur in parameters.
- `json_hal_load_config`, the schema validator wrapper, header fields other than `reqId`, logging and the sample programs: no behaviour worth a proof.
- Socket set-up, fcntl, ioctl and thread creation: only the results of system calls are modelled. `FD_SETSIZE` is not modelled; the descriptor set is a mathematical set.
- `json_hal_client_terminate` and `json_hal_server_terminate` with work pending, and the close loop at tcp_server.c:270-277: they end the runs the theorems cover.
- AppendRace.UndisturbedComplete: a walk counts as one step, its last read; a walk that stands on a node while that node is deleted and freed is not modelled.
- The client's event callbacks (json_hal_client.c:403-474): their acknowledgement is an arbitrary reply in `EventRuns`.
- Request tracking works on a sequence for the list and on values for its entries, so it does not itself show pointers; append, delete and safe traversal are proved on heap nodes in `ListOps`.
- `SubscriptionSafety` does not model the critical section that records an acknowledgement: it changes no subscription's descriptor.
- The doubly linked and circular forms of utlist beyond their sorts, and its `NO_DECLTYPE` variants: they repeat the singly linked proofs or the same operations.
- Params.Message.AddParam: fields for an array and elements for an object are excluded, because json-c aborts on either.
- Params.Message.GetParam: a name or text that fills its array reads as its first bytes; the bytes behind the array are not modelled here.
- RequestKeys.RequestIds.Issue: covers counters below INT_MAX, because the increment overflows there.
- ClientParse.ParseBuffer: the loop is watched for a given number of turns, because it need not end; what json-c does with a negative length is not modelled, and neither is a reply without `reqId`, at which the loop returns an error.
- SendLoop.SendData: a `send` that accepts zero bytes forever would not let the loop end; the contract excludes it.
