# dndm in Dafny

A model of the decentralised named data messaging library: endpoints advertise *intents* to publish and
*interests* to receive named and typed data, and the library links the two, locally or across connections.
Each mutex-protected section of the code is one atomic step. Each `AddOnClose` callback and each linking
goroutine is a pending task that may run at any later time, because it has its own goroutine
(`endpoint.go:78-86`).

Objects whose methods change their fields are classes. The contract of each method states the whole new state, for
most of them as a step of a function on values to which the object's fields are tied; the lemmas then speak about all
runs of those functions.

| file | models |
|---|---|
| `CallerTable.dfy`, `CallerRuns.dfy`, `CallerChannels.dfy` | request/reply correlation of the bus: the nonce map and the in-place order slice, whole runs, and the one-slot reply channels |
| `RemoteEndpoint.dfy`, `RemoteLink.dfy`, `RemoteFlow.dfy` | one end of a remote connection, two ends on FIFO links, and the data of one route across three queues |
| `LinkTable.dfy`, `Linker.dfy` | links between intents and interests, with their goroutines |
| `InterestRouter.dfy`, `FanOut.dfy` | broadcast to bounded subscriber queues, fan-in and fan-out members, send verdicts |
| `Handshake.dfy`, `Gossip.dfy`, `Addrbook.dfy`, `Backoff.dfy` | the mesh handshake, what two address books learn from it, the book itself, dial backoff |
| `Container.dfy`, `ContainerOrder.dfy` | wiring of endpoints and routed intents and interests, which members work, and when the order of the calls matters |
| `Codec.dfy`, `Stream.dfy`, `Routes.dfy` | framing, the two message readers, route texts |
| `Sequences.dfy`, `Wrappers.dfy` | searching and in-place deletion, `Option` and `Result` |

## What the proofs found

These follow the code where it and its description differ.

- **A reply can hit a closed channel.** Taking a waiter and sending to it are two critical sections. The send of a
  one-shot reply hits a closed channel exactly when its caller gave up (`CallerChannels.SingleDeliveryIff`), that of a
  stream exactly when its reader gave up or a failure found it waiting (`CallerChannels.StreamDeliveryIff`). Each has
  an example run.
- **Double linking can panic.** A step panics exactly when it connects an intent whose last connecting, severing or
  disconnecting task left it on another channel (`LinkTable.PanicIff`). Links settle when a route's callbacks are done
  before it is registered again *and* no link is severed before it was connected; without the second condition a late
  `Link` goroutine leaves a stale channel behind (`LinkTable.LateConnectPanics`).
- **Both sides can stay unlinked.** This happens exactly when a link's callback ran, or `beforeLink` declined, while the
  pair has been registered ever since (`LinkTable.UnlinkedIff`); the callback may be that of an earlier link.
- **A send can hit a closed channel.** An intent keeps an interest's channel until its link is severed, which is another
  goroutine than the one that closes the channel (`LinkTable.SendHitsClosedIff`, `LinkTable.SendOnClosedIsReachable`).
  In orderly runs this is over once the removal of the interest and the severing of the intent are done
  (`LinkTable.SendsToClosedOnlyWhileLeaving`).
- **The registration mirror breaks on untruthful steps, refusals and late data.** It survives a step of the sender
  exactly when the step is `Truthful` and does not end the connection. Untruthful are: a registration sent before the
  local callback refuses the object, an unregistration that cannot be written, and a second `Close` of an object after
  the route was registered anew (`RemoteLink.SenderMirrorIff`). On the other end only a callback that refuses a
  registration and data that does not decode can break it (`RemoteLink.ReceiverMirrorIff`).
- **A late payload ends the connection.** Data of a route that this end has not subscribed to itself does not decode,
  and a failed read closes the end with everything registered on it. An end has closed exactly when one of the two has
  received such data (`RemoteLink.ClosesIff`), which one payload on the way suffices for when its subscriber leaves
  (`RemoteLink.LatePayloadRun`).
- **Closing the last subscriber can hang.** Its removal keeps the router's lock while it waits for the receive runners,
  and a runner with a message in hand waits for that lock. The removal can return exactly when no runner has one
  (`InterestRouter.RemovalReturnsIff`, `InterestRouter.RemovalCanHang`).
- **Hashed routes cannot be advertised.** The wrappers send `Route().ID()`, which for a hashed route is the hash
  alone, and the parser rejects it (`Routes.HashedIdIsRejected`), although the comment above `NewHashedRoute`
  describes the identifier as prefix and hash together.
- **A failing call disconnects others.** Publishing or subscribing again fails when an endpoint refuses, and closes what
  the endpoints before it gave. For a known route these are the objects that the router holds; later calls make new
  ones and do not add them (`ContainerOrder.FailedCallClosesMember`, `ContainerOrder.FailedCallExample`).
  `Container.RunLives` says exactly which members work after any run.
- **Wiring depends on order.** An endpoint that refuses a route on joining, as a handshaker does until it is done,
  stays out of that route's router as long as the router lives, and both calls succeed
  (`Container.RefusedEndpointStaysOut`). Routes that share an id may allow different endpoints, and the first one
  decides (`ContainerOrder.SharedIdDependsOnOrder`). `ContainerOrder.OrderIndependentIff` gives the exact condition
  under which the order of the calls does not matter to the working members, with failing calls included, and
  `ContainerOrder.WillingOrderIndependentIff` the one where nobody refuses.
- **Readers that deliver in pieces lose frames.** `ReadMessage` calls `Read` once for the preamble and once for the
  body. A stream is recovered exactly when every segment ends where a preamble or a body does
  (`Codec.StreamRoundTripIff`).
- **A mismatched scheme still ends in DONE.** The state is changed before the scheme is checked. From any point of any
  run the exchange can still be completed exactly when both schemes are the expected ones
  (`Gossip.CompletesIffSchemesMatch`); otherwise the side that meets the mismatch is DONE, closes its
  connection, and shares nothing (`Gossip.SchemeMismatchStops`, `Gossip.DialledMismatchIsOneSided`).

## Model

| member | source | states |
|---|---|---|
| CallerRuns.BoundedWaiting | x/bus/caller.go:269-359 | whatever registrations, nonce matches, stream rotations and cancellations of others interleave, at most p responses are dispatched first-in-first-out before the waiter at index p is served, so a run that dispatches more has served it |
| CallerRuns.OvertakeAtMost | x/bus/caller.go:288-359 | a step that neither serves nor cancels a waiter keeps it pending, never moves it back, and a FIFO dispatch moves it forward |
| CallerRuns.StreamsTakeTurns | x/bus/caller.go:306-359 | once a stream has been served, by nonce or first come, everybody who waited then stands before it until served, withdrawn or cleared, so the stream is not served first come again before that |
| CallerRuns.StreamGoesLast | x/bus/caller.go:306-345 | whichever way a response is handed out, a stream is the last of the list afterwards, a single call has left it, and the others keep their order |
| CallerRuns.StaysBefore | x/bus/caller.go:288-359 | in every run, whoever stands before another stays there until served, withdrawn or cleared |
| CallerRuns.RepliesMatchCalls | x/bus/caller.go:106-131 | when every reply carries the nonce of an earlier unanswered call and nobody cancels, each reply is delivered to its own call in any order of replies, and those still waiting are the unanswered calls |
| CallerRuns.KthReplyToKthCall | x/bus/caller.go:325-345 | without nonces, the k-th delivered response goes to the k-th registration |
| CallerRuns.AnsweredInOrder | x/bus/caller.go:325-345 | without nonces, the replied-to calls followed by the still waiting ones are the initial ones followed by the registered ones, in order |
| CallerRuns.WaitersConserved | x/bus/caller.go:259-371 | in every run, those who waited or registered are those still waiting plus those answered, withdrawn and cleared, as multisets |
| CallerRuns.LeavesExactlyOnce | x/bus/caller.go:259-371 | from a fresh Caller every one-shot or stream waiter is in exactly one place: still waiting, or gone by one answer, withdrawal or clearing |
| CallerRuns.ResponseGoesToOneOrNone | x/bus/caller.go:115-130 | a response is dropped exactly when nobody waits; else it goes to the waiter of its nonce or to the one that waits longest, and only streams keep waiting |
| CallerRuns.RunKeepsInv | x/bus/caller.go:269-286 | in every run without nonce wrap, pending nonces are distinct and below the counter |
| CallerRuns.RegisterDistinctIff | x/bus/caller.go:273-283 | registering keeps nonces distinct exactly when the counter's value is not pending, wrap-around included |
| CallerRuns.RegisteredAreNew | x/bus/caller.go:273-283 | the i-th registration of a run gets the i-th nonce after the counter |
| CallerRuns.HandleResponses | x/bus/caller.go:106-131 | the receive loop serves each response as dispatch on the list left by its predecessors says, then hands back exactly those who still wait |
| CallerTable.Caller.constructor | x/bus/caller.go:84-98 | a new table is consistent, empty and counts from 1 |
| CallerTable.Caller.RegisterWaiter | x/bus/caller.go:269-286 | appends the new waiter to the list; map and slice stay consistent exactly when the nonce was free |
| CallerTable.Caller.RemoveLocked | x/bus/caller.go:347-354 | the shifting search removes the first occurrence and nothing else |
| CallerTable.Caller.MoveToBackLocked | x/bus/caller.go:356-359 | moves the nonce to the end and keeps the others in order |
| CallerTable.Caller.UnregisterWaiter | x/bus/caller.go:288-304 | deletes exactly that waiter from the abstract list and returns it |
| CallerTable.Caller.TakeWaiterForNonce | x/bus/caller.go:306-323 | map and slice together do what taking by nonce does to the list: an unknown nonce changes nothing, and what is served is as in `CallerRuns.StreamGoesLast` |
| CallerTable.Caller.TakeNextWaiter | x/bus/caller.go:325-345 | serves the first nonce that is pending; on a consistent table nothing is ever skipped |
| CallerTable.Caller.HandleResponse | x/bus/caller.go:115-130 | map, slice and loop together refine nonce-first-then-FIFO dispatch on one list |
| CallerTable.Caller.Clear | x/bus/caller.go:361-371 | closing hands back every pending waiter and leaves none |
| CallerTable.RegistrationAgrees | x/bus/caller.go:269-286 | map and slice agree after a registration exactly when the nonce was not in the map |
| CallerTable.RemovalAgrees | x/bus/caller.go:288-304 | deleting from both map and slice keeps them in agreement and deletes one list element |
| CallerTable.RotationAgrees | x/bus/caller.go:356-359 | moving a nonce to the back keeps agreement and moves its list element |
| CallerChannels.SingleDeliveryIff | x/bus/caller.go:259-267 | in every reachable state a one-shot delivery never blocks, and it hits a closed channel exactly when its caller gave up before |
| CallerChannels.StreamDeliveryIff | x/bus/caller.go:189-267 | in every reachable state a delivery to a stream hits a closed channel exactly when its reader gave up before, or a failure happened while it waited in the table |
| CallerChannels.StreamBlocksIff | x/bus/caller.go:189-267 | in every reachable state a delivery to a stream blocks exactly when its channel is open and the reply put there before has not been read |
| CallerChannels.FullIff | x/bus/caller.go:259-267 | in every run a reply slot is full exactly when some reply was put there and has not been read since |
| CallerChannels.GiveUpBetweenTakeAndSend | x/bus/caller.go:165-183 | a run in which giving up between take and send makes the send hit a closed channel |
| CallerChannels.FailBetweenTakeAndSend | x/bus/caller.go:361-371 | a run in which failing all waiters between take and send makes the send to a stream hit a closed channel |
| CallerChannels.RunKeepsInv | x/bus/caller.go:106-267 | in every run, listed waiters have an open and, for one-shots, free channel, and the one in flight has left the table or is a stream |
| RemoteFlow.SubscriberSeesSubsequence | endpoint/remote/wrappers.go:197-231 | in every interleaving of both ends, what was put into the subscriber's queue is an order-preserving subsequence of what the publisher's intent accepted, no position twice |
| RemoteFlow.PipelineStaysGenuine | endpoint/remote/messages.go:316-331 | the same for the whole pipeline: read, subscriber queue, wire and the queue of the remote interest |
| RemoteFlow.AcceptedIsAccountedFor | endpoint/remote/messages.go:316-331 | every accepted payload is in the pipeline or was lost: by a failed write or one to a closed end, a refused message, a closed queue, or the closing of an end with its queue and what was on the way to it; and the losses add up |
| RemoteFlow.PublisherEmits | intent.go:99-131 | the publishing end only appends to its queue, passes the front on, or loses data |
| RemoteFlow.ForwardsDeliver | endpoint/remote/wrappers.go:197-231 | when its writes work, the forwarding loop puts exactly the queue of its route on the wire, in order, and nothing of other routes |
| RemoteFlow.SubscriberMoves | endpoint/remote/messages.go:316-331 | the subscribing end only moves the oldest data one stage on, or loses it |
| RemoteLink.DrainedLinkAgrees | endpoint/remote/messages.go:212-314 | in every faithful run of two ends, whenever a link is empty the receiver's remote registrations are the sender's local ones, both ways; faithful means own keys, truthful steps, and deliveries that decode and are taken |
| RemoteLink.MirrorInEveryRun | endpoint/remote/messages.go:212-314 | folding the messages in flight over the receiver's remote registrations always gives the sender's local ones |
| RemoteLink.SenderMirrorIff | endpoint/remote/wrappers.go:51-86 | a step of the sending end keeps the mirror if and only if it is truthful and does not receive data that ends the end, which can be checked before the step |
| RemoteLink.ReceiverMirrorIff | endpoint/remote/messages.go:37-314 | a step of the receiving end keeps the mirror if and only if it neither receives data of a route without an own interest nor refuses a new registration whose key no later message on the link settles |
| RemoteLink.ClosesIff | endpoint/remote/messages.go:37-42 | in every run, an end has closed exactly when one of the two received data of a route that it had no own interest in |
| RemoteLink.LatePayloadEndsEnd | endpoint/remote/messages.go:37-42 | wherever a subscriber leaves truthfully while a payload for it is the next on the way, that payload closes its end and takes all its registrations |
| RemoteLink.LatePayloadRun | codec/codec.go:153-157 | such a run from two fresh ends, for every route whose id parses |
| RemoteLink.QueuesStayBounded | intent.go:99-121 | in every run of two ends no queue holds more than its size |
| RemoteLink.FoldWithKey | endpoint/remote/messages.go:212-314 | a refused key makes a difference to what the messages in flight lead to exactly when none of them is about it |
| RemoteLink.DeliveryApplies | endpoint/remote/messages.go:212-314 | handling a registration message does to the remote set what the fold assumes, unless the callback refuses, and leaves local registrations alone |
| RemoteEndpoint.Endpoint.constructor | endpoint/remote/remote.go:36-44 | a new end has nothing registered, queued or sent |
| RemoteEndpoint.Endpoint.Advertise | endpoint/remote/remote.go:117-164 | an own registration is returned again, the other end's is refused, and the message is sent before the callback may refuse |
| RemoteEndpoint.Endpoint.CloseLocal | endpoint/remote/wrappers.go:76-86 | closing sends the unregistration and removes the object even when the write fails |
| RemoteEndpoint.Endpoint.Remove | linker.go:161-167 | removing drops registration and link, and an interest's queue |
| RemoteEndpoint.Endpoint.SendLocal | intent.go:99-121 | a payload is accepted at the next position exactly when the route is linked, the type is right and its queue has room |
| RemoteEndpoint.Endpoint.TakeLocal | interest.go:82-88 | the subscriber gets the oldest payload and only that one leaves |
| RemoteEndpoint.Endpoint.HandleRemote | endpoint/remote/messages.go:212-299 | bad texts and refused objects change nothing, a local owner is kept and reported, a repeated registration is accepted silently |
| RemoteEndpoint.Endpoint.HandleUnregister | endpoint/remote/messages.go:235-314 | only the remote object registered under the very same text is removed |
| RemoteEndpoint.Endpoint.HandleBatch | endpoint/remote/messages.go:196-275 | a batch goes through the states that its items lead to one by one, up to the first failing one, which changes nothing |
| RemoteEndpoint.Endpoint.HandleMsg | endpoint/remote/messages.go:316-331 | data of a route without an own interest closes the end; other data reaches the queue of its route exactly when an intent is registered, linked, and the queue has room |
| RemoteEndpoint.Endpoint.End | endpoint/remote/remote.go:106-115 | closing an end leaves it closed with nothing registered, linked or queued |
| RemoteEndpoint.Endpoint.ForwardAll | endpoint/remote/wrappers.go:197-231 | the forwarding loop is one forward step for each payload: it drains its queue, writes exactly the payloads whose writes work, in their order, and touches no other queue |
| RemoteEndpoint.ForwardsPick | endpoint/remote/wrappers.go:214-229 | successive forward steps write the queue's payloads at exactly the places where the write works, in order |
| RemoteEndpoint.FirstOwnerKeeps | endpoint/remote/remote.go:117-164 | who registers a free route first keeps it: the same side gets it again without a new message, the other side is told that it is taken, whichever side that is |
| RemoteEndpoint.LeavingFrees | linker.go:225-238 | when an interest leaves, by either side, its key is free, its queue gone, and a send on the route finds no interest |
| RemoteEndpoint.LinkedDelivers | intent.go:99-131 | on a linked route with room the accepted payload is the one that the subscriber reads; a wrong type is refused |
| RemoteEndpoint.FailureChangesNothing | endpoint/remote/messages.go:212-331 | a message that is decoded and then answered with an error leaves the end as it was |
| LinkTable.LinkedIffBothRegistered | linker.go:132-277 | in every orderly run: linked exactly when both sides are registered, the intent sends to that interest or nowhere, and no double-link panic |
| LinkTable.PanicIff | intent.go:123-131 | in every run, a step causes the double-link panic exactly when it connects an intent that the last task on its output pointed at another interest |
| LinkTable.UnlinkedIff | linker.go:132-277 | in every run, both sides are registered and not linked exactly when some step ran a link callback or had its pairing declined, and the pair has been registered ever since |
| LinkTable.StandsIff | linker.go:132-238 | in every run an intent or interest is the registered one exactly when a step made it while its side was free and no removal has run since; it is open exactly when it was made so and not closed since |
| LinkTable.DoneLeavesOnlyOpen | linker.go:140-167 | in every run, once the route's goroutines are done, no closed object is registered |
| LinkTable.OpenOrLeavingInEveryRun | linker.go:140-238 | in every run a registered object is open or its removal is pending |
| LinkTable.PendingIff | endpoint.go:78-86 | in every run a goroutine is pending exactly when the closing, linking or removal that starts it has happened and it has not run since |
| LinkTable.LosesLinkIff | linker.go:255-260 | a linked pair stays registered and loses its link exactly by a link callback |
| LinkTable.SendHitsClosedIff | intent.go:99-121 | in every run, a send in progress hits a closed channel exactly when the interest has closed it, and it read that channel when the intent was pointed at it |
| LinkTable.SendsToClosedOnlyWhileLeaving | interest.go:59-71 | in every orderly run, the registered intent sends to a closed channel only while the removal of that interest or the severing of that intent is pending, so never when the route's tasks are done |
| LinkTable.ClosedIsLeavingInEveryRun | linker.go:193-238 | in every run, orderly or not, a registered interest whose channel is closed or about to be is about to be removed |
| LinkTable.ClosedBeforeSevered | link.go:38-53 | a step after which the interest is removed, its channel closed, and the intent still sends there |
| LinkTable.OutputIsTarget | intent.go:123-131 | in every run an intent sends where the last task on its output pointed it |
| LinkTable.LinkAgreesInEveryRun | linker.go:132-277 | in every interleaving of registrations, closings and goroutines, a link joins the very objects that are registered |
| LinkTable.OrderlyRunsSettle | linker.go:132-277 | orderly runs keep the full invariant on registries, link, pending tasks and output channels |
| LinkTable.StepKeepsSettled | linker.go:132-277 | every orderly step keeps it |
| LinkTable.UnfinishedIsReachable | linker.go:225-238 | an orderly run to a state where a link's callbacks are still pending |
| LinkTable.HastyRegistrationPanics | intent.go:123-131 | subscribing again in that state makes the intent be linked to two channels |
| LinkTable.StaleCallbackUnlinks | linker.go:255-260 | or a stale callback leaves both sides registered and not linked |
| LinkTable.UnconnectedIsReachable | link.go:38-53 | an orderly run to a state where a link is closed before its goroutine connected it |
| LinkTable.LateConnectPanics | link.go:22-53 | severing before connecting reaches the panic although every goroutine finished before the next registration |
| LinkTable.SendOnClosedIsReachable | interest.go:59-71 | an orderly run after which a send goes to a channel that its interest has closed |
| Linker.RouteLinkedIffBothRegistered | linker.go:132-277 | the same over all routes at once: orderly use of one route suffices for it, whatever happens on others |
| Linker.RouteUnlinkedIff | linker.go:132-277 | over all routes, a route is registered on both sides and unlinked exactly by its own unlinking steps |
| Linker.RouteStandsIff | linker.go:132-238 | over all routes, what a route has registered or open is decided by its own registrations, closings and removals |
| Linker.LinkTableAgrees | linker.go:132-277 | every link entry of the whole table joins the registered pair of its route, in every interleaving |
| Linker.RunProjects | linker.go:132-277 | a run of the whole Linker is, for each route, the run of that route's own events |
| Linker.Linker.constructor | linker.go:63-80 | a new Linker has no route |
| Linker.Linker.AddIntentLocked | linker.go:132-158 | registers once, links when an interest is there, and leaves other routes alone |
| Linker.Linker.AddInterestLocked | linker.go:193-222 | the same for an interest |
| Linker.Linker.Link | linker.go:242-266 | makes one link per route and starts its goroutine, unless there is one already or the hook objects |
| Linker.Linker.Connect | intent.go:123-131 | the panic happens exactly when the intent already sends to another channel |
| Linker.Linker.Disconnect | intent.go:123-131 | the intent sends nowhere afterwards |
| Linker.Linker.Unlink | linker.go:269-277 | the entry is dropped and returned, the link is not closed |
| Linker.Linker.RemoveIntent | linker.go:161-167 | exactly this route's intent and link entry are deleted from the two maps, and the link is not closed |
| Linker.Linker.RemoveInterest | linker.go:225-238 | drops interest and link entry and closes the link, which starts both callbacks; without an interest nothing happens |
| Linker.Linker.CloseLink | link.go:22-30 | closing starts the callback that severs the intent and the one that drops the entry |
| InterestRouter.SubscribersAreIndependent | interest.go:280-294 | in every run each subscriber's queue is what it would be with that subscriber alone, so a message is missed only when its own queue was full |
| InterestRouter.AcceptedIsSubsequence | interest.go:252-294 | what a subscriber ever accepted is a subsequence of one routed order, and its queue is the end of it |
| InterestRouter.AcceptedIff | interest.go:280-294 | in every run a subscriber has accepted a message exactly when it was there and had room at the moment the message was routed |
| InterestRouter.ClosedIff | interest.go:262-277 | the router is closed exactly when some removal has left it without subscribers |
| InterestRouter.SharedOrder | interest.go:280-294 | two subscribers accept shared messages in the same order |
| InterestRouter.SourcesKeepTheirOrder | interest.go:169-197 | per source, routed messages, the runner's hand and the channel make up what was sent, in order |
| InterestRouter.SentIsEmitted | interest.go:82-88 | what a source has sent is what the run put on its channel, in order |
| InterestRouter.ClosedIsNotListed | interest.go:262-277 | a wrapper whose channel is closed is never in the list that messages are sent to |
| InterestRouter.RemovalReturnsIff | interest.go:262-294 | in every run, the removal that closes the router can still return exactly when no receive runner has a message in hand |
| InterestRouter.FullHandHoldsForever | interest.go:114-118 | while it waits for such a runner, no continuation routes a message or lets a subscriber come or go |
| InterestRouter.RemovalCanHang | interest.go:169-294 | a run of four steps after which the removal waits for a full hand |
| InterestRouter.RunKeepsInv | interest.go:252-294 | the list has no duplicates and holds exactly the open wrappers, queues stay within their size |
| InterestRouter.Router.constructor | interest.go:225-237 | a new router represents the initial state: no wrappers, no messages, open |
| InterestRouter.Router.AddWrapper | interest.go:240-260 | when the lock is free, appending the wrapper with an empty queue is the abstract step that wraps |
| InterestRouter.Router.DeleteWrapper | interest.go:266-270 | the search and deletion in place take out the first occurrence of the wrapper and nothing else |
| InterestRouter.Router.RemoveWrapper | interest.go:262-277 | when the lock is free, the deletion, and starting to close when no wrapper is left, are the abstract step that removes |
| InterestRouter.Router.RouteFrom | interest.go:169-197 | handing the picked message to the router is the abstract step that routes it to all listed wrappers |
| InterestRouter.Router.Pick | interest.go:169-177 | taking the next message off an interest is the abstract step that picks it |
| InterestRouter.Router.Quit | interest.go:169-176 | a runner without a message stops when its context has ended |
| InterestRouter.Router.Return | interest.go:114-118 | the closing removal returns when all runners have stopped |
| InterestRouter.Router.Emit | interest.go:82-88 | a message put on an interest goes to the end of its channel |
| InterestRouter.Router.Consume | interest.go:212-214 | a subscriber gets the oldest message of its own queue |
| InterestRouter.Router.CloseChannel | interest.go:252-260 | the channel that a wrapper closes is not in the list any more |
| InterestRouter.Router.RouteMsg | interest.go:280-294 | each listed wrapper is offered the message once, a full queue drops it, unlisted ones are untouched |
| FanOut.ReportsEveryFailure | intent.go:192-224 | for any nesting of fan-outs, the reported errors are exactly the leaves' real failures, in order |
| FanOut.NoInterestIffNoLeafInterested | intent.go:192-224 | for any nesting, no-interest is returned exactly when no leaf has interest |
| FanOut.SucceedsIffTakenAndNoneFailed | intent.go:192-224 | for any nesting, nil is returned exactly when some leaf took the message and none failed |
| FanOut.VerdictMeaning | intent.go:206-223 | one level: no-interest exactly when all members lack it, none included; success exactly when one took it and the rest took it or lack interest |
| FanOut.PlainVerdict | intent.go:206-223 | on plain answers, closed members included: no-interest exactly when all say so, nil exactly when some took it and nobody failed, else exactly the failures, joined in member order |
| FanOut.SearchesJoined | intent.go:213-219 | a joined error counts as no interest exactly when one of the plain errors inside it is that one |
| FanOut.Send | intent.go:192-224 | type and context are checked first, then every member is offered the message once and the counting loop yields that verdict |
| FanOut.AddPairs | intent.go:227-240 | adding keeps member and cancel slices aligned |
| FanOut.RemovePairs | intent.go:242-258 | deleting any one slot from both slices keeps them aligned and its own cancel is the one that is called |
| FanOut.Members.constructor | intent.go:154-167 | no members and no cancels at the start |
| FanOut.Members.Add | intent.go:227-240 | appends to both slices, or refuses a member of another route and changes nothing |
| FanOut.Members.AddOnce | interest.go:138-155 | an interest of another route is refused, and one that is a member already is not added again |
| FanOut.Members.Find | interest.go:141-146 | finds the first occurrence |
| FanOut.Members.Remove | intent.go:242-258 | removes the first occurrence, calls the cancel made for it and no other, and closes with the last member where asked |
| Gossip.HandshakeCompletes | endpoint/mesh/handshake.go:135-282 | for every interleaving of dialer and acceptor with matching schemes: nothing refused, repeat counter at zero, at most six protocol steps, and after exactly the sixth both are done with three greetings and two lists sent, each book holding all that was active in the other's |
| Gossip.CompletesIffSchemesMatch | endpoint/mesh/handshake.go:187-256 | after any run whatever, both sides can still get done with both lists sent exactly when the dialled and the known scheme are those of the two peers |
| Gossip.CanComplete | endpoint/mesh/handshake.go:135-282 | from every state of an exchange with matching schemes some steps complete it |
| Gossip.CanContinue | endpoint/mesh/handshake.go:135-282 | while steps remain one is enabled, so the exchange does not get stuck |
| Gossip.StepKeepsShape | endpoint/mesh/handshake.go:187-282 | phases determine what is in flight, and each protocol step lowers the measure by one |
| Gossip.RunKeepsInv | endpoint/mesh/handshake.go:187-282 | in every run, whoever a node was told of is in its book, itself, or in a list under way |
| Gossip.FreshSharesAll | endpoint/mesh/addrbook.go:149-181 | on a fresh connection the shared list has every active peer but the receiver |
| Gossip.DoneIsConnected | endpoint/mesh/handshake.go:204-256 | a side that is done has its partner connected exactly when no disconnection came after the last connection, made in the exchange or later; and it has told the partner of every address it had connected to before it shared and not disconnected by then |
| Gossip.BooksFollowTheirEvents | endpoint/mesh/handshake.go:135-282 | in every run of a matching exchange each book is what its own events make of it, and a side that is done has told exactly the peers that were active when it had recorded the connection |
| Gossip.SchemeMismatchStops | endpoint/mesh/handshake.go:199-214 | with a caller of another scheme than the server knows, in every run no list is sent, the dialer gets no answer and never leaves waiting |
| Gossip.DialledMismatchIsOneSided | endpoint/mesh/handshake.go:199-214 | with an answer of another scheme than dialled, in every run only the acceptor ever shares its peers |
| Handshake.Handshaker.constructor | endpoint/mesh/handshake.go:64-77 | starts in the given state with nothing sent |
| Handshake.Handshaker.Init | endpoint/mesh/handshake.go:166-177 | the dialling side records the connection, waits and greets, and ignores a failing write; the other only listens |
| Handshake.Handshaker.Share | endpoint/mesh/handshake.go:216-248 | answers with a final greeting and exactly the active peers not shared before, and records them as shared only if both writes work |
| Handshake.Handshaker.Meet | endpoint/mesh/handshake.go:199-248 | a waiting side is done before the peer is parsed and its scheme checked, and shares only after both |
| Handshake.Handshaker.HandshakeMsg | endpoint/mesh/handshake.go:187-256 | closes on the sixth repeat, passes a message of another type on with an error, meets when waiting, passes when done, else counts |
| Handshake.Handshaker.PeersMsg | endpoint/mesh/handshake.go:258-282 | peers before the handshake is done close the connection; afterwards those before the first unparsable text are added |
| Handshake.Handshaker.AddTexts | endpoint/mesh/handshake.go:272-281 | the loop adds exactly the peers before the first text that does not parse |
| Handshake.RepeatsCloseIff | endpoint/mesh/handshake.go:187-255 | greetings that lead nowhere are counted, and the connection is closed exactly from the sixth on |
| Handshake.ProgressClearsCount | endpoint/mesh/handshake.go:203-255 | a greeting that gets a waiting side done, or that a done side receives, clears the count, whatever becomes of the meeting |
| Handshake.ListsOnlyWhenDone | endpoint/mesh/handshake.go:258-282 | a list is taken exactly by a side that is done and then makes every listed peer known; any other closes and learns nothing |
| Handshake.SharedOnlyIfWritten | endpoint/mesh/handshake.go:204-248 | meeting a peer connects it whatever becomes of the writes, and its list counts as shared exactly when both writes work |
| Addrbook.RunKeepsEntries | endpoint/mesh/addrbook.go:116-237 | no run adds self, and no run replaces or drops an entry |
| Addrbook.AddPeersKeeps | endpoint/mesh/addrbook.go:116-134 | after adding, each peer is self or known, and known entries are unchanged |
| Addrbook.StepKeeps | endpoint/mesh/addrbook.go:116-237 | every book operation keeps entries, keys and the absence of self |
| Addrbook.FactIff | endpoint/mesh/addrbook.go:306-350 | in every run an entry is connected exactly when its peer was connected to, or was so at the start, and no disconnection came after; likewise dialling, and having been shared a peer, which a disconnection or a newly accepted connection takes back |
| Addrbook.NewConnectionIsListed | endpoint/mesh/addrbook.go:149-181 | a peer that connects for the first time is listed for every other peer that was not told of it |
| Addrbook.LastStoredIsHeld | endpoint/mesh/addrbook.go:27-43 | of several stored peers with one address the last one is held, neither connected nor dialled |
| Addrbook.AddedAreBlank | endpoint/mesh/addrbook.go:116-134 | adding peers connects, dials and shares nothing |
| Addrbook.AddressBook.constructor | endpoint/mesh/addrbook.go:27-43 | the book holds the stored peers by address, the last entry of an address wins |
| Addrbook.StoredHolds | endpoint/mesh/addrbook.go:27-43 | each stored address is held under itself, nothing else is, and self is only in the book if it was stored |
| Addrbook.AddressBook.AddConn | endpoint/mesh/addrbook.go:218-237 | self is ignored, an unknown peer gets an entry, a connection is set on it |
| Addrbook.AddressBook.GetOrAdd | endpoint/mesh/addrbook.go:218-237 | only a missing entry is made, every other one stays the same object |
| Addrbook.AddressBook.Connect | endpoint/mesh/addrbook.go:329-350 | that entry is connected as asked, and no other entry changes |
| Addrbook.AddressBook.AddPeers | endpoint/mesh/addrbook.go:116-134 | the loop adds the peers in order, without connections |
| Addrbook.AddressBook.SetSharedPeers | endpoint/mesh/addrbook.go:138-145 | the remote's entry remembers the peers as shared, if it exists |
| Addrbook.AddressBook.ActivePeers | endpoint/mesh/addrbook.go:149-181 | in any map order: exactly the active peers that are neither the remote nor shared with it |
| Addrbook.AddrbookEntry.constructor | endpoint/mesh/addrbook.go:270-297 | a new entry is not connected, not dialling and shared nothing |
| Addrbook.AddrbookEntry.SetConn | endpoint/mesh/addrbook.go:329-350 | a second connection is refused; any accepted change forgets what was shared |
| Addrbook.AddrbookEntry.SetSharedPeers | endpoint/mesh/addrbook.go:306-313 | the shared set grows by exactly the given peers |
| Backoff.ClosedForm | endpoint/mesh/addrbook.go:366-386 | in exact arithmetic the k-th consecutive retry waits min(Max, Default * (1 + m)^k) |
| Backoff.GrowsUntilMax | endpoint/mesh/addrbook.go:366-386 | with truncation the wait grows strictly until it is Max, stays there and never exceeds it |
| Backoff.SaturatesInTime | endpoint/mesh/addrbook.go:284-295 | Max is reached within a number of retries computed from the clamped settings |
| Backoff.DefaultAboveMax | endpoint/mesh/addrbook.go:376-386 | with Default above Max every retry waits Max |
| Backoff.TruncatedBelowExact | endpoint/mesh/addrbook.go:376-386 | truncation never lengthens a wait |
| Backoff.FailuresGrowBackoff | endpoint/mesh/addrbook.go:352-403 | after a successful dial and k failures the counters and the wait are those of k growths, capped by the attempts |
| Backoff.Entry.constructor | endpoint/mesh/addrbook.go:284-295 | settings satisfy the clamps and are kept where they already did, also when a stored count reads as negative |
| Backoff.Entry.Dial | endpoint/mesh/addrbook.go:352-403 | a connected entry is refused untouched, success resets, failure grows the wait until attempts run out |
| ContainerOrder.OrderIndependentIff | container.go:70-325 | for every run of calls, failing ones included: every reordering leaves a key the same working members if and only if some call for it is disputed by no endpoint and each endpoint is either always taken, and refuses whatever call some endpoint refuses, or never taken |
| ContainerOrder.WillingOrderIndependentIff | container.go:70-325 | where no endpoint refuses anything, order matters exactly when two routes of the key tell two added endpoints apart |
| ContainerOrder.DecidedLives | container.go:70-325 | under that condition the router is there in every order and repetition of the calls, and its working members are exactly the endpoints that are always taken and spared |
| ContainerOrder.MetIsSettled | container.go:112-325 | once an endpoint has met a router, no later call changes whether the router holds it, and none brings a closed member back |
| ContainerOrder.FailedCallClosesMember | container.go:249-260 | wherever a call for a known route is refused by an endpoint that joined after a working member, the member stays in the router with its object closed |
| ContainerOrder.FailedCallExample | container.go:249-260 | such a run of four calls, with an endpoint that refuses while it waits |
| ContainerOrder.SharedIdDependsOnOrder | container.go:112-325 | three calls with two hashed routes of one id whose working members depend on their order |
| Container.RunLives | container.go:70-325 | in every run of calls, an endpoint is a working member exactly when it was added and initialised, the route allows it, it did not join later while refusing the route, and no failing call for the key asked it before another endpoint refused |
| Container.CallKeepsLive | container.go:238-325 | a call ends a membership exactly when it is for that key, allows the endpoint, and fails at an endpoint asked after it |
| Container.CallAsks | container.go:238-304 | publishing asks the direct endpoints and the remote ones whose local path is a prefix of the route's, subscribing those whose remote path is; exactly they have an open object afterwards |
| Container.RunWires | container.go:112-325 | in every run of calls, failing ones included, a router's slice holds an endpoint exactly when it was added and initialised, the route allows it, and it did not join later while refusing the route; and holds it once |
| Container.RouterIsMade | container.go:238-325 | a router is there exactly when some call for its key was refused by nobody at the time, and keeps the route of the first such call |
| Container.EndpointsOfRun | container.go:70-91 | the container holds exactly the endpoints that were added and initialised, each once |
| Container.RefusedEndpointStaysOut | container.go:138-150 | two successful calls after which an allowed endpoint is not in the router |
| Container.Container.constructor | container.go:34-41 | a new container has no endpoints and no routers |
| Container.Container.Add | container.go:70-91 | a known endpoint or one that fails to initialise changes nothing, another is wired to every allowed router that it does not refuse |
| Container.Container.RegisterWithRouters | container.go:112-172 | in any map order each allowed router gains the endpoint unless it refuses, the others are untouched |
| Container.Container.Register | container.go:238-325 | fails exactly when an allowed endpoint refuses, and then closes the objects that the endpoints before it gave and changes no router; otherwise each allowed endpoint has given one, and a known route keeps its router |
| Container.Container.CloseObjects | container.go:223-229 | the loop closes exactly the given endpoints' objects for the key |
| Container.FilterIsAllowed | container.go:238-254 | the collected endpoints are exactly those that the prefix rule allows |
| Codec.StreamRoundTripIff | codec/codec.go:85-133 | the concatenation of encoded frames, cut into segments in any way, is read back as the same pairs with nothing left over exactly when every segment ends at the end of a preamble or a body |
| Codec.AllUnsplitIffCuts | codec/codec.go:85-110 | no read comes back short exactly when the offsets of the segment ends are ends of preambles or bodies |
| Codec.FilledBuffersReadBack | codec/codec.go:85-133 | a reader that fills its buffers always splits it back and leaves exactly what follows |
| Codec.AcceptedIsEncoded | codec/codec.go:85-133 | conversely, whatever is accepted is the encoding of the pairs returned, followed by the bytes left |
| Codec.RoundTripIff | codec/codec.go:46-133 | one frame is recovered exactly when its header is at most 2048 bytes and its total size fits 32 bits |
| Codec.FrameLayout | codec/codec.go:46-83 | where the magic bytes, the three sizes, the header and the message stand in a frame that fits |
| Codec.ReadFrameIff | codec/codec.go:85-110 | the next body is delivered exactly when it and its preamble are not cut, else end of input or too few bytes is reported |
| Codec.ReadErrorsIff | codec/codec.go:85-110 | on any input: which of wrong magic, end of input and too few bytes is reported |
| Codec.SplitIffBody | codec/codec.go:113-133 | splitting a body is the exact inverse of putting the two sized parts together, for headers of at most 2048 bytes |
| Codec.PreambleIff | codec/codec.go:60-62 | eight bytes pass the magic and size checks exactly when they are the ones written before that body |
| Codec.ValueOfWord | codec/codec.go:60-63 | a written 32-bit number is read back modulo 2^32 |
| Codec.ValueIsBigEndian | codec/codec.go:96-101 | the first of the four bytes is the most significant one |
| Codec.WordOfValue | codec/codec.go:96-101 | a 32-bit number read from four bytes is written back as those bytes |
| Codec.AppendMessageTo | codec/codec.go:46-83 | missing parts are refused, the header's marshalling error wins, else the frame is appended to what the buffer held |
| Codec.Reader.constructor | codec/codec.go:85-87 | a reader over given segments |
| Codec.Reader.Read | codec/codec.go:85-87 | one read takes a prefix of the input within one segment, and reports the end only when nothing is left |
| Codec.ReadMessage | codec/codec.go:85-110 | result and remaining input are those of the frame function, for every error |
| Codec.DecodeMessage | codec/codec.go:113-177 | the slicing steps compute the decode function, including the panic on fewer than four bytes |
| Codec.DecodeRoundTripIff | codec/codec.go:135-177 | a sent message is received as itself exactly when the known type, else the type of the interest in its route, reads it so |
| Codec.UndecodedIff | codec/codec.go:149-160 | without a known type: no-interest exactly when the route is not in the table, invalid type exactly when it is there without one, no message exactly when there is no table |
| Codec.BadHeaderIsMalformed | codec/codec.go:113-133 | a header that the library cannot read is reported and nothing else is decoded |
| Codec.DecodedIsBody | codec/codec.go:113-133 | only bodies of a header and a message decode |
| Stream.FirstUnkeptIsReturned | network/stream/stream.go:76-108 | on encoded frames, the first one that no handler keeps decides the result, earlier handlers ran once each in order, and exactly the bytes after it are left |
| Stream.ReadsPastKept | network/stream/stream.go:76-108 | frames kept by handlers are consumed in order with one call each, and reading goes on in the world they left |
| Stream.AllKeptEndsInput | network/stream/stream.go:76-108 | when handlers keep all, each has run once and the end of input is returned |
| Stream.LoopReturnsFirstUnkept | network/stream/stream.go:314-359 | the loop on encoded frames: the first frame that no handler keeps is returned with its handler's error, or its decoding error without header and message, and exactly the bytes after it are left |
| Stream.LoopEndsInput | network/stream/stream.go:314-318 | the loop reports the end of the input, with neither header nor message, when handlers have kept all |
| Stream.Stream.constructor | network/stream/stream.go:249-258 | a new stream has an empty route table |
| Stream.Stream.Read | network/stream/stream.go:314-359 | the loop makes the same handler calls, consumes the same bytes and returns with the same error as the recursive reader, with the same header and message exactly when the frame decoded, else with neither |
| Stream.Stream.AddRoute | network/stream/stream.go:298-304 | the table is extended route by route |
| Stream.Stream.DelRoute | network/stream/stream.go:306-312 | exactly the given ids are dropped |
| Stream.LookupIff | network/stream/stream.go:298-312 | after any calls of AddRoute and DelRoute an id is found with a type exactly when the last call that names it added it, last with that type |
| Stream.DeleteUndoesAddIff | network/stream/stream.go:298-312 | deleting what was added restores the table exactly when none of the ids was taken before |
| Stream.AddedLookup | network/stream/stream.go:298-304 | of several routes with one id the last added is found |
| Routes.AcceptedIff | route.go:127-164 | exactly the texts with one '@' between two non-empty parts, or without '@' and one '#' before a non-empty part, are accepted |
| Routes.AcceptedIsReprinted | route.go:127-196 | every accepted text is printed back unchanged, and path, prefix and hash are the parts around its separator |
| Routes.PlainRoundTripIff | route.go:81-149 | a constructed plain route is recovered, minus its type, exactly when the message name is non-empty and has no '@' |
| Routes.HashedRoundTrip | route.go:100-164 | every constructed hashed route is recovered, minus its type |
| Routes.NewRouteIff | route.go:81-93 | a plain route is made exactly for a non-empty path without separators, and what its id and path then are |
| Routes.NewHashedRouteIff | route.go:100-125 | a hashed route is made exactly for a non-empty prefix of the path without separators; which error is returned else; its id encodes the digest of name and path |
| Routes.HashedIdsEqualIff | route.go:116-119 | hashed routes share an id exactly when the digests of their names and paths are equal, whatever their prefixes |
| Routes.PlainAndHashedNeverCollide | route.go:166-192 | plain and hashed routes never have equal ids |
| Routes.PlainIdsAreInjective | route.go:72-93 | plain ids are equal exactly when message name and path are |
| Routes.HashedIdIsRejected | route.go:151-192 | the id of a hashed route, which is what gets advertised, is rejected by the parser |
| Routes.EncodingAvoids | route.go:116-119 | the alphabet of section 4 of RFC 4648 yields neither '@' nor '#' |
| Routes.StandardVectors | route.go:116-119 | the encoding agrees with test vectors of section 10 of RFC 4648, without padding |
| Routes.LettersRunOn | route.go:116-119 | the alphabet runs through capitals, small letters and digits and ends with '+' and '/' |
| Routes.EncodingIsInjective | route.go:116-119 | different digests have different encodings |

## Left out

- Backoff.Entry.Dial: the product of wait and multiplier is exact and then truncated; rounding of 64-bit floating point, overflow of 64-bit durations and the time of the last success are not modelled.
- CallerRuns.RepliesMatchCalls: stated for nonces below 2^64, as is every run property of the correlation table; what a wrapped nonce does is `CallerRuns.RegisterDistinctIff`.
- FanOut.Send: the members' goroutines are one pass over their answers, so that their relative timing is not modelled.
- Stream.Stream.Read: finite inputs, and handlers that do not read from the stream themselves.
- ContainerOrder.OrderIndependentIff: about working membership; the order of members, which no operation depends on, follows the calls.
- Container.Container.Register: an object that is closed is gone before the next call; what a remote endpoint then tells its peer is in `RemoteLink`.
- Container.RunWires: runs in which no router closes; one that closes with its last user leaves the container, and the next call makes a new one.
- Container.Container.Add: the wrapper error on a closed router is merged with the refusal of an endpoint.
- Linker.Linker.RemoveInterest: closing the link after the lock is released is part of the removal step, since all it does is start the two callbacks, which may run at any later time.
- RemoteEndpoint.Endpoint.SendLocal: a send that blocks on a full queue is modelled by its two ends, room found or context over.
- RemoteEndpoint.Endpoint.HandleMsg: data of remote intents has no type to check; the link a message passes through is the one of its route; the goroutine delays of that link are in `LinkTable`.
- RemoteLink.DrainedLinkAgrees: close callbacks run before the next message, and no time-to-live expires. Of the errors in reading, only data that does not decode is modelled, and an end may close at any time after the other has.
- Gossip.SchemeMismatchStops: an end closes on its own handler's error; that the other end then notices is not modelled.
- Handshake.Handshaker.Share: `isSeed` is set on every handshaker, so sharing is unconditional.
- InterestRouter.Router.RouteMsg: a context that ends in the middle of the loop and stops the broadcast is not modelled.
- RemoteFlow.AcceptedIsAccountedFor: what a closed local interest still has in its channel stays readable in the code and counts as lost here.
- Codec.Reader.Read: readers that return bytes together with the end of input, whose last frame `ReadMessage` drops, are not modelled.
- Codec.DecodeMessage: the marshalling library is a parameter that maps bytes to headers and messages; reception times are not modelled.
- The nonce that `messageHandler` tracks, its Result replies, pings and latency: bookkeeping that no registration or data step reads.
- SHA-1 is an arbitrary function to 20 bytes, and peers are records of scheme, address and path: parsing of URLs is not modelled.
- Clocks, tickers, time-to-live watchdogs, the monitor and its dial queue.
- Closing of whole Linkers, Containers and endpoints, `Container.Remove`, and `contextRW` cancellation in the streams: shutdown.
- Go's random choice among ready cases after a cancellation, and nil receives from closed channels.
- IntentRouter wrappers and notifications: the same slice handling as in `InterestRouter` and `FanOut`.
- `Router` in dndm.go: the shape of Container with fewer rules.
- `route.Equal` in `Linker.link` always holds, since both objects were looked up by the route's id.
