# QuickIO, modelled in Dafny

QuickIO is an event server: clients connect over raw TCP, WebSockets or HTTP long polling,
send events to paths, subscribe to events, and answer callbacks. This project models the parts
of it whose correctness does not show from reading one function, and proves what they promise
over all inputs, all interleavings and all runs.

| part | files |
|---|---|
| HTTP long polling: sockets that take turns being the poller of a surrogate | `PollingModel`, `PollingLinks`, `PollingRoles`, `PollingRuns`, `PollingEffects`, `PollingDisturbed`, `HttpPolling` |
| the reference-counted table of subscriptions, action by action, and as a whole | `SubTable`, `SubAtomic` |
| subscriptions of clients, verdicts that come later, and the replies to events | `SubscriptionModel`, `SubscriptionInvariants`, `EventReplies`, `SubscriptionEffects`, `Subscriptions` |
| framing: parsing in place, the read loop, printing (`Options` and `Bytes` are used elsewhere too) | `Options`, `Bytes`, `Frames`, `Streams`, `FrameLaws`, `ReadBuffer`, `FramePrinters` |
| paths: cleaning in place, and the trie that finds who answers | `CleanPaths`, `EventTable`, `EventTrie` |
| callbacks a client may answer | `CallbackModel`, `Callbacks` |
| heartbeats | `Heartbeats` |

Where the program updates objects or buffers, the model does too: classes and methods
(`HttpPolling.Server`, `Subscriptions.Server`, `ReadBuffer.Connection`, `EventTrie.Trie`,
`Callbacks.Client`, `Heartbeats.Client`, `CleanPaths.CleanPath`). Each method is tied by its
postcondition to a function on values, and the lemmas about runs are about those functions.
A run is a sequence of states and steps, each step allowed by an `Enabled` predicate that states
what is assumed of the surroundings.

What is proved, in one sentence each:

- **Long polling.** While a surrogate is open, the bodies of the responses that carried its
  messages, followed by its buffer, are exactly the messages sent to it, in order, however sends
  interleave with bodies that are coming in (`PollingRuns.NoMessageLost`). Requests and responses
  of a socket take turns (`OneResponseEach`); no two surrogates share a poller
  (`PollersAreExclusive`); the assertion in `_surr_send` holds (`NewPollerAnswers`, and it is a
  proof obligation of `HttpPolling.Server.SurrSend`); every reference taken by the layer is a
  pointer or is held on the stack, so none is given back twice (`HttpPolling.Server.Valid`).
  Messages and links rest on nothing answering a socket inside its own body, which a heartbeat or
  a close may do. Over all runs in which that may happen, `LostExactlyIf` and `LinkedExactlyIf`
  say exactly when messages are lost and links go wrong, `OneOrTheOther` that one of the two
  befalls every such body whose ends are both open, and `PollingDisturbed` has runs for each.
  A message reaches a waiting poller at once: a surrogate holds messages back exactly while a body
  is coming in for it (`PollingEffects.IncomingExactly`, `PollerGetsMessage`); and `PollingEffects`
  says of every entry point which responses it writes and whom it closes.
- **Subscription table.** In every interleaving of lookups, compare-and-swaps, creations,
  decrements and removals, no action touches freed memory, a count never leaves 0, and at most
  one subscription per key has references; and from outside every action is a whole lookup, a
  whole reference taken or given back, or nothing (`SubAtomic.ActsWhole`), which is how the next
  part uses the table.
- **Subscriptions and replies.** Subscriber lists, client entries, reference counts, the fair
  pool and off-calls agree after every operation, and every event with a callback id gets
  exactly one reply, now or when the postponed verdict arrives. `SubscriptionEffects` says which:
  a client is told 200 exactly when it is active afterwards.
- **Framing.** The read loop, which rewrites its buffer in place, routes the same events and ends
  in the same state however the stream is cut into reads; the wide exclusive or, which writes
  behind the position it reads at, is the byte-wise one of section 5.3 of RFC 6455; what is
  printed is what is parsed, and what is parsed and what is refused is said in bytes and characters
  (`FrameLaws`), with the examples of section 5.7 of RFC 6455.
- **Paths.** Cleaning in place keeps the segments and nothing else; the trie refines a plain map,
  and the longest handler above a path answers exactly when nothing nearer shadows it.
- **Callbacks.** A handle runs the live callback it was issued for, at most once; handles repeat
  only in the same slot and after a multiple of 65535 creations; data is freed exactly once.
- **Heartbeats.** No client waits longer than 61 seconds, a silent one gets six challenges and is
  closed between 960 and 970 seconds, a poll is answered within 55.

## Model

| member | source | states |
|---|---|---|
| `PollingRuns.NoMessageLost` | src/protocols_http.c:308-372 | over all runs, while a surrogate is open, the bodies of responses that carried its messages, then its write buffer, are the sequence of messages sent to it |
| `PollingRuns.OneResponseEach` | src/protocols_http.c:220-264 | over all runs, answers inside bodies included, requests and responses of every socket alternate, and one response is owed exactly while `in_request` is set |
| `PollingRuns.PollersAreExclusive` | src/protocols_http.c:182-306 | over all runs, the poller of an open surrogate points back, is in a request and polls for no other surrogate; a surrogate whose close handler ran has none |
| `PollingRuns.NewPollerAnswers` | src/protocols_http.c:322-328 | at the end of a body the old poller is another socket, and after it was offered the messages the new poller is still in its request, so the assertion holds |
| `PollingRuns.EndBodyConserves` | src/protocols_http.c:308-331 | whoever has been answered meanwhile, the end of a body keeps the messages of its surrogate if and only if none is buffered, the old poller can answer, or the new one can |
| `PollingRuns.LostExactlyIf` | src/protocols_http.c:308-372 | over all runs, answers inside bodies included, the messages of an open surrogate are all delivered or buffered if and only if no body of it ended with messages that nobody was left to take |
| `PollingRuns.LinkedExactlyIf` | src/protocols_http.c:273-306 | over the same runs, the links have been in order all along if and only if no body ended by making a poller of a socket that had lost its request |
| `PollingRuns.OneOrTheOther` | src/protocols_http.c:356-372 | a body that ends after its socket was answered, with both ends open, keeps the messages if and only if it breaks the links |
| `PollingEffects.IncomingExactly` | src/protocols_http.c:341-358 | over all runs, `incoming` of a surrogate is set exactly when the last body that began or ended for it began; a body that is given up leaves it set |
| `PollingEffects.PollerGetsMessage` | src/protocols_http.c:786-794 | over all runs, a message sent while no body is coming in and the poller is in a request is the whole body of a response to that poller, and the buffer stays; any other message is appended to the buffer |
| `PollingEffects.SendDoes` | src/protocols_http.c:778-797 | the same for one step, with what becomes of the poller and of a write that the library drops |
| `PollingEffects.BodyDoes` | src/protocols_http.c:442-471 | a POST for a surrogate begins a body and sets `incoming`; every other request is answered with 501, 200, 405 or 403, in this order of reasons |
| `PollingEffects.EndWaits` | src/protocols_http.c:356-372 | with both ends open and nothing left to deliver here, the socket becomes the poller; the old one is answered with the messages, or with an empty 200 |
| `PollingEffects.EndAnswers` | src/protocols_http.c:322-327 | if the old poller cannot answer, the messages are the body of a 200 to the socket of the body |
| `PollingEffects.EndCloses` | src/protocols_http.c:298-305 | if either end is closing, both sockets are sent away with a 403, but for an old poller that took the messages |
| `PollingEffects.FailDoes` | src/protocols_http.c:350-353 | a malformed event is answered with a 400, the surrogate is no longer open, and `incoming` and the buffer stay |
| `PollingEffects.HeadersBegin` | src/protocols_http.c:676-692 | a request that is still open is answered with a 200 before the new one begins, and a socket that is not kept alive is closed by that |
| `PollingEffects.HeadersDo` | src/protocols_http.c:473-540 | what the headers decide: close, upgrade, refusal, or linking to a surrogate if both are open |
| `PollingEffects.HeartbeatDoes` | src/protocols_http.c:734-757 | a linked socket is answered with an empty 200, an unlinked client is closed, a surrogate with a poller is left alone |
| `PollingEffects.SurrogateCloses` | src/protocols_http.c:801-815 | the poller is sent away with a 403, and the surrogate is linked to nothing |
| `PollingEffects.SocketCloses` | src/protocols_http.c:816-837 | an open request is answered with 400, 411 or 413 by the reason of the close, and the surrogate is closed |
| `PollingDisturbed.MessageLost` | src/protocols_http.c:734-757 | a run from the start in which a heartbeat inside a body, and a message after it, lose that message |
| `PollingDisturbed.OldPollerIsNewPoller` | src/protocols_http.c:275-279 | a run from the start in which a heartbeat inside a body leaves a poller without a request, and the next request on it has the same socket as old and new poller |
| `PollingRuns.ConservationKept` | src/protocols_http.c:778-797 | every step, answers inside bodies included, keeps delivered ++ buffered == sent for every open surrogate, unless it is the end of a body that nobody is left to answer; and what is lost stays lost |
| `PollingRuns.BalanceKept` | src/protocols_http.c:676-692 | every step, answers inside bodies included, keeps the alternation of requests and responses |
| `PollingRuns.RunKeepsLinks` | src/protocols_http.c:182-306 | the link invariant holds in every reachable state |
| `PollingLinks.LinksKept` | src/protocols_http.c:182-306 | the link invariant (poller points back and is in a request; nothing buffered behind a live poller unless a body is coming in; closed clients are linked to nothing) is kept by every step, if nothing answers a socket inside its body |
| `PollingLinks.LinkedKept` | src/protocols_http.c:182-306 | without that assumption every step keeps the links in order, but for the end of a body whose socket was answered meanwhile, which does if and only if it makes no poller of that socket |
| `PollingLinks.LinksRestored` | src/protocols_http.c:356-372 | after such a body the link invariant holds in full if and only if the body made no poller of its socket |
| `PollingRoles.SoundKept` | src/protocols_http.c:182-372 | every step, with links broken or not, keeps who may point at whom and that nothing is buffered behind a poller unless a body is coming in |
| `PollingLinks.ResponseKeeps` | src/protocols_http.c:220-264 | a response cuts both ends of a link and keeps the invariant for all other clients, also if another thread answered first |
| `PollingLinks.ReplaceKeeps` | src/protocols_http.c:273-306 | replacing a poller restores the invariant for a new poller that is not linked yet |
| `PollingLinks.SurrSendKeeps` | src/protocols_http.c:308-331 | flushing to the old or the new poller restores the invariant |
| `PollingLinks.EndBodyKeeps` | src/protocols_http.c:356-372 | the end of a body keeps the invariant, if whoever becomes the poller still has its request |
| `PollingLinks.FailBodyKeeps` | src/protocols_http.c:350-353 | giving a body up keeps the invariant, with `incoming` left set on a surrogate that is closing |
| `PollingLinks.BodyKeeps` | src/protocols_http.c:442-471 | what a body starts with keeps the invariant, in each of its five outcomes |
| `PollingLinks.SendKeeps` | src/protocols_http.c:778-797 | a message sent from any thread keeps the invariant |
| `PollingLinks.HeartbeatKeeps` | src/protocols_http.c:734-757 | a heartbeat that is due keeps the invariant |
| `PollingLinks.HeadersKeep` | src/protocols_http.c:503-540 | new headers answer the request before them, and keep the invariant |
| `PollingLinks.SocketHandlerKeeps` | src/protocols_http.c:816-837 | the close handler of a socket keeps the invariant, and the surrogate it was linked to is no longer open |
| `PollingLinks.SurrogateHandlerKeeps` | src/protocols_http.c:801-815 | the close handler of a surrogate keeps the invariant and leaves nothing linked |
| `HttpPolling.ResponseInSections` | src/protocols_http.c:232-256 | the two critical sections of a response amount to one response step |
| `HttpPolling.PointerMoves` | src/protocols_http.c:168-180 | redirecting `http.client` moves exactly one pointer from the old target to the new one |
| `HttpPolling.BodyPoints` | src/protocols_http.c:453-468 | a socket inside its body points to the surrogate of the body if and only if its close handler has not run |
| `HttpPolling.HandlerLetsGo` | src/protocols_http.c:816-836 | that handler takes this pointer away, and no other one to the surrogate |
| `HttpPolling.Server.BodyHasReference` | src/protocols_http.c:453-468 | the surrogate of a body has a reference of this layer if and only if the close handler of its socket has not run or another socket is linked to it |
| `HttpPolling.Server.StealClient` | src/protocols_http.c:168-180 | the pointer is taken, and its reference passes to the caller |
| `HttpPolling.Server.SurrReleaseClient` | src/protocols_http.c:182-204 | the far end of a link is cut if it still points back, and its reference given back once |
| `HttpPolling.Server.WriteResponse` | src/protocols_http.c:232-253 | the response is written exactly if the request is open, which it then no longer is |
| `HttpPolling.Server.SendResponse` | src/protocols_http.c:220-264 | performs the response step on the objects and keeps every reference accounted for |
| `HttpPolling.Server.SwapPoller` | src/protocols_http.c:284-296 | the locked part of a replacement: who the old poller was, whether either side is closing, and the new link |
| `HttpPolling.Server.SurrReplace` | src/protocols_http.c:273-306 | performs the replacement step with all references accounted for |
| `HttpPolling.Server.SurrSend` | src/protocols_http.c:308-331 | performs the flush step; that the new poller takes the response if the old one does not is proved at the assertion |
| `HttpPolling.Server.RouteHeaders` | src/protocols_http.c:661-707 | performs the headers step and keeps links and references in order |
| `HttpPolling.Server.Follow` | src/protocols_http.c:473-540 | performs what the headers ask for: close, upgrade, refusal, or linking to a surrogate with one more reference |
| `HttpPolling.Server.RouteBody` | src/protocols_http.c:442-471 | performs the body step: 501, iframe, 405, 403, or `incoming` set on the surrogate |
| `HttpPolling.Server.FinishBody` | src/protocols_http.c:356-372 | performs the end of a body, wherever somebody is left to take its messages: flush, then replace or send; the assertion holds |
| `HttpPolling.Server.AbandonBody` | src/protocols_http.c:350-353 | a malformed event closes the surrogate and answers the socket with a 400 |
| `HttpPolling.Server.Send` | src/protocols_http.c:778-797 | performs the send step: to the poller if there is one and no body is coming in, else to the buffer |
| `HttpPolling.Server.Beat` | src/protocols_http.c:734-757 | performs the heartbeat step on a client whose threshold has passed, inside its body or not |
| `HttpPolling.Server.HandleClose` | src/protocols_http.c:799-838 | performs the close-handler step; references stolen are given back once on every path |
| `SubTable.InvKept` | src/sub.c:15-107 | every atomic action of every thread keeps: referenced subscriptions are the table entry of their key, counts equal handles, each key is owned by its own entry, one thread takes a dead subscription apart |
| `SubTable.HandlesCounted` | src/sub.c:32-107 | in every reachable state the count of a subscription is the number of handles on it, and one with references is what the table has for its key |
| `SubTable.NothingFreedIsTouched` | src/sub.c:81-107 | in every reachable state no thread is about to read, write or free memory that was freed, keys compared by lookups included |
| `SubTable.ZeroIsFinal` | src/atomic.h:24-45 | no action raises a count that is 0 |
| `SubTable.FreedOnce` | src/sub.c:101-103 | two threads never free the same subscription |
| `SubTable.NoDeadlock` | src/sub.c:44-99 | as long as a thread is inside an operation, some thread can take its next action |
| `SubTable.SwapKeeps` | src/atomic.h:36-41 | a compare-and-swap keeps the invariant, whether it succeeds or has to try again |
| `SubTable.CreateKeeps` | src/sub.c:53-67 | creating under the write lock keeps the invariant, also over a dead entry of the same key |
| `SubTable.RemoveKeeps` | src/sub.c:89-99 | removing the entry only if it is still one's own keeps the invariant |
| `SubTable.UnrefKeeps` | src/sub.c:81-87 | the unlocked decrement keeps the invariant |
| `SubTable.RefKeeps` | src/sub.c:75-79 | a holder of a handle may take another |
| `SubTable.FreeKeeps` | src/sub.c:101-103 | freeing what nobody refers to keeps the invariant |
| `SubAtomic.ActsWhole` | src/sub.c:15-107 | from outside, every action of every thread is a whole lookup, with the key and the purpose it has, a whole reference taken or given back, or nothing, and a lookup returns what the whole lookup returns |
| `SubAtomic.CallsGetWhatTheyAskFor` | src/sub.c:32-73 | over all runs, a lookup that takes effect returns a subscription of the key it was called with, and one more handle on it, if and only if there is one or it was called to create one |
| `SubAtomic.LooksForTheCall` | src/sub.c:32-73 | over all runs, a thread that is looking something up does so with the key and the purpose of its last call |
| `SubAtomic.RunsWhole` | src/sub.c:15-107 | hence every run of the table is a run of whole operations |
| `SubAtomic.TakesEffectOnce` | src/sub.c:32-73 | every lookup takes effect once, after its call and before its return |
| `SubscriptionInvariants.AddKeeps` | src/client.c:260-303 | adding keeps entries, members, references, pool use and off-calls in agreement |
| `SubscriptionInvariants.AcceptKeeps` | src/client.c:305-344 | accepting makes the entry active, or cleans it up if tombstoned or the list is full, and keeps the agreement |
| `SubscriptionInvariants.RejectKeeps` | src/client.c:346-351 | rejecting keeps the agreement |
| `SubscriptionInvariants.RemoveKeeps` | src/client.c:81-107 | removing keeps the agreement; a pending entry is only tombstoned |
| `SubscriptionInvariants.CleanupKeeps` | src/client.c:59-79 | taking an entry apart keeps the agreement |
| `SubscriptionInvariants.ReleaseKeeps` | src/sub.c:81-107 | giving back a held reference keeps the agreement, and frees only what nothing refers to |
| `SubscriptionInvariants.OnKeeps` | src/evs.c:232-283 | a subscription request, verdict included or put off, keeps the agreement |
| `SubscriptionInvariants.DecideKeeps` | src/evs.c:380-410 | a verdict that comes later keeps the agreement, whatever happened to the entry meanwhile |
| `SubscriptionInvariants.OffKeeps` | src/evs.c:446-456 | giving a subscription up keeps the agreement |
| `EventReplies.MembershipAgrees` | src/client.c:245-258 | over all runs: a tombstone implies pending; subscriber, non-pending entry and `client_sub_active` are the same; off-calls are created entries less live ones; closed clients have no entries |
| `EventReplies.ReferencesAgree` | src/client.c:24-79 | over all runs: references equal entries plus postponed requests plus handles held elsewhere, a subscription is in the table exactly while it has some, and pool use equals the number of entries |
| `EventReplies.ExactlyOneReply` | src/evs.c:188-230 | over all runs: events with a callback id equal replies sent plus verdicts postponed plus replies promised by handlers, per client and id |
| `EventReplies.HandlersAreHonest` | src/evs_qio.c:13-115 | the built-in handlers keep the contract that the status tells whether a reply is still due |
| `EventReplies.LedgerKept` | src/evs.c:188-283 | every step keeps the ledger of replies |
| `EventReplies.SubscriptionsKept` | src/evs.c:232-283 | every step of a run keeps the agreement |
| `SubscriptionEffects.AddDoes` | src/client.c:260-303 | asking again takes a withdrawal back, asking anew waits for a verdict, and a closing client or a full pool is refused; no other entry changes |
| `SubscriptionEffects.AcceptDoes` | src/client.c:322-343 | an accepted entry is active afterwards if and only if it was not withdrawn and the list had room, and otherwise it is gone |
| `SubscriptionEffects.AcceptedIsMember` | src/client.c:322-335 | and it is among those that broadcasts go to under the same condition |
| `SubscriptionEffects.RejectDoes` | src/client.c:346-351 | a rejected entry is gone, whatever state it was in |
| `SubscriptionEffects.RemoveDoes` | src/client.c:96-101 | an entry that waits for its verdict is withdrawn, and any other one goes |
| `SubscriptionEffects.OnAgain` | src/evs.c:252-265 | the state and the code after a request that finds an entry, or its client closing |
| `SubscriptionEffects.OnAnew` | src/evs.c:267-275 | the state and the code after a request that is settled favourably at once |
| `SubscriptionEffects.OnPutOff` | src/evs.c:267-278 | the state after a request whose verdict is put off: the entry waits, and the callback id is kept |
| `SubscriptionEffects.OnRefused` | src/evs.c:397-409 | the state and the code after a request that the handler turns down |
| `SubscriptionEffects.OkMeansActive` | src/evs.c:232-283 | a client that is not closing is told 200 if and only if it is active afterwards |
| `SubscriptionEffects.LateVerdict` | src/evs.c:380-410 | after a late verdict the client is active if and only if it was favourable, the entry was there and not withdrawn, and the list had room; with the code |
| `SubscriptionEffects.LateRefusal` | src/evs.c:397-405 | the code of a late refusal, by whether the event handles children |
| `SubscriptionEffects.OffDoes` | src/evs.c:446-456 | giving up withdraws an entry that waits and removes any other |
| `SubscriptionEffects.RepliedNumbers` | src/evs.c:217-230 | the numbers of all replies to each kind of event |
| `EventReplies.CleanupAllKeeps` | src/client.c:450-471 | closing a client in any order of its entries keeps the agreement and leaves none |
| `Subscriptions.Server.SubGet` | src/sub.c:32-73 | finds or creates a subscription, with a reference for the caller |
| `Subscriptions.Server.SubUnref` | src/sub.c:81-107 | gives a reference back; the last one removes the subscription |
| `Subscriptions.Server.SubCleanup` | src/client.c:59-79 | performs the clean-up of an entry and keeps the agreement |
| `Subscriptions.Server.SubRemove` | src/client.c:81-107 | marks or removes, and tells whether it removed |
| `Subscriptions.Server.ClientSubAdd` | src/client.c:260-303 | performs the addition, with its verdict |
| `Subscriptions.Server.ClientSubAccept` | src/client.c:305-344 | performs the acceptance, with its verdict |
| `Subscriptions.Server.ClientClosed` | src/client.c:450-471 | the loop gives up every entry of the client once, and keeps the agreement |
| `Subscriptions.Server.EvsOnCb` | src/evs.c:380-410 | performs the verdict, and tells the code of the reply |
| `Subscriptions.Server.EvsOn` | src/evs.c:232-283 | performs the request; a code for an immediate reply, or none if the verdict is put off |
| `Subscriptions.Server.EvsOff` | src/evs.c:446-456 | performs the removal, and gives its reference back |
| `Subscriptions.Server.EvsRoute` | src/evs.c:188-230 | exactly one reply now if none is to come later, and none now otherwise |
| `Streams.SplitInvariance` | src/protocols.c:148-185 | on either protocol, two ways to cut the same stream into reads route the same events and end closed for the same reason or with the same bytes left |
| `Streams.ProtocolsAreParsers` | src/protocols_raw.c:69-100 | both parsers take something and no more than there is, and do not change their mind when more bytes come |
| `Streams.RunThenMore` | src/protocols.c:154-184 | routing a buffer and then more is routing all of it at once |
| `Frames.DecodeStable` | src/protocols_rfc6455.c:83-131 | once `_decode` has decided, bytes that follow change nothing |
| `Frames.RawStable` | src/protocols_raw.c:78-89 | once the raw parser has decided, bytes that follow change nothing |
| `Streams.RawRoundTrip` | src/protocols_raw.c:109-146 | any list of printable events, printed and concatenated, is routed as that list of path+extra, id and json, with nothing left |
| `Streams.HandleFormat` | src/protocols_raw.c:176-208 | parsing the text of an event gives back path+extra, the 64-bit id and the json |
| `FrameLaws.HandleExactly` | src/protocols_raw.c:176-208 | a text is an event if and only if it is a path without a colon, a colon, a decimal number of 64 bits, an equals sign and the rest, and these are its parts |
| `FrameLaws.RawFrameEnds` | src/protocols_raw.c:78-99 | nothing is decided before the last byte of a raw frame is there, and its text decides then |
| `FrameLaws.RawTooLong` | src/protocols_raw.c:82-85 | a length that overflows 64 bits together with its own 8 bytes is refused |
| `FrameLaws.MalformedCloses` | src/protocols.c:154-181 | the events before a malformed frame are routed, and the client is closed for its format |
| `FrameLaws.Characters` | src/protocols_raw.c:184-194 | colon, equals sign and digits are the characters of these names |
| `Bytes.DigitsArePlaces` | src/protocols_raw.c:141 | what is printed of a number are its decimal places, the highest first |
| `Bytes.BigEndian2` | src/protocols_rfc6455.c:113 | 16-bit lengths are big-endian |
| `Bytes.BigEndian8` | src/protocols_raw.c:82 | 64-bit lengths are big-endian |
| `Bytes.XorIsExclusive` | src/protocols_rfc6455.c:154-168 | a bit of an exclusive or is set if and only if it is set in one operand and not in the other |
| `FrameLaws.MaskedHello` | src/protocols_rfc6455.c:54-178 | the masked example of section 5.7 of RFC 6455 decodes to `Hello` |
| `FrameLaws.UnmaskedHello` | src/protocols_rfc6455.c:253-285 | the unmasked example of that section, and its headers for 256 bytes and 64 KiB, are what is printed |
| `FrameLaws.WsFrameEnds` | src/protocols_rfc6455.c:88-177 | nothing is decided before the last byte of a masked text frame is there, and the validator decides then |
| `FrameLaws.WsRefusals` | src/protocols_rfc6455.c:83-100 | close frames, other opcodes and unmasked frames close the client, each for its reason and with as few bytes as stated |
| `FrameLaws.ClientFrame` | src/protocols_rfc6455.c:102-123 | the masked frames that are decoded are, in their shortest form, those of a reader that follows section 5.2 of RFC 6455 |
| `Streams.DecodeMasked` | src/protocols_rfc6455.c:102-177 | any masked text frame of valid text, in any of the length forms it fits, decodes to its payload and takes header plus payload |
| `Streams.WsRoundTrip` | src/protocols_rfc6455.c:225-243 | any list of events in masked frames, with any keys and length forms, is routed as that list |
| `Streams.ServerFrame` | src/protocols_rfc6455.c:253-285 | a reader that follows section 5.2 of RFC 6455, shortest length form included, finds one final unmasked text frame in what is printed |
| `Streams.ServerRoundTrip` | src/protocols_rfc6455.c:253-285 | such a reader gets any list of texts back from the concatenated frames |
| `Streams.ServerStreamUnique` | src/protocols_rfc6455.c:253-285 | no two lists of texts print to the same stream |
| `FramePrinters.RawFormat` | src/protocols_raw.c:130-146 | the text appended piece by piece is the one the parser takes apart again |
| `FramePrinters.RawFrameOf` | src/protocols_raw.c:109-128 | the frame parses to the event that went in, whatever follows it |
| `FramePrinters.WsFrameOf` | src/protocols_rfc6455.c:253-285 | the frame is one final unmasked text frame under section 5.2 of RFC 6455 |
| `ReadBuffer.DecodeWord` | src/protocols_rfc6455.c:154-168 | reading a word and writing it 6, 8 or 14 bytes back is one more step of the byte-wise decoding of the untouched payload |
| `ReadBuffer.Mask128` | src/protocols_rfc6455.c:150-152 | four copies of the key, whole or halved, are the key at any multiple of 4 |
| `ReadBuffer.Connection.XorPayload` | src/protocols_rfc6455.c:150-168 | the three loops put payload octet k combined with key octet k modulo 4 at the start of the frame, for every length, and change nothing else |
| `ReadBuffer.Connection.XorWide` | src/protocols_rfc6455.c:154-158 | the 16-byte loop decodes the largest multiple of 16 |
| `ReadBuffer.Connection.XorHalf` | src/protocols_rfc6455.c:160-164 | the 8-byte loop goes on to the largest multiple of 8 |
| `ReadBuffer.Connection.ReadHeader` | src/protocols_rfc6455.c:102-123 | length and key in each of the three forms, or not enough bytes |
| `ReadBuffer.Connection.DecodeFrame` | src/protocols_rfc6455.c:54-178 | a partial frame is untouched; a whole one becomes its payload and a NUL, nothing outside the frame changes, and the error cases close for their reasons |
| `ReadBuffer.Connection.RawHandle` | src/protocols_raw.c:176-208 | routes the event that the text denotes, or closes; changes nothing outside the text |
| `ReadBuffer.Connection.RawRoute` | src/protocols_raw.c:69-100 | does what the raw parser says of the rest of the buffer, and leaves what follows the frame alone |
| `ReadBuffer.Connection.WsRoute` | src/protocols_rfc6455.c:225-243 | does what the WebSocket parser says of the rest of the buffer, and leaves what follows the frame alone |
| `ReadBuffer.Connection.Route` | src/protocols.c:148-185 | the loop ends, routes exactly the events of the buffer, leaves the rest, and has the timeout set exactly if some is left |
| `ReadBuffer.Connection.Read` | src/protocols.c:199-217 | one read takes the outcome so far to the outcome of the stream so far |
| `CleanPaths.CleanPath` | src/evs.c:132-160 | in place, the C string becomes the clean path and its NUL, no other byte changes, and its length is returned |
| `CleanPaths.SkipSlashes` | src/evs.c:143-147 | the inner loop skips exactly what would not be written after a slash |
| `CleanPaths.CleanJoins` | src/evs.c:132-160 | the clean path is the segments of the allowed bytes, with one slash between them and one in front if there was one |
| `CleanPaths.CleanIsClean` | src/evs.c:39-52 | a clean path has allowed bytes only, no two slashes together and none at the end |
| `CleanPaths.CleanChangesNothingMore` | src/evs.c:132-160 | cleaning changes a path if and only if it is not clean; cleaning twice is cleaning once |
| `CleanPaths.LeavesPathsAlone` | src/evs.c:39-52 | cleaning leaves a path as it is if and only if it consists of letters, digits, `-`, `_` and single slashes, with none at the end |
| `CleanPaths.KeepsExactly` | src/evs.c:137-150 | of every byte, cleaning removes all or none, and none if and only if it is one of these characters; slashes aside |
| `CleanPaths.CleanIsIndexable` | src/evs_query.c:25-29 | every byte of a clean path has one of the 78 child slots |
| `CleanPaths.SegmentsConcat` | src/evs.c:169-172 | parts joined by a slash have their segments one after the other |
| `CleanPaths.MadeOfSegments` | src/evs.c:162-181 | a path made of three parts is empty or a clean path from the root, and its segments are those of its parts |
| `CleanPaths.MakePath` | src/evs.c:162-181 | computes that path through the in-place cleaner |
| `EventTable.AnswersAreCandidates` | src/evs_query.c:136-153 | an answer is the path's own event, or one that handles children and is followed by a slash; a registered path is always answered by its own event |
| `EventTable.CandidateAnswers` | src/evs_query.c:118-147 | such a candidate answers if and only if the path leads to no other registered path and no longer prefix handles children |
| `EventTable.NoAnswer` | src/evs_query.c:136-153 | a path is unanswered if and only if every candidate is shadowed, and an answer is the longest candidate |
| `EventTable.AnotherTest` | test/test_evs.c:144-145 | a concrete table and path: a candidate exists and yet nothing answers |
| `EventTable.NearerShadows` | test/test_evs.c:144-145 | the general form of that example |
| `EventTable.AnswerSplitsPath` | src/evs_query.c:142-150 | the path of the event and what is left of the query are the query again, up to one leading slash |
| `EventTable.LeadingSlashIsOptional` | src/evs_query.c:114-116 | one leading slash makes no difference |
| `EventTable.InsertKeeps` | src/evs_query.c:58-103 | inserting keeps the answers of all registered paths, and the new path is answered by the new event |
| `EventTable.InsertIsLocal` | src/evs_query.c:58-103 | inserting changes answers only for prefixes of the new path and, if it handles children, for paths that continue it |
| `EventTrie.TreeMore` | src/evs_query.c:84-88 | adding a missing child keeps the nodes a tree that is indexed by paths |
| `EventTrie.RefinesMore` | src/evs_query.c:96-102 | a set event, or a taken path, leaves the trie a refinement of the table |
| `EventTrie.Trie.InsideHasNode` | src/evs_query.c:80-92 | there is a node for a path exactly if some registered path continues it |
| `EventTrie.Trie.Insert` | src/evs_query.c:58-103 | performs the insertion of the table, and fails exactly for empty and taken paths |
| `EventTrie.Trie.Walk` | src/evs_query.c:118-134 | follows a path to its node, or falls off with the deepest node passed that handles children |
| `EventTrie.Trie.Query` | src/evs_query.c:105-154 | finds the node of the event that answers in the table, and what is left of the path |
| `EventTrie.Trie.AddHandler` | src/evs.c:111-130 | registers an event under the path that its parts make |
| `EventTrie.Trie.Find` | src/evs.c:199-205 | cleans an incoming path in place and finds who answers it; no cleaned path leaves the child arrays |
| `CallbackModel.HandlesFarApart` | src/client.c:157-175 | over all runs no handle issued is 0, and two are equal if and only if they name the same slot a multiple of 65535 creations apart |
| `CallbackModel.FireFindsLive` | src/client.c:186-198 | over all runs firing finds the callback of a slot if and only if the handle it was issued equals the fired one modulo 2^32 |
| `CallbackModel.StartRuns` | src/client.c:195-206 | what is found leaves its slot and runs, and nothing else changes |
| `CallbackModel.ReplyCarries` | src/evs.c:515-524 | a callback is created if and only if the reply is wanted, successful and has one |
| `CallbackModel.StartedOnce` | src/client.c:195-206 | over all runs no callback starts twice, and none that has started still waits in a slot |
| `CallbackModel.FreedOnce` | src/client.c:109-127 | over all runs data handed over was freed, or is held by one slot or one running callback; once the client is freed, all was freed |
| `CallbackModel.NewTouchesOneSlot` | src/client.c:145-168 | a callback is evicted only if all slots are taken, and no other slot changes |
| `CallbackModel.PruneKeeps` | src/client.c:219-238 | pruning empties exactly the slots created before the given time |
| `CallbackModel.FreeAllKeeps` | src/client.c:473-485 | freeing the client empties every slot and keeps the data accounted for |
| `CallbackModel.StepKeeps` | src/client.c:109-238 | every step keeps numbers, handles, starts and data in order |
| `Callbacks.Client.CbNew` | src/client.c:129-176 | performs the creation and returns its handle, or 0 if there is nothing to call |
| `Callbacks.Client.CbFire` | src/client.c:178-204 | takes the callback found out of its slot, or nothing |
| `Callbacks.Client.CbFired` | src/client.c:206-207 | frees the data once the function has returned |
| `Callbacks.Client.CbPrune` | src/client.c:219-238 | performs the pruning |
| `Callbacks.Client.ClientFreeAll` | src/client.c:473-485 | frees all slots |
| `Callbacks.Client.EvsCbFull` | src/evs.c:501-545 | a reply takes its callback along only if it succeeds and is wanted, and the data is accounted for in any case |
| `Heartbeats.SendsAreClose` | src/protocols_raw.c:159-174 | over all runs an open raw or WebSocket client is sent something at least every 61 seconds |
| `Heartbeats.SixChallenges` | src/protocols_raw.c:165-169 | over all runs a silent client is closed more than 960 and at most 970 seconds after it was heard of, having been sent six challenges |
| `Heartbeats.PollsAreAnswered` | src/protocols_http.c:734-757 | over all runs a linked request is answered within 55 seconds of the socket's `last_send`, and an idle socket is closed after more than 51 and at most 61 |
| `Heartbeats.SurrogatesTimeOut` | src/protocols_http.c:738-745 | over all runs a surrogate is closed at a tick if and only if it has no poller and its last answer is longer ago than the timeout |
| `Heartbeats.Client.DoHeartbeat` | src/protocols_raw.c:159-174 | performs the heartbeat of a raw or WebSocket client |
| `Heartbeats.Client.Periodic` | src/periodic.c:16-32 | performs a tick, keeps what the three theorems rest on, and leaves no open client that would be too late at the next tick |
| `Heartbeats.Client.ProtocolsSend` | src/protocols.c:112-121 | performs a send, and keeps the same |
| `Heartbeats.Client.ProtocolsRoute` | src/protocols.c:199-201 | performs a receipt, and keeps the same |
| `Heartbeats.HttpClient.Heartbeat` | src/protocols_http.c:734-757 | performs the heartbeat of a socket or a surrogate |
| `Heartbeats.HttpClient.Periodic` | src/periodic.c:16-32 | performs a tick on a socket, and leaves no linked one that would be too late at the next tick |
| `Heartbeats.HttpClient.Route` | src/protocols_http.c:653-707 | performs the arrival of data, and keeps the invariant of the times |
| `Heartbeats.HttpClient.SendResponse` | src/protocols_http.c:232-251 | performs an answer, and keeps the invariant of the times |

## Left out

- Library: sockets, locks, the event loop, memory pressure and GLib containers. Locks are modelled by taking what they guard as one step; a list may refuse an addition, the fair pool may refuse a share, `qev_is_closing` never goes back.
- HTTP: parsing of headers and session ids (which surrogate a URL names is arbitrary), response text, the bytes of the 101 upgrade, and the table of surrogates.
- HTTP: reference counts are unbounded natural numbers, as are those of `SubTable`; the 32-bit wrap of `guint` is not modelled.
- HTTP: entry points are atomic steps, except that a body begins and ends in two, between which other threads act; the order of single critical sections across entry points is not modelled.
- `PollingRuns.NoMessageLost`: assumes that no heartbeat, and no answering close, comes to a socket inside its own body; `PollingRuns.LostExactlyIf` does without.
- `HttpPolling.Server.FinishBody`: requires what the assertion in `_surr_send` demands, because a failed assertion ends the process; `PollingRuns.NewPollerAnswers` shows it holds if nothing answers a socket inside its own body.
- Time in the long-poll part: any heartbeat may be due at any moment there; when it is due is the subject of `Heartbeats`.
- `SubTable.InvKept`: the operations are spelt out as steps on a shared state rather than as methods, because their actions interleave; the loop in `atomic_inc_not_zero` becomes the step that tries again.
- `EventReplies.ExactlyOneReply`: assumes that application handlers keep the contract of `enum evs_status`, that a postponed subscription gets at most one verdict, and that off-handlers do not subscribe or unsubscribe while they run.
- `EventReplies.MembershipAgrees`: `client_sub_accept` adds a tombstoned client to the list and takes it off again under one lock; the model has the result of both.
- Framing: streams start after the handshake. The UTF-8 validator is any function of the text; numbers are decimal digits, without the signs, leading spaces and stale `errno` that `g_ascii_strtoull` lets through.
- Framing: the FIN and RSV bits, ping and pong are ignored by the decoder, and so by the model; it makes no claim of conformance to RFC 6455 beyond the lemmas above.
- `ReadBuffer.Connection.RawHandle`: what `evs_route` and the handlers rewrite in place inside the text of an event is not modelled, except for the colon; `CleanPaths.CleanPath` shows it for the path.
- `ReadBuffer.Connection.QevClose`: which reason a client is closed for is the first one given, as `qev_close` of the library is not part of this model.
- `CleanPaths.MakePath`: absent parts are empty ones.
- `EventTrie.Trie.Query`: paths are indexable; what the trie does with bytes outside the child array, as `evs_broadcast_path` could pass it, is not modelled. Registration from several threads and `_ptrie_free` are not modelled.
- `CallbackModel.FireFindsLive`: a callback function runs between `CbFire` and `CbFired`, and any other step may happen meanwhile; what the function does is its own affair.
- `CallbackModel.FreedOnce`: data without a function to free it counts as no data; `evs_send_full` and `evs_send_sub_full`, which can return without taking their data over, are not modelled.
- `Heartbeats.SendsAreClose`: a tick is handled at one moment for all clients, exactly ten seconds after the one before.
- Broadcasts: the queue and the frames shared by subscribers.
- Flash policy, protocol detection, configuration, applications, statistics, key/value data of clients, error and iframe pages.
