# Verified models of the call control server

These Dafny modules model five parts of the reSIProcate call control server and prove what they keep: the
forking SIP proxy (`repro`), the RELOAD codec and routing (`p2p`), the STUN codec and stream framing and the
TURN server's resources (`reTurn`), and the presence server (`presSvr`). `dafny verify dfyconfig.toml` checks all
of it.

Where the source changes state in place there are two forms: functions on values that specify each operation, and
a class or an array method that performs it with the source's loops and whose postcondition ties its new state to
the specification. The theorems about whole runs are proved about the specification. Inductions are written out: no
lemma leaves one to the verifier.

| files | what they model |
|---|---|
| `Common` | the option type and the answers of processors |
| `BestResponse`, `BestTiers` | which branch response is held, the merging of challenges and contacts, and the order of preference as a list of status codes |
| `Forking`, `ForkingSafety`, `ForkingProgress`, `ForkingHeld`, `ForkingOutcome` | one forwarded request: its branches and its final response, over every run |
| `ForkingStart`, `ForkingCancel`, `ForkingQuiet`, `ForkingAnswers`, `ForkingTimer` | which targets are tried, which branches are cancelled, what the client is sent, when timer C runs |
| `RequestContext` | the same as a class with three transaction maps, joined from the request and the response context |
| `ProxyTables`, `ProxyDispatch` | the proxy's server and client tables, the count that keeps a context alive, and who is given what |
| `ChainSpec`, `ChainResume`, `ProcessorChain`, `ChainWidths` | processor trees, suspension at a leaf, resumption from a stored address |
| `WireFormat`, `ReloadCodec`, `ReloadLayout` | RELOAD structures: a printer, a parser, the codec with streams that seek and patch, and the bytes field by field |
| `StunFormat`, `StunLayout`, `StunCodec` | STUN attributes, integrity and fingerprint; the bytes as RFC 5389 lays them out; the encoder over an array and the parse loop |
| `Framing` | send queue and deframing on a stream, from end to end |
| `TurnPorts`, `TurnServer`, `TurnRequests`, `TurnManager` | port scans, allocations and their timers, what requests are answered with; the manager as a class |
| `Presence`, `PresenceClients`, `PresenceServer` | subscriptions, lazy expiry, shared dialog state, observers, what a watcher may rely on; the managers as a class |
| `NodeIds`, `Routing` | identifiers, next hop, via and destination lists, the dispatcher's transaction table |

Eight places where the code does not do what its design asks are kept as the code has them, with a concrete input
and the exact condition under which the design is met:

* The TURN server's port counter is an `unsigned short` (`TurnManager.hxx:51-52`), so the test that wraps it to
  the start of the range never fires. After 65535 comes port 0, which reads as a failure, and then ports below the
  range, which are never given back. `Width` in `TurnPorts` selects the counter of the source (`Narrow`) or one
  for which the test fires (`Wide`): `NarrowServesTheRangeExactly`, `NarrowWrapsToPortZero`, `WrapIsReached`.
* A processor's address holds 16-bit positions, so a chain of more than 32768 members can be resumed at the wrong
  member: `ResumesRightExactly`, `WidthIsSharp`, `LastMemberIsSkipped`.
* Channel number 0xFFFF also stands for no channel (`AsyncSocketBase.cxx:8`), and the channel manager hands it out
  (`ChannelManager.cxx:34-46`): data on it is sent without a header. A number below 0x4000, which a client may ask
  for, reads as a STUN message: `ChannelDataSelfSized`, `StreamDeliversExactly`, `LastChannelIsLost`,
  `LowChannelIsMistaken`.
* A RELOAD response made where the request originated has no destination, which fails an assertion:
  `ResponseReturnsExactly`, `BootstrapCannotAnswerItself`.
* STUN messages with IPv6 addresses or a list of unknown attributes are encoded so that the parser refuses them:
  `ParsedExactly`, `ParsedInSourceOrder`.
* A 2xx of a branch that no longer runs is passed on without cancelling the other branches (`ResponseContext.cxx:874-890`,
  as the source itself remarks): `AnsweredThenQuiet`, `StrayLeavesRunning`, `StrayHappens`.
* The two tags of a presence dialog are run together (`DialogSetMgr.cpp:102`), so that two dialogs can be taken for one
  another: `SameSubscriptionExactly`, `TagsCanClash`.
* A presence subscription that is refreshed without an Expires header ends at once, while a new one without it
  lasts for an hour: `OverAtOnceExactly`.

## Model

| member | source | states |
|---|---|---|
| BestResponse.HeldIsAlwaysBest | CallControlServer/repro/ResponseContext.cxx:934-1033 | For any sequence of branch failures: the first 6xx is held if there was one, otherwise the priority is the least seen and goes with the code held; at 4 the challenges of all 401 and 407, at 5 the usable contacts of all 3xx, in order of arrival |
| BestTiers.OneTier | CallControlServer/repro/ResponseContext.cxx:1090-1223 | Every failure from 300 to 599 belongs to exactly one tier of the list: 412; 484; 422 and 423; 401 and 407; 3xx; 402; and so on down to 482 and 483, the other 5xx, the other 4xx with 503, and 408 |
| BestTiers.EarlierTierWins | CallControlServer/repro/ResponseContext.cxx:934-1004 | Of two failures of different tiers, in either order of arrival, the one of the earlier tier is held as it came |
| BestTiers.HeldIsOfEarliestTier | CallControlServer/repro/ResponseContext.cxx:934-1004 | Of any number of failures without a 6xx, in any order, the code held is of the earliest tier present |
| BestResponse.MergeKeepsContacts | CallControlServer/repro/ResponseContext.cxx:965-985 | Whenever contacts are merged the held response is already a redirect, so the branch that clears its contacts is never taken |
| BestResponse.UsableExactly | CallControlServer/repro/ResponseContext.cxx:972-984 | Of the contacts of a later redirect exactly the usable ones are added, in order |
| BestResponse.ChallengesJoin | CallControlServer/repro/ResponseContext.cxx:940-963 | The challenges of another 401 or 407 are put behind those held; the proxy header is there once there was a challenge for it |
| BestResponse.SomethingHeld | CallControlServer/repro/ResponseContext.cxx:1090-1223 | After any failure there is a response to forward, whatever its code |
| ForkingSafety.StepSound | CallControlServer/repro/ResponseContext.cxx:219-420 | One event of any kind keeps the maps disjoint and in agreement with the targets, the log in order and the transaction count balanced, and moves no branch back |
| ForkingSafety.AnsweredOnce | CallControlServer/repro/RequestContext.cxx:633-696 | In every run, after a final response to the request there is no provisional, no non-2xx final and no new branch |
| ForkingSafety.BranchesOnce | CallControlServer/repro/ResponseContext.cxx:541-643 | In every run, branches started have different ids and different contacts, each is cancelled at most once, and only after it was started |
| ForkingSafety.BranchesAdvance | CallControlServer/repro/ResponseContext.cxx:481-517 | In every run a branch only goes from candidate to started, cancelled, terminated; nothing that was sent is taken back |
| ForkingProgress.NeverStuck | CallControlServer/repro/RequestContext.cxx:329-397 | In a well-behaved run, after each branch response a final response has been sent or a branch is still active |
| ForkingOutcome.AnsweredOrRunning | CallControlServer/repro/RequestContext.cxx:329-397 | In every state of a well-behaved run, a request with a branch that was started has got its final response or has a branch that is running |
| ForkingOutcome.FinalEndsBranch | CallControlServer/repro/ResponseContext.cxx:1061-1087 | A final response takes its branch off the active ones for good |
| ForkingOutcome.EndsInFinal | CallControlServer/repro/ResponseContext.cxx:1006-1031 | Any finite set of targets ends in a final response: once every branch that was started has got one of its own, the client has been sent one |
| ForkingProgress.ForwardedIsBest | CallControlServer/repro/ResponseContext.cxx:1241-1264 | What is forwarded when the last branch has failed is the best of the failures, presented as a final response |
| ForkingHeld.FailuresAreThoseThatCount | CallControlServer/repro/ResponseContext.cxx:811-1039 | A response is weighed exactly if it is a failure of an active branch with a good Via, not eaten, before any final response; no other event changes what was weighed |
| ForkingHeld.FailuresAreCounted | CallControlServer/repro/ResponseContext.cxx:811-1039 | Over a run, what was weighed is the sequence of those responses |
| ForkingHeld.HeldInEveryRun | CallControlServer/repro/ResponseContext.cxx:934-1033 | In every run, whatever is eaten, damaged, unknown or ended early, until a final response is sent the held response is the best of the failures that counted so far, of the earliest tier present, provided none of them answers a CANCEL with a code that is not passed on as it is |
| ForkingHeld.ForwardKeepsHeldExactly | CallControlServer/repro/ResponseContext.cxx:1241-1264 | Forwarding answers the request or leaves what is held alone, if and only if the held response does not answer a CANCEL or goes out under its own code |
| ForkingHeld.CancelResponseIsRewritten | CallControlServer/repro/ResponseContext.cxx:1250-1263 | The proviso is needed: in a run with one branch, a 503 that answers a CANCEL is kept as 480 while the request counts as unanswered |
| ForkingStart.TargetIsTaken | CallControlServer/repro/ResponseContext.cxx:68-123 | A target is taken exactly while the request is unanswered, and to be tried at once only for a contact not tried before; then its request has gone out |
| ForkingStart.BatchIsTaken | CallControlServer/repro/ResponseContext.cxx:125-198 | Of a batch exactly the untouched targets become candidates, none once the request is answered |
| ForkingStart.OutboundIsTaken | CallControlServer/repro/ResponseContext.cxx:200-217 | Of an outbound batch every target becomes a candidate, answered or not |
| ForkingStart.OneIsTried | CallControlServer/repro/ResponseContext.cxx:258-275 | Starting one candidate tries it or sets it aside, and any other id changes nothing |
| ForkingStart.EachContactIsTriedOnce | CallControlServer/repro/ResponseContext.cxx:219-256 | Starting the candidates leaves none: for each contact not tried before the one with the least id is sent its request, all others are set aside |
| ForkingCancel.LosersAreCancelled | CallControlServer/repro/ResponseContext.cxx:312-346 | A 2xx of a running branch, the first 6xx, a CANCEL of the client and timer C leave an INVITE no candidate and no active branch that is not cancelled; each branch that was running stays active and has been sent a CANCEL |
| ForkingCancel.LosersStayCancelled | CallControlServer/repro/ResponseContext.cxx:312-346 | Over any run that follows, the branches that were known are never started and never run undisturbed again, and those that were running have been sent their CANCEL |
| ForkingCancel.OthersAreNotCancelled | CallControlServer/repro/ResponseContext.cxx:312-346 | For other methods these events send no CANCEL |
| ForkingCancel.OnlyInviteIsCancelled | CallControlServer/repro/ResponseContext.cxx:312-346 | In every run of another method no branch is sent a CANCEL, unless a processor asks for all active branches to be cancelled |
| ForkingCancel.ProcessorCancelsActive | CallControlServer/repro/ResponseContext.cxx:285-310 | A processor that cancels the active branches of an unanswered request leaves each of them cancelled, having sent a CANCEL to those that were running, and touches no candidate; after the answer it does nothing |
| ForkingCancel.ProcessorClears | CallControlServer/repro/ResponseContext.cxx:312-365 | Clearing the candidates sets all of them aside and nothing else; cancelling everything is that, after cancelling the active branches if the method is INVITE |
| ForkingCancel.OneIsCancelled | CallControlServer/repro/ResponseContext.cxx:367-391 | Cancelling one branch sends its CANCEL if it is running and the method is INVITE, and sets it aside if it is a candidate |
| ForkingQuiet.AnsweredThenQuiet | CallControlServer/repro/ResponseContext.cxx:904-932 | In every run of an INVITE, once it is answered every branch still active has been cancelled, provided the first final response is not a 2xx of a branch that does not run |
| ForkingQuiet.StrayLeavesRunning | CallControlServer/repro/ResponseContext.cxx:864-894 | The exception is exact: such a 2xx, and nothing else, is passed on with the other branches left as they are |
| ForkingQuiet.StrayHappens | CallControlServer/repro/ResponseContext.cxx:864-894 | A run in which a branch that has failed sends a 200 after all, and the other branch goes on running without a CANCEL |
| ForkingAnswers.EventAnswers | CallControlServer/repro/ResponseContext.cxx:811-1039 | What an event itself sends upstream: a provisional response but a 100 while unanswered, every 2xx (of a running branch of another method only the first), the best failure after the last one, 487 for a CANCEL that finds nothing running, and nothing else |
| ForkingAnswers.ChainAnswers | CallControlServer/repro/RequestContext.cxx:329-397 | What is sent once the chains are done: 480 without any target, 500 for candidates left unstarted, otherwise the best response, or nothing while a branch runs |
| ForkingAnswers.BestIsPresented | CallControlServer/repro/ResponseContext.cxx:1241-1264 | 503, and 408 to anything but an INVITE, go upstream as 480, every other code as it is |
| ForkingAnswers.ClientIsAnswered | CallControlServer/repro/RequestContext.cxx:633-696 | Over any run the client is sent exactly these responses, in this order |
| ForkingAnswers.ResponseEndsBranch | CallControlServer/repro/ResponseContext.cxx:1061-1087 | A branch is taken off the active ones by exactly those responses that are eaten or final, other than the answer to a CANCEL of the proxy's own, and is then terminated |
| ForkingAnswers.EndTakesOff | CallControlServer/repro/ResponseContext.cxx:481-517 | The end of a transaction takes its branch off the maps, counts it off, and changes nothing else |
| ForkingTimer.TimerStarts | CallControlServer/repro/ResponseContext.cxx:624-634 | In every run timer C has been started once with the first branch and once for each provisional response of a running branch |
| ForkingTimer.StaleTimerIsIgnored | CallControlServer/repro/RequestContext.cxx:418-428 | A timer C started before such a response, or delivered after the answer, changes nothing |
| RequestContexts.RequestContext.BeginClientTransactions | CallControlServer/repro/ResponseContext.cxx:219-256 | The loop over the candidates starts, in key order, those whose contact was not contacted before, and reports whether any was |
| RequestContexts.RequestContext.CancelActiveClientTransactions | CallControlServer/repro/ResponseContext.cxx:285-310 | The loop cancels each active branch that was not cancelled before |
| RequestContexts.RequestContext.ClearCandidateTransactions | CallControlServer/repro/ResponseContext.cxx:348-365 | The loop moves every candidate to the terminated map |
| RequestContexts.RequestContext.ProcessBranchResponse | CallControlServer/repro/ResponseContext.cxx:811-1039 | The handler for a branch response takes the step of the state machine |
| RequestContexts.RequestContext.ForwardBestResponse | CallControlServer/repro/ResponseContext.cxx:1241-1264 | The best response is sent, and with it every branch is cancelled as the state machine has it |
| RequestContexts.RequestContext.Process | CallControlServer/repro/RequestContext.cxx:83-400 | The class as a whole refines the state machine, event by event |
| ProxyTables.HandleOk | CallControlServer/repro/Proxy.cxx:246-288 | Dispatching one event keeps every count equal to the number of entries, leaves no entry pointing to a destroyed context and keeps the branch ids of contexts apart |
| ProxyTables.CountsAreEntries | CallControlServer/repro/Proxy.cxx:349-384 | In every run a context exists exactly while some entry of the two tables points to it, and its count is their number |
| ProxyDispatch.ResponseReachesItsContext | CallControlServer/repro/Proxy.cxx:288-318 | A response is handled by the context that started its branch, which is the only one that did, and by no other |
| ProxyDispatch.ClientEventIsHandled | CallControlServer/repro/Proxy.cxx:318-384 | What comes for a transaction of the client is handled by the context that its entry points to, and by no other |
| ProxyDispatch.RequestGetsContext | CallControlServer/repro/Proxy.cxx:246-288 | A new request gets a new context that handles it; one whose id is taken is handled by none |
| ProxyDispatch.ClientReachesItsContext | CallControlServer/repro/Proxy.cxx:246-288 | Over any run, the entry of a client's transaction leads to the context its request was given to until the transaction ends |
| ProxyDispatch.BranchReachesItsContext | CallControlServer/repro/Proxy.cxx:405-417 | Over any run, the entry of a branch leads to the one context that started it until the branch ends |
| ChainResume.SessionSplits | CallControlServer/repro/ProcessorChain.cxx:48-99 | Resuming a chain inside its member i is the resumption of that member followed by what the chain does after it |
| ChainResume.ResumeIsPatience | CallControlServer/repro/ProcessorChain.cxx:48-99 | For any tree and any behaviour of its leaves, suspending and resuming any number of times visits the same leaves with the same outcome as one run in which a waiting leaf is simply visited again |
| ProcessorChains.Processor.AddProcessor | CallControlServer/repro/ProcessorChain.cxx:39-46 | Adding a subtree gives every node in it its address below the chain and touches no other node |
| ProcessorChains.Processor.PushAddress | CallControlServer/repro/ProcessorChain.cxx:101-119 | The addresses of a whole subtree are extended by the same path |
| ProcessorChains.Processor.AddressIsPath | CallControlServer/repro/Processor.cxx:22-36 | In a tree built in any order, the address of each node is its path from the root, reversed, in 16-bit positions |
| ProcessorChains.Processor.Process | CallControlServer/repro/ProcessorChain.cxx:48-99 | The interpreter loop over the heap takes the run of the tree it represents |
| ProcessorChains.StoredAddressIsRight | CallControlServer/repro/Processor.cxx:22-36 | A stored address is the address of the path if and only if no position on it exceeds 32767 |
| ChainWidths.ResumesRightExactly | CallControlServer/repro/ProcessorChain.cxx:48-119 | For a path to a leaf: in every tree with a leaf there, and for every behaviour, resumption from the stored address is resumption at that leaf, if and only if every position on it is below 32768 or among the last 32768 that 32 bits can name |
| ChainWidths.RecoverableIsPatience | CallControlServer/repro/ProcessorChain.cxx:48-119 | If that holds of the paths of all leaves of a tree, resumption from stored addresses continues exactly the interrupted traversal, any number of times |
| ChainWidths.FlatResumesExactly | CallControlServer/repro/ProcessorChain.cxx:53-99 | A chain whose last member waits once continues rightly if and only if that holds of the position of that member |
| ChainWidths.WidthIsSharp | CallControlServer/repro/Processor.cxx:22-36 | Every tree with chains of up to w members is resumed rightly, whatever its processors do, if and only if w is at most 32768 |
| ChainWidths.LastMemberIsSkipped | CallControlServer/repro/ProcessorChain.cxx:53-71 | A chain of 32769 members and a behaviour for which resumption skips the member that was woken |
| WireFormat.ParsePrinted | CallControlServer/p2p/MessageStructsGen.cxx:416-466 | A value whose integers and lengths fit is read back from its own bytes, and what follows is left alone |
| WireFormat.PrintParsed | CallControlServer/p2p/MessageStructsGen.cxx:416-499 | Whatever parses fits and is the printed form of the value it parses to |
| WireFormat.RoundTripExactly | CallControlServer/p2p/MessageStructsGen.cxx:801-927 | A structure survives the wire if and only if everything in it fits its field |
| ReloadCodec.OutStream.EncodeUint | CallControlServer/p2p/s2c/s2c/s2c_native.cxx:18-48 | An integer is written at the current position, most significant byte first, cut to its width |
| ReloadCodec.OutStream.Patch | CallControlServer/p2p/MessageStructsGen.cxx:494-498 | Seeking back writes the length into the bytes kept free for it and changes no others |
| ReloadCodec.Encode | CallControlServer/p2p/MessageStructsGen.cxx:2523-2543 | Back-patching appends exactly the bytes of the plain printer, whether or not the lengths fit |
| ReloadCodec.InStream.ReadVarray | CallControlServer/p2p/s2c/s2c/s2c_native.cxx:162-188 | The bytes behind a length prefix are taken, or the read fails exactly when there are too few |
| ReloadCodec.Decode | CallControlServer/p2p/MessageStructsGen.cxx:2497-2521 | The decoder accepts exactly what the parser accepts, with the same value and the same rest |
| ReloadCodec.DecodeAll | CallControlServer/p2p/MessageStructsGen.cxx:2609-2621 | The loop that reads a list until its bytes are used up yields the parsed list |
| ReloadCodec.StructuresProductive | CallControlServer/p2p/MessageStructsGen.cxx:2694-2739 | The destination, header, signature, stored data, store request and connect structures have no list of empty elements, so their decoders end and the round trip applies to them |
| ReloadCodec.Copy | CallControlServer/p2p/MessageStructsGen.cxx:390-405 | The copy constructor, which encodes and decodes, yields the original if and only if it fits |
| ReloadLayout.DestinationLayout | CallControlServer/p2p/MessageStructsGen.cxx:468-499 | The bytes of a destination: its kind 1, 2 or 3, the size of the rest, and the identifier |
| ReloadLayout.HeaderLayout | CallControlServer/p2p/MessageStructsGen.cxx:865-927 | The bytes of a forwarding header: nine fields of fixed width, both lists behind their sizes, and the message code |
| ReloadLayout.SignatureLayout | CallControlServer/p2p/MessageStructsGen.cxx:704-712 | The bytes of a signature, field by field |
| ReloadLayout.StoredValueLayout | CallControlServer/p2p/MessageStructsGen.cxx:2424-2446 | The bytes of a stored value and of an array and a dictionary entry, with their tags |
| ReloadLayout.StoredDataLayout | CallControlServer/p2p/MessageStructsGen.cxx:2523-2543 | The bytes of stored data behind their size |
| ReloadLayout.StoreRequestLayout | CallControlServer/p2p/MessageStructsGen.cxx:2624-2739 | The bytes of a store request and of the kinds in it |
| ReloadLayout.ConnectLayout | CallControlServer/p2p/MessageStructsGen.cxx:1726-1755 | The bytes of a connect request |
| StunLayout.XorAddressLayout | CallControlServer/reTurn/StunMessage.cxx:263-280 | An XOR address is written with its port and address masked by the magic cookie, for each of its four types |
| StunLayout.AddressLayout | CallControlServer/reTurn/StunMessage.cxx:1020-1048 | Every other address is written as it stands |
| StunLayout.Address6Layout | CallControlServer/reTurn/StunMessage.cxx:1020-1046 | An IPv6 address is written in twenty bytes with family 2, its port masked in an XOR address |
| StunLayout.AddressRead | CallControlServer/reTurn/StunMessage.cxx:327-371 | Of a port and address from any peer, a plain reader yields what stands there and an XOR reader takes the mask off |
| StunLayout.AddressOfRfc5769 | CallControlServer/reTurn/StunMessage.cxx:263-280 | The XOR-MAPPED-ADDRESS of section 2.2 of RFC 5769 |
| StunLayout.NumberLayout | CallControlServer/reTurn/StunMessage.cxx:990-997 | Numbers are written in four bytes, a channel number in the first two, properties and a transport in the first |
| StunLayout.TextLayout | CallControlServer/reTurn/StunMessage.cxx:1050-1095 | Text and reasons are filled up with the fewest zeros to a multiple of four, data and tokens are not |
| StunLayout.SizesRead | CallControlServer/reTurn/StunMessage.cxx:289-459 | For each kind of value the sizes that the reader accepts |
| StunLayout.HeaderRead | CallControlServer/reTurn/StunMessage.cxx:461-490 | What the reader takes from any header: two bits of the class, four of the method, and the transaction |
| StunLayout.SkippedBytes | CallControlServer/reTurn/StunMessage.cxx:982-993 | The padding of data is what the buffer held there |
| StunLayout.UnknownTypes | CallControlServer/reTurn/StunMessage.cxx:828-838 | Of the types that the reader does not know, those below 0x8000 make it refuse the message and the others are skipped |
| StunLayout.UnknownListLayout | CallControlServer/reTurn/StunMessage.cxx:1064-1074 | A list of unknown attributes is written with two bytes each and declared two bytes longer |
| StunLayout.UnknownListRead | CallControlServer/reTurn/StunMessage.cxx:423-442 | It is read as if each took four bytes, and refused at any size but 0, 4, 8, 12 or 16 |
| StunLayout.MessageLayout | CallControlServer/reTurn/StunMessage.cxx:1109-1321 | Whoever reads an encoded message by the layout of RFC 5389 finds class, method, size, transaction, the attributes in order, the hash of the prefix in full blocks and the checksum of what stands before it |
| StunLayout.BlocksAreFilled | CallControlServer/reTurn/StunMessage.cxx:1296-1306 | What is hashed is filled up with the fewest zeros to a multiple of 64 bytes |
| StunFormat.ValueBack | CallControlServer/reTurn/StunMessage.cxx:982-1107 | Each readable attribute value is read back from what its encoder writes, text and reasons up to the zeros they are filled up with; `ParsedExactly` says what becomes of the others |
| StunFormat.MaskTwice | CallControlServer/reTurn/StunMessage.cxx:263-280 | Applying the magic cookie twice restores an address |
| StunFormat.OrderCovers | CallControlServer/reTurn/StunMessage.cxx:1109-1280 | Every attribute that a message can hold has its place in the order in which the encoder writes them |
| StunFormat.ParseEncoded | CallControlServer/reTurn/StunMessage.cxx:1109-1321 | For any order of writing that covers the attributes, parsing an encoded message of readable values restores class, method, id and every attribute, with the hash and checksum of what stands before them |
| StunFormat.ParsedExactly | CallControlServer/reTurn/StunMessage.cxx:461-842 | Parsing restores a message if and only if its attributes fit the 16-bit size and hold neither an IPv6 address nor a list of unknown attributes; any other message is refused |
| StunFormat.ParsedInSourceOrder | CallControlServer/reTurn/StunMessage.cxx:1109-1280 | The same for the order in which the encoder writes the attributes, for every message whose values are of their types |
| StunFormat.UnreadableRefused | CallControlServer/reTurn/StunMessage.cxx:327-371 | One IPv6 address, or one list of unknown attributes of any length, makes the parser refuse the whole message, since the encoder writes 20 bytes where 8 are read and declares two bytes more than it writes |
| StunFormat.ParsedPassesChecks | CallControlServer/reTurn/StunMessage.cxx:1468-1518 | For any keyed hash and checksum, what a reader gets by parsing an encoded message passes both checks under its key, with or without a fingerprint |
| StunFormat.OtherKeyPassesExactly | CallControlServer/reTurn/StunMessage.cxx:1468-1500 | Under another key it passes if and only if both keys hash its zero-padded prefix alike |
| StunCodec.EncodeAttrs | CallControlServer/reTurn/StunMessage.cxx:1109-1280 | The attributes are written one after the other into the buffer, skipped padding keeps what it held, and nothing else is touched |
| StunCodec.EncodeIntegrity | CallControlServer/reTurn/StunMessage.cxx:1288-1309 | The hash is taken over the buffer zeroed up to a multiple of 64 bytes and then written over the zeros |
| StunCodec.EncodeMessage | CallControlServer/reTurn/StunMessage.cxx:1109-1321 | The buffer ends up holding the specified encoding, with the length patched in before the hash is taken |
| StunCodec.Reader.ParseMessage | CallControlServer/reTurn/StunMessage.cxx:461-842 | The parse loop ends, its remaining size never becomes negative, and it accepts exactly what the specified parser accepts |
| Framing.SendsInOrder | CallControlServer/reTurn/AsyncSocketBase.cxx:37-99 | For any interleaving of submissions and completions, at most one write is under way and writes are started in the order of submission, all of them once the queue is empty |
| Framing.QueueIsWhatWaits | CallControlServer/reTurn/AsyncSocketBase.cxx:43-98 | For any submissions and completions, the queue holds exactly the submissions not yet completed, each completion taking one off; all others and the first of these have been written |
| Framing.AllIsWritten | CallControlServer/reTurn/AsyncSocketBase.cxx:69-87 | After as many completions as there are submissions waiting the queue is empty and everything submitted is written, in order |
| Framing.Socket.DoSend | CallControlServer/reTurn/AsyncSocketBase.cxx:37-67 | Builds the frame, unless the channel is the one that stands for none, queues it with the data and starts a write only if none is under way |
| Framing.Socket.DoSendUnframed | CallControlServer/reTurn/AsyncSocketBase.cxx:37-41 | A send without a channel is the send with the channel number that stands for none |
| Framing.Socket.HandleSend | CallControlServer/reTurn/AsyncSocketBase.cxx:69-87 | A completed write is taken off the queue and the next one is started |
| Framing.ChunksDoNotMatter | CallControlServer/reTurn/AsyncTcpSocketBase.cxx:138-176 | The receiver delivers the same messages and ends in the same state however the bytes are cut up on the way |
| Framing.DeliversExactly | CallControlServer/reTurn/AsyncTcpSocketBase.cxx:145-176 | Whatever follows it in the stream, what stands at the front is handed out if and only if it says its own size and is below the size of the receive buffer; it is then handed out first, and the rest is read by itself |
| Framing.StreamDeliversExactly | CallControlServer/reTurn/AsyncTcpSocketBase.cxx:138-176 | End to end, for any interleaving of sends and completions and any cutting up of the bytes, once every submission is completed the receiver has been handed exactly the messages submitted, in order, if and only if each of them says its own size and is below the size of the receive buffer |
| Framing.SendSelfSized | CallControlServer/reTurn/AsyncSocketBase.cxx:43-67 | For any channel number, data of any size and any part of it: what is sent is delivered whole if and only if it fits the receive buffer and, without a channel, says its own size, or else begins at a multiple of 65536 bytes, or 16 bytes before one on a number below 0x4000 |
| Framing.ChannelDataSelfSized | CallControlServer/reTurn/AsyncSocketBase.cxx:43-67 | Whole data on a channel is delivered if and only if the number is at least 0x4000 and below 0xFFFF and it fits; on 0xFFFF, which stands for no channel, if and only if the data says its own size |
| Framing.LastChannelIsLost | CallControlServer/reTurn/ChannelManager.cxx:34-46 | Five bytes on channel 0xFFFF, the last that is handed out, go out without a header and leave the receiver waiting for more; on channel 0xFFFE they arrive |
| Framing.LowChannelIsMistaken | CallControlServer/reTurn/AsyncTcpSocketBase.cxx:159-166 | The same bytes on a channel below 0x4000 leave the receiver waiting for sixteen more |
| Framing.StunMessageSelfSized | CallControlServer/reTurn/StunMessage.cxx:1282-1286 | Every encoded STUN message below the size of the receive buffer says its own size |
| Framing.Connection.OnBytes | CallControlServer/reTurn/AsyncTcpSocketBase.cxx:138-176 | The completion handlers run until they wait for more, and do what the specified receiver does |
| TurnPorts.FirstIsNearest | CallControlServer/reTurn/TurnManager.cxx:105-179 | A scan finds a port exactly when one of its kind is available on the circle, and then the nearest one ahead |
| TurnPorts.WideServesTheRange | CallControlServer/reTurn/TurnManager.cxx:226-248 | With a counter wide enough to wrap, 0 is answered exactly when the range is exhausted, and any other answer is an available port of the range |
| TurnPorts.NarrowServesTheRangeExactly | CallControlServer/reTurn/TurnManager.cxx:226-248 | For every value of the 16-bit counter of the source, before and after its wrap, a scan answers 0 exactly when the range is exhausted and otherwise with an available port of it, if and only if the search comes upon no port below the range, or only upon port 0 while the range is exhausted |
| TurnPorts.NarrowWrapsToPortZero | CallControlServer/reTurn/TurnManager.cxx:105-117 | With every port free, the scan after 65535 is refused and the one after that gets port 1 |
| TurnManager.Manager.AllocateFirst | CallControlServer/reTurn/TurnManager.cxx:105-179 | The scan loop ends after at most one turn of the circle, keeps the parity across the wrap and marks what the specified search finds |
| TurnManager.Manager.AllocatePort | CallControlServer/reTurn/TurnManager.cxx:181-194 | A given port is taken if and only if it is in the range and not allocated |
| TurnManager.Manager.DeallocatePort | CallControlServer/reTurn/TurnManager.cxx:196-210 | A port of the range is freed together with its partner if that is still reserved |
| TurnManager.Manager.ProcessTurnAllocateRequest | CallControlServer/reTurn/RequestHandler.cxx:455-628 | The handler's reply and the new state are those of the specified step, error by error |
| TurnManager.Manager.ProcessTurnRefreshRequest | CallControlServer/reTurn/RequestHandler.cxx:630-719 | The same for refresh requests, with removal at lifetime 0 |
| TurnManager.Manager.AllocationExpired | CallControlServer/reTurn/TurnManager.cxx:85-103 | A timer removes the allocation exactly if it exists and its expiry has passed |
| TurnServer.StepSound | CallControlServer/reTurn/RequestHandler.cxx:473-609 | Every event keeps: live allocations own different allocated ports, a reserved port is odd above an allocated one, no port of the range is allocated without an owner, and each allocation has a timer pending at its expiry |
| TurnServer.RunSound | CallControlServer/reTurn/RequestHandler.cxx:473-705 | These hold in every state of every run of the server from its start, for both counters |
| TurnServer.WideAccountsForEveryPort | CallControlServer/reTurn/TurnAllocation.cxx:22-76 | With the wide counter the allocated ports are exactly those of live allocations, in every state of every run |
| TurnServer.WrapIsReached | CallControlServer/reTurn/TurnManager.hxx:51-52 | The server of the source has a run after which every port is free, and yet the next request for any port is refused with 508 and the one after it is granted port 1, which is never given back |
| TurnServer.LivesUntilExpiry | CallControlServer/reTurn/TurnManager.cxx:85-103 | From any state of a run on, stale timers included, an allocation is unchanged until its own refresh, the loss of its socket, or a timer at or after its latest expiry |
| TurnServer.NoneOutlivesItsTimer | CallControlServer/reTurn/TurnAllocation.cxx:78-89 | Once the due timers are delivered no allocation is past its expiry |
| TurnServer.RemovalFreesExactly | CallControlServer/reTurn/TurnAllocation.cxx:56-76 | Removal changes exactly the states of its port and its still-reserved partner, and only if the port lies in the range |
| TurnServer.GrantIsAsAsked | CallControlServer/reTurn/RequestHandler.cxx:509-623 | A grant gives a port that was not allocated, and changes no other but a reserved partner, to a new allocation for what was asked for, at least ten minutes and at most an hour, with a timer for its end: an even one, a pair with its odd port reserved and numbered in the token, or the one a token names; a refusal leaves the allocations as they were |
| TurnRequests.AllocateRefusedExactly | CallControlServer/reTurn/RequestHandler.cxx:455-556 | An allocate request is refused exactly without authentication (401), with an allocation (437), without a transport or with props and token (400), for another transport (442), or without a port (508); otherwise it is granted |
| TurnRequests.WideServable | CallControlServer/reTurn/TurnManager.cxx:226-248 | With the wide counter there is a port exactly if one of the kind asked for is free in the range |
| TurnRequests.GrantIsNearest | CallControlServer/reTurn/TurnManager.cxx:105-179 | The port granted is the nearest of its kind ahead of the last one, and the next search begins there |
| TurnRequests.FailedScan | CallControlServer/reTurn/TurnManager.cxx:105-179 | A scan that finds nothing changes only the counter, which is left at the next port of the kind |
| TurnRequests.RefreshIsAsAsked | CallControlServer/reTurn/RequestHandler.cxx:628-709 | A refresh is refused exactly without authentication (401), an allocation (437) or its credentials (441); with lifetime 0 it ends the allocation; otherwise the allocation lasts for the granted time from now on, with a timer for it, and nothing else changes |
| TurnRequests.RefreshedInTimeStays | CallControlServer/reTurn/TurnAllocation.cxx:78-89 | Over any run, an allocation stays, with its port and owner, as long as each timer comes before the end that its last refresh was granted |
| TurnRequests.EndsExactly | CallControlServer/reTurn/TurnManager.cxx:85-103 | A timer is spent, and ends its allocation exactly if that is due by then; the loss of the socket ends it at once |
| TurnServer.ReservationHolds | CallControlServer/reTurn/TurnManager.cxx:160-179 | A reserved partner stays reserved until its number is presented as a token or the owner of the even port goes |
| TurnServer.ReservationIsRedeemed | CallControlServer/reTurn/RequestHandler.cxx:543-554 | From any state of a run on, as long as no one else presents the token and the owner of the pair stays, the client that presents it is granted the reserved port |
| Presence.ExpireExactly | CallControlServer/presSvr/SubDialogMgr.cpp:128-162 | A pass ends exactly the live subscriptions whose expiry has come, with one more NOTIFY each that says terminated, leaves all others alone, and leaves no due entry behind, whatever stale entries there are |
| Presence.OverAtOnceExactly | CallControlServer/presSvr/SubDialog.cpp:21-59 | The NOTIFY that confirms a subscription says terminated, and the next pass ends the subscription, now or later, if and only if it asks for 0 seconds or is a refresh without an Expires header |
| Presence.StepSound | CallControlServer/presSvr/SubDialogMgr.cpp:7-41 | Every event keeps reference counts, observers, scheduled expiries and NOTIFY numbers right |
| Presence.RunSound | CallControlServer/presSvr/DialogSetMgr.cpp:30-67 | In every run a dialog state exists exactly while subscriptions share it and counts them, observers are exactly the live subscriptions, each of them has an entry at its current expiry, and NOTIFYs in one dialog state are numbered from 1 without gaps |
| PresenceClients.SubscribedExactly | CallControlServer/presSvr/SubDialog.cpp:21-59 | A subscription is accepted with 202 and lasts for what it asks for, a new one for an hour and a refreshed one for no time without an Expires; another event is refused with 489, an unknown resource with 404 |
| PresenceClients.LivesUntilDue | CallControlServer/presSvr/SubDialogMgr.cpp:7-41 | Over any run, a subscription stays, for its resource and until the time last asked for, as long as no pass comes at or after that and no NOTIFY is answered with 481 |
| PresenceClients.EndsOnlyBy | CallControlServer/presSvr/SubDialogMgr.cpp:43-56 | A subscription goes only in a pass when it is due, or by a 481 |
| PresenceClients.SameSubscriptionExactly | CallControlServer/presSvr/DialogSetMgr.cpp:72-104 | Requests belong to one subscription exactly if call, event and event id agree and the two tags run together do |
| PresenceClients.TagsCanClash | CallControlServer/presSvr/DialogSetMgr.cpp:100-103 | Two dialogs of one call with different tags that are taken for one another |
| PresenceClients.PublishAnswered | CallControlServer/presSvr/Resource.cpp:17-50 | A publication is answered with 200, 404 for an unknown resource or 400 without a document, and changes nothing in the last two cases |
| Presence.NotifyNumbers | CallControlServer/presSvr/SubDialog.cpp:74-97 | A NOTIFY takes the next number of its dialog state and disturbs no other |
| Presence.PublishExactly | CallControlServer/presSvr/Resource.cpp:17-50 | A publication sends exactly one NOTIFY with the new document to each live subscription to the resource, and none to others |
| PresenceServer.Manager.ProcessSubscribe | CallControlServer/presSvr/SubDialogMgr.cpp:7-41 | New and refreshing subscriptions take the specified step |
| PresenceServer.Manager.DestroyDialog | CallControlServer/presSvr/SubDialogMgr.cpp:90-99 | The dialog state is detached, the dialog removed and its observer withdrawn |
| PresenceServer.Manager.DetachDialogState | CallControlServer/presSvr/DialogSetMgr.cpp:50-67 | The count goes down by one and the state goes with the last reference |
| PresenceServer.Manager.ProcessPublish | CallControlServer/presSvr/Resource.cpp:17-50 | The document is replaced and every observer is walked over |
| PresenceServer.Manager.ProcessExpirations | CallControlServer/presSvr/SubDialogMgr.cpp:144-162 | The cleaning loop does what the specified pass does |
| NodeIds.OrderIsNumeric | CallControlServer/p2p/NodeId.cxx:34-51 | The comparison of two words is the order of the 128-bit numbers, and its equality is identity |
| NodeIds.NextHopIsPredecessor | CallControlServer/p2p/ChordTopology.cxx:240-270 | The finger chosen is the greatest not above the target, or the greatest of all if every one is above it |
| NodeIds.FindNextHop | CallControlServer/p2p/ChordTopology.cxx:256-269 | The loop over the finger table returns that finger |
| Routing.ForwardMessage | CallControlServer/p2p/ForwardingLayer.cxx:23-111 | The forwarding loop ends and takes the specified action |
| Routing.CopyForwardingData | CallControlServer/p2p/Message.cxx:254-269 | The loop makes the reversed via list the destination list of the response |
| Routing.SentTowardsTarget | CallControlServer/p2p/ForwardingLayer.cxx:34-109 | A message is sent on with its list as far as the first entry naming another: straight to a connected node, otherwise to the circular predecessor of the entry among the fingers or to the successor, and never for an identifier held here |
| Routing.DroppedExactly | CallControlServer/p2p/ForwardingLayer.cxx:34-109 | It is dropped exactly for an unconnected node that would be known here and for a resource held here before the end of the list, and aborts exactly without an entry, on a compressed one or without a next hop |
| Routing.HoldsItsSection | CallControlServer/p2p/ChordTopology.cxx:321-345 | A node holds the 128-bit numbers above its predecessor's up to its own; without a predecessor all if it is the bootstrap node, otherwise none |
| Routing.HandedExactly | CallControlServer/p2p/Dispatcher.cxx:45-83 | A message goes to the handler of its type, a response without one to the sender waiting for it, and nothing else to anyone |
| Routing.ViaIsPath | CallControlServer/p2p/SelectTransporter.cxx:86-126 | A message that arrives lists in its via list exactly the nodes that passed it on and has spent one unit of time to live for each |
| Routing.FollowsList | CallControlServer/p2p/ForwardingLayer.cxx:38-69 | A message that lists a chain of connected nodes visits exactly those, given time to live |
| Routing.ResponseRetraces | CallControlServer/p2p/ForwardingLayer.cxx:23-111 | If the hops of a request are connected both ways, the response goes back over the same nodes in reverse and is posted at the originator under the same transaction |
| Routing.ResponseReturnsExactly | CallControlServer/p2p/ForwardingLayer.cxx:23-111 | For a request that arrived over hops connected both ways, or over none, the response comes back if and only if the destination list of the request does not keep it at its originator |
| Routing.PostsExactlyIfStays | CallControlServer/p2p/ForwardingLayer.cxx:36-57 | A node posts a message to itself exactly if every entry of the destination list names it, or the last is a resource it is responsible for |
| Routing.LocalResponseAborts | CallControlServer/p2p/Message.cxx:431-436 | The response to a request that stayed has an empty destination list, and forwarding it aborts |
| Routing.BootstrapCannotAnswerItself | CallControlServer/p2p/ChordTopology.cxx:321-342 | A bootstrap node alone in its ring is responsible for every resource and cannot answer its own request for one |
| Routing.EventsInOrder | CallControlServer/p2p/Dispatcher.cxx:38-83 | What is sent and received takes effect one after the other |
| Routing.RepliedExactlyOnce | CallControlServer/p2p/Dispatcher.cxx:38-83 | Whatever else is sent and received in between, the first response is handed to the sender recorded for its transaction, and later copies are dropped |
| Routing.AnswerReachesSender | CallControlServer/p2p/Dispatcher.cxx:38-83 | From end to end, the answer to a request that was sent goes back over the same nodes and is handed to its sender, once, whatever else the originator sends and receives |

## Left out

- ForkingProgress.NeverStuck: assumes what the source relies on, namely responses with their Via intact that no processor eats, no response to a CANCEL of a branch other than the proxy's own, and a branch that ends only after a final response; so do AnsweredOrRunning and EndsInFinal.
- ProxyTables.CountsAreEntries: the tables are modelled on values, one address for each context, and the end of a handler's pending table insertions is the end of its step; aliasing between contexts is not captured.
- ChainResume.ResumeIsPatience: leaves are arbitrary functions of the leaves visited so far; what a processor does to the request is not modelled there.
- Presence.RunSound: an operation reads the clock once, and a tag made up by the server is taken to be fresh.
- Presence.ExpireExactly: the erase followed by an increment of the same iterator is modelled as advancing first.
- StunCodec.Reader.ParseMessage: an IPv6 address in eight bytes and an error attribute shorter than four are refused; the source reads beyond the attribute on these.
- StunCodec.EncodeMessage: the fixed sequence of tests for each attribute is a loop over the table of their order.
- Framing.SendsInOrder: a failed write counts as written, so what a broken connection loses is not modelled; a start beyond the end of the data, on which the source's size wraps, sends nothing of it.
- Routing.ResponseRetraces: messages are delivered in one piece and links do not fail on the way.
- TurnManager.Manager.AllocateFirst: one loop with the step and test of its kind stands for the four scan methods, and only the UDP ports are kept, as no request is granted any others.
- TurnManager.Manager.ProcessTurnAllocateRequest: the failure to open the relay socket, after which the port is not released, and the computation of the shared secret are not modelled.
- ReloadCodec.Encode: one encoder and one decoder interpret the layout of a structure; the generated classes repeat them field by field.
- A chain run without a current event, which skips all chains, and a chain of 2^32 members or more.
- The check for secure transport in the proxy, whose flag is never set, and the transaction queues of targets that only order the work of target processors.
- The state of targets in an outbound batch: they are taken to be untouched candidates, as the source does not look.
- The 400 with which the proxy answers a transaction id that is taken, and the error response of the dispatcher to a request without a handler.
- Record-Route, Path and flow tokens, the Via rewriting for compensation, and ACK forwarding.
- Exceptions thrown inside the proxy, and the assertion for a best response that was never held, which is a log entry here.
- Permissions and channel bindings of TURN allocations, nonces, and the making of user names and passwords.
- RELOAD structures that do not come back as written (array and dictionary specifiers, routes of SIP registrations, updates of the ring) and those that repeat a modelled layout.
- Joining, leaving and repairing the ring, and its replication sets.
- Sockets, TLS, threads, logging, configuration, databases and the web interface.
