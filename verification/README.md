# A verified model of the QCA core

This project models the parts of the Qt Cryptographic Architecture in which the library's own code,
rather than a plugin, decides what happens: event-driven objects that talk to slow engines, handlers
and providers, transformers that take a message in pieces, and small parsers and conversions. Each
part has a simple specification (a history of what was observed, a one-shot function, a mathematical
integer, a set of stores), the code of the repository is written out against it, and what the
repository promises is proved of every run, every input, and every way of cutting the input up.

`dafny verify dfyconfig.toml` checks the whole project.

## The parts

**TLS stream engine** (`TlsModel`, `TlsProofs`, `TlsGuarantees`, `TlsIdentity`, `TlsAnswers`, `Tls`). A TLS
object in stream mode owns byte buffers, a queue of actions, a single-shot trigger, a pause flag and at most one
outstanding engine operation. `TlsModel` has one function per handler and public call; the steps of a run are
the calls, the trigger firing, and the engine's answers, which are arbitrary. Every signal is the last thing its
handler does, so what an application does in a slot is a later step. `Tls.TlsPrivate` is the object with its
fields; each of its methods is proved equal to the function of the same name. The history (`SessionLog`,
`DataLog`) records every signal and every byte. Four promises end somewhere, and the exact conditions are
stated: the queue is not held back by a pause, so a pause is free of further step signals only if none is
queued, and one engine answer can make several of them due; calls reach the engine without a session when the
object is idle and has something to hand over; the plain bytes reported for output are one short for every
silent engine answer; application data that arrives during the handshake or while closing is dropped.
`TlsIdentity` follows the host a client asks for, and the one a client names to a server, through whole runs to
the comparison with the certificate of the peer. `TlsAnswers` says what every answer and every call makes the
object tell and which state it leads to. close() makes the engine send the end of the session only if there is
something else to hand over (`CloseIsSentIff`), and an error while closing is reported as one of the negotiation
(`ErrorIsTold`), where the documentation of the codes puts it among those that come afterwards.

**Layer tracker** (`LayerTracker`). Converts acknowledged encoded bytes to plain bytes.

**Event broker** (`EventModel`, `EventProofs`, `EventGuarantees`, `EventOwners`, `EventBroker`, `EventHandler`).
Requests of askers pass along a list of handlers by position while handlers start and stop. The log of a run
knows who was asked for which request and which asks are still open: queued for a handler or in its `activeIds`.
A handler answers what it was asked, and once; `EventHandler` proves this of the `activeIds` check, given that
the broker asks for no request twice, which is what `EventGuarantees` proves of the broker. Askers may ask again
at any time, also while an older request of theirs is accepted or pending. `EventOwners` keeps a record of its
own, made from the requests alone, of who was given which id, and proves that every answer reaches its owner and
every refusal the handler behind. Four results show where the guarantees end: an answered asker leaves the list
only when a cancel of its owner finds it first or the last handler goes; a cancel takes the oldest request of
the asker, so one that asks again after being accepted and cancels takes away the old request; after a cancel
the handler's answer finds no asker, which the source only asserts cannot happen; a handler is asked as often as
it was started, so nobody is asked twice if and only if nobody is listed twice.

**Key stores** (`KeyStoreTracker`, `KeyStoreManager`, `KeyStoreRuns`, `KeyStorePending`, `KeyStoreSearch`,
`KeyStoreRefresh`, `KeyStorePrivate`). The tracker reconciles its items with the contexts a provider lists. A
manager holds a snapshot of the items, reports differences, and keeps a registry of KeyStore objects.
`KeyStoreRuns` states what holds over whole runs of a tracker and a manager. `KeyStoreSearch` is the thread of
the tracker: sources start, begin to search and end, the list changes, and notifications are posted and
delivered. `KeyStorePending` puts a manager in a thread of its own beside it: it connects, begins an update,
reads the busy flag, reads the items, takes them over, syncs, sleeps in waitForBusyFinished, and wakes up.
`KeyStoreRefresh` is the asynchronous entry list of one KeyStore, refreshed by operations in threads that read
the store at any moment between their start and their end. The documentation of KeyStore says that it emits
unavailable() when its context goes away and updated() when it changes; of several objects for one store only
the first of its bucket in the registry is told (`OnlyOneIsTold`, `OnlyOneIsUpdated`): the one registered last,
until another one is unregistered, which turns the rest of the bucket around (`RegValues`, `UnregValues`). A
change of name makes updateStores answer that something changed, and no report shows it; every other change of
the list is reported. The documentation of KeyStoreManager says that isBusy tells whether it is looking for key
stores. The flag of the tracker is true until for the first time a source ends and no other one is searching,
and false from then on, whatever sources start or search again (`BusyUntilAllEnded`, `BusyAndSearching`); so
busyStarted() is never sent (`BusyStartedIsNeverSent`).

**Hashes** (`BlockChain`, `Sha1Spec`, `Sha1`, `Sha1Example`, `Md5Spec`, `Md5`, `Md5Example`, `DigestLengths`).
SHA-1 against sections 5.1.1 and 6.1.2 of FIPS 180-2, with the unrolled steps, the rotating register names and
the circular 16-word schedule (6.1.3); MD5 against sections 3.1 to 3.5 of RFC 1321. Both for every way of
cutting the message into updates. Each specification is checked against an example of its standard, worked
through step by step, and the length fields against the number they stand for.

**Base64** (`LineBreaks`, `Base64Codec`, `Base64Alphabet`, `Base64Stream`). Encoding and decoding per section 4
of RFC 4648, the in-place insertion and removal of line breaks, and the filter that joins them. `Base64Alphabet`
ties both tables to the alphabet as the standard writes it, and says which texts are refused and what the others
mean.

**Certificates** (`CertInfo`, `CertTypes`, `CertChain`, `IpAddress`, `IpRefusals`, `Strings`). Conversion
between the ordered list of certificate information and the multimap, chain completion, and the IPv4/IPv6 text
parser. The documentation of chain completion says that a good result means the chain was completed; that holds
for every provider if and only if no certificate was supplied twice (`GoodIsCompleteIff`; `GoodButIncomplete` is
the smallest case in which it fails). The IPv6 parser rejects `::` standing for a single group at either end of
an address without an IPv4 tail, which section 2.2 of RFC 4291 allows; every other printed form is read back.
`CertTypes` states the types, their sections and the order of a list in the words of the standards; `IpRefusals`
says exactly which texts are addresses and which bytes they stand for.

**Integers, message authentication, text form** (`BigInteger`, `Cmac`, `CmacExample`, `EntryText`).
Two's-complement arrays (minimal except that -2^(8k-1) takes one byte more than it needs), AES-CMAC of RFC 4493
over an abstract block cipher, with the examples of section 4 for every cipher that has the values of AES on the
blocks that occur, and the colon-separated text of key store entries. The comment in the source gives the entry
header as qca_def_1; the code writes and expects qca_def, and so does the model.

`Sequences`, `ByteStrings` and `Strings` hold what several parts share.

The engine, providers, block cipher, number reading (QString::toInt) and certificate checks are parameters.

## Model

| member | source | states |
|---|---|---|
| TlsGuarantees.NothingStalls | src/qca_securelayer.cpp:389-580 | In every reachable state between steps, whatever waits has something that resumes it: queued actions have the trigger, need_update has an operation, the trigger or a pause, an operation excludes queued actions and a pause, and what a connected or closing object has not sent, or a session has received and not processed, is held back only by a pause or with need_update set; while connected, bytes the engine took and has not encoded are being worked on, asked for again, or held back by a pause |
| TlsGuarantees.BytesAreConserved | src/qca_securelayer.cpp:493-766 | In every run the bytes handed to the engine followed by what waits are the bytes written, and likewise for network input, data read by the application and network output: no byte is lost, duplicated or reordered |
| TlsGuarantees.EveryEventIsLawful | src/qca_securelayer.cpp:400-491 | In every run each step signal is raised at most once a session and only for its role, the peer is checked before the connection counts as established, closed comes only out of closing, no engine call starts during a pause, and no application byte reaches the engine during the handshake |
| TlsGuarantees.ValidIdentityWasChecked | src/qca_securelayer.cpp:1005-1017 | A valid peer identity is reported only if the peer was looked at in the session and the engine last reported a present, valid certificate that matches the host it was compared with, or that host is empty |
| TlsIdentity.ClientPeerIsTheHost | src/qca_securelayer.cpp:939-947 | In every run, a client started for a host and not started or reset again that reports a valid identity has a peer whose certificate is valid and, if a host was given, matches this host |
| TlsIdentity.ServerPeerIsTheHost | src/qca_securelayer.cpp:642-696 | In every run, a valid identity means a certificate that matches the host last asked for: by a client at its start, by a server as the client hello named it |
| TlsIdentity.PeerIsChecked | src/qca_securelayer.cpp:400-491 | In every run the certificate is compared with the host last asked for, the engine of a client is set up for it, and the identity reported is exactly that of the last check: none, invalid, other host, or valid |
| TlsGuarantees.QueueDrainsInOrder | src/qca_securelayer.cpp:400-491 | Let run without calls, the trigger empties the queue and raises exactly the signals of the queued actions in order |
| TlsGuarantees.PauseIsKeptIffNoStepQueued | include/QtCrypto/qca_securelayer.h:732-774 | In a pause, with no call from the application, no further step signal is raised if and only if no action in the queue has a connected step signal |
| TlsGuarantees.AnswerDrains | src/qca_securelayer.cpp:642-696 | After an engine answer in the handshake, the trigger alone performs everything the answer queued, in order, paused or not |
| TlsGuarantees.OneStepPerPauseIff | src/qca_securelayer.cpp:400-491 | An engine answer in the handshake raises, without a call from the application, exactly the step signals it makes due (host name, peer certificate, certificate request, end of handshake, each by its flag, the answer and its listener); it is at most one if and only if at most one of the four is due |
| TlsGuarantees.TwoStepsInOnePause | src/qca_securelayer.cpp:642-696 | Whenever an engine answer completes the handshake before the peer certificate was told, and both signals are connected, the application is told of both in one pause |
| TlsGuarantees.ClientReachesHandshake | src/qca_securelayer.cpp:582-598 | Every client that is started and whose engine answers with success is in the handshake, waiting for the next answer, with the peer certificate not told: the state the preceding row is about |
| TlsGuarantees.EngineIsCalledWithoutSession | src/qca_securelayer.cpp:493-580 | update(), wherever it is called from, calls the engine without a session exactly when the object is inactive, no operation is under way, nothing is queued, and there is something to hand over |
| TlsGuarantees.CallsReachEngineWithoutSession | src/qca_securelayer.cpp:1060-1104 | write(), writeIncoming() and close() each call the engine without a session under exactly that condition, with the bytes they add |
| TlsGuarantees.PlainBytesReported | src/qca_securelayer.cpp:697-740 | The plain bytes reported for output are those encoded, less one for each engine answer without output; so the report is exact if and only if there was none |
| TlsGuarantees.DataIsKeptIff | src/qca_securelayer.cpp:600-766 | Application data in an engine answer is kept if and only if there is none, or the answer is no error and the object is neither in the handshake nor closing |
| TlsAnswers.AnswerIsTold | src/qca_securelayer.cpp:600-766 | Every engine answer raises, as the trigger runs and without a call, exactly the signals that tell of it, in order, and leads to the right state |
| TlsAnswers.ErrorIsTold | include/QtCrypto/qca_securelayer.h:316-324 | An error ends the session, is signalled once, and its code says whether it came at the start, in the handshake or while closing, or otherwise |
| TlsAnswers.CallIsSilent | src/qca_securelayer.cpp:939-1135 | No call raises a signal; only starting, resetting and closing change the state; starting and resetting forget the error |
| TlsAnswers.CloseIsSentIff | src/qca_securelayer.cpp:1060-1064 | close() of an idle connection makes it closing, and calls the engine if and only if there are bytes to hand over or the engine may have input |
| TlsProofs.NextKeeps | src/qca_securelayer.cpp:285-782 | The invariant of queue, session, buffers and identity is kept by every public call, every trigger and every engine answer |
| TlsProofs.UpdateKeeps | src/qca_securelayer.cpp:493-580 | update() keeps the invariant wherever it is called, leaves queue and trigger alone, and leaves unsent data only with need_update or a pause |
| TlsProofs.HandshakeQueue | src/qca_securelayer.cpp:642-696 | The actions queued by a handshake answer are distinct, in a lawful order, and Handshaken comes last with the peer check before it |
| Tls.TlsPrivate.DoReset | src/qca_securelayer.cpp:285-330 | Resets flags, buffers and peer state as far as the mode says |
| Tls.TlsPrivate.Update | src/qca_securelayer.cpp:493-580 | Refines the specified update: one operation at a time, never while blocked |
| Tls.TlsPrivate.ProcessNextAction | src/qca_securelayer.cpp:400-491 | Refines the specified step of the queue |
| Tls.TlsPrivate.UpdateFinished | src/qca_securelayer.cpp:600-766 | Refines the specified handling of an engine answer in every state |
| Tls.TlsPrivate.ResultsReady | src/qca_securelayer.cpp:769-782 | An engine answer is exactly the specified step |
| Tls.TlsPrivate.DoNextAction | src/qca_securelayer.cpp:792-795 | The trigger firing is exactly the specified step |
| Tls.TlsPrivate.StartClient | src/qca_securelayer.cpp:939-947 | Starting a client is exactly the specified step |
| Tls.TlsPrivate.StartServer | src/qca_securelayer.cpp:949-955 | Starting a server is exactly the specified step |
| Tls.TlsPrivate.ContinueAfterStep | src/qca_securelayer.cpp:389-398 | Ends a pause and updates, and does nothing outside a pause |
| Tls.TlsPrivate.CloseCall | src/qca_securelayer.cpp:1060-1064 | close() is exactly the specified step |
| Tls.TlsPrivate.Write | src/qca_securelayer.cpp:1066-1077 | Application bytes join the end of what waits, and the engine is called if it may be |
| Tls.TlsPrivate.Read | src/qca_securelayer.cpp:1079-1094 | Hands over and clears what was decrypted |
| Tls.TlsPrivate.WriteIncoming | src/qca_securelayer.cpp:1096-1104 | Network bytes join the end of what waits, and the engine is called if it may be |
| Tls.TlsPrivate.ReadOutgoing | src/qca_securelayer.cpp:1106-1135 | Hands over and clears the output with its count of plain bytes |
| LayerTracker.Tracker.Finished | src/qca_securelayer.cpp:81-101 | Returns the plain bytes of the acknowledged items and keeps the rest; all plain bytes are pending, listed or returned, and the total returned is that of one acknowledgement of everything |
| LayerTracker.Tracker.SpecifyEncoded | src/qca_securelayer.cpp:68-79 | Moves no more plain bytes than there are into a new item; totals stay exact while acknowledgements do not exceed what was specified |
| LayerTracker.NothingVanishes | src/qca_securelayer.cpp:81-101 | What is returned and what stays listed add up to what was listed |
| LayerTracker.SplitAcknowledgement | src/qca_securelayer.cpp:81-101 | Acknowledging in two parts returns and leaves the same as acknowledging at once |
| LayerTracker.PaidIsCoveredPrefix | src/qca_securelayer.cpp:81-101 | What is returned is the plain count of the leading items fully covered by the bytes acknowledged |
| LayerTracker.ExcessIsForgotten | src/qca_securelayer.cpp:68-101 | Specifying an item after an acknowledgement leaves the same list as before it exactly when the acknowledgement does not reach the item |
| EventGuarantees.EverySignalIsLawful | src/qca_core.cpp:1653-1844 | In every run no handler is asked twice for a request, each request is accepted or rejected at most once, and with handlers added at the end one is rejected only when every handler was asked |
| EventGuarantees.RoutingIsExact | src/qca_core.cpp:1653-1756 | In every run an id listed under a handler belongs to exactly one asker, which is at that handler, so the look-up in handler_remove cannot fail |
| EventGuarantees.NoRequestIsStranded | src/qca_core.cpp:1653-1844 | In every run a request not yet answered is listed under the handler it is at, which was asked and can still answer |
| EventGuarantees.AnswersFindTheirRequest | src/qca_core.cpp:1758-1797 | In every run an answer a handler can still give finds its request if and only if that was not cancelled; the request is then at that handler and unanswered |
| EventOwners.AnswersReachTheirAsker | src/qca_core.cpp:1653-1844 | In every run each acceptance and rejection is told to the asker to whom the id was given at its request |
| EventOwners.AnswersArePassedOn | src/qca_core.cpp:1663-1829 | A request asks the first handler; an open answer is told to the asker if it accepts, and if it refuses the next handler is asked, or the asker rejected behind the last; after a cancel nobody is told |
| EventOwners.StopPassesOn | src/qca_core.cpp:1721-1756 | When a handler goes, each of its requests, in their order, is asked of the handler behind it, or rejected if there is none |
| EventOwners.HandlersKeepTheirOrder | src/qca_core.cpp:1697-1756 | A new handler stands at the position given or at the end, and all others keep their order over every step |
| EventGuarantees.AcceptedAskerStays | src/qca_core.cpp:1758-1777 | An acceptance answers the request and leaves every asker where it is |
| EventGuarantees.AcceptedAskerLeaves | src/qca_core.cpp:1721-1844 | Over every step, an asker whose request was answered leaves the list if and only if the step is a cancel of its owner that finds it first, or the last handler stops |
| EventGuarantees.CancelWithdrawsOldest | src/qca_core.cpp:1831-1844 | Cancelling withdraws a request if and only if its asker has no older one on the list |
| EventGuarantees.CancelTakesTheOldRequest | src/qca_core.cpp:1831-1844 | After acceptance and a second ask, cancelling removes the accepted request and leaves the pending one |
| EventGuarantees.CancelLeavesAnAnswer | src/qca_core.cpp:1758-1844 | After a cancel of a request not yet answered its handler can still answer, and the look-up of its id fails |
| EventGuarantees.AskedAsOftenAsListed | src/qca_core.cpp:1663-1829 | A request that every handler refuses is asked of every entry of the list in its order and then rejected, on every broker; so no handler is asked twice if and only if none is listed twice |
| EventGuarantees.NextIdStaysNew | src/qca_core.cpp:1653-1844 | No operation, with whatever arguments, leaves an asker with an id not given out yet |
| EventProofs.NextKeeps | src/qca_core.cpp:1653-1844 | Shape, routing, asked handlers before and behind a request, and open answers stay consistent over every step |
| EventProofs.RejectKeeps | src/qca_core.cpp:1663-1694 | Rejecting passes a request to the next handler, which was not asked before, or ends it behind the last |
| EventProofs.RejectAllKeeps | src/qca_core.cpp:1744-1749 | Rejecting all requests of a removed handler leaves each of them routed or ended |
| EventBroker.EventGlobal.AskAt | src/qca_core.cpp:1653-1661 | The id is listed under the handler at the position and that handler is asked |
| EventBroker.EventGlobal.RejectAt | src/qca_core.cpp:1663-1694 | The next handler is asked, or the asker is rejected and leaves |
| EventBroker.EventGlobal.Add | src/qca_core.cpp:1697-1719 | Inserts a handler and shifts the positions at or behind it |
| EventBroker.EventGlobal.Remove | src/qca_core.cpp:1721-1756 | Removes a handler, shifts the positions, rejects its requests one by one, each of which is found, and ends with the last handler |
| EventBroker.EventGlobal.Accept | src/qca_core.cpp:1758-1777 | Unlists the id and tells the asker, or does nothing if handler or asker is unknown |
| EventBroker.EventGlobal.Refuse | src/qca_core.cpp:1779-1797 | Unlists the id and rejects the request, or does nothing if handler or asker is unknown |
| EventBroker.EventGlobal.Request | src/qca_core.cpp:1799-1829 | A request starts at the first handler with a new id, and fails without handlers |
| EventBroker.EventGlobal.Cancel | src/qca_core.cpp:1831-1844 | The first request of the asker leaves the list, and its id every handler |
| EventHandler.OneAnswerPerAsk | src/qca_core.cpp:1849-1920 | If no request is asked for twice, none is answered twice, only those asked for are answered, and the active ones are exactly the others |
| EventHandler.Private.Ask | src/qca_core.cpp:1863-1867 | An ask that arrives makes its id active |
| EventHandler.Private.Answer | src/qca_core.cpp:1895-1920 | An answer goes on to the broker exactly if its id is active, and makes it inactive |
| KeyStoreTracker.Tracker.UpdateStores | src/qca_keystore.cpp:424-496 | Reconciles the items with what a provider lists, keeping unique ids: every item of the provider has the name and access listed, and a new one also the store id and the type; the answer is true exactly when the items changed |
| KeyStoreTracker.Tracker.StoreUpdated | src/qca_keystore.cpp:559-580 | Counts an update of exactly the store concerned and announces it if it is known |
| KeyStoreTracker.Tracker.StartProvider | src/qca_keystore.cpp:401-420 | A source that starts is searching; the busy flag stays as it is |
| KeyStoreTracker.Tracker.BusyStart | src/qca_keystore.cpp:499-512 | A source that begins again is searching, which is announced exactly if it was not; the busy flag stays as it is |
| KeyStoreTracker.Tracker.BusyEnd | src/qca_keystore.cpp:514-536 | The source is not searching any more and the items are reconciled; the busy flag falls exactly if no source is left, and the change is announced exactly then or if the items changed |
| KeyStoreTracker.ReconciledKeeps | src/qca_keystore.cpp:424-496 | After reconciliation tracker ids are unique, the counter has not gone back, and the items of the provider are its listed contexts, each once |
| KeyStoreTracker.IdentityIsKept | src/qca_keystore.cpp:424-496 | An item has an old tracker id exactly if it is an old item with at most its name and access changed; other owners keep their items; new items have new ids and no updates |
| KeyStoreTracker.ListingIsTakenOver | src/qca_keystore.cpp:424-496 | After reconciliation every item of the provider is listed and has the listed name and access; a new one has the listed store id and type; an old one is what it was but for name and access; the items of others are untouched |
| KeyStoreManager.Manager.DoUpdate | src/qca_keystore.cpp:1450-1558 | Takes over the snapshot, and signals busy changes, the stores that went, those that changed and those that came, in this order |
| KeyStoreManager.Manager.TrackerUpdated | src/qca_keystore.cpp:1561-1579 | Queues an update exactly if none is pending; a manager that waits gets the snapshot and is woken exactly if the tracker is not busy |
| KeyStoreManager.Manager.Update | src/qca_keystore.cpp:1581-1588 | Takes the pending flag down and then does the whole update |
| KeyStoreManager.Manager.Register | src/qca_keystore.cpp:1410-1414 | Adds an object to the registry, whose two maps stay inverse |
| KeyStoreManager.Manager.Unregister | src/qca_keystore.cpp:1416-1426 | Takes one object out of the registry; the others of its store stay, in reverse order |
| KeyStoreManager.Manager.GetItem | src/qca_keystore.cpp:1439-1448 | Finds the item with a tracker id exactly if there is one |
| KeyStoreManager.BusyIsTold | src/qca_keystore.cpp:1456-1470 | busyStarted is raised exactly when the flag rose and busyFinished exactly when it fell |
| KeyStoreManager.RegValues | src/qca_keystore.cpp:1410-1414 | A new object comes first among those of its store, and the objects of other stores stay as they are |
| KeyStoreManager.UnregValues | src/qca_keystore.cpp:1416-1426 | Taking an object out turns the other objects of its store around, and leaves those of other stores as they are |
| KeyStoreManager.FindGone | src/qca_keystore.cpp:1474-1490 | The tracker ids of the old snapshot that the new one lacks, in order |
| KeyStoreManager.FindChanged | src/qca_keystore.cpp:1492-1505 | The tracker ids of both snapshots whose update count grew, in order |
| KeyStoreManager.FindHere | src/qca_keystore.cpp:1507-1521 | The store ids of the items only the new snapshot has, in order |
| KeyStoreRuns.TrackerIdsAreForever | src/qca_keystore.cpp:424-496 | Over every run a tracker id stands for one store, and an id that has gone never comes back |
| KeyStoreRuns.InvalidIsForever | src/qca_keystore.cpp:1140-1167 | Over every run a KeyStore object that is not valid never becomes valid, even if its device returns |
| KeyStoreRuns.MadeForItsStore | src/qca_keystore.cpp:1140-1167 | A KeyStore object made for a store id is valid if and only if the snapshot has a store of this id; it then stands for one, comes first for reports, and changes no other object |
| KeyStoreRuns.ReportIsExact | src/qca_keystore.cpp:1450-1558 | A report names exactly the stores that went, those updated that stayed, and those that came since the snapshot |
| KeyStoreRuns.ReportedIffUpdated | src/qca_keystore.cpp:1450-1558 | In every run, from a moment at which the snapshot was taken, a store that is still there is reported as changed if and only if an update of it was counted since |
| KeyStoreRuns.UpdatesAreReported | src/qca_keystore.cpp:559-580 | In every run, an update counted at any moment is still reported by the next report, if the store is there and the snapshot was not replaced in between |
| KeyStoreRuns.CopyHidesChanges | src/qca_keystore.cpp:1561-1579 | A snapshot copied while waiting leaves nothing to report |
| KeyStoreRuns.RenameIsNotReported | src/qca_keystore.cpp:424-496 | A reconciliation is reported if and only if the provider lists other contexts than before; with the same contexts the list changes, and updateStores answers so, exactly if a name or access has changed |
| KeyStoreRuns.OnlyOneIsTold | src/qca_keystore.cpp:1527-1537 | Of the objects of a store that went only the first of its bucket is told, and all of them are invalid |
| KeyStoreRuns.OnlyOneIsUpdated | src/qca_keystore.cpp:1540-1548 | In a report, a KeyStore object is told of an update if and only if its store is among the changed ones and it is the first object of its bucket |
| KeyStoreRuns.NextKeeps | src/qca_keystore.cpp:1410-1600 | Unique tracker ids, the relation of snapshot and tracker, and the registry are kept by every step |
| KeyStoreSearch.BusyUntilAllEnded | src/qca_keystore.cpp:499-536 | In every run of the tracker isBusy is true until a source has ended and left none searching, and false ever after; the sources searching are those that began and have not ended since |
| KeyStoreSearch.BusyAndSearching | src/qca_keystore.cpp:401-536 | In every run, between slots: while not all sources have ended isBusy is true, and a source is searching if and only if one was started; afterwards it is false |
| KeyStoreSearch.LateSearchIsNotBusy | src/qca_keystore.cpp:401-512 | A source that starts or searches again after the flag fell stays searching until it ends, and isBusy stays false |
| KeyStoreSearch.NextKeeps | src/qca_keystore.cpp:401-580 | Every step of the tracker keeps what it shows: the flag only falls, what is searching was started, and while the flag is up with nothing searching nothing was started |
| KeyStorePending.NoChangeIsForgotten | src/qca_keystore.cpp:1561-1588 | In every interleaving of the threads at most one update is queued, exactly while pending is set, and once nothing is posted, queued or in progress the manager shows the busy flag and the items of the tracker |
| KeyStorePending.OneUpdateSettles | src/qca_keystore.cpp:1561-1588 | However many notifications are delivered, they leave one queued update, and that one brings the manager up to date |
| KeyStorePending.SleeperIsWoken | src/qca_keystore.cpp:1633-1645 | While waitForBusyFinished sleeps the tracker is busy or a notification is on its way, and the first one delivered when it is not busy wakes the manager up with the latest state |
| KeyStorePending.BusyStartedIsNeverSent | include/QtCrypto/qca_keystore.h:766-774 | In every run busyStarted is never sent, and busyFinished at most once and only after a moment at which a source had ended and no other one was searching |
| KeyStorePending.NextKeeps | src/qca_keystore.cpp:1450-1588 | Whatever a manager has not seen yet is announced, queued or about to be read, a sleeping manager will be woken, and the flags agree with the queue, over every step of either thread |
| KeyStoreRefresh.NoUpdateIsLost | src/qca_keystore.cpp:1044-1138 | At most one entry list is read at a time; after a notification a list at least as recent is held, being read, or due after the one being read; at rest it is the current one unless the store changed since |
| KeyStoreRefresh.TwoListsSettle | src/qca_keystore.cpp:1103-1120 | Without new notifications the list is up to date after at most two entry lists finish |
| KeyStorePrivate.Private.HandleUpdated | src/qca_keystore.cpp:1054-1065 | Starts a refresh, or notes that one is needed while another is in progress, or signals at once outside asynchronous mode |
| KeyStorePrivate.Private.OpFinished | src/qca_keystore.cpp:1103-1138 | Takes over an entry list and starts the refresh that was noted |
| KeyStorePrivate.Private.StartAsynchronousMode | src/qca_keystore.cpp:1189-1200 | Starts the first refresh, once |
| KeyStorePrivate.Private.HaveEntryListOp | src/qca_keystore.cpp:1044-1052 | Answers whether an entry list is being read |
| Sha1.Context.Update | src/qca_default.cpp:737-757 | Keeps the state the chain of all whole blocks so far, the buffer the rest and the two words the bit count modulo 2^64 |
| Sha1.Context.Final | src/qca_default.cpp:760-784 | Returns the SHA-1 digest of FIPS 180-2 of all bytes hashed; the padding loop ends |
| Sha1.HashPieces | src/qca_default.cpp:737-784 | For every way of cutting a message into updates the digest is that of the whole message |
| Sha1Example.DigestOfAbc | src/qca_default.cpp:574-784 | The digest of "abc" is that of appendix A.1 of FIPS 180-2 |
| DigestLengths.Sha1Length | src/qca_default.cpp:760-768 | The length field is the bit length modulo 2^64, most significant byte first, for a message of any length |
| Sha1.Context.Transform | src/qca_default.cpp:678-722 | Computes the compression of section 6.1.2 of FIPS 180-2 on the 64 bytes |
| Sha1.Circular | src/qca_default.cpp:574-576 | In the circular 16-word schedule the four words the macro picks are those of steps t-3, t-8, t-14 and t-16, and what it makes of them is word t of the 80-word schedule |
| Sha1.Advance | src/qca_default.cpp:574-576 | Writing it in place keeps the 16 words the window of the schedule |
| Sha1.Blk | src/qca_default.cpp:575 | One in-place schedule step returns the next word of the 80-word schedule |
| Sha1.Blk0 | src/qca_default.cpp:669-675 | Loading a word gives the big-endian word of the block on either host |
| Sha1.Steps20 | src/qca_default.cpp:692-700 | Twenty unrolled steps with rotating names are twenty rounds |
| Sha1.DigestBytes | src/qca_default.cpp:774-776 | The digest bytes are the state words, most significant byte first |
| Md5.Context.Append | src/qca_default.cpp:462-497 | Keeps the digest buffer the chain of all whole blocks so far, the buffer the rest and the two words the bit count modulo 2^64 |
| Md5.Context.Finish | src/qca_default.cpp:499-520 | Returns the MD5 digest of RFC 1321 of all bytes hashed |
| Md5.HashPieces | src/qca_default.cpp:462-520 | For every way of cutting a message into updates the digest is that of the whole message |
| Md5Example.DigestOfLetters | src/qca_default.cpp:291-520 | The digest of the 26 letters is that of section A.5 of RFC 1321; on the way every row of the table of section 3.4 (word, rotation, constant) is stated |
| DigestLengths.Md5Length | src/qca_default.cpp:507-509 | The length field is the bit length modulo 2^64, least significant byte first |
| Md5.Context.Process | src/qca_default.cpp:291-449 | Computes the compression of section 3.4 of RFC 1321 on either host |
| Md5.Round1 | src/qca_default.cpp:345-375 | The unrolled first round is sixteen steps of the specification |
| Md5.DigestBytes | src/qca_default.cpp:518-519 | The digest bytes are the buffer words, least significant byte first |
| BlockChain.AbsorbAppend | src/qca_default.cpp:462-497 | Hashing a message block by block may stop and continue at any block boundary |
| BlockChain.CountStep | src/qca_default.cpp:742-746 | Adding with 32-bit words, shifts and a carry test counts bits modulo 2^64 |
| BlockChain.FewestZeros | src/qca_default.cpp:770-772 | The number of padding zeros is the least that leaves eight bytes in the block |
| Base64Stream.StreamRoundTrip | src/qca_textfilter.cpp:442-510 | However the data is cut into encoder updates and the output into decoder updates, decoding is ok if and only if the decoder removes line breaks or none was inserted, and then returns the data |
| Base64Stream.EncoderStream | src/qca_textfilter.cpp:442-510 | The concatenated encoder output is the one-shot encoding, wrapped as one text, however the data is cut |
| Base64Stream.DecoderReads | src/qca_textfilter.cpp:442-510 | A decoder that receives an encoding in any pieces returns what was encoded and stays ok |
| Base64Stream.DecoderRejectsNewline | src/qca_textfilter.cpp:290-359 | Without line break removal any newline makes the result not ok |
| Base64Stream.Base64.Update | src/qca_textfilter.cpp:442-491 | Refines the specified filter step on what was held back and the new input |
| Base64Stream.Base64.Final | src/qca_textfilter.cpp:493-510 | Refines the specified last step |
| Base64Codec.B64Encode | src/qca_textfilter.cpp:246-288 | Computes the encoding of section 4 of RFC 4648 |
| Base64Codec.B64Decode | src/qca_textfilter.cpp:290-359 | Computes the specified decoding and whether the text was valid |
| Base64Codec.RoundTrip | src/qca_textfilter.cpp:246-359 | Decoding an encoding is ok and gives the data |
| Base64Codec.EncodeAppend | src/qca_textfilter.cpp:246-288 | Encodings of whole groups can be put one after the other |
| Base64Alphabet.DigitIsOfAlphabet | src/qca_textfilter.cpp:250-258 | Digit i of the encoder is character i of the alphabet of RFC 4648, and what stands for padding is = |
| Base64Alphabet.ValueIsPosition | src/qca_textfilter.cpp:296-346 | The decoding table gives exactly the characters of the alphabet their positions, marks =, and refuses every other byte |
| Base64Alphabet.DecodedIff | src/qca_textfilter.cpp:290-359 | A text is decoded if and only if its length is a multiple of four, every character is in the alphabet or is =, and = stands only third or fourth in a group; otherwise nothing is returned |
| Base64Alphabet.UnpaddedIsEncoding | src/qca_textfilter.cpp:290-359 | A text of the alphabet in whole groups is the encoding of what it is decoded to |
| Base64Alphabet.PaddingIsZeroBits | src/qca_textfilter.cpp:348-359 | A text with = is decoded as if each = were the digit of zero bits, less one or two bytes at the end by what the last group ends in |
| Base64Alphabet.TestVectors | src/qca_textfilter.cpp:246-288 | The encodings of section 10 of RFC 4648 |
| LineBreaks.InsertLinebreaks | src/qca_textfilter.cpp:371-406 | The backward moves in place put a newline after every full line, and return the column reached |
| LineBreaks.RemoveLinebreaks | src/qca_textfilter.cpp:409-435 | The moves in place leave exactly the bytes that are no newlines |
| LineBreaks.BrokenAppend | src/qca_textfilter.cpp:371-406 | Wrapping in two calls is wrapping at once, and the column stays below the limit |
| LineBreaks.StrippedBroken | src/qca_textfilter.cpp:371-435 | Removing line breaks undoes inserting them |
| LineBreaks.FirstLine | src/qca_textfilter.cpp:371-406 | A text that fills the line is its part up to the limit, a newline, and the rest wrapped from column 0; a shorter one stays as it is |
| LineBreaks.StrippedAround | src/qca_textfilter.cpp:409-435 | Of each byte of a text a newline is left out and anything else kept in its place |
| CertInfo.OrderedToMap | src/qca_cert.cpp:85-111 | The map holds under each type the values in reverse, none under the legacy email type, and the legacy values folded into email without repeats |
| CertInfo.MapToOrdered | src/qca_cert.cpp:124-160 | The list holds the types in the fixed order and then in map order, each with its values reversed, and nothing is left in the map |
| CertInfo.MoveMapValues | src/qca_cert.cpp:113-122 | The values of a type leave the map and follow the list in insertion order |
| CertInfo.RoundTrip | src/qca_cert.cpp:85-160 | Listing a map and reading it back gives the map if and only if it has no legacy email and the section of every entry is that of its id |
| CertInfo.SecondTripIsStable | src/qca_cert.cpp:85-160 | A list whose sections follow from the ids is read into a map that survives another round trip |
| CertInfo.ListIsPermutation | src/qca_cert.cpp:124-160 | The list is a permutation of the map if and only if every entry has the type of its id |
| CertInfo.EmailsAreUnited | src/qca_cert.cpp:96-109 | No legacy email type survives, and the email values are those of both kinds |
| CertInfo.FoldedValues | src/qca_cert.cpp:96-109 | A legacy value is added only if it is not there yet |
| CertInfo.StrictWeakOrder | src/qca_cert.cpp:785-828 | operator< is a strict weak order, and operator== is its equivalence together with the section |
| CertInfo.KnownRoundTrip | src/qca_cert.cpp:200-261 | The id of a known type is recognised as that type |
| CertTypes.KnownTypesAreStandard | src/qca_cert.cpp:164-286 | The known types have the ids and sections of the documentation, an id is recognised as a type if and only if it is its id, and any other id as none |
| CertTypes.ListedTypes | src/qca_cert.cpp:113-160 | An entry of the list is a value the map has under its id; one of the eleven types that come first has the standard section, any other the type under which the map has it first |
| CertTypes.ListedOrder | src/qca_cert.cpp:124-160 | Common name, country, locality, state, organization, unit, email, URI, DNS, IP address and XMPP come first in this order, and all others behind in map order |
| CertTypes.EmailNames | src/qca_cert.cpp:85-111 | No entry read has the PKCS #9 email id, the values of the email id are those of both ids, an added one is an alternative name, and all other entries were in the list |
| CertInfo.Dedup | src/qca_cert.cpp:146-152 | Each type is kept once, in order, and the first with its id stays first |
| CertInfo.SortedIsUnique | src/qca_cert.cpp:85-111 | A multimap is determined by what it holds under each key |
| CertChain.ChainComplete | src/qca_cert.cpp:1761-1801 | The chain starts at the primary, each certificate issues the one before it, none occurs twice, none is gained or lost; invalid CA means the last is not self-signed and nothing left issued it, good that it is self-signed or its first issuer left is in the chain |
| CertChain.IssuersOfChain | src/qca_cert.cpp:1761-1801 | Every issuer in the chain is the first in the pool that is not used yet: whoever stands before it and issued the same certificate is in the chain already |
| CertChain.GoodIsCompleteIff | include/QtCrypto/qca_cert.h:1245-1267 | A good result means a chain up to a self-signed certificate, whatever the provider answers, if and only if no certificate was supplied twice |
| CertChain.GoodIsComplete | include/QtCrypto/qca_cert.h:1245-1267 | At every point of the walk: if chain and pool hold no certificate twice, a good result ends at a self-signed certificate |
| CertChain.GoodButIncomplete | src/qca_cert.cpp:1789-1792 | The smallest case of a good result with an incomplete chain |
| IpAddress.StrToBin | src/qca_cert.cpp:1200-1294 | Computes the specified reading: four, sixteen or no bytes |
| IpAddress.StrToBinV6 | src/qca_cert.cpp:1202-1276 | The right-to-left loop computes the specified scan; the position stays even and within the sixteen bytes |
| IpAddress.StrToBinV4 | src/qca_cert.cpp:1277-1291 | Computes the specified reading of four decimal parts |
| IpRefusals.V4AddressIff | src/qca_cert.cpp:1277-1294 | A text without a colon is an address if and only if splitting at the dots gives exactly four parts, each read as a number from 0 to 255; these are its bytes, and any other text gives nothing |
| IpRefusals.V6AddressIff | src/qca_cert.cpp:1202-1276 | A text with a colon is an address if and only if it has three to eight parts, each a group of at most 0xffff, an IPv4 address in the last place, or empty as the double colon allows, and there is room for them; the bytes are those of the parts at the end of sixteen |
| IpAddress.ParseInvertsPrint | src/qca_cert.cpp:1200-1294 | Every IPv6 address printed in full, with a zero run as ::, or with an IPv4 tail is read back as its sixteen bytes, except exactly when :: stands for one group at either end without an IPv4 tail |
| IpAddress.ParseInvertsDotted | src/qca_cert.cpp:1277-1291 | A dotted IPv4 address is read back |
| BigInteger.NegateBinary | src/qca_tools.cpp:759-777 | The array becomes 2^(8k) minus its value, modulo 2^(8k) |
| BigInteger.ComplementIsNegation | src/qca_tools.cpp:759-777 | What negation computes is the additive inverse modulo 2^(8k) |
| BigInteger.ToArray | src/qca_tools.cpp:901-933 | The array has the signed value of the integer and minimal length, except one byte more for -2^(8k-1) |
| BigInteger.FromArray | src/qca_tools.cpp:935-953 | The integer is the signed big-endian value of the array |
| BigInteger.ThroughArray | src/qca_tools.cpp:901-953 | Every integer comes back from its array |
| BigInteger.SignedIsInjective | src/qca_tools.cpp:935-953 | Arrays of one length with one signed value are equal |
| BigInteger.SmallNumbers | src/qca_tools.cpp:935-953 | The arrays of some small numbers, as the byte order and the sign bit give them |
| Cmac.Context.Setup | examples/aes-cmac/aes-cmac.cpp:81-119 | Makes the subkeys of section 2.3 of RFC 4493 and starts an empty message, unless there is no key |
| Cmac.Context.Update | examples/aes-cmac/aes-cmac.cpp:133-158 | Keeps the chain value of all blocks but the last, of which between 1 and 16 bytes are held back |
| Cmac.Context.Final | examples/aes-cmac/aes-cmac.cpp:160-180 | Returns AES-CMAC of section 2.4 of RFC 4493 of the message |
| Cmac.MacPieces | examples/aes-cmac/aes-cmac.cpp:133-180 | For every way of cutting a message into updates the code is that of the whole message |
| CmacExample.Examples | examples/aes-cmac/aes-cmac.cpp:276-309 | The codes of the messages of 0, 16, 40 and 64 bytes are those of section 4 of RFC 4493, for every cipher with the values of AES on the blocks that occur |
| CmacExample.SubkeysOfExample | examples/aes-cmac/aes-cmac.cpp:81-119 | The subkeys are those of section 4 of RFC 4493 |
| CmacExample.CodeOf | examples/aes-cmac/aes-cmac.cpp:160-180 | A last block of 16 bytes is masked with the first subkey, a shorter or missing one padded and masked with the second, and the cipher applied to it and the chain value |
| Cmac.ShlDoubles | examples/aes-cmac/aes-cmac.cpp:42-63 | The shift doubles the value modulo 2^(8k) |
| Cmac.LeftShift | examples/aes-cmac/aes-cmac.cpp:42-63 | The loop with its overflow bit computes the shift by one of the whole array |
| Cmac.XorArray | examples/aes-cmac/aes-cmac.cpp:65-78 | Bytewise exclusive or |
| EntryText.EscapeString | src/qca_default.cpp:794-811 | Computes the escaped string |
| EntryText.UnescapeString | src/qca_default.cpp:813-840 | Computes the unescaped string, or nothing for a broken escape |
| EntryText.UnescapeEscape | src/qca_default.cpp:794-840 | Unescaping undoes escaping, and an escaped string has no colon, comma or newline |
| EntryText.EscapeUnescape | src/qca_default.cpp:794-840 | Escaping undoes unescaping if and only if the string has no colon, comma or newline |
| EntryText.Codes | src/qca_default.cpp:794-811 | In a string a backslash is written as two, a colon as \c, a comma as \o, a newline as \n, and any other character as itself |
| EntryText.ListRoundTrip | src/qca_default.cpp:842-863 | A list is read back from its text if and only if it is not empty |
| EntryText.EntryRoundTrip | src/qca_default.cpp:873-901 | Every entry is read back from its text |
| EntryText.TextForm | src/qca_default.cpp:866-885 | The text of an entry is qca_def and the store id, store name, entry id, entry name, entry type and data, each escaped and after a colon |
| EntryText.TextIsUnique | src/qca_default.cpp:873-901 | The text an entry was read from is the one it is written as if and only if it has no raw comma or newline |
| Strings.SplitJoin | src/qca_default.cpp:842-863 | Splitting undoes joining of parts without the separator |
| Strings.JoinSplit | src/qca_default.cpp:848-863 | Joining undoes splitting of any string, and no part has the separator |

## Left out

- TLS datagram mode and its packet queues, the session and certificate settings, peer certificate chains, unprocessed bytes and compression: the stream engine does not depend on them.
- SASL, which has an engine of the same shape as TLS.
- TlsGuarantees.EveryEventIsLawful: application data may reach the engine without a session, because the source does not prevent it (see EngineIsCalledWithoutSession).
- TlsGuarantees.PlainBytesReported: does not state an exact count of plain bytes, because the source counts -1 for an engine answer without output.
- LayerTracker.Tracker.SpecifyEncoded: assumes encoded counts are not negative, as the sizes passed in the source are.
- EventGuarantees.EverySignalIsLawful: assumes that a handler is started once; AskedAsOftenAsListed states what happens otherwise.
- Waiting in a thread for the response of an asker, its stored password, and the delivery order of queued calls: a handler answers an ask at any time after it was made.
- KeyStoreManager.Manager.DoUpdate: treats the report as one step; a slot that deletes the manager in the middle of it, or replaces its snapshot with sync(), is not modelled there.
- KeyStorePending: a slot of an update may sync or wait, but not run the event loop; a sleeping manager wakes up only when it is woken.
- KeyStoreRuns.InvalidIsForever: identifies KeyStore objects by names that are used once, and tracker ids by unbounded integers; the counter of the source is an int.
- KeyStoreTracker: finding the providers to start, diagnostic text and write or remove operations on entries.
- KeyStoreSearch: what a source lists is any list of items; that reconciliation makes it is stated in KeyStoreTracker.
- KeyStoreRefresh: entry writes and removals are in progress beside entry lists but have no content.
- Sha1.Context.Transform: says only that bytes outside the block are kept, because the source overwrites the block.
- Sha1.Context.Update: reading an array element as a word of the host is a function of the four bytes; alignment is not modelled.
- Base64Stream.StreamRoundTrip: is about encoder output; the filter accepts padding inside a stream depending on how the text is cut.
- The Hex filter, friendly names, host name matching, constraints, certificate and key import and export, providers and plugins, secure memory, settings, logging.
- CertInfo: the multimap is a sorted list, with the newest entry first under one key, as QMultiMap behaves; strings are compared by character.
- IpAddress.ParseInvertsPrint: reading numbers is a parameter that is assumed to undo writing them; the parser also accepts texts that are no addresses, such as 1:2:3; IpRefusals.V6AddressIff says which, and what it makes of them.
- BigInteger: arithmetic and the decimal form are those of the integer library; an array is made from its magnitude.
- EntryText: the two list functions are written on values, not as loops; entry types are strings.
