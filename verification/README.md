# nameq: a verified model

nameq lets hosts announce named features to each other. A host's features come from its command line and a
directory of JSON files. The service broadcasts them as time-stamped UDP packets, stores a snapshot in S3, merges
what it hears of others into a table of peers, and publishes the table as a tree of files that client libraries watch.

This project models that pipeline from end to end and proves what each stage keeps:

- `PeerTable`, `Observer`, `Network`, `Broadcasts`, `StoragePuts`: the last-writer-wins table, its expiry, and what
  the time constants buy over whole runs, under loss, duplication, reordering and arbitrary interleaving.
- `Packet`: packet framing and the checks a receiver makes.
- `Fanout`: the goroutines of the service with their channels, as a transition system; no wakeup is lost. `Loops` has
  the loops of those goroutines as they are written, each shown to take only steps of that system.
- `Config`, `StateTree`: the overlay of arguments by a directory; one reconciliation pass over the file tree.
- `Monitor`, `Watch`: a watcher racing with the writer of the tree, as a transition system and as the methods of the
  Go library, shown to take only steps of that system.
- `Demux`: forwarding by name, and the unbounded buffer.
- `Listing`, `Scan`: S3 pagination, and the scan that skips useless loads.
- `Json`, `Reencode`, `FindFeatures`: the two client commands.
- `EndToEnd`: from one host's features to the clients of another.

The concurrent parts are step relations. A `Behavior` is any finite run from an initial state, so a lemma about
every `Behavior` and every index is about every reachable state of every interleaving. In `Loops` and `Watch` the
environment takes arbitrary steps between the atomic steps of the code, and each method extends a `Behavior`. The number
of laps of an endless loop is a parameter.

Some properties one might expect are false of the code. The model keeps the code as it is and proves exactly when they
hold:

- A host's stamps enter the table in increasing order only if no more than 885 s pass between a packet's latency check
  and its update (`WholeRunMonotone`); a copy held up for longer is admitted again after expiry.
- Stamps never go back, but versions do once S3 takes part. They do not if and only if senders keep four disciplines,
  which the service does not keep by itself (`VersionsNeverRegress`): each put stores the sender's latest features, at a
  LastModified after all its stamps so far; no put falls between loading a node for a packet and stamping it; and each
  stamp is after the LastModified of all its puts so far. On packets alone versions never go back
  (`HeldVersionNeverRegresses`).
- A table change made by a storage scan is announced to no one, so the state writer sees it exactly if afterwards a change
  of features or a packet has it read the table (`ScanSeenIffTold`).
- The one-line form of a JSON document means the same exactly when every character that gets escaped is at most U+FFFF
  (`ReencodingKeepsMeaning`); the format `%04x` writes more than four digits above that.
- `-single` can panic if and only if no host is held when the monitor's channel closes, and must if moreover there is no
  timeout and none is held from the end of boot on (`PanicIsPossible`, `PanicIsCertain`). The channel closes though nobody
  calls Close when the empty top directory is removed (`RemovedTopPanics`).
- A live peer can expire after 22 lost broadcasts in a row, not after 21, and a live owner's object can be deleted after 3
  failed timer puts in a row, not after 2 (`LivePeerKept`, `LiveObjectKept`).

## Model

| member | source | states |
|---|---|---|
| PeerTable.RemoteNodes.Updatable | service/node.go:150-158 | If true, merging any node of the host with that stamp makes it the entry and changes the table; if false, it changes nothing |
| PeerTable.RemoteNodes.Update | service/node.go:160-178 | Replaces an entry only by a strictly newer one, adds a missing one, and returns an address exactly for a host that was not in the table |
| PeerTable.RemoteNodes.Expire | service/node.go:180-198 | Deletes exactly the entries stamped before the threshold, in two passes and by the entry's own address |
| PeerTable.RemoteNodes.Addrs | service/node.go:200-209 | The addresses of the table, each once |
| PeerTable.RemoteNodes.Nodes | service/node.go:211-220 | The nodes of the table, one per host |
| PeerTable.MergeAllKeepsFirstNewest | service/node.go:160-178 | After any deliveries each host that sent anything has an entry, the earliest arrival among its newest nodes: ties go to the first |
| PeerTable.StrongConvergence | service/node.go:160-178 | Any two delivery sequences with the same nodes, however permuted or duplicated, give equal tables when stamps identify nodes |
| Observer.StepKeepsInv | service/io.go:139-145 | Every interleaved step of receiving, scanning, expiring and waiting keeps the ordering of admissions and what it rests on |
| Observer.WholeRunMonotone | service/io.go:139-145 | In every run each host's admitted stamps strictly increase, across expiry and re-admission, if and only if a checked packet waits at most 885 s for its update |
| Observer.StalledCopyReadmitted | service/io.go:139-145 | Beyond that bound a copy checked before an expiry is admitted again after it |
| Observer.LoadedSurvivesExpiry | service/storage.go:170-201 | The expiry that ends a scan keeps every entry that scan has loaded |
| Observer.DeadPeerGone | service/storage.go:91-107 | With timely scans a peer last stamped at t is out of the table after t + 900 s + 240 s and stays out |
| Network.StepKeepsWireInv | service/node.go:64-72 | Packets of one sender are stamped in the order of their versions, and equal stamps mean equal packets |
| Network.FetchedNotOlderThanListed | service/storage.go:151-189 | Over every run an object fetched by a scan carries a stamp no older than the one listed for it |
| Network.HeldVersionNeverRegresses | service/node.go:160-178 | On packets alone, under loss, duplication, reordering and expiry, the version held of a host never goes back, and nothing but a restart follows a farewell |
| Network.EntryHasSource | service/io.go:127-145 | Every entry held is a packet its host sent or, where objects are loaded, an object it stored |
| Network.VersionsNeverRegress | service/storage.go:112-121 | Over every run with packets and objects the version held of a host never goes back if and only if no objects are loaded or senders keep four disciplines: puts store the latest body, after all stamps so far, none between loading a node and stamping it, and stamps come after all puts so far |
| Network.StaleSnapshotRegresses | service/storage.go:112-121 | A run that goes back because a node marshalled before a change is stored after the change was broadcast |
| Network.EarlyPutRegresses | service/storage.go:186-187 | A run that goes back because the store's clock is behind the sender's |
| Network.BrokenSendRegresses | service/node.go:64-72 | A run that goes back because a node loaded before a change is stamped after the change was stored |
| Network.EarlyStampRegresses | service/node.go:64-72 | A run that goes back because the sender's clock is behind the store's |
| Network.CurrentBodyHeld | service/io.go:145-154 | Once a live sender's last broadcast has what it has now and was merged, it is the entry held |
| EndToEnd.ClientsSeeCurrentFeatures | service/state.go:33-57 | In a quiet network, from there through a pass and a drained monitor, every client's view has exactly that host's current features |
| Broadcasts.LiveEntryIsRecent | service/io.go:32-65 | In every run, however many broadcasts are lost, the entry of a live peer is never older than one gap between good broadcasts and one latency |
| Broadcasts.TooManyLossesExpire | service/io.go:32-65 | A run that expires a live peer once the gap and the latency exceed 900 s |
| Broadcasts.LivePeerKept | service/io.go:14-17 | No run expires a live peer if and only if at most 21 broadcasts in a row are lost, timer resets on notification and replies that do not reset it included |
| StoragePuts.LiveObjectKept | service/storage.go:82-102 | No scan lists a live owner's object for deletion if and only if at most 2 timer puts in a row fail |
| Packet.MarshalPacket | service/packet.go:24-43 | The packet is the byte, the compressed node and their digest: a receiver that knows the mode under its id decodes it to the node, and one without a mode of that byte refuses it |
| Packet.RoundTrip | service/packet.go:45-83 | A marshalled packet decodes to its node exactly under a mode of its byte that agrees on the digest; otherwise which error |
| Packet.AcceptedIsAuthentic | service/packet.go:65-73 | An accepted packet is a message with the one digest of it under the mode's secret; with any other digest the message is inauthentic |
| Packet.SentIsAccepted | service/io.go:123-143 | What an instance sends is accepted unchanged exactly when origin, latency, mode and digest agree, and otherwise dropped |
| Fanout.NoPeerLeftBehind | service/main.go:112-126 | In every reachable state before shutdown each known peer was sent the current features, or a token, a reply naming it or a goroutine mid-step still owes them to it |
| Fanout.NoLostWakeup | service/main.go:81-134 | A consumer of local features that has not read the latest, be it state writer, storage or transmitter, has a token on its way or is about to read; likewise the state writer for table changes by packets |
| Fanout.ShutdownSaysFarewell | service/io.go:25-28 | When both goroutines are done, every peer known at shutdown was sent the empty node and the empty node was put to storage |
| Fanout.TimerScans | service/storage.go:91-107 | In every run the storage timer is followed by a scan's expiry before storage waits again or is done |
| Fanout.TokensRunOut | service/main.go:112-134 | In every reachable state each internal step strictly decreases a measure over tokens, flags, replies and program counters |
| Fanout.QuiescentIsUpToDate | service/main.go:112-134 | When no internal step is possible, all consumers have read the latest and all peers were sent the current features: no deadlock, nothing swallowed |
| Fanout.ScanSeenIffTold | service/storage.go:170-203 | At rest the state writer has seen every table change made by scans if and only if there was none, or since the last one a change of features or a packet had it read the table |
| Fanout.ScanIsNotAnnounced | service/storage.go:170-203 | A run that comes to rest with the state writer behind a table change made by a scan |
| Loops.Service.SelectCase | service/main.go:113-133 | One lap of the select loop is at most one enabled protocol step, keeps the forward variables in step with it, and blocks exactly when no case is ready |
| Loops.Service.Serve | service/main.go:106-136 | The loop takes only protocol steps, and returns only after storage and transmitter have said farewell |
| Loops.Deduplicate | service/io.go:46-58 | The elements of a slice, each once, whatever they are compared by |
| Loops.Service.Transmit | service/io.go:74-98 | Marshals once, then sends that one version, none older than at the start, to exactly the given addresses in any order, leaving what others were sent |
| Loops.Service.Part | service/io.go:24-28 | The farewell goes to exactly the peers known when it starts |
| Loops.Service.TakeAddrs | service/io.go:35-40 | No addresses to reply to means all the peers of that moment, otherwise just those |
| Loops.Service.Select | service/io.go:44-69 | A reply is followed by a round to its addresses, each once; notification and timer by a broadcast; the end by the farewell |
| Loops.Service.TransmitLoop | service/io.go:30-71 | Takes only protocol steps; its first round reaches all peers known when it starts with features at least as new, and no later reply or broadcast takes that back |
| Loops.Service.ReceivePacket | service/io.go:145-154 | The update comes first, then the notification, then for a new peer, and only once there is room, a reply that names it |
| Loops.Service.ReceiveLoop | service/io.go:100-155 | Every packet up to the one it is blocked on has updated the table once |
| Loops.Service.ScanStorage | service/storage.go:170-203 | Each object in a step of its own, then, if any host loaded was new, one reply that names all of these, and last the expiry, which takes what expired out of the table |
| Loops.Service.StorageLap | service/storage.go:84-109 | Whatever wakes it, a lap puts features at least as new as those at its start, or ends with the empty node; woken by the timer it loads each object and expires, woken by a notification it loads nothing |
| Loops.Service.StorageLoop | service/storage.go:76-110 | Takes only protocol steps, and what a lap has put stays at least as new |
| Loops.Service.StatePass | service/state.go:33-40 | A pass takes a token first, and sees every change of features and table made before |
| Loops.Service.StateLoop | service/state.go:32-58 | Every pass takes a token of its own, and the last one has seen all that had changed when the loop began |
| Config.EffectIsOfTheFile | service/config.go:90-116 | In a directory a file's effect does not depend on its place, and a name without a feature file keeps its argument |
| Config.RawIsTrimmed | service/config.go:108-115 | What a document sets is its text without the space around it |
| Config.OverlayIsUnique | service/config.go:83-116 | A directory determines the local features, in whatever order it is listed: they have no history |
| Config.LocalNode.UpdateFeatures | service/node.go:88-116 | Sets a new node, and says so, exactly when the features differ in content |
| Config.FeatureConfig.Overlay | service/config.go:83-116 | For each feature file: a JSON document sets the feature to its raw text, a blank or vanished file removes it, any other leaves the argument; and a name without a file keeps its argument |
| Config.FeatureConfig.ScanConfig | service/config.go:54-70 | A scan replaces the node and requests a notification exactly when the features change; a failed listing changes nothing |
| Config.FeatureConfig.ScanConfigLoop | service/config.go:42-52 | After any run of scans the features are the overlay of the last directory that could be listed, and any change was notified |
| StateTree.WantedIsEveryFeature | service/state.go:36-40 | A file is wanted exactly when its host has its feature, with that feature's value |
| StateTree.StateWriter.Publish | service/state.go:107-116 | Makes the directory if need be, then renames a complete file over the path: two atomic steps |
| StateTree.StateWriter.WriteFeature | service/state.go:73-116 | A file that already has the data is not touched, one that cannot be written stays as it was |
| StateTree.StateWriter.WriteFeatureState | service/state.go:60-118 | All files of a node are settled and named, every other file is as before, at every step in between too |
| StateTree.StateWriter.RemoveOthers | service/state.go:42-52 | Removes exactly the files not named, except where removal fails |
| StateTree.StateWriter.Pass | service/state.go:33-57 | An error-free pass leaves exactly a file for each local feature under 127.0.0.1 and for each feature of each node under its address, with that value; a failure leaves what was there; in every tree on the way each file is wholly old or wholly new and one that is in both is there; a second pass changes nothing |
| StateTree.PassLeavesWanted | service/state.go:33-57 | Whatever the order of its writes and removals, a pass without errors leads from any files to exactly the wanted ones |
| StateTree.DeliveredViewIsWanted | service/state.go:33-57 | From service to client: however the steps of an error-free pass interleave with a monitor, once the pass is over and the monitor has drained its records replay to exactly the local features under 127.0.0.1 and those of each node under its address |
| Monitor.DifferenceIsPending | go/nameq.go:243-305 | In every interleaving of writer and monitor, a path on which tree and view differ has an event, a file scan or a directory scan pending for it, unless the end of the top directory is pending |
| Monitor.DrainedViewIsTree | go/nameq.go:143-167 | With no event and no record pending, the delivered records replay to the tree |
| Monitor.BootAndCloseDiscipline | go/nameq.go:189-239 | Records are delivered in order without loss, Boot is closed at most once and only after all boot records, C exactly once on exit |
| Monitor.MonitorProgresses | go/nameq.go:189-239 | Each step of the monitor decreases a lexicographic measure |
| Monitor.RestIsDrained | go/nameq.go:189-239 | A monitor that can take no step is drained or has exited |
| Monitor.RemovedTopClosesOutput | go/nameq.go:208-213 | A run in which C is closed though nobody called Close, because the empty top directory is removed |
| Watch.FeatureMonitor.Boot | go/nameq.go:143-167 | Watches, lists and scans, taking only protocol steps, and leaves the boot records queued with the end mark behind them all |
| Watch.FeatureMonitor.AddWatchAndList | go/nameq.go:244-253 | Watches the directory, then lists it while it changes: a file that nothing happens to after the watch is listed |
| Watch.FeatureMonitor.AddFeature | go/nameq.go:243-258 | Handles every file listed, and only adds to the queue |
| Watch.FeatureMonitor.AddHost | go/nameq.go:260-287 | Queues a record of what the file holds if its name parses and it still exists, and nothing otherwise |
| Watch.FeatureMonitor.RemoveHost | go/nameq.go:289-305 | Queues a removal if the name parses and the file is still absent, and nothing otherwise |
| Watch.FeatureMonitor.HandleEvent | go/nameq.go:208-229 | Takes the first event and handles it to the end before the loop goes on, or returns if it is the end of the top directory |
| Watch.FeatureMonitor.CloseBootOrDeliver | go/nameq.go:194-202 | Closes Boot once at the mark and sends any other record, first in first out |
| Watch.FeatureMonitor.SelectCase | go/nameq.go:190-239 | The mark comes before anything else, no event is taken while a record is outstanding, it returns only when closed or without the top directory, and blocks only when there is nothing to do |
| Watch.FeatureMonitor.WatchLoop | go/nameq.go:182-241 | With the file system changing at any point: each lap takes one of the records queued at first, in order; whenever the loop pauses with nothing pending what it has sent replays to the tree; when it returns C has been closed once |
| Demux.FeatureBuffer | go/demux.go:67-103 | However the consumer stalls, everything queued comes out in order and the output is closed once at the end, by the steps of the goroutine in the transition system |
| Demux.FeatureDemux.Add | go/demux.go:35-37 | Appends the channel to those of its name; every channel stays registered once exactly if this one was not registered |
| Demux.FeatureDemux.Start | go/demux.go:47-63 | Every channel is sent exactly the features of its name in order, and closed once |
| Demux.NamedIsExact | go/demux.go:57-61 | The features of a name are all of the input that have it, at increasing positions |
| Demux.NothingLostOrReordered | go/demux.go:47-103 | At every moment delivered, held and currently owed features of a subscriber are the input's of its name, in order |
| Demux.ClosedOnceAtTheEnd | go/demux.go:47-103 | A consumer's channel is closed at most once, after the input, and behind a buffer by the return of its goroutine, after everything was delivered |
| Demux.StalledConsumerBlocksNoOne | go/demux.go:39-43 | With buffers everywhere each dispatch can be finished without any consumer receiving anything |
| Demux.SilentStepCounts | go/demux.go:57-61 | During a dispatch every step of the dispatcher or a buffer decreases a measure, so without consumers it does end |
| Demux.RestIsComplete | go/demux.go:67-103 | At rest every buffered subscriber has received all its features and was closed once |
| Listing.AfterIsExact | service/storage.go:263-305 | A listing has each object with the prefix after the marker once, in key order, and nothing else |
| Listing.MarkerResumes | service/storage.go:287-297 | Asking again with the last key seen as marker continues exactly where the listing stopped |
| Listing.ListPages | service/storage.go:286-301 | The loop over pages of any size ends, and is complete exactly when it has yielded everything |
| Listing.ListObjects | service/storage.go:263-305 | Yields exactly the objects with the prefix, each once and in key order, or a proper beginning of them when a later request fails |
| Scan.SkippingLoadsNothingUseful | service/storage.go:137-195 | An object not chosen when listed has nothing to add whatever packets have arrived since |
| Scan.OptimisedRefinesSimple | service/storage.go:137-195 | Skipping them gives the same table and the same new addresses as loading every fresh object |
| Scan.ChooseKeys | service/storage.go:137-158 | The listing loop chooses what the skipping scan chooses, none older than the entry held before, and for deletion exactly the accepted objects that are not newer than the threshold |
| Scan.ScanStorage | service/storage.go:124-204 | With packets arriving at any point: each entry is an old one, a packet's, or a listed object's with its features and LastModified; none is older than the threshold and none at least that old is lost but to one as new; replies go to exactly the addresses that an object brought first; and it is what the simple scan leaves |
| Json.DecodeIsInjectiveOnTokens | cmd/nameq/command/monitor.go:73-78 | A document that decodes has exactly the tokens of its value |
| Json.ValueIsSeparated | cmd/nameq/command/monitor.go:80-82 | No value has two literals or numbers side by side, so dropping space joins no tokens |
| Reencode.EscapeRunes | cmd/nameq/command/monitor.go:83-89 | The rune loop keeps printable characters that are no space and escapes the others |
| Reencode.Encode | cmd/nameq/command/monitor.go:70-90 | A line for exactly the data that is JSON: no space, control, unprintable or HTML character, untouched if nothing needs an escape, and decoding to the same value if and only if every character above U+FFFF is printable |
| Reencode.NoSpaceRemains | cmd/nameq/command/monitor.go:83-89 | Every printed character is above the space, is not DEL, and beyond that is printable |
| Reencode.CompactHasNoHtml | cmd/nameq/command/monitor.go:80-82 | The marshalled document has no `<`, `>`, `&`, U+2028 or U+2029 |
| Reencode.StringSurvives | cmd/nameq/command/monitor.go:83-89 | A string reads back as the same code points exactly when it has no character above U+FFFF to escape; escapes and surrogate pairs are not broken up |
| Reencode.TokensSurvive | cmd/nameq/command/monitor.go:70-90 | The tokens of a document are read back exactly when all its strings are |
| Reencode.ReencodingKeepsMeaning | cmd/nameq/command/monitor.go:70-91 | A document decodes to the same value after compaction and escaping if and only if it has no character above U+FFFF that is not printable |
| Reencode.TagCharacterIsLost | cmd/nameq/command/monitor.go:87 | A document whose meaning is lost: a string of U+E0001 |
| FindFeatures.HeldIffLastAdded | cmd/nameq/command/monitor.go:184-201 | A host is held exactly when its last matching record was an addition, and never twice |
| FindFeatures.HeldIsView | cmd/nameq/command/monitor.go:184-201 | For one feature the hosts held are those that have it in the view the records replay to |
| FindFeatures.ListedInLastAddOrder | cmd/nameq/command/monitor.go:233-255 | Of two hosts listed the later one was added later |
| FindFeatures.StringOrderMap.Add | cmd/nameq/command/monitor.go:233-236 | The key moves to the end; ranks stay distinct and below the next one |
| FindFeatures.StringOrderMap.Remove | cmd/nameq/command/monitor.go:238-240 | The key disappears and the others keep their order |
| FindFeatures.StringOrderMap.Array | cmd/nameq/command/monitor.go:242-255 | All keys by rank |
| FindFeatures.StringOrderMap.RepresentsOne | cmd/nameq/command/monitor.go:242-273 | That list is the only one |
| FindFeatures.Collect | cmd/nameq/command/monitor.go:152-202 | The loop holds the hosts of the records received; unless the channel closes after all of them it goes on to the end of boot, and then until some host is held or time is up with none |
| FindFeatures.FindFeatures | cmd/nameq/command/monitor.go:204-212 | Prints exactly the hosts whose last matching record was an addition, in the order of these records; with `-single` the one added last; nothing on timeout; panics only where that is possible and always where it is certain |
| FindFeatures.PanicIsPossible | cmd/nameq/command/monitor.go:204-207 | A panic is possible if and only if `-single` is given and no host is held after all records sent before the channel is closed |
| FindFeatures.PanicIsCertain | cmd/nameq/command/monitor.go:154-182 | It is certain if and only if moreover there is no timeout and no host is held at any time from the end of boot on |
| FindFeatures.RemovedTopPanics | go/nameq.go:208-213 | A monitor run whose records make it certain: the empty top directory is removed |

## Left out

- Sockets, the AWS client, inotify, real files, signals, logging, the command line and address guessing: plumbing. What they do to the pipeline appears as steps, parameters or failures.
- DEFLATE, HMAC-SHA1, JSON of a node on the wire, and address parsing: parameters of `Packet`, with the round trips the libraries promise.
- The random intervals and the random order of addressees are arbitrary choices within their bounds. Clocks do not run backwards, and the bounds of `Broadcasts` and `StoragePuts` assume synchronised clocks.
- A sender's stamps strictly increase where order is claimed; S3 shows a scan its latest objects. `Scan` takes an object to be the same when it is listed and when it is loaded; `Network` does not.
- Null feature values, on which `updateFeatures` dereferences a nil pointer: a null is a text like any other here.
- Hosts named in several spellings, IPv6, addresses that do not resolve, names with path separators, and a remote that calls itself 127.0.0.1.
- Overflow of the watch queue, I/O errors of the monitor, symbolic links, and removal of feature directories, which the service never does; the top directory can be removed, once, while it is empty and watched.
- python/nameq/__init__.py: the Python monitor takes the same steps as the Go one with every file name counted as a host, which `Monitor` covers; its skipping of contents that are not JSON, and the batches in which it delivers, are not modelled.
- cpp/nameq.cpp: watches a new directory without listing it, so agreement does not hold of it.
- Failed start-up: a failing first put or listing makes `Serve` return an error at once; the model begins with a service that starts. Writes and puts in `Fanout` count as done when attempted, since their errors are only logged; a scan whose listing fails counts as one that loads and expires nothing.
- The handler in service/config.go compares a path error with os.ErrNotExist, which a system call's own error never equals. `Config` follows the code: whether they are equal is part of what reading a file gives.
- Loops.Deduplicate: the source compares pointers to addresses. The method is for elements compared by whatever they are, but the protocol's replies are sets of addresses; a peer queued twice by different pointers is sent twice by the source.
- Loops.Service.TransmitLoop: a finite number of laps; so also `Serve`, `StorageLoop`, `StateLoop`, `ReceiveLoop` and `WatchLoop`. A sender to the full reply channel waits for a bounded time and then counts as blocked.
- Demux.FeatureDemux.Start: channels take what they are sent at once; blocking and buffering are in the transition system of the same module.
- Demux.StalledConsumerBlocksNoOne: says nothing of channels of bounded capacity, on which dispatch does block. Plain channels without any buffer are not modelled.
- FindFeatures.StringOrderMap.Array: the library sort is an insertion sort.
- StateTree.DeliveredViewIsWanted: assumes that every owner's address parses as a host name.
- JSON text is a sequence of code points; invalid UTF-8 and the library's nesting limit are not modelled, numbers compare by their spelling, and objects as the list of their members.
