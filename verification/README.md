# A model of the push server and its utilities

The server (`comet/`) holds one TCP connection per device. A connection's
goroutine decodes frames and runs handlers; worker goroutines take jobs from
queues and write to sockets and to Redis. This project models that machinery
and some self-contained algorithms from `utils/`, and proves what they promise.

`dafny verify dfyconfig.toml` checks everything.

How the modules divide the system:

- **Frames.** `Message` is the ten-byte header. `Decoder` is the read loop of
  `handleConnection`, proved to produce, for every stream and every way the
  deadlines cut it, what a one-shot decoder produces.
- **Sending.** `Delivery` is a state machine of sessions, worker queues and
  sockets, one step per action that another goroutine can come between; any
  number of workers and clients interleave. `Correlation` adds command replies
  on the same machine. `Sender` is `SendJob`, `SendMessage` and the worker loop
  on the objects, each proved equal to what the machine's steps do.
- **Sessions.** `Handover` is opening and closing over several servers.
- **Registrations.** `Apps` has the registration objects. `Registry` is a state
  machine with one step per lock section or store access of every handler;
  `RegistryRuns` puts whole handlers together from its steps, and `Lookups` and
  `Handlers` are `AppManager` and the handlers on the objects, whose
  uninterrupted execution is shown to be a run of the machine. `UserIndex` is
  about the hashes `db_user_*`, `Topics` about subscriptions, `Acks` about
  acknowledged message ids.
- **Routing.** `Routing` compares online pushes with offline replay; `Offline`
  is the selection and sorting of stored messages, with the float64 sort keys.
- **Utilities.** `DependencyGraph`, `TruncIndex`, `ShellQuote`, `Broadcaster`,
  `KernelVersion`, `Signing`, `RandomSpec`. `Sequences` has what they share, such
  as sorting by any total order.

Inputs that the code does not determine are parameters or scripts: how each
read, write and store access ends, the clock, the order in which a Go map is
visited, the random numbers. Go slices that share an array are windows on one
Dafny array, so an in-place deletion is visible through the other window.

Where the properties do not hold as one might hope, this is proved instead:

- Two sessions hold one device at some time exactly if one of them stores it
  after asking the other's server before the other stored it there, after a
  process of the same name deleted it there, or not at all because that server
  is not in `comet_nodes` (`Handover.DoubledIffSlips`, for every run). If checks
  do not overlap, servers that accept are listed and no process takes the name
  of a running one, it never happens; each of the three is needed. The code
  secures none of them: a failed `AddComet` is only logged
  (comet/server.go:298-300) and `GetLocalIP` falls back to one fixed name
  (utils/utils.go:1146-1179).
- Unregistering an app of a user leaves the user index right exactly if no update
  of the app is still queued (`UserIndex.SafeToUnregister`): the update brings the
  erased record back (`Acks.UnregisterSticks`), but not the index entry. A crash
  leaves it right exactly if no session has written a record whose index entry is
  still to come (`UserIndex.SafeToDie`). Where the index is wrong, and only there, a push
  by user id misses a registration online and reaches it offline, or the other
  way round (`Routing.AgreementNeedsIndex`).
- Online and offline routing differ for a registration while its own device's
  handler is just entering it into a table or taking it out of one, and exactly
  then (`Routing.RoutingAgreesInRuns`). An app whose `AddApp` has returned is in
  regappMap and not yet in `RegApps`, so that a push to its device misses it.
- A push to a group of more than one page finds the first page for ever
  (`Routing.FirstPageAgain`): `SetScan` ignores its cursor (storage/redis.go:704-705).
- The sender filters of online and offline routing differ for a registration
  without send ids when the message has one (`Routing.SendersAgree`).
- Offline replay is complete and ordered exactly when the selected ids are
  float64 numbers, as all up to 2^53 are (`Offline.ReplayExactIff`).
- A failed unsubscribe spoils the topic list unless it was for the last topic
  (`Topics.FailedUnsubscribe`).
- Shell quoting leaves a word such as `#a` bare, which begins a comment
  (`ShellQuote.QuotingRoundTrips`).
- Forms are signed by their pairs as long as no pair has an `&`
  (`Signing.SignTwice`); with one, two pairs sign like one (`Signing.AmpersandMerges`).
- A version with a negative number does not survive printing and parsing
  (`KernelVersion.PrintParseRoundTrip`).
- `TruncIndex.Get` agrees with the ids on a non-empty prefix exactly if it has no
  space in it or does not occur exactly once (`TruncIndex.GetMatchesPrefixes`).
  `Get("")` on an empty index slices with a negative length and panics.
- A device, app and user share the text under the hash in `RegId` with another
  triple if and only if one of them has an underscore (`Apps.KeyTextUnique`).
- `RandomStringSpec0` panics on an empty set, and on a set of one rune for almost
  every draw.

The comment on `RegisterApp` (comet/app_manager.go:81-87) says that a stored
record is loaded. The code (comet/app_manager.go:97-107) overwrites it; the
model follows the code.

## Model

| member | source | states |
|---|---|---|
| Message.DeserializeSerialize | comet/message.go:60-75 | a serialized header, with any bytes behind it, is read back as it was |
| Message.SerializeDeserialize | comet/message.go:60-75 | every ten bytes are the serialization of the header read from them |
| Message.BigEndianOrder | comet/message.go:60-67 | numbers are ordered as their four bytes are, the first byte counting most |
| Message.SerializeOrder | comet/message.go:60-67 | headers are ordered as their ten bytes are, by type, version, number and length; as every ten bytes are a header, only this format does that |
| Message.Positions | comet/message.go:60-67 | byte 0 is the type, byte 1 the version; small numbers end in bytes 5 and 9; another number or length changes only its own four bytes |
| Message.HeaderRef.Read | comet/message.go:69-75 | fewer than ten bytes are an error and leave the receiver alone |
| Decoder.DecodeIsExact | comet/server.go:409-500 | the events and the held bytes spell out the consumed stream, byte for byte; no body is longer than allowed |
| Decoder.DecodeAfterFrames | comet/server.go:409-500 | complete frames in front of any bytes are read as themselves and do not disturb the rest |
| Decoder.DecodeEncode | comet/server.go:409-500 | every list of well-formed frames survives encoding and decoding |
| Decoder.DecodeSplit | comet/server.go:409-500 | decoding a stream in two parts, the held bytes carried over, is decoding the whole, wherever it is cut |
| Decoder.Conn.MyRead | comet/server.go:86-96 | a read gives the next bytes of the stream in the right place, as many as arrive, fit and are left, or fails and gives none |
| Decoder.HoldHeader | comet/server.go:438-449 | bytes that leave a header incomplete are only held |
| Decoder.HoldBody | comet/server.go:459-485 | so are bytes that leave an announced body incomplete |
| Decoder.RefuseFrame | comet/server.go:455-458 | a header that announces too long a body ends decoding without a call |
| Decoder.FinishFrame | comet/server.go:409-500 | bytes that complete a frame add one event, and a call exactly if it has a body and its type has a handler |
| Decoder.FrameReader.ReadFirstByte | comet/server.go:423-437 | one step of the loop keeps buffers and counters those of the one-shot decoder; a zero byte is a heartbeat |
| Decoder.FrameReader.ReadHeader | comet/server.go:438-469 | the same for header bytes; a body buffer is no longer than maxBodyLen |
| Decoder.FrameReader.ReadBody | comet/server.go:470-500 | the same for body bytes; a complete body is dispatched |
| Decoder.HandleConnection | comet/server.go:399-500 | however reads are cut, calls, heartbeats and held bytes are those of the one-shot decoder on the bytes consumed; reading goes on until a read breaks, none is left, or a header is refused |
| Delivery.MineAppend | comet/server.go:344-347 | a job queued on a worker reaches only its own client's part of the queue, at the end |
| Delivery.StepFrame | comet/job.go:21-35 | each action leaves every other client and every other worker as they are |
| Delivery.WriteStep | comet/server.go:119-138 | a header or body write, even one cut short, keeps the wire a prefix of the queued frames |
| Delivery.TakeStep | comet/job.go:21-35 | a worker takes its oldest job; a closed session's job is dropped without a byte |
| Delivery.EnqueueStep | comet/server.go:157-196 | queueing keeps the wire invariant |
| Delivery.InvRuns | comet/job.go:21-35 | the wire invariant holds in every run, with any number of workers and clients |
| Delivery.FramesEncode | comet/message.go:60-75 | a device decodes the frames of any jobs into exactly those messages |
| Delivery.CutIsHeld | comet/server.go:119-138 | a truncated frame yields nothing to the device |
| Delivery.WireIntegrity | comet/server.go:119-196 | in every run a client's wire is the whole frames of a prefix of its jobs in order, plus at most one cut frame, left over only with `closed` set; the device reads back exactly those messages, and all of them when the session is open and its worker has nothing to do |
| Delivery.MarkClosedStops | comet/server.go:119-123 | in every run after a session is marked closed, only jobs that a worker had taken before get out |
| Delivery.CloseSocketStops | comet/server.go:363-366 | and after its socket is closed, nothing does |
| Correlation.AllocateStep | comet/server.go:202-204 | a new sequence number differs from all given to other commands of the session, below 2^32 allocations |
| Correlation.RegisterStep | comet/server.go:139-142 | a channel is registered once, under its own number |
| Correlation.CmdReplyStep | comet/handlers.go:280-293 | a reply goes to the channel waiting for its number, which then waits no more; every registered channel stays accounted for |
| Correlation.RepliesMatchCommands | mq/rpc_server.go:141-184 | over every interleaving of jobs, replies and timeouts a channel gets at most one reply, bearing the number allocated for it and for no other |
| Correlation.CommandsAccounted | comet/server.go:119-155 | no command is lost in any run: once its job is done it is registered, unless the session was closed right behind its frame or before; and a registered command is exactly one of waiting under its number, timed out, or answered by exactly one reply |
| Correlation.ReplyArrives | comet/handlers.go:280-293 | in every reachable state, the answer to a registered command that has not timed out and not been answered goes to its channel |
| Correlation.NobodyGivesUp | comet/server.go:198-200 | a command times out only if MsgTimeout is called |
| Sender.Session.NextSeq | comet/server.go:202-204 | counts up modulo 2^32; the new state is the machine's after allocating the number |
| Sender.Session.SendMessage | comet/server.go:157-183 | one job with a header of its own whose length is that of the body; the new state is the machine's after allocating the number, if none was given, and queueing the job; nothing if too many replies are awaited |
| Sender.Session.SendMessage2 | comet/server.go:185-196 | one job that shares the caller's header, which stays as it is; the new state is the machine's after allocating and queueing |
| Sender.SendIsARun | comet/server.go:157-183 | allocating a number and queueing its job is a run of the machine |
| Sender.AnswerIsARun | comet/server.go:157-183 | so is queueing an answer under the number of what it answers |
| Sender.Session.MsgTimeout | comet/server.go:198-200 | the number leaves replyChannels; what the machine's timeout step does |
| Sender.Session.HandleCmdReply | comet/handlers.go:280-293 | the waiting channel leaves replyChannels and is sent this one reply; nothing is sent if none waits; what the machine's reply step does |
| Sender.SendJob.Do | comet/server.go:119-155 | leaves a shared header alone; its effect on the client is exactly the machine's, for every outcome of the two writes |
| Sender.DoIsARun | comet/server.go:119-155 | a job done without interruption is a run of the machine |
| Sender.JobWorker.Run | comet/job.go:21-35 | jobs are done from the front, each once, until the stop or an empty queue; every client sees the effect of its own jobs in order |
| Handover.OneSessionPerDevice | comet/server.go:552-588 | if checks for one device do not overlap, every accepting server is listed and no process takes the name of a running one, at most one session holds a device on all servers; when a new one has stored the device, no table entry of an older one is left |
| Handover.CloseErasesOwn | comet/server.go:363-380 | no step of closing a session erases a table entry or the presence of another |
| Handover.CloseLeavesNothing | storage/redis.go:196-199 | in every reachable state under the three assumptions, once the holder's entry is erased its device is present nowhere |
| Handover.HandsOver | comet/server.go:363-380 | from every such state in which c holds a device, d waits for it and nobody is asking for it, some run closes c and lets d in |
| Handover.PresenceHistory | storage/redis.go:191-241 | in every run, without any assumption, an entry is present exactly if it was at first or was written, and has not been erased since |
| Handover.NodesHistory | comet/server.go:298-300 | comet_nodes has exactly the names that were there or could be added |
| Handover.StaysAway | comet/server.go:552-588 | a connection that is refused, told no, not stored or closed, or whose process dies, is out for good |
| Handover.AppsFrame | comet/server.go:363-370 | registering enters exactly the app, unregistering and closing take exactly it out |
| Handover.InvStep | storage/redis.go:191-225 | every single access to shared state, the look into the local table among them, keeps sole holder, sole asker and entry ownership |
| Handover.StartStep | comet/server.go:247-250 | a process that starts takes away only what dead ones left present |
| Handover.DieStep | storage/redis.go:235-241 | a process may die at any point; what is present under its name stays until the name is used again |
| Handover.Asking | storage/redis.go:209-225 | whoever is asking has asked, since it read the list, every server of the list that is not left, and was told no |
| Handover.Holding | storage/redis.go:191-199 | what a session stored is present until another process deletes it, while nobody else holds the device |
| Handover.DoubledIffSlips | comet/server.go:552-588 | in every run, without any assumption, two sessions hold one device at some time if and only if one stores it after asking the other's server too early, too late, or not at all because it is not listed |
| Handover.OverlapAdmitsTwo | comet/server.go:552-588 | from every state in which two connections wait for a device that is present nowhere, both can get in if their checks overlap |
| Handover.UnlistedAdmitsTwo | comet/server.go:298-300 | if one of them is on a server that is not listed, both can get in one after the other |
| Handover.SharedNameAdmitsTwo | comet/server.go:247-250 | from every state in which a session holds a device, a process that starts under the name of its server lets another session in |
| Apps.KeyTextInjective | comet/app_manager.go:42-44 | the text that is hashed determines device, app and user if the first two have no underscore |
| Apps.KeyTextCollides | comet/app_manager.go:42-44 | an underscore moved from one field to the next gives a different triple with the same text |
| Apps.KeyTextUnique | comet/app_manager.go:42-44 | for every device, app and user: another triple has the same text if and only if one of the three has an underscore |
| Registry.MapFrame | comet/app_manager.go:50-85 | a handler changes entries of its own device only |
| Registry.SessionsStay | comet/server.go:363-370 | unless the process dies, a session ends only when it has no entry left in regappMap |
| Registry.InvStep | comet/app_manager.go:50-160 | every lock section and store access of every handler keeps table, sessions and stored records consistent |
| Registry.RegistryAgrees | comet/handlers.go:146-175 | in every run, between handlers, regappMap is the disjoint union of the sessions' RegApps, each under its own id |
| RegistryRuns.LoadRun | comet/server.go:598-608 | a named app that INIT loads, as a run of the machine |
| RegistryRuns.CloseAllRun | comet/server.go:363-370 | the whole loop of closeClient, as a run of the machine |
| Lookups.AppManager.AddApp | comet/app_manager.go:50-67 | an id in memory keeps its object, another gets a new one |
| Lookups.AppManager.RegisterApp | comet/app_manager.go:88-117 | refused if in memory or the record cannot be stored; otherwise registered now, with no message acknowledged, no topics and no send ids; the record is overwritten and the two indexes written if they can be |
| Lookups.AppManager.RegisterApp2 | comet/app_manager.go:119-144 | refused if in memory or not stored; otherwise the stored record is loaded |
| Lookups.AppManager.UnregisterApp | comet/app_manager.go:149-160 | erases the three hash entries, each if it can be, and always the memory entry |
| Lookups.AppManager.GetApp | comet/app_manager.go:174-186 | the registration with this id and app |
| Lookups.AppManager.GetApps | comet/app_manager.go:202-212 | exactly the registrations of the app, each once if every object lies under its own id |
| Lookups.AppManager.GetAppsByTopic | comet/app_manager.go:282-295 | exactly those of the app whose topics match, each once likewise |
| Lookups.AppManager.GetAppsByUser | comet/app_manager.go:214-234 | exactly those in memory that the user's hash lists for the app, each once likewise; none if the hash cannot be read |
| Handlers.Client.HandleRegister | comet/handlers.go:95-175 | result codes, among them for an app record that cannot be read or decoded; a conflict or failure changes nothing, success adds exactly this app to RegApps, registered now and with no message acknowledged; a run of the machine |
| Handlers.Client.HandleRegister2 | comet/handlers.go:313-388 | result codes; registers the package's app or finds it registered, and adds the new send ids; if these cannot be stored the app stays registered without them, if its record cannot, nothing changes; a run of the machine |
| Handlers.Client.HandleUnregister | comet/handlers.go:198-222 | result codes; only the app with this id leaves RegApps and regappMap; a run of the machine |
| Handlers.Client.Unregister | comet/handlers.go:219-221 | erases what can be erased and always removes the app from memory; a run of the machine |
| Handlers.Client.HandleUnregister2 | comet/handlers.go:409-460 | result codes; takes one send id away, or all, and unregisters the app if none is left; a run of the machine |
| Handlers.Client.LoadNamed | comet/server.go:596-608 | every named app that is stored is in memory afterwards, unless a read failed; what was there stays, and what is new has a named record; a run of the machine |
| Handlers.Client.LoadStored | comet/server.go:609-629 | lists and loads exactly the stored apps that are known, with their records; a run of the machine |
| Handlers.Client.HandlePushReply | comet/handlers.go:222-269 | an acknowledgement that is taken is one step of the machine, any other none |
| Handlers.RunUpdate | comet/handlers.go:228-234 | the worker's update is one step of the machine |
| Handlers.Client.CloseClient | comet/server.go:363-370 | exactly the client's registrations leave regappMap; a run of the machine |
| UserIndex.IndexKept | comet/app_manager.go:108-112 | in every state of every orderly run, whatever handlers are running, each registration in memory is listed under its user and no other, except one about to leave memory, which is not listed |
| UserIndex.EraseKeeps | comet/app_manager.go:149-160 | an index entry goes only after the record and its updates have gone |
| UserIndex.UpdateOutlivesApp | comet/handlers.go:228-234 | from every state in which an app of a user has an update queued, unregistering it can go on until the record is back and the index entry is not |
| UserIndex.StaleUpdateBreaksIndex | comet/handlers.go:228-234 | and then until the app is in memory again without its index entry, its device between handlers |
| UserIndex.SafeToUnregister | comet/handlers.go:219-221 | in every reachable state, whatever other devices are doing, unregistering an app leaves the index right for ever after if and only if the app has no user or no update of it is queued |
| UserIndex.CrashLosesIndex | comet/app_manager.go:104-112 | from every state between the writes of a record and of its index entry, a crash leads to an app in memory without the entry |
| UserIndex.CrashKeepsStore | comet/app_manager.go:104-112 | in every reachable state, a crash leaves every stored record listed if and only if no session is between those writes with the entry missing |
| UserIndex.SafeToDie | comet/app_manager.go:104-112 | and, if and only if so, the index in memory is right for ever after. States hold references to objects and a lemma cannot allocate, so this supposes that there is an object for each half-written record, as INIT would make it |
| Topics.Append | comet/handlers.go:512-532 | append, in place while there is room, does not disturb the shorter window |
| Topics.DeleteAt | comet/handlers.go:584-598 | deletion by shifting removes one position; the longer window sees the shifted array |
| Topics.Subscriptions.HandleSubscribe | comet/handlers.go:512-538 | result codes and new topics; a failed write changes nothing |
| Topics.Subscriptions.HandleUnsubscribe | comet/handlers.go:584-605 | result codes and new topics, also what a failed write leaves behind |
| Topics.WithoutRemoves | comet/handlers.go:584-598 | on a list without duplicates, deletion is set removal |
| Topics.Subscriptions.HandleAll | comet/handlers.go:492-605 | any requests in a row, with successful writes, act on the object as the list says |
| Topics.TopicsStayASet | comet/handlers.go:512-598 | any run of requests keeps the list duplicate-free and at most ten long and acts on it as on a set |
| Topics.FailedUnsubscribe | comet/handlers.go:584-598 | a failed write leaves the list intact if and only if the topic was the last |
| Topics.MatchTopics | comet/app_manager.go:240-280 | the nested loops decide subset, intersection, and first in with the rest out |
| Routing.Comet.GetAppByDevice | comet/app_manager.go:188-200 | the device's registration of the app |
| Routing.Comet.PushMessage | comet/comet.go:61-90 | one copy is queued for the registration's device exactly if the sender filter passes and the device is connected |
| Routing.Comet.PushMessages | comet/comet.go:92-181 | if the user index can be read, queues for each registration that passes the filter and is connected exactly as many copies as the lookups come upon it: one for a push to all or by topic, one for each listing of its id, user or device, one for each place among the devices its groups' scans give; never more |
| Routing.FoundIsOnline | comet/comet.go:112-181 | the lookups come upon exactly the registrations that online routing is meant to select, if each group fits on one page |
| Routing.ListingsCount | comet/app_manager.go:214-234 | where the index is right, a push by user comes upon a registration once for each time its user is given |
| Routing.ScansFindGroups | comet/comet.go:154-178 | scans of groups of one page each give exactly the groups' devices |
| Routing.FirstPageAgain | storage/redis.go:704-717 | every scan begins at cursor 0: a group with a further page is never got past, and k scans give each device of its first page k times |
| Routing.HandleOfflineMsgs | comet/server.go:642-725 | queues the messages that pass, in order |
| Routing.TablesAreProper | comet/comet.go:112-153 | the tables are keyed as the pushes suppose, in every state of every run |
| Routing.AgreeByDevice | comet/app_manager.go:188-200 | by device or group, both routings treat a registration alike if and only if it is not just moving between regappMap and its client's RegApps: an app whose AddApp has returned is in the first only, one being removed in the second only |
| Routing.AgreeByUser | comet/app_manager.go:214-234 | by user, if the index agrees, if and only if its index entry is not erased already while it is still in memory |
| Routing.RoutingAgrees | comet/comet.go:112-181 | for every kind of push, if the user index agrees, both routings treat a registration alike if and only if it is not in transit in one of these ways |
| Routing.AgreementNeedsIndex | comet/app_manager.go:214-234 | in every reachable state, pushes by user agree on what is not in transit, and only on that, if and only if the user index agrees |
| Routing.RoutingAgreesInRuns | comet/comet.go:112-181 | in every state of every orderly run both treat a registration alike if and only if it is not in transit; so they do whenever its own device is between handlers, whatever the others are doing |
| Routing.StaleUpdateSplitsRouting | comet/handlers.go:228-234 | from every reachable state in which an app of a user has an update queued, all writes successful, a state in which its device is between handlers and the routings differ for it |
| Routing.SendersAgree | comet/comet.go:62-76 | the sender filters agree if and only if the message has no sender or the registration has some |
| Offline.RoundsToNearest | storage/redis.go:123-132 | rounding gives a number with a significand of 53 bits, and none is nearer |
| Offline.TiesToEven | storage/redis.go:123-132 | of two that are as near, the even one |
| Offline.FixedIfFloat | storage/redis.go:123-132 | an id survives exactly if it has a significand of 53 bits |
| Offline.RoundIdempotent | storage/redis.go:123-132 | rounding to a float64 number is stable |
| Offline.SmallIsExact | storage/redis.go:123-132 | ids up to 2^53 are float64 numbers |
| Offline.FirstInexact | storage/redis.go:123-132 | the next one is not |
| Offline.Select | storage/redis.go:102-125 | selects exactly the fields newer than registration and acknowledgement and not expired |
| Offline.SortKeys | storage/redis.go:127 | the sort keys ascend, none lost or added |
| Offline.GetOfflineMsgs | storage/redis.go:94-155 | asks, in ascending order of sort keys, for the field of each selected id, or for none if rounding changed the id |
| Offline.ReplayExactIff | storage/redis.go:94-155 | with unique ids the selection is fetched completely, by strictly increasing id, if and only if every selected id is a float64 number |
| Offline.FilterInOrder | comet/server.go:648-725 | filtering keeps the order and drops exactly what does not pass |
| Offline.ReplayOffline | comet/server.go:642-725 | a reconnecting registration is queued exactly the eligible stored messages that pass, by increasing id |
| Offline.RegisterThenReplay | comet/app_manager.go:97-102 | an app registered now is replayed later exactly the stored messages created since that have not expired and pass |
| Acks.HandlePushReply | comet/handlers.go:236-269 | taken only for a registration of this client and a newer id; memory and one queued update then have it; a step of the machine |
| Acks.RegisterThenAck | comet/app_manager.go:97-102 | an app just registered takes its first acknowledgement of any id that is not negative |
| Acks.RunUpdate | comet/handlers.go:228-234 | writes the front update's record; for this registration, two steps of the machine |
| Acks.AddSendids | comet/handlers.go:20-48 | appends the new ids, repetitions included; store and memory change together or not at all; a step of the machine |
| Acks.NewIdsConcat | comet/handlers.go:21-34 | the new ids keep their order |
| Acks.NewIdsCount | comet/handlers.go:21-34 | each id that is new and not empty comes as often as it was given, no other does |
| Acks.DelSendid | comet/handlers.go:51-75 | removes one id or all; also what a failed write leaves behind; a step of the machine |
| Acks.InvStep | comet/handlers.go:228-269 | acknowledgements, queued and direct writes keep the pending ids in step with memory |
| Acks.AcksPersist | comet/handlers.go:222-269 | in every run memory has the newest id acknowledged, queued ids strictly increase, the stored id never exceeds memory and equals it when the queue is drained |
| Acks.UnregisterSticks | comet/handlers.go:228-234 | an erased record stays erased if and only if none of its updates was pending |
| DependencyGraph.Dependencies.AddDependency | utils/utils.go:931-951 | both nodes must exist and differ; nothing else changes |
| DependencyGraph.Dependencies.GenerateTraversalMap | utils/utils.go:958-1011 | terminates, and succeeds if and only if the graph is acyclic, with each round exactly the nodes that are ready |
| DependencyGraph.StuckHasCycle | utils/utils.go:958-1011 | no progress means a cycle |
| DependencyGraph.LayeredIsAcyclic | utils/utils.go:958-1011 | a complete layering means none |
| DependencyGraph.RoundIsDepth | utils/utils.go:958-1011 | the rounds partition the nodes, and a node's round is the length of its longest dependency chain |
| DependencyGraph.RoundsAreMinimal | utils/utils.go:958-1011 | no schedule that respects the dependencies has any node earlier |
| DependencyGraph.RoundsAreDetermined | utils/utils.go:958-1011 | every order of visiting the nodes gives the same rounds, as sets |
| TruncIndex.WordsRender | utils/utils.go:426-452 | the byte string determines its words, the empty ones left by deletions included |
| TruncIndex.SearchFinds | utils/utils.go:467-476 | a space and a prefix occur exactly where a word with that prefix begins |
| TruncIndex.TruncIndex.Add | utils/utils.go:440-452 | adds an id without spaces that is not there yet |
| TruncIndex.TruncIndex.Get | utils/utils.go:478-489 | succeeds if and only if the prefix occurs once after a space; without a space in it, if and only if exactly one id has it, which is returned; with one, returns the part before it |
| TruncIndex.TruncIndex.Delete | utils/utils.go:453-465 | succeeds if and only if the id is there, not empty and begins no other; removes only it, or changes nothing |
| TruncIndex.WordsAreIds | utils/utils.go:426-465 | the words of the byte string are the ids, each once |
| TruncIndex.OnceIsOne | utils/utils.go:467-476 | without a space, a prefix occurs once if and only if one id has it |
| TruncIndex.GetMatchesPrefixes | utils/utils.go:478-489 | Get resolves exactly the prefixes of one id, if and only if the prefix has no space or does not occur exactly once |
| TruncIndex.SpacedGet | utils/utils.go:467-489 | for every two ids added in a row, both joined by a space resolve to the first, although no id has that prefix |
| ShellQuote.Quote | utils/utils.go:1023-1043 | writes the quoted form of the word |
| ShellQuote.ShellQuoteArguments | utils/utils.go:1047-1056 | the quoted words, separated by spaces |
| ShellQuote.EscapedIsRead | utils/utils.go:1030-1042 | inside quotes the shell reads the escaped word back |
| ShellQuote.WordIsRead | utils/utils.go:1023-1043 | the shell reads a quoted word as one word with the same characters |
| ShellQuote.QuotingRoundTrips | utils/utils.go:1047-1056 | the shell gets the arguments back if and only if no argument left bare begins with `#` |
| ShellQuote.QuotingIsInjective | utils/utils.go:1047-1056 | different such argument lists give different lines |
| Broadcaster.CutIsExact | utils/utils.go:376-392 | lines and rest make up the buffer; each line has one newline, at its end |
| Broadcaster.CutInParts | utils/utils.go:372-392 | cutting what was left together with new bytes is cutting all of them |
| Broadcaster.WriteBroadcaster.Drain | utils/utils.go:376-392 | takes all complete lines and encodes those that can be |
| Broadcaster.WriteBroadcaster.Write | utils/utils.go:369-399 | raw writers get the bytes verbatim, the first stream writer all encoded lines, other stream writers nothing; exactly the writers whose write or encoding fails are evicted |
| Broadcaster.RecordsAreLines | utils/utils.go:376-392 | a reader of the records gets one line for each line written, in order |
| Broadcaster.WriteBroadcaster.WriteAll | utils/utils.go:369-399 | writes in a row leave the buffer and the log that the bytes define, and give every remaining raw writer all of them |
| Broadcaster.WritesConserve | utils/utils.go:369-399 | over any sequence of writes, logged lines and buffer make up all bytes written, and the buffer has no newline |
| KernelVersion.AtoiReads | utils/utils.go:625-648 | a text is read as n exactly if it is a sign, perhaps, zeros and the digits of n |
| KernelVersion.ParsedIffDenoted | utils/utils.go:614-659 | a release parses to a version exactly if it is that many numbers between dots, missing ones 0, pluses around the third allowed and further parts ignored, and the flavor behind the first dash |
| KernelVersion.ParseRelease | utils/utils.go:614-659 | what a release string parses to |
| KernelVersion.PrintParseRoundTrip | utils/utils.go:557-563 | a version survives printing and parsing, whatever its flavor, if and only if its numbers are not negative |
| Sequences.SortedUnique | utils/utils.go:1188-1189 | two sorted lists of the same elements are the same list, for every total order |
| Sequences.SplitJoined | utils/utils.go:1189 | parts without the separator are what their joined text splits into |
| Sequences.JoinSplits | utils/utils.go:622 | every text is joined from the parts that it splits into |
| Signing.LeqIsOrder | utils/utils.go:1188 | comparing strings character by character is a total order |
| Signing.LeqDecides | utils/utils.go:1188 | the first character that differs decides; a prefix comes first |
| Signing.SortParams | utils/utils.go:1188 | the pairs in ascending order, none lost or added |
| Signing.Collect | utils/utils.go:1182-1187 | every key=value pair once, in whatever order the form is visited |
| Signing.StringToSign | utils/utils.go:1181-1202 | method, path, body digest, date and the parameter string of the pairs |
| Signing.ParamStringUnique | utils/utils.go:1181-1202 | the pairs determine the parameter string |
| Signing.ParamStringSplits | utils/utils.go:1181-1202 | without `&` in any pair the string splits into the sorted pairs |
| Signing.SignTwice | utils/utils.go:1181-1202 | without `&` in any pair, forms are signed alike if and only if they have the same pairs; with it, still if they have |
| Signing.AmpersandMerges | utils/utils.go:1181-1202 | any two pairs in order sign like the one pair that has the second behind `&` in its value |
| RandomSpec.GoodFront | utils/random.go:46-66 | a rune that is no half, or a whole surrogate pair, may go in front |
| RandomSpec.Turn | utils/random.go:37-70 | one turn of the loop puts a plain wanted rune in front, or a pair if there is room, or nothing; it panics exactly if the draw does |
| RandomSpec.PlainRunesFill | utils/random.go:37-70 | as long as plain wanted runes are drawn they are the result, from the back |
| RandomSpec.DefaultRange | utils/random.go:25-32 | without bounds, every letter or digit that is wanted can be drawn, from the printable runes up to z; or every rune but the last |
| RandomSpec.Kinds | utils/random.go:46-49 | which runes are wanted |
| RandomSpec.GoodInRange | utils/random.go:39-44 | in a valid range every rune that is no half of a pair comes from it |
| RandomSpec.RandomSpec0 | utils/random.go:20-74 | the outcome that the random numbers define; fills every slot without leaving the buffer; no half of a pair stands alone; every rune is of the wanted kind; panics only outside a valid range |
| RandomSpec.RandomStringSpec0 | utils/random.go:110-112 | well paired, and never the last rune of the set; a set of one rune panics unless index 0 is drawn, an empty one always |

## Left out

- Accepting connections, deadlines, heartbeat and body timeouts: a read may fail at any byte instead.
- JSON, logging, statistics, configuration, AMQP, ZooKeeper, HTTP handlers, hashing and HMAC; reply bodies of handlers, of which only the result codes are kept.
- Redis connections and retries, and the expiry of presence keys: they are taken not to expire.
- The read of the INIT frame in waitInit (comet/server.go:512-535), which takes one read as the whole header or body.
- A scan of a group that goes on for ever (Routing.FirstPageAgain): scans fail when their script is used up.
- Go's data races on maps (RegApps, replyChannels): steps of the machines are atomic.
- The limit on waiting commands and on clients: both are checked before the action they guard, so they are not invariants.
- A job that runs after its command has timed out registers its channel all the same; a reply then blocks the connection's goroutine. The replies of Correlation are those offered to channels, whether or not anybody receives.
- Registry.RegistryAgrees: is about one process, takes one session per device for granted (Handover), and that an INIT list names distinct apps with ids issued to the device; the list loaded by LoadAppInfosByDevice is a snapshot.
- PushMessages and GetOfflineMsgs read the store in one piece: no other writer comes between HKEYS and HMGET.
- The text of the offline key is taken apart already, into id, creation time and expiry (storage/redis.go:105-117).
- UpdateJob shares the Topics array with memory (comet/handlers.go:258-262); the record it stores is modelled as a value, so stored topics are not compared with memory.
- RegId is taken to be injective; an id that is no digest is `Foreign`.
- TruncIndex: the suffix array is specified as all places where a pattern occurs.
- Strings are sequences of characters: Go's conversion of surrogate halves, of which RandomSpec0 leaves whole pairs only, to a replacement character is not modelled.
- RandomSpec.RandomSpec0: stops as exhausted when fewer than two random numbers are left; the code would draw on. Bounds are unbounded integers until a rune is made of them.
- Decoder.FrameReader.ReadFirstByte: the three blocks of the read loop are three methods.
- CompareKernelVersion, HumanDuration, the other generators in utils/random.go, safemap and funcmap: easy.
