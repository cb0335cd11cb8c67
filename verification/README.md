# Verification of the instant-messaging backend

A Dafny model of the backend's session protocol, its routing between gateways and logic servers, its
wire formats, its offline message sync and its registries, with proofs of what they keep. Run
`dafny verify dfyconfig.toml`.

Gateways hold user connections, give each a channel id and forward requests to logic servers. Logic
servers keep two Redis keys per login (the account's location and the channel's session) and push
answers back through the gateways. Code that changes state step by step is modelled by classes and
methods with loops, proved against functions of the old state. Code that runs in many goroutines at
once is modelled a second time as a state machine whose steps are the single store calls, socket
writes or statements; a run is any sequence of enabled steps, and the theorems hold in every state of
every run. For the session store, the wire and the routing both forms use the same functions for what
one call does.

| file | models |
|---|---|
| `Endian.dfy`, `TcpFrame.dfy` | length-prefixed fields over a stream that arrives in pieces; TCP frames |
| `Runs.dfy` | runs of a state machine |
| `TcpClient.dfy`, `Channel.dfy` | the client, one call at a time; a connection's read loop |
| `TcpWriters.dfy`, `TornWrites.dfy`, `TornRuns.dfy` | the client's socket with concurrent writers; what a torn write does; runs that show it |
| `Location.dfy`, `SessionStore.dfy` | the location codec; the two-key store over Redis bytes |
| `SessionProtocol.dfy`, `LoginHistory.dfy` | logins and logouts interleaved; and one at a time, over any history |
| `Packets.dfy`, `Downlink.dfy`, `ChannelIds.dfy` | channel lists and their way down; channel ids |
| `Context.dfy`, `Router.dfy`, `Handlers.dfy` | answering and dispatching; the context pool; login, server and gateway handlers |
| `Routing.dfy` | requests and answers across gateways and servers |
| `Clients.dfy`, `ClientRegistry.dfy`, `Connections.dfy` | a container's clients; a server's connections |
| `OfflineQuery.dfy`, `MessageService.dfy` | message tables, one sync request |
| `OfflineSync.dfy`, `OfflineGrowth.dfy` | the whole sync; and while messages are stored |

What the proofs found about the code as it is:

- A late logout of a kicked-out channel clears the location of the newer login, which stays logged in
  but cannot be found by its account (`SessionProtocol.LateLogoutClearsNewerLogin`).
- Answers go astray when one gateway's service id is another's followed by an underscore and more,
  and never otherwise (`Routing.NeverMisroutesIff`).
- A channel id with a comma in it (from such an account) is never delivered to (`Routing.AnswerIsDelivered`).
- The client's heartbeat and Close take no lock; a ping or close frame written inside a Send loses both
  frames (`TornRuns.IntruderInsideSendLosesFrames`). All goes well if and only if nothing is put out
  while another writer's frame is partly out (`TornWrites.PeerIsRightIff`).
- A client's reader starts before the client is added; if it ends first, the dead client stays
  registered for good (`ClientRegistry.DeadClientCanBeRegistered`, `ClientRegistry.EarlyStaysForever`).
- Two connections of one id that overlap between check and add leave one of them unfindable
  (`Connections.OverlapLosesAConnection`), and the TCP server's Push calls a method on a nil channel for
  an unknown id where the websocket server returns an error (`Connections.Server.Push`).
- Rows of one send time that straddle a page end are never handed out (`OfflineSync.TieIsLost`), nor are
  rows stored when the device has already come past their send time (`OfflineGrowth.GrowingIsDeliveredIff`).
- Group index rows name the membership instead of the message, so their ids lead to no content and the
  sync resumes a day ago: recent ones are handed out for ever, of older ones only the first page
  (`OfflineSync.RecentGroupMessageRepeats`, `OfflineSync.OldGroupMessagesAreSkipped`). When a sync delivers
  everything is stated for all mailboxes by `OfflineSync.PullingCompletesIff`.

## Model

| member | source | states |
|---|---|---|
| Endian.ValueOfPut | wire/endian/helper.go:103-110 | a number that fits k bytes reads back as itself |
| Endian.PutOfValue | wire/endian/helper.go:24-30 | every k bytes are the layout of the number they read as |
| Endian.Stream.ReadFull | wire/endian/helper.go:15-21 | fills the buffer with the next bytes whatever pieces they come in; fails exactly when too few are left, and then none are left |
| Endian.Stream.ReadFixedBytes | wire/endian/helper.go:74-81 | the next len bytes, or an error when there are fewer |
| Endian.Stream.ReadUint | wire/endian/helper.go:15-48 | the number in the next k bytes, and the stream after them |
| Endian.Stream.ReadBlock | wire/endian/helper.go:60-71 | the block after its length field, and the stream after it; an error uses up the stream |
| Endian.Writer.WriteUint | wire/endian/helper.go:84-120 | appends the k-byte layout; on an error a prefix of it |
| Endian.Writer.WriteBlock | wire/endian/helper.go:131-153 | appends the length, truncated to its field, and the block; on an error a prefix of the two |
| Endian.BlockRoundTrip | wire/endian/helper.go:155-166 | a block whose length fits comes back, with whatever follows it left over |
| Endian.BlockRoundTripIff | wire/endian/helper.go:143-166 | a written block reads back exactly when its length fits the length field |
| Endian.PartialBlockIsShort | wire/endian/helper.go:60-71 | no strict prefix of a written block reads as a block |
| TcpFrame.ReadFrame | tcp/connection.go:20-33 | the frame parsed from the bytes to come, for any chunking, and what is left |
| TcpFrame.WriteFrame | tcp/connection.go:43-51 | appends the frame's encoding, opcode cut to a byte; an error leaves a prefix of it |
| TcpFrame.FrameRoundTrip | tcp/connection.go:20-51 | an encoded frame parses to itself, whatever follows it |
| TcpFrame.FrameRoundTripIff | tcp/connection.go:20-51 | a frame survives the wire exactly when its opcode is a byte and its length below 2^32 |
| TcpFrame.FrameLayout | tcp/connection.go:43-51 | opcode, length with the low byte first, payload |
| TcpFrame.PartialFrameIsShort | tcp/connection.go:20-33 | no strict prefix of a frame is read as a frame |
| TcpFrame.DecodeStream | tcp/connection.go:20-51 | repeated reads over any sequence of written frames return it, and go on with what follows |
| TcpFrame.DecodeCutStream | tcp/connection.go:20-33 | a frame stream cut anywhere yields its complete frames, then an error, never a spurious frame |
| TcpFrame.CompleteIsMaximal | tcp/connection.go:20-33 | the number of complete frames is the largest whose encodings fit in the bytes |
| TcpClient.Client.Connect | tcp/client.go:69-107 | the state word and connection after each way of dialing; no connection and no error leaves the state set |
| TcpClient.Client.Send | tcp/client.go:128-139 | a nil error means exactly one more binary frame on the socket, an error at most a prefix of it; with the state word set and no connection it panics |
| TcpClient.Client.Close | tcp/client.go:157-166 | the first close writes at most one close frame, closes the connection and clears the state word; later ones do nothing |
| TcpWriters.WritesAddUp | tcp/connection.go:43-51 | the three writes of a frame, one after the other, add up to its encoding |
| TcpWriters.CleanStep | tcp/client.go:128-185 | a step that puts nothing out while another writer's frame is partly out, a failing write included, keeps the socket at complete frames and a part of at most one more |
| TcpWriters.PeerDecodesWhatWasSent | tcp/client.go:128-185 | as long as no write is torn in that sense, the peer decodes exactly the completed frames in the order they were completed, whatever Sends, pings, Close and write errors there are |
| TcpWriters.SendsAloneAreNeverTorn | tcp/client.go:128-139 | the mutex is enough for any number of threads in Send among themselves |
| TcpWriters.AckedWasWritten | tcp/client.go:128-139 | as long as no Send fails on the empty last write of an empty payload, the payloads of Sends that returned nil are the completed binary frames in order, but for one that has not returned yet |
| TcpWriters.AnyWriteCanFail | tcp/client.go:128-139 | a write may fail at any byte; the frame is not counted as out or acknowledged and the mutex is given back |
| TcpWriters.NothingAfterShutdown | tcp/client.go:157-166 | once Close has closed the socket nothing more gets onto it |
| TornWrites.MarksLeadAstray | tcp/connection.go:20-51 | one or two opcodes of pings and close frames before the length or the payload of a Send, unless that is one such opcode repeated: the peer does not read the Send and then another frame that is sent, whatever bytes follow |
| TornWrites.TornWriteMisleads | tcp/client.go:128-185 | with such payloads and no errors: once a write is torn, what the peer has decoded is not what was sent, from two more completed frames on |
| TornWrites.PeerIsRightIff | tcp/client.go:128-185 | with such payloads, when all writers are done and no write has failed, the peer has decoded what was sent if and only if no write was torn |
| TornRuns.TellingIff | tcp/client.go:128-185 | that is so for all runs that send a payload if and only if the payload is not a ping's or close frame's opcode repeated |
| TornRuns.TornIsHarmlessIff | tcp/client.go:128-185 | for any payload a run whose torn write does no harm exactly if the payload repeats the other writer's opcode |
| TornRuns.IntruderInsideSendLosesFrames | tcp/client.go:157-185 | a run in which a ping, or a close frame, inside a Send makes the peer decode neither, with no error anywhere |
| TornRuns.PeerComesBack | tcp/client.go:157-185 | a run in which the peer reads one frame nobody sent for the two and is back in step for the next Send |
| Channels.Channel.Readloop | core/channel.go:104-138 | the listener gets the non-empty non-ping payloads before the first close frame in order; what is written is one pong for each ping before it, or a part of one where a write fails, over raw bytes in any pieces |
| Channels.Channel.Push | core/channel.go:81-86 | a non-empty payload becomes one binary frame; an empty one is no write and no error |
| Channels.BeforeCloseIsCut | core/channel.go:120-122 | the frames considered are the longest prefix without a close frame |
| Channels.ReceiveAll | core/channel.go:104-138 | what a peer's writes, cut anywhere and delivered in any pieces, make the listener receive and the connection write back |
| Locations.LocationVar.Bytes | iface/location.go:14-22 | nothing for nil, else both fields with their 16-bit lengths |
| Locations.LocationVar.Unmarshal | iface/location.go:24-38 | the result and the fields assigned, also on an error half way |
| Locations.RoundTrip | iface/location.go:14-38 | a location with both fields below 65536 bytes comes back; trailing bytes are ignored |
| Locations.RoundTripIff | iface/location.go:14-38 | it comes back exactly when both fields are that short |
| Locations.Layout | iface/location.go:14-22 | channel id and then gate id, each after its length with the low byte first |
| Locations.Injective | iface/location.go:14-22 | different locations within the bound have different bytes |
| Locations.NilIsRejected | iface/location.go:14-27 | a nil location encodes to what Unmarshal rejects and no location encodes to |
| SessionStore.KeyLocationInjective | storage/redis.go:102-107 | device-less location keys are injective in the account |
| SessionStore.KeySessionInjective | storage/redis.go:98-100 | session keys are injective in the channel |
| SessionStore.KeysNeverCollide | storage/redis.go:98-107 | no location key, with or without device, is a session key |
| SessionStore.DeviceKeys | storage/redis.go:102-107 | keys with a device are injective for accounts without a colon |
| SessionStore.ShareAKeyIff | storage/redis.go:102-107 | two accounts share a location key on some devices exactly when one is the other with a colon and more |
| SessionStore.DeviceKeysCollide | storage/redis.go:102-107 | an account with a colon has the key of a shorter account on a device |
| SessionStore.StoredIsReadBack | storage/redis.go:27-33 | a session's own location is read back exactly when it fits its length fields |
| SessionStore.LocationWritten | storage/redis.go:28-33 | writing the location key changes one account's entry of the tables the bytes stand for, and no session |
| SessionStore.SessionDropped | storage/redis.go:48-49 | deleting a session key removes one channel's entry and touches no location |
| SessionStore.RepresentsIsFunctional | storage/redis.go:27-78 | the bytes in Redis determine the tables they stand for |
| SessionStore.RedisStorage.Add | storage/redis.go:27-40 | on the tables: location and then session written; an error leaves a prefix of the two, success both |
| SessionStore.RedisStorage.Delete | storage/redis.go:42-50 | the account's location goes first whatever channel it names, then the session; an error leaves a prefix of the two |
| SessionStore.RedisStorage.Get | storage/redis.go:52-64 | the unexpired session of the channel, or ErrSessionNil when there is none, or the store's error |
| SessionStore.RedisStorage.GetLocation | storage/redis.go:66-78 | the unexpired location read through its bytes, or ErrSessionNil, or the store's error; with a device, that of the account the key then stands for |
| SessionStore.RedisStorage.GetLocations | storage/redis.go:80-96 | in order, what GetLocation gives for each account that has one |
| SessionStore.LocatedMeansLookedUp | storage/redis.go:80-96 | a location is in that list exactly when some account of the request has it |
| SessionProtocol.StepKeepsInv | storage/redis.go:27-50 | every single store call of any login or logout handler keeps the protocol's invariant, for logins whose ids fit |
| SessionProtocol.LocationHasSession | storage/redis.go:27-40 | in every state of every run of ids that fit, an unexpired location is of that account's login and has an unexpired session with its account and gate, unless Add is between its writes or failed |
| SessionProtocol.LongIdBreaksLocation | iface/location.go:14-22 | with any id that does not fit it fails: the location read is not the login's, although every call was answered |
| SessionProtocol.LocationReadIff | storage/redis.go:66-78 | however handlers interleave, GetLocation yields what the account's last location write brought, if less than 48 hours ago and not deleted since by a logout of a session of the account, and nothing otherwise |
| SessionProtocol.SessionReadIff | storage/redis.go:52-64 | likewise Get yields the session its channel's session write brought, if less than 48 hours ago and not deleted since |
| SessionProtocol.LoginExpires | storage/redis.go:27-40 | a run in which a login's keys run out after 48 hours |
| SessionProtocol.LoggedInSince | storage/redis.go:27-40 | a login has gone through only after both its writes were acknowledged, the location's first |
| SessionProtocol.KnownSince | services/server/serv/handler.go:67-76 | a logout deletes for the session it was able to read, unexpired, and for no other |
| SessionProtocol.LocationGoneSince | storage/redis.go:42-50 | it deletes the session only after the location's deletion was acknowledged |
| SessionProtocol.CompletedLoginIsFound | storage/redis.go:27-50 | so an acknowledged location can be read until another login or a logout of its account touches it, or it expires |
| SessionProtocol.LocationExpiresFirst | storage/redis.go:33-39 | in runs of ids that fit, a completed login's location expires no later than its session |
| SessionProtocol.GoneForGood | storage/redis.go:42-50 | in runs of ids that fit, once a logout of a channel has deleted the location, no location names that channel again |
| SessionProtocol.SessionIsTheLogins | services/server/serv/handler.go:67-76 | in every run a channel's session is the one its own login brought, so logout deletes by the right account |
| SessionProtocol.KickoutTarget | services/server/handler/login_handler.go:33-41 | in runs of ids that fit, a login kicks out an earlier login of its own account at that login's gateway, never itself |
| SessionProtocol.LoginFindsIff | services/server/handler/login_handler.go:33-41 | in every run the location a login finds to kick out is exactly the one the account's last location write brought, if it can still be read |
| SessionProtocol.SecondLoginFindsFirst | services/server/handler/login_handler.go:33-41 | a run in which a second login of an account finds the first one's channel and gate |
| SessionProtocol.LogsIn | services/server/handler/login_handler.go:43-52 | an undisturbed login has the effect of Add, with the location alone written in between |
| SessionProtocol.LocationBeforeSession | storage/redis.go:33-39 | the exception is real: a location can be read before its session exists |
| SessionProtocol.LateLogoutClearsNewerLogin | storage/redis.go:42-50 | a run in which a kicked-out channel's logout leaves the newer login a session but no location |
| LoginHistory.GetMeans | storage/redis.go:52-64 | after any history Get yields a session exactly when its channel logged in with it less than 48 hours ago and has not logged in or out since |
| LoginHistory.GetLocationMeans | storage/redis.go:66-78 | after any history GetLocation yields the last login's location exactly when it is less than 48 hours old and no logout of a then-known session of the account came after it |
| LoginHistory.NewestLoginIsFound | services/server/handler/login_handler.go:43-52 | a login answered with success less than 48 hours ago is found by its account if the account has neither logged in again nor any of its sessions out, whatever other accounts do |
| Packets.SplitOfJoinIff | services/server/serv/handler.go:96-99 | the channel list survives join and split exactly when it is non-empty and free of commas |
| Packets.JoinOfSplit | container/container.go:171-176 | joining the pieces of any list text gives the text back |
| Downlink.Gateway.PushMessage | container/container.go:166-189 | a packet naming another gateway or no channels is refused; else every channel of the list is tried in order, past failures, with the packet as it came but for its routing metas |
| Downlink.Gateway.Readloop | container/container.go:335-365 | the deliveries of the packets in the binary frames before the first close or error |
| Downlink.PushReachesItsChannels | container/container.go:166-195 | a push reaches exactly its channels at its gateway if and only if they are comma-free and not none, and no other gateway delivers it |
| Downlink.FramesCarryPushes | container/container.go:166-195 | the frames of any list of pushes make the gateway attempt every channel of each, in order |
| Downlink.DeliverAll | container/container.go:335-365 | the same over raw bytes in any pieces |
| ChannelIds.NumberOfDecimal | services/gateway/serv/handler.go:133-135 | decimal printing of sequence numbers is injective |
| ChannelIds.LastUnderscore | services/gateway/serv/handler.go:133-135 | an id splits at its last underscore in one way only |
| ChannelIds.InjectiveWithinGateway | services/gateway/serv/handler.go:133-135 | one gateway gives different ids to different pairs of account and number |
| ChannelIds.SharedAcrossGatewaysIff | services/gateway/serv/handler.go:133-135 | two gateways can issue one id exactly when one's service id extends the other's with an underscore |
| Contexts.Context.Reset | core/context.go:94-99 | what a reused context forgets and what it keeps |
| Contexts.Context.Next | core/context.go:32-43 | the next handler runs once, none past the end or when nil |
| Contexts.Context.GetSession | core/context.go:109-119 | the session, made up from the request when there is none |
| Contexts.Context.Resp | core/context.go:49-61 | one push, to the session's gateway, for the session's channel alone: a response to the request's command and channel with the status and body given |
| Contexts.Context.GroupByGateway | core/context.go:72-81 | each gateway's receivers in order without the sender's own channel |
| Contexts.Context.Dispatch | core/context.go:63-92 | each gateway once with all its receivers and the body given; on success exactly the receivers without the sender's channel, counted with multiplicity; on an error whole groups up to the failed one |
| Contexts.TargetsAreReceivers | core/context.go:72-89 | pushes of whole groups address nobody too often, and everybody exactly if every gateway was pushed to |
| Contexts.CountTargets | core/context.go:72-89 | how often a receiver is addressed by such pushes |
| Routers.Router.Handle | core/router.go:29-31 | what a command runs is settled by its first registration: later ones, and those of other commands, do not change it |
| Routers.Router.Serve | core/router.go:33-61 | runs the first handler registered for the command on this call's packet, dispatcher, cache and session, whatever context the pool gave |
| Routers.StepKeepsInv | core/router.go:33-61 | every statement of every call keeps contexts exclusive and set up as far as the call has come |
| Routers.PoolIsInvisible | core/router.go:33-61 | for any interleaving no two calls share a context and each runs its handler on the view of a fresh one |
| Routers.PooledIff | core/router.go:33-61 | the pool holds exactly the contexts put back and neither taken nor forgotten since |
| Routers.ContextIsReused | core/router.go:33-61 | a run in which a call gets the context that another call's handler has written all over |
| Handlers.DoSysLogin | services/server/handler/login_handler.go:18-53 | the kickout and answer pushed, and the tables after, for each way the store calls go; the answer says success exactly when no store call came back with an error |
| Handlers.DoSysLogout | services/server/handler/login_handler.go:55-68 | deletes by the session's account and channel, and one answer, which says success exactly when no store call came back with an error |
| Handlers.ServHandler.Receive | services/server/serv/handler.go:51-92 | sign-in is served on a made-up session, all else on the stored one, or refused with a response that says why there is none; a sign-in without the gateway's mark panics |
| Handlers.GatewayHandler.Accept | services/gateway/serv/handler.go:26-80 | a new id under which the sign-in is forwarded, in header and session alike, or nothing forwarded; who does not sign in or has a bad token is told so |
| Handlers.GatewayHandler.Receive | services/gateway/serv/handler.go:82-109 | channel and origin are overwritten in what is forwarded, and nothing else; a ping is answered and not forwarded |
| Handlers.GatewayHandler.Disconnect | services/gateway/serv/handler.go:111-122 | a sign-out for the channel is forwarded |
| Routing.StepKeepsInv | services/server/serv/handler.go:59-79 | a session under a channel is that channel's, at a gateway that issues it, and so on for requests, handlers and answers |
| Routing.RequestsAreForwarded | services/gateway/serv/handler.go:82-122 | what a user sends is forwarded from its connection's channel with command and body as they were, and its end as a sign-out |
| Routing.AnswersAreGiven | core/context.go:49-61 | every answer carries the status and body a handler of its request answered with |
| Routing.LostSessionIsRefused | services/server/serv/handler.go:67-76 | after a logout or expiry a request other than sign-in is not served until a session is stored again |
| Routing.NoMisrouting | core/context.go:49-56 | when no gateway's service id extends another's, in every run every answer goes to the gateway and channel its request came in on |
| Routing.NeverMisroutesIff | services/gateway/serv/handler.go:66-75 | that holds for exactly those sets of gateways in which no service id extends another |
| Routing.ExtensionMisroutes | services/gateway/serv/handler.go:133-135 | for every user of the extending gateway, a run in which that user gets the answer to another's request |
| Routing.AnswerIsDelivered | container/container.go:166-195 | an answer is delivered by no other gateway, and at its own to its channel alone exactly if the id has no comma, with the answer's command, flag, status and body |
| Clients.ClientMap.Servicies | container/clients.go:46-65 | the clients with the given meta value, a missing key counting as empty, each once; nothing for a malformed filter |
| Clients.Lookup | container/container.go:223-239 | finds an adult client exactly when one is registered: of the adult ones the one the hash points at |
| Clients.BuildClient | container/container.go:290-333 | adds a client exactly when none is registered and it can be connected; it shares the registration's meta map |
| Clients.WatchService | container/container.go:249-267 | a newly reported service is marked young and its client not eligible |
| Clients.WatchThenPromote | container/container.go:255-261 | through the shared map the client is passed over before the promotion and offered after it |
| ClientRegistry.StepKeepsInv | container/container.go:241-333 | every step of builders, promoters and readers keeps the registry's invariant |
| ClientRegistry.RegistrationsAreNotReplaced | container/container.go:298-332 | in every run connections are started and added only for unregistered services, and only a client's own reader removes it |
| ClientRegistry.RemovesOwnOrNothing | container/container.go:323-330 | a reader's removal by id never hits another client |
| ClientRegistry.RegisteredReader | container/container.go:323-331 | a registered client's reader has its removal ahead exactly when that did not run before the add |
| ClientRegistry.EarlyStaysForever | container/container.go:323-331 | otherwise the registration is never removed |
| ClientRegistry.DeadClientCanBeRegistered | container/container.go:323-331 | a run that registers a closed client which lookup may choose |
| ClientRegistry.EligibleIff | container/container.go:229 | a registered client may be chosen exactly when no promotion of its registration is outstanding |
| ClientRegistry.PromotionDecides | container/container.go:255-261 | never before its promotion step, adult after it |
| ClientRegistry.PromotedClientIsEligible | container/container.go:249-267 | a run in which a watched service's client is registered and becomes eligible by its promotion |
| ClientRegistry.LockIsHandedOn | container/container.go:290-333 | a builder that returns, by an error or not, leaves the lock to whoever waits |
| ClientRegistry.AdultForGood | container/container.go:259 | an adult meta stays adult |
| Connections.ChannelManager.All | core/channel_manager.go:50-57 | every registered channel once |
| Connections.Server.Push | tcp/server.go:120-126 | one frame to the registered channel and nothing to any other; without one an error, or in the TCP server a nil call |
| Connections.Server.Handle | tcp/server.go:80-108 | admitted exactly when accepted under a free id; registered while it is read and not after, reported once, what its listener received and its pongs; a refused one is told why in a close frame |
| Connections.RegistryIsRightIff | tcp/server.go:89-104 | in a run Get finds exactly the connections between Add and Remove at all times if and only if no Add meets a registered id |
| Connections.OneAtATimeSuffices | websocket/server.go:85-103 | it is enough that no two connections of one id overlap between check and Add |
| Connections.OverlapLosesAConnection | tcp/server.go:89-104 | a run in which overlapping connections leave one being read but not found |
| Connections.ReportedOnce | tcp/server.go:106-107 | whatever ids collide, an ended connection has been reported exactly once and no other at all |
| Connections.RejectedStays | tcp/server.go:83-93 | a rejected connection is never reported |
| Connections.RejectedIff | tcp/server.go:80-93 | a connection is rejected exactly when its Accept failed or its id was registered when it was checked |
| Connections.ClosedIff | tcp/server.go:104-108 | it is closed exactly when it has come to its end |
| MessageService.ServiceHandler.InsertUserMessage | services/service/handler/message_handler.go:21-72 | content and both index rows or nothing; every row goes on naming a content of its send time or a membership |
| MessageService.ServiceHandler.GroupJoin | services/service/handler/group_handler.go:88-105 | a membership gets an id that no message has, once per account and group |
| MessageService.ServiceHandler.InsertGroupMessage | services/service/handler/message_handler.go:74-129 | each account gains one row for each of its memberships in the group (in any group, if none is named), from the sender, with its direction, naming the membership; and the content; or nothing |
| MessageService.MembersOfCounts | services/service/handler/message_handler.go:81-85 | the query lists each member of the group as often as there is a membership |
| MessageService.ServiceHandler.SetMessageAck | services/service/handler/message_handler.go:144-151 | the ack becomes the id, with its expiry, except for id 0; a failed write may have been done |
| MessageService.ServiceHandler.GetSentTime | services/service/handler/message_handler.go:201-226 | the start time from cursor or ack, one day back when the message is missing, never before the retention bound |
| MessageService.ServiceHandler.GetOfflineMessageIndex | services/service/handler/message_handler.go:153-180 | the page after the cursor, and the ack moved to the id asked for, for each way its four calls go; nothing without both query and ack |
| OfflineSync.UserAndGroupRows | services/service/handler/message_handler.go:38-98 | a list of rows all lead to their contents exactly when none is of a group message, and none does exactly when all are |
| MessageService.MailboxIsUnique | services/service/handler/message_handler.go:166-167 | the query lists the account's rows that pass the filter, each once |
| OfflineQuery.SortSorts | services/service/handler/message_handler.go:166-167 | the query's order: same rows, by send time |
| OfflineQuery.OrderIsUnique | services/service/handler/message_handler.go:166-167 | with distinct send times there is only one such order |
| OfflineSync.NextPageIff | services/service/handler/message_handler.go:153-226 | the page for the id of the k-th row is the page after k rows exactly when the start time read for that id lies behind the row and before the next |
| OfflineSync.PullingCompletesIff | services/service/handler/message_handler.go:153-226 | pulling with the last received id from no ack delivers the whole list, each row once and in order, and ends, if and only if that is so at every page end |
| OfflineSync.PullAll | services/service/handler/message_handler.go:153-180 | requests against the service do it, in exactly those mailboxes |
| OfflineSync.SyncPosition | services/service/handler/message_handler.go:172-206 | in those mailboxes, after any pulls and cold restarts the next page is the one after the last row received or, restarted, after the stored ack, and nothing before is missing |
| OfflineSync.EmptyPullMeansAllReceived | services/service/handler/message_handler.go:153-206 | there an empty page comes only when every row has been received, whatever restarts there were |
| OfflineSync.LinkedCompletesIff | services/service/handler/message_handler.go:201-226 | a mailbox of user messages is delivered whole exactly when no page ends between two rows of one send time, or with a row of time 0 |
| OfflineSync.DistinctTimesResume | services/service/handler/message_handler.go:166-167 | with distinct send times it is, for every page limit |
| OfflineSync.TieIsLost | services/service/handler/message_handler.go:166-167 | of rows of one instant that the first such page end separates, the next one never comes, for any limit and number of pulls |
| OfflineSync.GroupMailboxCompletesIff | services/service/handler/message_handler.go:90-98 | a mailbox of group messages is delivered whole exactly when it is empty, or a single page all older than a day |
| OfflineSync.OldGroupMessagesAreSkipped | services/service/handler/message_handler.go:210-218 | older than a day and more than a page, all but the first page is skipped |
| OfflineSync.RecentGroupMessageRepeats | services/service/handler/message_handler.go:210-218 | one less than a day old and newer than all user messages is handed out again for its own id, and no pull ever comes back empty |
| OfflineSync.GroupMessageNeverSettles | services/service/handler/message_handler.go:74-129 | storing such a message to a group of the account has that effect, whenever the row filter lists it |
| OfflineGrowth.ReceivedSoFar | services/service/handler/message_handler.go:21-226 | while messages are stored between the pulls, the device has at any time, each once and in order, the rows up to its time that were not stored too late |
| OfflineGrowth.GrowingIsDeliveredIff | services/service/handler/message_handler.go:21-226 | when a pull comes back empty, the device lacks exactly the rows stored at or before the time it had come to then; so all is delivered if and only if there were none |
| OfflineGrowth.LateRowNeverComes | services/service/handler/message_handler.go:153-180 | a message stored after the first pull with a time that pull has passed is in the mailbox and never handed out |
| OfflineGrowth.StoredRowIsInserted | services/service/handler/message_handler.go:166-167 | a stored row enters its account's list at its send time, if the query lists it |
| OfflineGrowth.StoreFor | services/service/handler/message_handler.go:21-72 | storing a message to an account is such a step of its mailbox |

## Left out

- Sockets, dialing, deadlines, HTTP upgrade and websocket framing are library code; the websocket server is modelled from its handler function on.
- The packet, token and sequence-number library is not part of this model: packets are values, marshalling is invertible, sequence numbers are fresh per gateway, and a sign-in comes only from the gateway's Accept.
- Adding a meta to a packet is taken to replace an earlier value of the same key; that code is in the library too. If it kept both and read the first, a user who sends a destination meta of its own could be answered elsewhere.
- A protobuf session is stored as the session itself; Redis calls may fail with or without effect.
- Connections.Server: the websocket server differs in its notices and in how Push answers an unknown id; its frames are written in the TCP encoding.
- Whether a call into Redis, the cache, the database or a connection succeeds is a parameter (`up`, `Reach`, `reached`, `commits`, `reliable`, `reachable`); both outcomes are covered.
- MySQL and Consul are not part of this model: queries are functions of sequences, and each service reported by the naming service has a meta map of its own.
- Group administration handlers but for GroupJoin, message content download, configuration, logging, metrics and the examples: plumbing.
- Container start and shutdown states, and closing channels on shutdown: each is read off one body.
- The channel's write loop: nothing enqueues to it.
- Rows whose query order is not fixed by send time alone: ties are listed in insertion order.
- SessionProtocol.LocationHasSession: for ids below 65536 bytes; SessionProtocol.LongIdBreaksLocation shows that any longer one breaks it.
- TornWrites.PeerIsRightIff: for payloads other than a ping's or close frame's opcode repeated, which TornRuns.TellingIff shows is exact, and for runs without write errors; TcpWriters.PeerDecodesWhatWasSent needs neither.
- TcpWriters.AckedWasWritten: a Send that fails on the empty last write of an empty payload has its frame out without a nil result; it is not counted.
- TcpWriters.Apply: a heartbeat may start again after a failed ping, which the code does not do; that only adds runs.
- LoginHistory.GetLocationMeans: the two writes of one handled login happen at one time; SessionProtocol.LocationReadIff covers any times.
- OfflineSync.PullAll: a device is modelled that pulls with every call answered, the clock standing still and, except in OfflineGrowth, no rows added meanwhile; days are 24 hours. TieIsLost, DistinctTimesResume and OfflineGrowth also take a clock past the retention time, because the start-time rule treats time 0 as unset.
- OfflineGrowth.GrowingIsDeliveredIff: for mailboxes of user messages with distinct send times, and a device that is not restarted meanwhile.
- The message acknowledgement request moves the stored ack as SetMessageAck does; in OfflineSync acks come from pulls only. Where a restart resumes after it is stated for every row by OfflineSync.NextPageIff.
