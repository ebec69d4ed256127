# Zhangyu: a verified model of its protocols

Zhangyu is a small RPC and tunnelling layer for NAT traversal over WebTransport streams, with etcd as
the shared store of its nodes. This project models the protocols that the repository builds on those
libraries and proves what they are there for. `dafny verify dfyconfig.toml` checks all of it.

| file | what it models |
|---|---|
| IntCodec.dfy | the big-endian length codec and the byte-by-byte loops of utils/io.go |
| Framing.dfy | frames, reads in arbitrary chunks, writes, `io.Copy` |
| Channel.dfy | many goroutines writing frames under the writer lock, one reader |
| Handshake.dfy | the push byte and id frame of a dialled stream, in every interleaving |
| Tunnel.dfy | listener socket, listen stream, node relay, target stream, target socket |
| TunnelClosing.dfy | how bytes move on and closes spread in a joined tunnel |
| TunnelRuns.dfy | a tunnel from the first dial to the delivery of bytes |
| Pairing.dfy | which listen stream a target stream is joined to |
| Rpc.dfy | concurrent `Invoke` calls, the response table and its lock |
| Dispatch.dfy | messages in frames, handler tables, the dispatch loop over a stream |
| DispatchRuns.dfy | the dispatch loop and its goroutines, in every interleaving |
| DispatchEnds.dfy | how that loop ends, what comes from outside, and that messages get through |
| Text.dfy | normalisation of cache keys and handler paths |
| CacheModel.dfy, CacheRuns.dfy | the versioned-timer cache as a state, its reference maps and whole runs |
| CacheSplit.dfy | the cache whose timers check and delete in two steps, against the one that deletes at once |
| CacheGap.dfy | one gap between a check and its delete |
| Cache.dfy | the cache with its shared items updated in place |
| Heartbeat.dfy | the 30 s lease of command invokers |
| Closing.dfy | the close cascade of invokers and HTTP transports |
| Session.dfy, SessionRuns.dfy | login, kick and close over the shared store and its watch queues, at any moment; whole runs and the handlers |
| Decimal.dfy, Allocation.dfy | reservation of tunnel numbers and domain names |
| KeySpace.dfy | the flat key space and its prefix scans |

## How the model is built

Concurrent parts are state machines: a `State`, an `Action` for every atomic step of a goroutine, `Enabled`
and `Apply` for one step, and `Run` for any number of steps in any order. Results about "every reachable
state" quantify over all runs. Code that updates fields or loops is a class or a method whose contract ties
the new state to the same functions: `Cache.Cache`, `SessionRuns.Cluster`, `Closing.Node`, `Pairing.Relays`,
`Allocation.EtcdClient`, `KeySpace.EtcdClient`, `Dispatch.InvokeRoute`, `Rpc.ResponseTable`,
`Framing.Stream` and `Framing.Sink`.

Safety statements are accompanied by what has to happen: runs from the start through every step of a machine, or
a way on from every reachable state (`Channel.EverythingArrives`, `TunnelRuns.ListenerBytesArrive`,
`Pairing.ListenerIsServed`, `DispatchEnds.StartRun`). Keys, limits and times are spelled out in the statements.

Parameters stand for what the program gets from outside: arrival of bytes, clock readings, random draws,
fresh UUIDs, range responses of etcd, and the JSON codec (`Dispatch.Codec`, assumed to round-trip).

The protocol notes say that a sub-tunnel needs a live command tunnel and that only a different node closes
the old session on a new login. The code does neither, and the model follows the code: streams are accepted
without asking for a command invoker, and a node kicks its own invokers as well as those of others.

## Findings

Some properties that one would expect do not hold of the code. The model keeps the code as it is. Each of the
following has a run or an input that shows it, and a statement for all runs or inputs that says when it happens.

- RPC progress fails once the context may end. A receiver can hold the table lock while blocked on a send
  to a call that has left its select and needs that lock. `Rpc.CancelCanJam` is such a run,
  `Rpc.JamExactly` names the two steps that can lead there, `Rpc.JamIsForever` shows there is no way out,
  `Rpc.StuckExactly` that nothing else gets stuck.
- A cache entry that is created again after its key was deleted with a timer pending can be removed early by
  the old timer: `CacheRuns.RecreatedExpiresEarly` is such a run, `CacheRuns.ExpiryInRuns` gives the moments
  exactly, and without such re-creation the cache is the plain map (`CacheRuns.RunRefinesPlainMap`).
- A timer's version check and its delete are two steps. The cache is at every moment the one that deletes at
  once, less what it is about to delete, if and only if no caller ever sets a key, or renews its entry, while
  a delete of that key is pending (`CacheSplit.AlikeExactly`); then it is a run of that cache
  (`CacheSplit.SplitIsAtomic`). A value set in the gap is lost (`CacheSplit.MetValueIsLost`,
  `CacheGap.GapLosesValue`). A renewal in the gap reports success, is lost with the entry
  (`CacheGap.GapLosesRenewal`), and leaves a timer that can take away a later entry
  (`CacheSplit.MetRenewalStrikesLater`, with the run `CacheSplit.RenewalStrikesLater`). What one delete costs at
  the moment it happens is `CacheGap.GapExactly`.
- A login runs in a goroutine of its own and does not look at its invoker again. A record names a closed
  invoker if and only if that one's login came after its close (`SessionRuns.RecordNamesClosedExactly`). Such a
  login gets the live session of the client kicked (`SessionRuns.LateLoginTakesSession`).
- `OnCloseClient` reads the online record and deletes it in two steps. The delete still hits the invoker's own
  record if and only if nobody of the same client has logged in or deleted it in between, or its own login was
  the last to do so, and it hits that of another invoker if and only if the last touch was that one's login
  (`SessionRuns.DeleteHitsOwnRecord`). A late delete leaves the client with two open sessions that nobody kicks
  (`SessionRuns.LateDeleteLosesSession`); without logins in between it cannot happen (`SessionRuns.CloseSparesOthers`).
- A login kicks its own invoker if and only if the record names that invoker already
  (`SessionRuns.SecondLoginKicksItself`, with the run `SessionRuns.SecondLoginRun`).
- A reservation protects its name exactly until its lease ends (`Allocation.LeaseGuardIsSharp`); a late
  overwrite gives two client records one tunnel number (`Allocation.LateOverwriteDuplicates`).
- A closed invoker stays in the route if and only if its closing goroutine found no callback installed and
  nothing else removed it (`Closing.LeftInRouteExactly`), as in `Closing.EarlyCloseStaysInRoute`.
- Two clients can share listen keys if and only if one id is the other followed by `=>` and more
  (`KeySpace.ArrowInIdCollides`, `KeySpace.ListenScan`).

Three limits are exact conditions on an input, and stated as such: a listener that puts an `HttpTransKey` of its
own into its request is never joined (`Pairing.JoinedExactly`); the client id `list` reads domain-name records as
its domain list (`KeySpace.DomainScanMeetsNames`); and `HasKey` and `Delete` take the key as it is, while `Set` and
`Get` normalise it, so they meet the entry if and only if the key is its own normal form (`Cache.Cache.HasKey`,
`Cache.Cache.Delete`).

## Model

| member | source | states |
|---|---|---|
| IntCodec.BytesToIntInvertsIntToBytes | utils/io.go:53-65 | decoding the encoding of any int64, negatives included, gives it back, whatever bytes follow |
| IntCodec.IntToBytesInvertsBytesToInt | utils/io.go:53-65 | encoding the decoding of any eight bytes gives them back |
| IntCodec.IntOfBytes | utils/io.go:60-65 | eight bytes or more read as the big-endian two's-complement number of the first eight, place values spelled out; fewer read as zero |
| IntCodec.BytesOfInt | utils/io.go:53-58 | the bytes of any int64 are its big-endian two's-complement digits |
| IntCodec.IntToByteArray | utils/io.go:30-38 | on a little-endian host the loop yields the reverse of the big-endian bytes |
| IntCodec.LittleIsReversedBig | utils/io.go:30-38 | base-256 digits stored least significant first are the big-endian digits in reverse, for any number and width |
| IntCodec.ByteArrayToInt | utils/io.go:40-47 | the loop reads the reversed, zero-extended array; of an array longer than eight bytes the first eight, and it writes the others past the variable |
| IntCodec.ShortArrayValue | utils/io.go:40-47 | an array shorter than eight bytes is read as the non-negative number its bytes spell |
| IntCodec.LoopsAreInverse | utils/io.go:30-47 | the two loops undo each other, in both directions |
| Framing.ParseWholeFrame | rpc/invoke.go:216-231 | a frame followed by anything parses to its body and leaves exactly what follows |
| Framing.PartOfFrame | rpc/invoke.go:216-231 | part of a frame is never taken for a frame, and the reader never asks for bytes beyond its end |
| Framing.FrameLayout | rpc/invoke.go:327-338 | a frame is eight bytes that spell the length of the body, most significant first, and then the body |
| Framing.ParseExactly | rpc/invoke.go:216-231 | bytes parse to a body and a rest if and only if they are the frame of that body followed by that rest; the read panics if and only if eight bytes are there and spell a length below zero or above 2^48 |
| Framing.DecodePrefix | rpc/invoke.go:216-231 | any prefix of a frame stream decodes to a prefix of the frames written; the whole stream to all of them |
| Framing.Stream.ReadFull | rpc/invoke.go:220-230 | the io.ReadFull loop takes exactly n bytes for any chunking, or fails if fewer will come |
| Framing.Stream.ReadInvokeStr | rpc/invoke.go:216-231 | one frame is consumed exactly and the outcome depends on the bytes alone, not on the chunks; lengths that are negative or too large to allocate panic |
| Framing.Sink.WriteInvokeData | rpc/invoke.go:327-348 | the whole frame is appended, or on error the part that the stream still took |
| Framing.IoCopy | rpc/invoke.go:156-160 | one copy direction delivers the source's bytes from the beginning and without a gap, as far as both sides last |
| Framing.CopyAndClose | rpc/invoke.go:156-160 | the same, and both sides are closed after it |
| Channel.DecodedIsLinearisation | rpc/invoke.go:327-348 | with any number of writers, any chunking and failure at any time, the decoded bodies are a prefix of the frames in lock order, which keeps each writer's order |
| Channel.AllDecodedAtRest | rpc/invoke.go:327-348 | when all writers are done and nothing is in flight, every frame of every writer has been decoded |
| Channel.EverythingArrives | rpc/invoke.go:327-348 | from any reachable state of a stream that has not failed there is a run in which every frame of every writer is written and decoded |
| Channel.NothingAfterFailure | rpc/invoke.go:340-348 | after a failure no frame is begun and no byte is written any more, and what is queued is what was queued |
| Channel.WritersReturn | rpc/invoke.go:338-348 | after a failure every writer can still get the lock for each of its frames and come back with its error |
| Channel.ReaderNeverStuck | rpc/invoke.go:216-231 | the reader never sees a bad length and can always take a queued byte |
| Handshake.NothingLost | rpc/invoke.go:400-419 | in every interleaving the over-reading buffered read discards nothing, the dialer adopts the issued id, and later reads are prefixes of what the other side wrote |
| Handshake.FramesArePrefix | rpc/invoke.go:400-419 | after the handshake the frames each side decodes are a prefix of the frames the other side wrote |
| Handshake.NeverStuck | rpc/quic/srv/server.go:143-149 | until both sides are through the handshake one of them can move |
| Handshake.HandshakeRun | rpc/invoke.go:400-419 | the handshake as it goes, step by step from the start, ends with the dialer under the issued id and nothing on the way |
| Handshake.DataRun | rpc/invoke.go:135-141 | after it the bytes written at either side are read at the other |
| Handshake.OverReadTakes | rpc/invoke.go:402 | the buffered read takes the push byte and loses what it took besides; in NothingLost that is nothing |
| Handshake.AddAcceptInvoker | rpc/invoke.go:400-405 | the first byte that arrives is consumed and returned, unless the stream ends before or a hundred reads in a row give nothing; the rest of its chunk is lost as far as a 4096-byte buffer reaches, and nothing else; the lone byte 88 is returned and nothing is left or lost |
| Handshake.AddDialInvoker | rpc/invoke.go:407-419 | writes the push byte and then consumes exactly the id frame |
| Tunnel.Transparent | rpc/invoke.go:143-164 | for any chunking and any order of closes, bytes written to either socket are a prefix of the bytes read from the other; the two header frames reach the node whole and never leak into the data |
| Tunnel.AllArrives | app/client/client.go:72-80 | if nobody has closed and nothing is on the way, everything read at one socket has been written to the other, in either direction |
| TunnelRuns.TunnelOpens | app/client/client.go:72-80 | a run from the start in which both ends dial and announce themselves and the node joins them |
| TunnelRuns.ListenerBytesArrive | rpc/invoke.go:143-164 | in any reachable joined tunnel whose copiers run, the bytes read next at the listener's socket can all come out at the target's, behind all that was read before |
| TunnelRuns.TargetBytesArrive | rpc/invoke.go:143-164 | the same in the other direction |
| TunnelClosing.ClosingSpreads | rpc/invoke.go:156-163 | once a socket or a stream end of a joined tunnel is closed, some copier can end until all six are closed, in fewer than six ends and any order |
| TunnelClosing.TunnelCloses | rpc/invoke.go:156-163 | from any state of the tunnel in which a copier has ended there is a run of it in which others end, each because what it reads is closed, until everything is |
| TunnelClosing.CopiersFollowHandles | rpc/invoke.go:156-160 | what the copier of one handle writes can be read at the far end of the handle it is joined to, and nowhere else |
| TunnelClosing.ClosingFromTheListener | rpc/invoke.go:156-163 | nothing closes by itself; from either socket the closing goes from one Copy to the next and takes no other way |
| TunnelClosing.BytesMoveOn | rpc/invoke.go:156-160 | in a reachable joined tunnel, while the copiers of a direction run and something read at one socket is not yet written at the other, a copier can move and brings the bytes closer |
| Tunnel.TakeHeaderKeeps | app/node/node.go:136-143 | the node's read of the header frame stops exactly at its end, for any chunking: the header is complete if and only if the bytes read are the frame |
| Pairing.RelaysArePaired | app/node/node.go:457-493 | whatever the first request of a stream: every relay of a target stream that returns the request it was sent joins it to the listen stream whose own ListenIn that was, whatever its header; no target stream is in two relays, no listen stream in two such relays |
| Pairing.JoinedExactly | app/node/node.go:476-493 | the streams are joined if and only if the listener set no HTTP key and is still in the route |
| Pairing.ListenInForwards | app/node/node.go:457-474 | the step of the model does exactly that to the requests on their way, and nothing else but note the listener's request |
| Pairing.ListenerIsServed | app/node/node.go:457-474 | whatever happens after a ListenIn whose target is online, the request is under both names on its way, was lost there, or is carried by a target stream that has been dialed for it |
| Pairing.DialedIsJoined | app/node/node.go:476-493 | once dialed, the target stream is joined to the listen stream when it is handled, if that has not been closed by then |
| Pairing.TransferGoJoins | app/node/node.go:476-493 | for any stream and any request: when it is joined to the stream it names, be that a listener's or another one |
| Pairing.JoinedRun | app/node/node.go:457-493 | the run from the start that ends with the relay of target and listener |
| Pairing.HttpRun | app/node/node.go:480-488 | the stream dialed for an HTTP transport is joined to nothing |
| Pairing.OwnRun | app/node/node.go:490-493 | a stream with a request of its own is joined to the open stream that it names |
| Pairing.ClosedRun | app/node/node.go:490-493 | if the stream it names has been closed, it is joined to nothing |
| Pairing.Relays.OnInvokerListenIn | app/node/node.go:457-474 | with the target online the request is sent on, under "ListenInvokerId" the listen stream's id and under "ListenClientId" its client, over anything the listener sent, every other header as sent; with the target offline nothing is sent |
| Pairing.Relays.OnInvokerTransferGo | app/node/node.go:476-493 | adds the relay to the stream named under "ListenInvokerId" if that is in the route and "HttpTransKey" is empty, and none otherwise |
| Rpc.Correlation | rpc/invoke.go:277-325 | a successful call returns what the peer's handler made of its own request, under its id; the table holds exactly the calls between registration and removal; an answer finds its channel unless its call gave up |
| Rpc.Progress | rpc/invoke.go:277-325 | without cancellation a state is idle if and only if every call has returned or waits for an answer not yet given; runs are bounded; then every answered call has its answer and no table entry |
| Rpc.AnsweredRun | rpc/invoke.go:303-325 | a call from start to return: it returns the handler's answer, its entry is gone and the lock is free |
| Rpc.WriteFailedRun | rpc/invoke.go:307-310 | a call whose write fails returns that error and leaves no entry |
| Rpc.LateAnswerRun | rpc/invoke.go:277-318 | a call whose context ends returns without an answer; the answer that comes later finds no channel and is dropped |
| Rpc.MeasureDecreases | rpc/invoke.go:277-325 | every step of any goroutine decreases one measure |
| Rpc.CanMove | rpc/invoke.go:277-325 | a reachable state that is neither finished nor jammed has a goroutine that can move |
| Rpc.JamExactly | rpc/invoke.go:279-282 | a step leads into a jam exactly if it is the context branch under a blocked send, or the lock taken for a call that is leaving |
| Rpc.JamIsForever | rpc/invoke.go:297-305 | in a jam the lock is never released and no leaving call ever returns |
| Rpc.StuckExactly | rpc/invoke.go:313-318 | with cancellation, a state in which nothing moves is finished if and only if it is not jammed |
| Rpc.CancelCanJam | rpc/invoke.go:277-325 | a reachable stuck state in which the receiver holds the lock that the deferred removal needs |
| Rpc.ResponseTable.GetResponseChan | rpc/invoke.go:285-295 | returns the request's channel and makes one only if there is none |
| Rpc.ResponseTable.RemoveResponseChan | rpc/invoke.go:297-301 | removes exactly that id |
| Dispatch.MessagesArePrefix | rpc/invoke.go:254-275 | the messages read from any prefix of the byte stream are a prefix of those written, and all of them at its end |
| Dispatch.LookupFollowsLastOp | rpc/invoke.go:429-463 | a lookup finds what the last add or remove on that path, up to case and outer spaces, left |
| Dispatch.AfterOneMore | rpc/invoke.go:429-457 | the table after a further add or remove is what that operation makes of it |
| Dispatch.RoutingFollowsOps | rpc/invoke.go:509-516 | after any adds and removes a request goes to the one-way handler in force, else to the two-way one, else nowhere |
| Dispatch.HandlingFollowsOps | rpc/invoke.go:503-533 | a response is handed off; a request is called one way by the handler set last for its path, else two ways by the one set last, else dropped |
| Dispatch.AfterWritten | rpc/invoke.go:254-264 | behind any messages that were written: a frame without a type makes the read panic, one of another type than "1" and "2" is refused, part of a frame gives nothing |
| Dispatch.InvokeRoute.Route | rpc/invoke.go:509-516 | picks as the tables say, one-way handlers first |
| Dispatch.DispatchInvoke | rpc/invoke.go:481-536 | the messages on the stream are handled one for one and in order, as the tables say; the loop ends at the first turn out of the route, done, failed or panicking |
| DispatchRuns.Conservation | rpc/invoke.go:481-536 | in every interleaving of arriving bytes, loop, goroutines, table changes and cancels, the messages read are the first of the stream, and each is handed off once, called once, called once and its answer tried once, or dropped, as lookups between its read and its start said; nothing is left undone at rest |
| DispatchRuns.CalledAsPicked | rpc/invoke.go:509-533 | in any run, a request whose path nobody re-registers between its read and its start is dealt with by the handler registered at the read, one-way handlers first, and dropped only if there was none |
| DispatchRuns.ReadsWhatWasWritten | rpc/invoke.go:254-275 | what the loop reads is a prefix of what the peer wrote |
| DispatchRuns.FailedAnswerEnds | rpc/invoke.go:518-526 | a failed answer cancels the context at once and takes the invoker out of the route |
| DispatchRuns.FewReadsAfterCancel | rpc/invoke.go:486-502 | after a cancel the loop reads the frame it is already waiting for, at most |
| DispatchEnds.FailedReadCloses | rpc/invoke.go:498-501 | in any run with a failed read, the loop has ended and the invoker is closed and out of the route |
| DispatchEnds.CancelledSelectCloses | rpc/invoke.go:490-501 | so it is in any run in which the loop comes to its select after a cancel |
| DispatchEnds.InvalidTypeCloses | rpc/invoke.go:261-264 | so it is when a frame of a type other than "1" and "2" is read; the frame is consumed |
| DispatchEnds.NoTypePanics | rpc/invoke.go:261 | a frame without a type ends the loop by a panic that closes nothing and removes nobody |
| DispatchEnds.LoopEndsExactly | rpc/invoke.go:481-502 | a step ends the loop if and only if it is a check outside the route, a select after a cancel, a failed read, or a read of no message; the check changes nothing else, select and failed read close and remove the invoker |
| DispatchEnds.HistoriesAreTheRun | rpc/invoke.go:429-457 | the stream holds what has arrived in the run, and the tables have seen the changes made in it, in order |
| DispatchEnds.ClosedExactly | rpc/invoke.go:518-526 | while the loop goes on, the invoker is closed if and only if someone cancelled it or an answer failed, and in the route if and only if nobody has taken it out |
| DispatchEnds.ResponseRun | rpc/invoke.go:503-506 | from any state in which the loop can go on, a response that has arrived is read and handed off |
| DispatchEnds.StartRun | rpc/invoke.go:508-533 | likewise a request is read, looked up and given the goroutine that the tables call for |
| DispatchEnds.TwoWayRun | rpc/invoke.go:518-526 | that goroutine calls the handler and answers with what it returned |
| DispatchEnds.FailedAnswerRun | rpc/invoke.go:521-525 | if the answer cannot be written, the invoker is closed at once and then taken out of the route |
| Text.KeyIsPath | rpc/invoke.go:432 | lowering before or after trimming comes to the same: cache keys and handler paths are normalised alike |
| Text.TrimSpaceExactly | utils/cache.go:73 | trimming leaves exactly what stands between the first and the last character other than tab, line feed, vertical tab, form feed, carriage return and blank |
| Text.KeyCharacters | utils/cache.go:72-74 | character by character: in the key 'A' to 'Z' become the small letters at the same distance, everything else stays |
| Text.SameKeyExactly | utils/cache.go:72-74 | two names have one key, or one handler path, if and only if between their outer spaces they are equally long and agree at each position up to ASCII case |
| Text.GetKeyIdempotent | utils/cache.go:72-74 | a normalised key is its own normal form |
| CacheModel.StepRefines | utils/cache.go:19-36 | with atomic firing every step of the versioned-timer cache is a step of a map with deadlines and orphaned deadlines |
| CacheModel.LiveTimerIsUnique | utils/cache.go:23-30 | an item has at most one timer that can pass the version check |
| CacheModel.StaleTimerRep | utils/cache.go:28-30 | a timer whose version has been superseded changes nothing |
| CacheRuns.RunFollowsMap | utils/cache.go:84-137 | any run, with deletes and re-creations, follows the map with deadlines |
| CacheRuns.ExactExpiry | utils/cache.go:23-35 | a timer can remove a key now if and only if the deadline of its current entry, or of an earlier one deleted unexpired, has passed |
| CacheRuns.ExpiryInRuns | utils/cache.go:23-35 | the same for every run of a new cache, against the reference map that the run determines |
| CacheRuns.RecreatedExpiresEarly | utils/cache.go:129-137 | a run in which a re-created entry can go with the timer of its predecessor, 92 units before its own deadline |
| CacheRuns.RunRefinesPlainMap | utils/cache.go:84-137 | on runs that re-create no key deleted with a live timer the cache is a plain map: SetExpire and SetValue replace the deadline, Set clears it |
| CacheSplit.AlikeExactly | utils/cache.go:26-35 | for any run with any number of open gaps: the cache is at every moment the one that deletes at once, less the pending deletes, if and only if no caller sets a key or renews its entry while a delete of it is pending |
| CacheSplit.SplitIsAtomic | utils/cache.go:26-35 | then it is step by step a run of the cache with atomic firing, and the same state once no delete is pending |
| CacheSplit.MetValueIsLost | utils/cache.go:28-31 | from any state, a value that meets a pending delete is lost, while deleting at once keeps it |
| CacheSplit.MetRenewalStrikesLater | utils/cache.go:19-35 | from any state, a renewal that meets a pending delete leaves a timer that can take away an entry set later without a deadline; deleting at once has no such timer |
| CacheSplit.RenewalStrikesLater | utils/cache.go:19-35 | such a run of a new cache |
| CacheGap.GapExactly | utils/cache.go:28-31 | for any run between check and delete, other checks and deletes included, there is a run in which this delete comes with its check and the callers do the same; the two agree on all other keys, and an entry that the delete meets is there too, with the same value and deadline, if and only if a value was set for the key in the gap |
| CacheGap.GapLosesValue | utils/cache.go:28-31 | a run in which a value set in the gap is lost, while atomic firing keeps it |
| CacheGap.GapLosesRenewal | utils/cache.go:28-31 | a run in which a renewal in the gap reports success and is lost; atomic firing makes it fail |
| Cache.Cache.Get | utils/cache.go:59-70 | the value under the normalised key, or the zero value |
| Cache.Cache.HasKey | utils/cache.go:76-82 | true if and only if the key is its own normal form and present |
| Cache.Cache.Set | utils/cache.go:84-97 | an existing item is updated in place with a new version and no timer, otherwise a new item is made |
| Cache.Cache.SetExpire | utils/cache.go:99-111 | a present item gets a new version and a timer that carries it; says whether it was present |
| Cache.Cache.SetValue | utils/cache.go:113-127 | sets the value and starts a new timer |
| Cache.Cache.Delete | utils/cache.go:129-137 | calls the delete handler, then removes the raw key; something goes if and only if the key is its own normal form and present |
| Cache.Cache.CheckTimer | utils/cache.go:26-35 | the version check alone: leaves the delete to do and calls the expire handler exactly if the version still matches |
| Cache.Cache.Fire | utils/cache.go:26-35 | check and delete without a gap: the key goes exactly if the version still matches |
| Heartbeat.PunctualIsNeverExpired | rpc/quic/srv/server.go:200-204 | heartbeats less than 30 s apart, the last less than 30 s ago: never expired, with check and delete as separate steps |
| Heartbeat.SilenceExpires | rpc/invoke.go:382-387 | after a heartbeat and 30 s of silence the delete is pending or a timer is ready whose check closes the invoker |
| Heartbeat.CheckOnlyAfterSilence | utils/cache.go:26-35 | a check that passes closes only an invoker whose last heartbeat is a full lease ago |
| Heartbeat.BeatsAreTheRun | rpc/quic/srv/server.go:200-204 | the heartbeats these results speak of are those of the run, all of them and at their times |
| Heartbeat.BeatOfOne | rpc/quic/srv/server.go:200-204 | a heartbeat bumps the version of its invoker's item and starts a timer of 30,000,000,000 ns |
| Heartbeat.BeatsRun | rpc/quic/srv/server.go:200-204 | a run from the start: an invoker is accepted and sends two heartbeats, the second 1 ns before the first lease ends |
| Heartbeat.RenewedRun | utils/cache.go:26-35 | the timer of the first heartbeat then does nothing |
| Heartbeat.ExpiredRun | utils/cache.go:26-35 | with no third heartbeat the invoker goes exactly 30 s after the second |
| Closing.CallbackAtMostOnce | utils/closer.go:42-64 | in any run each callback runs at most once; an invoker whose callback ran is closed and out of the route |
| Closing.CallbackEffects | rpc/quic/srv/server.go:168-176 | everything that a closing goroutine changes: with a callback installed the invoker leaves the route, its transport goes and the invoker attached to that is cancelled; without one, only its closed mark |
| Closing.CallbackClosesTransport | app/node/node.go:168-177 | in any run after the callback of an HTTP stream, the invoker attached to its transport is closed, and the transport has gone unless somebody adds it anew |
| Closing.DeleteClosesTransport | app/node/node.go:515-520 | the same after any other delete of a transport; a new transport is attached to nobody |
| Closing.CascadeRun | app/node/node.go:168-186 | a run: closing one of two streams that served a transport takes the transport and the other one along |
| Closing.LeftInRouteExactly | rpc/quic/srv/server.go:149-176 | in any run, a closed invoker is in the route if and only if its closing goroutine found no callback and nothing else removed it |
| Closing.EarlyCloseStaysInRoute | rpc/quic/srv/server.go:149-153 | a run that ends with a closed invoker in the route and nothing left to run |
| Closing.RouteHoldsOpenInvokers | rpc/quic/srv/server.go:168-176 | with callbacks installed in time, at rest the route holds open invokers only |
| Closing.CascadeLength | app/node/node.go:168-186 | a cascade takes exactly as many callbacks as it closes invokers, so it ends |
| Closing.CascadeSettles | app/node/node.go:515-520 | whatever the order, a finished cascade has cancelled the least set that contains the start and is closed under transport ownership |
| Closing.OutcomeIsUnique | app/node/node.go:168-186 | two finished cascades from one state agree on who is cancelled and on the route |
| Closing.Node.Drain | utils/closer.go:49-62 | the loop over closing goroutines ends in that settled state |
| Closing.Node.TransportsDelete | app/node/node.go:515-520 | the delete handler closes the attached invoker before the entry goes |
| Closing.Node.RunClosing | rpc/quic/srv/server.go:168-176 | the callback's effects, once, and then the closed mark |
| SessionRuns.SingleSession | app/node/node.go:242-307 | with logins at any moment and the close in three steps: every logged-in open invoker is the recorded one, kicked, named by an event queued at its node, or robbed of its record by an older closed one; only invokers with a later login of their client are kicked; a client's record is exactly that of its newest login, unless that has been deleted |
| SessionRuns.KickedByAnother | app/node/node.go:294-307 | an invoker that logged in once is kicked only if another one of its client logged in later |
| SessionRuns.OneSessionAtRest | app/node/node.go:294-307 | with all events handled a client has at most one open session neither kicked nor robbed, and it has one if and only if its newest login is such |
| SessionRuns.RecordNamesClosedExactly | app/node/node.go:277-289 | a record names a closed invoker if and only if that one's login came after its close |
| SessionRuns.LateLoginTakesSession | app/node/node.go:277-289 | a run in which the login of a closed invoker gets the live session kicked and leaves the client without one |
| SessionRuns.CloseSparesOthers | app/node/node.go:180-185 | if no login of a client falls between read and delete of another invoker's close, no close ever removes another one's record |
| SessionRuns.RecordFollowsLastTouch | app/node/etcd/etcd.go:304-312 | over any run, the record of a client is what the last login or delete of an invoker of that client left |
| SessionRuns.DeleteHitsOwnRecord | app/node/node.go:180-185 | the delete hits the invoker's own record if and only if nobody of its client touched the record since the read, or its own login was the last to; it hits another one's if and only if the last touch was that one's login |
| SessionRuns.LateDeleteLosesSession | app/node/node.go:180-185 | a run in which a late delete robs the newer session, and the client ends up with two open sessions that nobody kicks |
| SessionRuns.HandleAllKicks | app/node/node.go:294-307 | handling all events of a node kicks exactly its open invokers that some queued event names as the previous one |
| SessionRuns.MoveRun | app/node/node.go:277-289 | a run with two nodes: a client logs in at one, then at the other, and both nodes are told of both |
| SessionRuns.KickRun | app/node/node.go:294-307 | when both have handled their events, the node of the older session has kicked it and nobody else has been kicked |
| SessionRuns.SecondLoginKicksItself | app/node/node.go:277-307 | a login gets its own invoker kicked if and only if it is open and the record, or an event still queued, names it already |
| SessionRuns.SecondLoginRun | app/node/node.go:277-307 | a run in which the only invoker of the cluster is kicked |
| SessionRuns.Cluster.OnInvokerClientLogin | app/node/node.go:242-292 | logs in if and only if the stored id and token match, whatever the invoker's state; answers with the stored record, puts the online record and tells every node; otherwise says which of the three errors it is, and nothing changes but that the invoker is to be closed |
| SessionRuns.Cluster.OnWatcherClientOnline | app/node/node.go:294-307 | a put event kicks its previous invoker if that is open at this node |
| SessionRuns.Cluster.ReadOnlineClient | app/node/node.go:180-182 | tells whether the record names this invoker |
| SessionRuns.Cluster.DeleteOnlineClient | app/node/node.go:183-184 | deletes the client's record, whomever it names by now |
| SessionRuns.Cluster.OnCloseClient | app/node/node.go:180-185 | without anything in between: takes back the record if and only if it names this invoker |
| Allocation.DrawnNumbers | app/node/etcd/etcd.go:214-238 | tunnel numbers lie in [10000000, 99999998] with eight digits, domain numbers in [100000, 999998] |
| Allocation.NumberOfDraw | app/node/etcd/etcd.go:216-219 | a draw of at least 10,000,000 (for domains 100,000) is the number itself, a smaller one is moved up by that |
| Allocation.DrawsOfNumber | app/node/etcd/etcd.go:216-219 | every number of the range can be drawn, no other, and two draws give one number if and only if they are equal or differ by the lower bound across it |
| Allocation.NameFormat | app/node/etcd/etcd.go:220-233 | a tunnel id reads as its number; a domain name is "c", six digits that read as the number, a dot and the domain |
| Allocation.NamesAreInjective | app/node/etcd/etcd.go:220-233 | different numbers give different names |
| Allocation.ChosenHostIsNotGenerated | app/node/node.go:369-379 | a host that a user may choose is never a generated domain name |
| Allocation.HostChoices | app/node/node.go:369-379 | a host is generated if and only if none is given, refused if and only if it ends in the domain, and used as it is otherwise |
| Allocation.UniqueAllocation | app/node/etcd/etcd.go:200-271 | if every holder overwrites within its lease, no two allocations share a name and finished records stay in place whatever hosts users add |
| Allocation.AllocationRun | app/node/etcd/etcd.go:200-271 | a run: after a failed transaction the next one reserves the name for 5,000,000,000 ns, another allocator that draws it gets nothing, and the holder's record stays |
| Allocation.LeaseGuardIsSharp | app/node/etcd/etcd.go:200-212 | up to a moment another allocator can get a reserved name, in some run, if and only if the lease ends by then |
| Allocation.LateOverwriteDuplicates | app/node/etcd/etcd.go:254-271 | a reachable state with two client records of one tunnel number |
| Allocation.EtcdClient.Generate | app/node/etcd/etcd.go:200-238 | the loop reserves the first free name drawn for 5,000,000,000 ns and changes nothing else |
| Decimal.DigitsInjective | app/node/etcd/etcd.go:220 | different numbers are written differently |
| KeySpace.FamiliesAreDisjoint | app/node/etcd/keys.go:53-62 | online, tunnel, record and listen keys never collide, and no scan of one family meets another |
| KeySpace.ClientKeysAreApart | app/node/etcd/keys.go:53-62 | domain, node and signing keys lie outside those families |
| KeySpace.KeyFormats | app/node/etcd/keys.go:53-62 | the key that each kind of write is about, spelled out |
| KeySpace.ListenScan | app/node/etcd/etcd.go:359-369 | for any two ids: when exactly the scan for one meets a listen key of the other |
| KeySpace.ListenKeyInjective | app/node/etcd/etcd.go:291-293 | for any two ids and addresses: when exactly their listen keys are the same |
| KeySpace.ArrowInIdCollides | app/node/etcd/keys.go:61 | two clients can share a listen key if and only if one id is the other followed by an arrow and more |
| KeySpace.NoArrowIsApart | app/node/etcd/keys.go:61 | ids without an arrow never collide |
| KeySpace.DomainScanMeetsNames | app/node/etcd/etcd.go:314-328 | the domain scan meets a generated name if and only if the client id is "list", or goes on behind "list/" like the name |
| KeySpace.StoreFollowsTables | app/node/etcd/etcd.go:240-357 | after any writes of all kinds the flat store stands for the maps that the same writes have made: one for each client family and one for domain names |
| KeySpace.ReadsLastWrite | app/node/etcd/etcd.go:107-160 | over any writes, a key reads as the last write to it left it, and as before if there was none |
| KeySpace.HostReadsLastListen | app/node/etcd/etcd.go:371-378 | whatever else is written after it, a host name is served by the listen filed for it last |
| KeySpace.IdsInRecords | app/node/etcd/etcd.go:339-346 | the ids in a new listen are those of the client record and the tunnel record, and empty without them |
| KeySpace.EtcdClient.GetDomainInfo | app/node/etcd/etcd.go:371-378 | finds a listen if and only if there is a record under the host name, and the one that the map of domain names has |
| KeySpace.EtcdClient.AddListenWithTunnel | app/node/etcd/etcd.go:330-357 | for any ids: the listen carries the tunnel and terminal found in the store; it is put under its listen key, with an http or https target under its address as a domain name too, and every other key is as before; for ids that are apart, the store goes on standing for the maps with that listen, and that name, set |
| KeySpace.EtcdClient.GetTransferList | app/node/etcd/etcd.go:359-369 | for any ids: the list holds exactly the listens under the keys that the scan meets; for ids that are apart, each listen of the client once and nothing else |

## Left out

- QUIC, WebTransport, TLS, sockets, HTTP routing and wrappers, logging, settings files: unseen libraries and plumbing.
- JSON internals: an abstract codec with an assumed round trip.
- JWT, AuthCode, tokens beyond their comparison at login: no cryptography.
- `getTransport`'s rendezvous on `transChan`; only the transports table and its delete handler are modelled.
- UDP and SOCKS5 relaying, and forwarding between nodes, which the code does not implement.
- `SyncMap`, random strings, response structs, getters and setters: only easy members.
- Rpc.Correlation: request ids are distinct, as fresh UUIDs; a request whose write failed is never answered; handlers answer with the request's id.
- Rpc.Progress: the goroutine scheduler is fair, so a step that stays possible is taken.
- Channel.DecodedIsLinearisation: a failed stream delivers what it has accepted; bytes are never altered or reordered by the transport.
- Tunnel.Transparent: a close is modelled as any copier stopping for good at any moment, which covers every order of closes (how closes spread is TunnelClosing.TunnelCloses); `Copy` on command tunnels is refused by the code and does not occur.
- Handshake.NothingLost: when a read or write fails the code carries on with a dead stream; the model lets that side stop.
- CacheModel.StepRefines: versions are unbounded integers, so 2^63 renewals of one item are not covered; operations are atomic under the map lock.
- Cache.Cache.CheckTimer: handlers are recorded as calls; what they do is in Closing.dfy and Heartbeat.dfy.
- CacheGap.GapExactly: if a value was set and then removed in the gap, so that the delete meets no entry and changes nothing, the statement leaves open whether the other run still has that entry, as an orphaned timer of a renewal in the gap may have removed it.
- Text.GetKey: ASCII letters and spaces only, no Unicode case folding.
- Heartbeat.PunctualIsNeverExpired: only heartbeats that find their invoker in the route count.
- Closing.Node.RunClosing: the callback's part in the online record is SessionRuns.Cluster.OnCloseClient.
- Closing.CascadeSettles: no stream is accepted, attached or closed from outside while the cascade runs; the other results allow it.
- SessionRuns.SingleSession: every watcher is registered before the first login, and online records keep their lease while their node lives; a node's crash is not modelled.
- SessionRuns.Cluster.OnInvokerClientLogin: the 50 ms delay before a refused invoker is closed is not timed.
- Allocation.UniqueAllocation: all nodes are configured with the same domain; etcd drops a key only after its lease has ended.
- IntCodec.ByteArrayToInt: what is stored past the variable, and is overwritten by a longer array, is not modelled.
- Framing.ParseFrame: a length below the limit that exceeds the memory of the host is not modelled.
- KeySpace.EtcdClient.GetTransferList: the order of the response is not used.
- Pairing.RelaysArePaired: nothing is said of a target stream that sends a TransferGo of its own making, except that it is in one relay at most; request ids are fresh.
- Dispatch.DispatchInvoke: what each turn finds of route and context is given, and the tables stay as they are; both change freely in DispatchRuns.dfy.
- DispatchRuns.Conservation: how the loop ends is in DispatchEnds.dfy; a panic ends the loop there; that it ends the whole process is not modelled.
