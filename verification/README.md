# Verification of hermes-remote

hermes-remote is a tunnel between a phone and a Mac: an encrypted message stream with chunking, a relay that
multiplexes several phones over one bridge socket, a signed handshake, and a few limiters and trackers beside
them. This project models those parts in Dafny and proves what they keep over every run.

Check it with `dafny verify dfyconfig.toml`.

## How the model is laid out

Each core file of the program has two views. The operations that change state are classes whose methods update
fields in place (`Envelope.Suite`, `Messages.ChunkAssembler`, `Conn.Sender`, `Conn.Receiver`, `Channels.Session`,
`Mux.RelayMux`, `TokenBucket.Bucket`, `IpRate.Limiter`, `Handshake.PhoneState`, `Handshake.Pending`, `Watcher.Watcher`,
`Sessions.Server`, `Terminals.TerminalManager`, `Pairings.Pairings`); their contracts equate the new state with a
function of the old one. Concurrency is a state machine over the same functions: every lock section, socket
write or socket read is one step, and the theorems quantify over all sequences of steps. The stream machine starts
where the handshake ends (`Establish.StreamsCanStart`): from the phone with `base` 1, its confirm being frame 1, and
from the bridge with `base` 0.

| file | what it models |
|---|---|
| `Bytes.dfy`, `Text.dfy`, `Runs.dfy` | big-endian integers; base64url, percent-encoding, decimal integers; lists of steps |
| `Envelope.dfy` | sealed frames with sequential counters, on an ideal AES-GCM |
| `Messages.dfy`, `Reading.dfy` | chunking, reassembly, and what a receiver makes of the frames it opens |
| `Stream.dfy`, `Senders.dfy`, `Delivery.dfy` | one direction of a connection under a hostile network; senders taking turns on it; when the receiver stops, and what an undisturbed connection delivers |
| `Conn.dfy` | `send` and `recv` as loops that take these steps |
| `Transcript.dfy`, `Handshake.dfy` | the transcript bytes; both ends of the handshake in a world of honest keys and an attacker |
| `Establish.dfy` | from the end of the handshake to the start of the streams |
| `Channels.dfy`, `RelayFrame.dfy` | the wrapping channel allocator; the multiplexed frame |
| `Link.dfy`, `Relay.dfy`, `Mux.dfy` | one relayed channel step by step; all channels over shared queues; the bridge's objects |
| `Flows.dfy`, `Settling.dfy`, `Reuse.dfy` | a channel used end to end; how a session comes to rest; a number assigned again before its last phone is taken down |
| `TokenBucket.dfy`, `IpRate.dfy` | the two limiters |
| `Sessions.dfy` | the relay's registry of bridges |
| `Watcher.dfy`, `Terminals.dfy`, `Pairings.dfy` | the push watcher's marks, the shells of a connection, the one-time codes |
| `PairLink.dfy` | the pairing link, printed and parsed |

## What is assumed

- AES-GCM is ideal: opening succeeds exactly on a ciphertext sealed under the same key, nonce and header. The
  ciphertext itself is chosen by the environment.
- JSON is a pair of functions with laws (`Reading.Good`, and the `encode`/`decode` part of `Handshake.Ideal`):
  what the program marshals is parsed back, and a chunk of at most 1 MiB or a confirm fits an envelope. Messages are
  no longer than a Go slice can be.
- The hash, HKDF and HMAC are functions without stated laws. Where a theorem needs the hash not to collide, it says
  so for the transcripts at hand. Diffie-Hellman commutes. An honest key signs only what the program signs.
- `Establish` takes the key derivation to be injective in the transcript (`Handshake.KeysApart`), and the keys of a
  connection to be used by its two ends alone.
- A frame that was sealed but never sent is seen by nobody, so the network cannot deliver it; any other bytes it can.
  A write that fails may have sent its frame all the same; the socket then takes no further write.
- After its first error a receiver reads no more (internal/bridge/tunnel.go:60-73).
- Clocks read under a lock do not run backwards. Tokens, rate and time of the bucket are reals.
- Pairing codes and connections do not repeat. url.Parse splits a `hermes://pair` link whose query is made of escaped
  text; nothing else is assumed of it.
- None of these laws is empty: `Reading.SomeCodecIsGood`, `Handshake.SomeCryptoIsIdeal` and `PairLink.SomeLibrarySplits`
  exhibit functions that meet them.

## Model

| member | source | states |
|---|---|---|
| Delivery.DeliversPrefix | internal/bridge/server.go:238-304 | for every run with frames dropped, repeated, reordered, altered or injected, and writes failing after the seal with or without having sent their bytes, the messages returned are a prefix of those sent, and every frame of each of them was sealed, sent and opened |
| Senders.SendersDoNotInterleave | internal/bridge/server.go:238-251 | for every run, failed writes included, the sealed plaintexts are the first frames of each message in turn, in lock order, and all of them where send returned without an error |
| Senders.AllSealedButTheRest | internal/bridge/server.go:238-251 | with nothing lost they are whole messages' frames, and only the lock holder's rest is missing |
| Delivery.LosslessDelivery | internal/bridge/server.go:238-304 | with nothing lost and all frames read, the receiver has stopped exactly if it was handed bytes that were not the next frame or some message is one it cannot return; if it has not stopped, or if every message is one it can return, it has returned exactly what was sent |
| Delivery.ReaderStops | internal/bridge/server.go:272-304 | in every run the receiver has stopped if and only if it was handed bytes that were not the frame it waited for, or one of the frames it read ends a message it cannot return |
| Delivery.CanDeliver | internal/bridge/server.go:238-304 | from every reachable state in which nothing was lost, all frames are read and the receiver goes on, any message it can return has a run that sends, reads and returns it next, while there are counters for its frames |
| Senders.NoncesAreFresh | internal/protocol/envelope.go:96-143 | no two seals of a run share a nonce, and none has counter 0 or one the handshake used; at 2^64-1 Seal refuses, and the receive counter that would wrap there opens no frame |
| Stream.OpensOnlyNext | internal/protocol/envelope.go:127-143 | whatever bytes arrive, they are the next frame of the send history with its plaintext, or an error |
| Stream.StepKeeps | internal/bridge/server.go:238-304 | every step of senders, network and receiver keeps the invariant: the seal log is the send history, in lock order up to the first loss, and what was read is a prefix of it |
| Establish.StreamsCanStart | internal/protocol/handshake.go:149-167 | after any run of the handshake world both directions of an accepted connection can start: under the phone-to-bridge key nothing but confirms was sealed, as frame 1, and under the other nothing at all |
| Establish.KeysAreFresh | internal/protocol/envelope.go:50-70 | two acceptances with different ephemerals or nonces have four different keys |
| Envelope.Layout | internal/protocol/envelope.go:96-107 | a header is nine bytes, version 1 and the counter read back from the other eight; a nonce is four zeros and the counter |
| Envelope.OpenIff | internal/protocol/envelope.go:127-143 | a frame opens with a plaintext if and only if it is the header of last+1 (as uint64) and a ciphertext sealed with that key, counter, header and plaintext |
| Envelope.SealsExactly | internal/protocol/envelope.go:110-118 | a plaintext gets the next counter exactly if it has at most 16 MiB and the counter is not the last; a longer one is refused first |
| Envelope.HeaderCounter | internal/protocol/envelope.go:96-101 | the counter read back from a frame is the one put into its header, and the frame splits back into header and ciphertext |
| Envelope.NonceInjective | internal/protocol/envelope.go:96-107 | counters with equal nonces, or equal headers, are equal |
| Envelope.BuildHeader | internal/protocol/envelope.go:96-101 | the filled buffer is version 1 and the eight big-endian bytes of the counter |
| Envelope.BuildNonce | internal/protocol/envelope.go:103-107 | the filled buffer is four zero bytes and the eight big-endian bytes of the counter |
| Envelope.Suite.Seal | internal/protocol/envelope.go:110-124 | seals at the next counter and records it, or refuses too long a plaintext or a full counter and changes nothing |
| Envelope.Suite.Open | internal/protocol/envelope.go:127-143 | the receive counter moves exactly when the frame opens |
| Messages.SplitThenAdd | internal/protocol/messages.go:122-165 | splitting a message above the threshold and adding the pieces returns it if it fits MaxPlaintext and nothing otherwise; the assembler ends empty |
| Messages.PiecesAreFull | internal/protocol/messages.go:122-133 | the pieces of a message above 1 MiB are numbered and counted, each of 1 MiB but the last, which is not empty, and they join to the message |
| Messages.EmittedIsOneRun | internal/protocol/messages.go:147-165 | for any chunks at all, an emitted message joins the last n of them, which are pieces 0 to n-1 of one n; neither it nor the buffer exceeds MaxPlaintext |
| Messages.RunIsEmitted | internal/protocol/messages.go:147-165 | and such a run is always emitted, whatever n: pieces 0 to n-1 of one n, in a row, give their join if it fits |
| Messages.SplitChunks | internal/protocol/messages.go:122-133 | the loop returns the pieces at multiples of the threshold, numbered and counted, and none for a short message |
| Messages.ChunkAssembler.Add | internal/protocol/messages.go:147-165 | updates the three fields as the reassembly function says, with its errors and resets |
| Reading.StopsExactly | internal/bridge/server.go:272-304 | a frame stops the receiver exactly if it is unreadable, a piece out of turn or one that makes the message exceed 16 MiB, and then nothing is returned |
| Reading.ReadAll | internal/bridge/server.go:272-304 | reading whole messages returns exactly those, in order; it stops early exactly when one of them cannot be returned |
| Reading.ReadPrefix | internal/bridge/server.go:272-304 | reading any prefix of the frames returns a prefix of the messages, and only messages whose frames were all read |
| Conn.Sender.Send | internal/bridge/server.go:238-251 | the loop over chunks takes only steps of the stream machine; success means all frames were sealed and written, failure leaves a gap |
| Conn.Sender.SealAndWrite | internal/bridge/server.go:253-261 | one frame is sealed and then written, as steps of the stream machine; a write that fails leaves the counter advanced, and may have sent the frame |
| Conn.Receiver.Recv | internal/bridge/server.go:272-304 | the loop takes one receive step per frame read, in order, until one completes a message or an error ends it |
| Transcript.TranscriptReads | internal/protocol/handshake.go:57-69 | read back by its length prefixes, what is hashed is the label and then version byte, session id, phone key, phone ephemeral, phone nonce, bridge key, bridge ephemeral and bridge nonce, in this order |
| Transcript.TranscriptInjective | internal/protocol/handshake.go:49-69 | for fields under 65,536 bytes and a one-byte version, the hashed bytes are equal if and only if hello, bridge key, ephemeral and nonce are |
| Transcript.JoinInjective | internal/protocol/handshake.go:49-69 | lists of equally many short fields with equal length-prefixed joins are equal |
| Transcript.ShortSideDecides | internal/protocol/handshake.go:57-69 | it is enough that one of the two transcripts is short as a whole |
| Transcript.LongFieldsCollide | internal/protocol/handshake.go:49-55 | the bound is sharp: a field of 65,536 bytes gets length 0, and two different transcripts coincide |
| Handshake.PhoneIsAuthentic | internal/protocol/handshake.go:183-247 | if the bridge admits an honest phone's key, that phone finished a handshake on the same hello, bridge key, ephemeral and nonce, and derived the same two keys |
| Handshake.BridgeIsAuthentic | internal/protocol/handshake.go:136-166 | if a phone finishes against an honest bridge's key, that bridge accepted the same values and derived the same two keys |
| Handshake.AttachIsAuthentic | internal/protocol/relay.go:69-85 | a relay challenge signed by an honest key was signed by its bridge for that challenge, never by a handshake |
| Handshake.LabelsApart | internal/protocol/identity.go:17-23 | no bytes can be read as signed under two of the labels honest keys use |
| Handshake.HonestHandshake | internal/protocol/handshake.go:114-247 | undisturbed, the two ends derive the same transcript and keys, and the phone is admitted exactly when trusted or when a listed code has the proof it shows |
| Handshake.DecisionIsExact | internal/protocol/handshake.go:224-247 | given the confirm in frame 1: refused for the signature exactly if the phone's key did not sign its label and this transcript; else trusted exactly if the key is; else paired exactly if the proof is 32 bytes and the MAC, under some listed code, of the pairing label and this transcript; the code is the first such |
| Handshake.OnlyConfirmsAdmit | internal/protocol/handshake.go:225-232 | a first frame that does not open, or holds no confirm, is refused as that |
| Handshake.HonestRun | internal/protocol/handshake.go:114-247 | the same as steps of the world, after any run: the bridge accepts, the phone finishes, and the decision on the frame it sent is this |
| Handshake.EnvironmentMay | internal/protocol/identity.go:17-23 | an honest key signs challenges besides, every other key signs anything, and anybody seals anything |
| Handshake.PairedIsListed | internal/protocol/handshake.go:224-247 | a phone is paired only if unknown, having signed the transcript, by a listed code whose MAC over this transcript it shows |
| Handshake.MatchedCodeListed | internal/protocol/handshake.go:72-77 | the code found is the first on the list under which the MAC of the label and the transcript is the proof presented; none is found exactly if there is none |
| Handshake.AcceptsExactly | internal/protocol/handshake.go:174-217 | a hello is accepted exactly if it has version 1, names this bridge's session id, has a 32-byte key and nonce, and its ephemeral agrees; the transcript and keys are those of what was accepted |
| Handshake.FinishesExactly | internal/protocol/handshake.go:136-166 | a phone goes on exactly if the bridge key it was given signed the bridge label and its own transcript, and the ephemeral agrees |
| Handshake.StepKeeps | internal/protocol/handshake.go:114-217 | whatever phones, bridges and the attacker do, an honest key's signature is explained by a finished phone, an accepting bridge or a relay challenge |
| Handshake.PhoneState.Finish | internal/protocol/handshake.go:136-166 | on success a suite with the phone's directions of the keys, send counter 1 and receive counter 0, and in frame 1 the confirm with its signature and, for a code, the MAC of the pairing label and the transcript under it; otherwise no suite and nothing sealed |
| Handshake.Pending.constructor | internal/protocol/handshake.go:212-217 | the bridge's suite has the keys the other way round and both counters 0 |
| Handshake.Pending.Finish | internal/protocol/handshake.go:224-247 | the decision of the checks in their order, the code by a loop over the list; the receive counter is 1 exactly when the first frame opened |
| Channels.Session.Admit | internal/relay/relay.go:347-365 | refuses exactly at the cap; otherwise registers the phone under the first number after the last one that no live phone holds, never 0; an admission of the allocator's machine |
| Channels.Session.Advance | internal/relay/relay.go:353-362 | the wrapping search ends, at most one number further on than there are live phones |
| Channels.Session.Leave | internal/relay/relay.go:370-375 | a phone's cleanup removes the phone itself and never a successor on its number; a departure of the machine exactly then |
| Channels.Session.ClosePhone | internal/relay/relay.go:295-304 | the number is free at once, and whoever held it is told to stop |
| Channels.Session.CloseAllPhones | internal/relay/relay.go:306-315 | nobody stays registered and everybody is told to stop |
| Channels.Pigeonhole | internal/relay/relay.go:357-362 | a run of taken numbers is no longer than the number of live phones |
| Channels.NumbersInUse | internal/relay/relay.go:347-375 | in every run a departure frees its number and no other; an admission is refused exactly at the cap and otherwise passes over numbers in use and over nothing else |
| Channels.NumbersCount | internal/relay/relay.go:353-356 | numbers are counted up from 1, and after 65,535 comes 1 |
| Channels.LiveWithinCap | internal/relay/relay.go:347-365 | after any admissions and departures live phones hold distinct non-zero 16-bit numbers within the cap |
| Channels.NumberReuse | internal/relay/relay.go:347-365 | between two assignments of one number lie at least 65,535 - cap others |
| RelayFrame.Layout | internal/protocol/relay.go:88-94 | two bytes of channel, high byte first, one of kind, and the payload |
| RelayFrame.FrameRoundTrip | internal/protocol/relay.go:88-102 | frames and (channel, kind, payload) determine each other; exactly the strings under three bytes do not parse |
| RelayFrame.Build | internal/protocol/relay.go:88-94 | the filled buffer is the encoded frame |
| Relay.MapsAgree | internal/relay/relay.go:295-403 | in every reachable state, numbers wrapping, a channel only the relay holds, or only the bridge, has an open or close pending in a goroutine or in flight |
| Relay.MapsEqualWhenQuiet | internal/bridge/relay_client.go:129-160 | once all frames are processed and no goroutine is mid-step both ends hold the same set of channels |
| Settling.ComesToRest | internal/bridge/relay_client.go:129-160 | every run can be completed by finitely many steps, each possible where it is taken, none of them a new phone or a failing write, and a phone quitting only once its context is cancelled, to one in which every channel is quiet and both ends hold the same set of channels |
| Relay.RefinesDirectLink | internal/bridge/relay_client.go:232-291 | what Read yields is a gap-free prefix of what that phone sent, kinds kept, and what the phone gets one of what was written to it, for the latest and every previous holder of a number, for any interleaving and through the backlog drop |
| Relay.OpenDataClose | internal/relay/relay.go:367-403 | toward the bridge each number carries, for each of its holders in turn, an open, then data, then a close; the data are a prefix of that phone's messages |
| Relay.MovesOwn | internal/relay/relay.go:319-403 | over the shared queues a step of one channel is a step of that channel's own machine |
| Relay.LeavesOthers | internal/relay/relay.go:319-403 | and changes nothing any other channel can see |
| Link.StepKeeps | internal/bridge/relay_client.go:221-330 | every step of phone, relay, read loops and tunnel keeps the channel's invariant |
| Flows.PhoneComes | internal/relay/relay.go:347-381 | a phone's admission and its open put it into both maps, with nothing left on its way |
| Flows.PhoneFails | internal/relay/relay.go:370-381 | a phone whose open cannot be written leaves nothing in either map, and its channel is retired |
| Flows.MessageArrives | internal/relay/relay.go:383-403 | from a quiet channel what the phone sends reaches the inbox, unless 256 messages wait there, and nothing else changes |
| Flows.OldestIsRead | internal/bridge/relay_client.go:282-291 | Read takes the oldest message that waits |
| Flows.LateFramesAreDropped | internal/relay/relay.go:271-293 | frames for a phone no longer in the relay's map are dropped, and nobody is cancelled for them |
| Flows.ReplyArrives | internal/relay/relay.go:271-293 | and what the tunnel writes reaches the phone |
| Flows.PhoneLeaves | internal/relay/relay.go:370-377 | a phone that leaves is out of both maps, its inbox still to be read |
| Flows.TunnelCloses | internal/bridge/relay_client.go:317-330 | a channel the tunnel closes is out of both maps and its phone told to stop |
| Flows.ReplyFails | internal/relay/relay.go:284-304 | a write the phone's socket refuses has the phone deleted and told to stop |
| Link.DifferenceExplained | internal/bridge/relay_client.go:251-259 | where the two maps differ on a channel, which pending or in-flight frame is the reason |
| Link.RetiredIff | internal/relay/relay.go:370-377 | a number may be assigned again, the phone gone and both ends having read each other's last frame, exactly when no step of its channel is left but the reading of its inbox |
| Relay.LateReadTakes | internal/bridge/relay_client.go:282-291 | what waits for a number's previous holder can still be read, oldest first, and nothing else changes |
| Relay.FirstRoundIsFree | internal/relay/relay.go:347-365 | while there were fewer than 65,535 admissions a phone is refused exactly at the cap and gets the next number, one nobody has had |
| Relay.HeldWithinCap | internal/relay/relay.go:347-365 | in every run of the whole session live phones hold numbers from 1 to 65,535, never more of them than the cap |
| Reuse.UndisturbedIff | internal/relay/relay.go:347-377 | a number can be assigned while its previous phone is still being taken down, with no run of the two ever showing in the new channel, if and only if that phone is gone, nothing of it is on its way to the relay, the bridge can neither write nor close for it any more, and no write to it can fail |
| Reuse.SecondIsAChannel | internal/relay/relay.go:347-403 | after such an assignment the new channel keeps its invariant and is, step for step, what it would be on a number nobody had |
| Reuse.LateClose | internal/relay/relay.go:370-377 | a run in which it is not so: the previous phone's close, written after its number was free, takes the new phone's channel out of the bridge's map for good |
| Reuse.FailureHitsNumber | internal/relay/relay.go:284-304 | a write to the previous phone that fails late takes the new one out of the relay's map and tells it to stop |
| Mux.RelayMux.Open | internal/bridge/relay_client.go:221-230 | a fresh channel takes the number and ends whatever had it; its step of the channel's machine |
| Mux.RelayMux.DeliverFrame | internal/bridge/relay_client.go:232-249 | appends to the channel's inbox, or with 256 waiting drops the channel and writes one close; its steps of the channel's machine |
| Mux.RelayMux.RemoteClosed | internal/bridge/relay_client.go:251-259 | the channel leaves the map and is done; its steps of the channel's machine |
| Mux.RelayMux.CloseAll | internal/bridge/relay_client.go:261-269 | every channel is done and the map empty |
| Mux.RelayMux.Close | internal/bridge/relay_client.go:317-330 | only the first close writes a frame, and it deletes only the channel's own entry; its steps of the channel's machine |
| Mux.RelayMux.WriteData | internal/bridge/relay_client.go:293-315 | refuses once done, writes nothing when aborted before the write; a text message travels as kind 0, a binary one as kind 1; its steps of the channel's machine |
| Mux.RelayChannel.Read | internal/bridge/relay_client.go:282-291 | takes the oldest waiting message, or fails, which it may only when done, cancelled or with none waiting |
| Mux.DeliverPlays | internal/bridge/relay_client.go:232-249 | the delivery's steps are all enabled and have the effect the method's contract states |
| TokenBucket.TakeIsExact | internal/relay/relay.go:416-431 | take(n) succeeds if and only if, counted from the bucket's creation and from every call so far, the bytes admitted since plus n are within burst + rate * elapsed |
| TokenBucket.IntervalBound | internal/relay/relay.go:416-431 | both directions together never exceed burst + rate * length over any interval, and 0 <= tokens <= burst |
| TokenBucket.LevelIsLeast | internal/relay/relay.go:420-431 | the level is the least of what would be left had the bucket last been full at some earlier call |
| TokenBucket.Bucket.Take | internal/relay/relay.go:420-431 | refills up to burst, then takes n or refuses and keeps the level |
| IpRate.TwiceTheLimit | internal/relay/relay.go:122-140 | no address is allowed more than 2 * limit - 1 connections in any one-minute interval |
| IpRate.AllowedBelowLimit | internal/relay/relay.go:122-140 | a request is allowed if its address has made fewer than `limit` requests, allowed or not, in the minute before it |
| IpRate.PrunedIsFresh | internal/relay/relay.go:132-138 | a map of more than 10,000 entries holds windows of the last minute only |
| IpRate.PruningIsInvisible | internal/relay/relay.go:132-138 | the pruned map and one never pruned give the same answer to every request of a run |
| IpRate.Limiter.Allow | internal/relay/relay.go:122-140 | opens or counts into the window and, past 10,000 entries, deletes exactly the expired ones by a loop |
| Sessions.EntryIsLatestProver | internal/relay/relay.go:219-241 | an id is registered exactly while the last bridge to register for it has neither left nor been drained, and that bridge answered the challenge it was sent with a 32-byte key of this id that signed the attach label and the challenge |
| Sessions.RegistersExactly | internal/protocol/relay.go:74-85 | in every run a step registers a bridge exactly if it is a waiting connection's answer with such a proof; each connection has one answer |
| Sessions.ProverIsRegistered | internal/relay/relay.go:200-233 | a new connection that signs what it is sent with the key of an id gets the id |
| Sessions.CleanupSparesSuccessor | internal/relay/relay.go:234-241 | cleanup removes the handler's own entry exactly if it is still there, so after a replaced or drained bridge nothing |
| Sessions.OthersAreCancelled | internal/relay/relay.go:226-233 | of two bridges registered for one id the earlier has left, been told to stop or been taken out by a Drain; once Drain's loop is through, left or been told to stop |
| Sessions.ToldForAReason | internal/relay/relay.go:226-233 | told to stop is only who was drained, or whose id another bridge has registered for since |
| Sessions.DrainReaches | internal/relay/relay.go:436-446 | Drain empties the registry at once, tells nobody yet, and its loop reaches everyone it took out |
| Sessions.DrainWindow | internal/relay/relay.go:436-446 | not before: between Drain's lock section and its loop a second bridge can register while the drained one has not been told |
| Sessions.Server.Register | internal/relay/relay.go:226-233 | takes the id and stops the bridge that had it |
| Sessions.Server.Cleanup | internal/relay/relay.go:234-239 | removes the entry only if it is the handler's own object |
| Sessions.Server.TakeAll | internal/relay/relay.go:437-440 | the lock section takes every entry out and stops nobody |
| Sessions.Server.StopAll | internal/relay/relay.go:441-445 | the loop stops every bridge taken out and leaves the registry alone |
| Watcher.DeliversNewsOnce | internal/push/watcher.go:170-220 | after any run the events handed to deliver for a session are exactly the classifiable ones above its first-sight baseline and up to its mark, once each, in log order |
| Watcher.MarksNeverFall | internal/push/watcher.go:192-218 | no step lowers a mark or moves a baseline, and a successful visit brings the mark to the end of the log |
| Watcher.PollsAreARun | internal/push/watcher.go:170-220 | for any rounds of polling, with the logs growing in between, the marks and deliveries the calls of Poll leave are those of a run of single visits |
| Watcher.PollsDeliverOnce | internal/push/watcher.go:170-220 | so what any rounds of Poll handed to deliver for a session is exactly the news of its log above some first sight and up to its mark, once each, in log order |
| Watcher.PollsNeverLower | internal/push/watcher.go:192-218 | later rounds lower no mark, and one in which the session answers brings it at least to where its log ended before |
| Watcher.ReplyIsNewer | internal/push/watcher.go:198-205 | whatever a reply replays, what it has above the mark is what the log has |
| Watcher.Watcher.Poll | internal/push/watcher.go:170-220 | skipped when nobody is offline, void when the list fails; otherwise one visit per session in turn, failed ones changing nothing |
| Watcher.Watcher.Visit | internal/push/watcher.go:192-218 | marks and deliveries after the loop over one reply, `last` and `known` being those from before it |
| Terminals.AtMostEight | internal/bridge/pty.go:80-117 | for any interleaving of caller and pumps at most eight shells are registered, each under its own id exactly while it runs |
| Terminals.RefusesExactly | internal/bridge/pty.go:80-117 | in every run an id is refused exactly if a shell runs under it or eight run, with one frame and no other effect; otherwise, if it can be started, it runs |
| Terminals.ForgetsItself | internal/bridge/pty.go:145-147 | the pump's delete by id removes its own shell and no other |
| Terminals.DataThenOneExit | internal/bridge/pty.go:120-149 | every started shell attempts data frames under its id and then, once its pump is done, exactly one exit |
| Terminals.RunningIdsDiffer | internal/bridge/pty.go:80-117 | two running shells have different ids |
| Terminals.TerminalManager.OpenTerminal | internal/bridge/pty.go:80-117 | refuses a used id, a ninth shell or one that does not start, with one frame; otherwise registers it |
| Terminals.TerminalManager.Pump | internal/bridge/pty.go:120-149 | the copying loop takes only steps of the machine and attempts a data frame per read that brought data, up to the first read that failed or frame that was not taken, then one exit, the shell forgotten |
| Terminals.PumpsAlone | internal/bridge/pty.go:120-149 | however the caller and other pumps interleave, a pump goes through its own steps, and attempts the frames, as if it were alone |
| Pairings.AdmittingCodeWasLive | internal/bridge/pairing.go:20-57 | a code that admits a phone was issued before the handshake's snapshot, within its time then by the call that issued it, and not consumed before it |
| Pairings.ConsumedIsSpent | internal/bridge/pairing.go:49-57 | once a handshake has consumed its code no handshake that starts later has it |
| Pairings.OneCodeOnePhone | internal/bridge/server.go:221-231 | handshakes admitted by one code overlap from snapshot to consume, so of those that do not each code pairs at most one phone |
| Pairings.SnapshotIsExact | internal/bridge/pairing.go:33-57 | in every run a snapshot has exactly the codes issued, not expired and not consumed by a handshake they admitted |
| Pairings.SharedUntilConsumed | internal/bridge/server.go:221-231 | a handshake starting now can be admitted by the code another one holds if and only if it has neither expired nor been consumed: Outstanding and Consume are separate lock sections |
| Pairings.OverlapPairsTwo | internal/bridge/server.go:221-226 | such a run, as a witness |
| Pairings.Pairings.Issue | internal/bridge/pairing.go:20-30 | the code is registered until now + ttl |
| Pairings.Pairings.Outstanding | internal/bridge/pairing.go:33-46 | lists each unexpired code once and drops exactly the others |
| Pairings.Pairings.Consume | internal/bridge/pairing.go:49-57 | the code is gone and no other is |
| PairLink.PairRoundTrip | internal/protocol/pair.go:54-109 | parsing a printed payload gives it back if and only if it is well formed: version 1, a known transport, a ws(s) URL with a host, a 32-byte key with its session id, a 16-byte code, a 64-bit expiry, any name |
| PairLink.ParseIff | internal/protocol/pair.go:71-109 | a link parses to a payload exactly if it is hermes://pair, its query holds the payload part by part, and the payload is well formed |
| PairLink.BadSegmentsAreSkipped | internal/protocol/pair.go:79 | a segment of a query that is empty, has a semicolon or is escaped badly counts for nothing |
| PairLink.EncodedInTurn | internal/protocol/pair.go:67 | pairs are separated by ampersands, with none at the end |
| PairLink.ParsedRoundTrip | internal/protocol/pair.go:54-109 | whatever link parses, its payload is well formed, and printing it and parsing again gives the same payload |
| PairLink.PrintedFields | internal/protocol/pair.go:54-68 | the query of a printed link has each part under its one-letter key |
| PairLink.GetEncoded | internal/protocol/pair.go:54-68 | looking a key up in an encoded query finds its first value, or the empty string |
| Text.GroupIsNumber | internal/protocol/pair.go:60-61 | three bytes, or the two or one left, are the base-64 digits of one number, padded with zero bits |
| Text.Char64IsListed | internal/protocol/identity.go:27 | the digits are A-Z, a-z, 0-9, - and _ in this order |
| Text.Base64RoundTrip | internal/protocol/pair.go:60-61 | unpadded base64url decodes to what was encoded |
| Text.LineBreaksAreSkipped | internal/protocol/pair.go:91-98 | line breaks in encoded bytes count for nothing |
| Text.EscapedAs | internal/protocol/pair.go:62-67 | letters, digits and - _ . ~ stand for themselves, a space is a plus sign, any other byte a percent sign and two upper-case hexadecimal digits |
| Text.EscapeRoundTrip | internal/protocol/pair.go:62-67 | any bytes survive escaping and unescaping in a query |
| Text.ParsesExactly | internal/protocol/pair.go:81-103 | what parses as an integer: an optional sign, at least one digit, nothing else, and a value of 64 bits |
| Text.DecimalDigit | internal/protocol/pair.go:62 | the digits of an integer from the last, and no leading zero |
| Text.IntRoundTrip | internal/protocol/pair.go:62 | printing and parsing an integer gives it back exactly when it fits 64 bits |

## Left out

- Sockets, TLS, HTTP, timeouts and contexts: they appear only as steps that fail, cancel or advance the clock.
- The insides of AES-GCM, Ed25519, X25519, HKDF, SHA-256, HMAC and encoding/json.
- Relay.MapsAgree: the bridge socket does not fail, and a number is assigned again only to a channel that is
  `Link.Retired`. By `Relay.FirstRoundIsFree` the second limit is idle for the first 65,535 admissions of a session. Later
  the code can wrap onto a number whose last phone is still being taken down, as it deletes a phone before it writes its
  close (internal/relay/relay.go:370-377); two such holders are the subject of `Reuse`, apart from the other channels.
- Relay.MapsEqualWhenQuiet: the same two limits.
- Relay.RefinesDirectLink: the same two limits.
- Relay.OpenDataClose: the same two limits.
- Settling.ComesToRest: the same two limits; that the scheduler takes the steps is not claimed.
- Mux.RelayMux.Open: that it plays the machine's step is stated for a number not in the map; in the runs covered no other occurs.
- Mux.RelayMux.WriteData: a write ends early only with its channel or context; the bridge socket does not fail.
- Mux.RelayMux.CloseAll: not a step of the machine, which ends with the relay's socket.
- Conn.Receiver.Recv: a text frame on the socket, which recv rejects, is an error like any other and is not told apart.
- Messages.ChunkAssembler.Add: a complete message of no bytes is a nil slice, which recv cannot tell from "more to come"; the model returns More for it too. No sender makes one.
- TokenBucket.TakeIsExact: floating-point rounding.
- Handshake.PhoneIsAuthentic: needs the hash not to collide on the transcripts of the run; the secrecy of keys is not modelled.
- Watcher.DeliversNewsOnce: stops at the call of deliver; which phones then get a push, a dropped registration and the chime kept for later entries (internal/push/watcher.go:236-255) are not modelled, nor is the text Classify makes.
- Terminals.DataThenOneExit: data and resize frames for a shell, and closing its tty, are not modelled; they only decide when a read fails. That every pump ends is not claimed, as a shell may run for ever.
- Pairings.OneCodeOnePhone: takes codes to be unique; they are 128 random bits.
- PairLink.PairRoundTrip: url.Parse itself is a parameter.
- The relay dialer's redial loop and the gateway supervisor: timing only. The dialer's comment says its back-off ends at 30 s; the code doubles once more, to 32 s (internal/bridge/relay_client.go:71-73).
- The state file's device list, the route table, directory listings, the control socket, the command line, QR rendering and the APNs client: table look-ups and I/O.
