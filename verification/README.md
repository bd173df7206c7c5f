# btwattch2, verified

btwattch2 talks to an RS-BTWATTCH2 power meter over Bluetooth LE, directly or through an agent
that holds the link and serves any number of clients. This project models its hard parts in
Dafny and proves what they are there for:

- **The wire codec.** The checksum loops compute a remainder in GF(2)[x], and what that detects
  is settled: odd errors and short bursts at any length, two flips exactly unless a multiple of
  127 bits apart, hence anything up to three flips in every command frame. The frame assembler
  is a mutable buffer with an incremental, self-resynchronising scan. It is proved against one
  recursive parse of the whole byte stream, whatever the chunks and however lazily its iterators
  are used, and that parse against a declarative description of which frames it must find.
- **The agent.** The actor, its client list, the bounded queues, the handler that copies a queue
  to a socket, the client and the renderer are classes and loops as in the code. The radio and
  the receivers are oracles: each method takes the outcomes it meets as a parameter, and each
  access to a queue starts with arbitrary progress at its other end. `Actor.Valid` holds in
  every state between turns of the loop. It says that frames come from one subscription each,
  that every frame has one owner, that feeds are gap-free, and that a subscription, or a client, is
  only missing for a reason.
- **The retry loops.** The radio is a function from operations to outcomes, and each call is
  specified by the journal of operations it leaves behind.
- **Freshness.** The counters are written and read in atomic steps under any interleaving.
- **Starting and stopping.** Any number of processes, files with identities of their own, locks,
  and crashes anywhere.
- **The config file.** From text to the settings an invocation runs with.

The modules follow the source: `Crc`, `Detection` and `Frames` are payload.rs; `Assembler`,
`Greedy`, `Codec`, `Waiting` and `Link` are connection.rs; `Mailboxes`, `Feeds`, `Clients` and
`Actor` are agent/server.rs with the messages of `Protocol`; `Stats` and `Freshness` are
agent/status.rs; `Streaming` is agent/client.rs and output.rs with the relay of agent/server.rs;
`Exclusivity` is the pid file protocol of agent/server.rs and agent/mod.rs; `Config` and
`Profiles` are cli.rs.

Contracts of class methods that change state are the refinement of the code; the laws about
the specification they refine to are lemmas. A few places where the code does less than a
reader of its comments might expect came out of this:

- A reading's verdict can be older than the sample beside it (`status.rs:94-106` says they are
  taken as one value). `Freshness.OneInstantExactlyUnlessOvertaken` says exactly when, and a
  fresh verdict is never affected.
- A reconnect that stops half way, at discovering the services or at finding the characteristics,
  is not reported by `write`, so a one-shot command can wait on a subscription from before it
  (`Link.HalfReconnectGoesUnnoticed` and `Link.FailedDiscoveryGoesUnnoticed`, and
  `Link.OutdatedExactlyWhenOnlyHalfWay` for when).
- A reply to a command that has one payload byte has no status; its checksum is taken for one
  (`Protocol.StatusLayout`).
- Listed clients can be without a subscription (`Actor.LoseSubscription`). A command loses the one
  held exactly when its write reconnected and the renewal then failed; the next completed poll
  subscribes again or gives streaming up.
- Exclusivity survives a pid file being unlinked exactly when no other process is between
  opening and locking it (`Exclusivity.SafeExactlyWithoutRace`).
- A header byte in noise that announces a long frame holds back the frames behind it, for 256
  bytes at most (`Greedy.EveryFrameCanBeHeldBack`, `Greedy.RecoversWithin256`).

## Model

| member | source | states |
|---|---|---|
| Crc.ComputeCrc8 | src/payload.rs:67-81 | the nested loops compute the remainder of payload·x^8 modulo x^8+x^7+x^2+1 |
| Crc.CrcIsRemainder | src/payload.rs:67-81 | for every payload there is a quotient that leaves the checksum as remainder of that division, coefficient by coefficient |
| Crc.RemainderIsUnique | src/payload.rs:67-81 | only one eight-bit remainder exists, so this determines the checksum |
| Crc.CrcIsRun | src/payload.rs:67-81 | the byte-wise loop equals a bit-serial register that absorbs the payload's bits one by one |
| Detection.CrcIsLinear | src/payload.rs:67-81 | on equal lengths the checksum of an xor is the xor of the checksums |
| Detection.SelfCheck | src/connection.rs:161-166 | the checksum over payload and one more byte is zero exactly for the right byte |
| Detection.UndetectedExactlyWhenDivisible | src/connection.rs:161-166 | a damaged payload and checksum pass exactly when the generator divides the error polynomial |
| Detection.OddErrorsDetected | src/payload.rs:67-81 | an odd number of flipped bits is detected at any payload length |
| Detection.BurstsDetected | src/payload.rs:67-81 | flips confined to eight adjacent bits are detected at any payload length |
| Detection.NoShorterPeriod | src/payload.rs:67-81 | x^7 has no period shorter than 127 under the register |
| Detection.TwoFlipsUndetectedExactlyWhen | src/payload.rs:67-81 | two flips pass exactly when their distance is a multiple of 127 bits |
| Detection.MinimumDistance | src/payload.rs:67-81 | one to three flips are detected for payloads of up to 14 bytes |
| Detection.FifteenBytesAreTooMany | src/payload.rs:67-81 | for every 15-byte payload there are two flips that pass, so the bound is the best possible |
| Frames.Generate | src/payload.rs:56-63 | header, low sixteen bits of the length in big endian, payload, checksum; well formed exactly up to 252 payload bytes |
| Frames.FrameOfPayload | src/payload.rs:56-63 | a well-formed frame is determined by its payload |
| Codec.BuildCommand | src/payload.rs:10-54 | every command frame is well formed, carries its command's payload and has at most 12 bytes |
| Codec.MonitoringFrame | src/payload.rs:40-42 | the frame that asks for a measurement is AA 00 01 08 B3 |
| Codec.DamagedFrameRejected | src/connection.rs:161-166 | a frame of up to 18 bytes with one to three bits of payload and checksum flipped is refused by the assembler |
| Assembler.TakesWellFormed | src/connection.rs:136-168 | the scan takes n bytes at the front exactly when they are a well-formed frame |
| Assembler.JudgeIsStable | src/connection.rs:146-160 | what the scan decides about the front of the buffer, more bytes never change |
| Assembler.ParseConcat | src/connection.rs:131-169 | the parse of a stream is the parse of a prefix, continued with its residue in front of the rest |
| Assembler.FrameAssembler.NextFrame | src/connection.rs:136-169 | the loop that drops, waits and drains equals one step of the parse, keeps the account of bytes fed and frames yielded, and shortens the buffer when it yields |
| Assembler.FrameAssembler.Extend | src/connection.rs:131-134 | feeding appends to the buffer and keeps the account |
| Assembler.FrameAssembler.Clear | src/connection.rs:171-173 | clearing starts an account of its own |
| Codec.ChunkingDoesNotMatter | src/connection.rs:131-169 | for any chunks and any point at which each iterator is abandoned, the frames yielded and those still in the buffer are the parse of the whole stream, and so is what is left |
| Codec.RoundTrip | src/connection.rs:131-169 | frames interleaved with header-free noise come back as exactly those frames in order, with an empty buffer at the end and a prefix of them at any time |
| Greedy.StartsAreDisjoint | src/connection.rs:136-168 | emitted frames are well-formed slices, in order and disjoint |
| Greedy.StartsAreComplete | src/connection.rs:136-168 | every well-formed frame that starts in the consumed region is emitted or starts inside an emitted one |
| Greedy.GreedyExactly | src/connection.rs:136-168 | the emitted offsets are the only ones that are disjoint and complete in this sense |
| Greedy.ParseIsGreedy | src/connection.rs:136-168 | the frames of the parse are the slices at those offsets and the residue is the rest |
| Greedy.ResidueIsBounded | src/connection.rs:137-160 | after a full drain the buffer is empty or starts with a header byte and holds at most 255 bytes |
| Greedy.RecoversWithin256 | src/connection.rs:136-168 | a well-formed frame at p is emitted or overlapped by an emitted one once p+256 bytes have been fed, whatever precedes it |
| Greedy.HeldBackExactlyFromStop | src/connection.rs:136-168 | a complete frame in the stream has been emitted or overlapped exactly when the scan has passed its start |
| Greedy.HeaderHoldsBack | src/connection.rs:145-160 | three bytes that announce a frame not all there, of 256 bytes at most, hold back every complete frame behind them |
| Greedy.EveryFrameCanBeHeldBack | src/connection.rs:145-160 | a stray header announcing 256 bytes does that to any well-formed frame of up to 252 bytes |
| Waiting.PullUntil | src/connection.rs:611-616 | pulling stops at the first frame of the kind; the frames before it are handed over, the rest stays in the buffer |
| Waiting.NextMatchingFrame | src/connection.rs:600-618 | the answer is the first frame of its kind completed by the RX notifications read, every earlier frame is handed over in order, other characteristics are ignored, and no notification is read beyond it |
| Protocol.MeasurementLayout | src/connection.rs:620-631 | a frame reads as a measurement exactly when its payload has 26 bytes or more and the date in payload bytes 20 to 25 exists; the readings are payload bytes 2 to 19 |
| Protocol.StatusLayout | src/connection.rs:578-580 | the status of a reply is the second payload byte; for a reply of one payload byte the checksum is read instead, and without a payload it is too short |
| Link.Connection.Connect | src/connection.rs:333-387 | the loop of connecting and discovering leaves exactly the journal of its specification |
| Link.Connection.WritePayload | src/connection.rs:542-572 | the write loop leaves exactly the journal of its specification |
| Link.Connection.Await | src/connection.rs:456-474 | waiting, and on the end of the stream reconnecting and writing again, leaves exactly the journal of its specification |
| Link.Connection.Command | src/connection.rs:450-479 | so does a whole one-shot command |
| Link.OneshotIsOrderly | src/connection.rs:450-479 | for every radio, each operation of a one-shot is one that may follow the last; each wait is for a command written since the wait before, so after a lost link it is written again; it subscribes once for each link; and it is answered, timed out or failed exactly as its last operation says |
| Link.TimesOutAfterAllRounds | src/connection.rs:456-474 | until the timeout a lost link is never the end: it waits once more in every round |
| Link.EstablishIsTruthful | src/connection.rs:333-380 | one to five connection attempts, success exactly when a link was completed, and failure only after the fifth or for missing characteristics |
| Link.WriteIsTruthful | src/connection.rs:542-572 | at most five writes with one to five connection attempts between any two; success exactly with the last write; a reconnect reported exactly when a link was completed on the way; failure only after five writes |
| Link.OneshotWaitsAreCurrent | src/connection.rs:450-479 | whatever the radio does, a one-shot only waits on a subscription taken after the latest completed reconnect |
| Link.CutShort | src/connection.rs:476-478 | this holds wherever the timeout cuts the command short |
| Link.OutdatedExactlyWhenOnlyHalfWay | src/connection.rs:341-354 | when a one-shot waits, its subscription is older than a connection made during the write exactly when some of these failed to discover the services or to find the characteristics, and none did both |
| Link.HalfReconnectGoesUnnoticed | src/connection.rs:365-377 | a run in which it is not: the characteristics are missing, the next write succeeds, and the reply is awaited on the old subscription |
| Link.FailedDiscoveryGoesUnnoticed | src/connection.rs:341-362 | another: every attempt connects and fails to discover the services, the next write succeeds |
| Mailboxes.Hub.TrySend | src/agent/server.rs:532-543 | a message goes in unless the receiver is gone or 64 are waiting, and no queue exceeds 64 |
| Mailboxes.Hub.SendAll | src/agent/server.rs:532-543 | every client is offered the message whatever became of the others |
| Clients.ClientList.Add | src/agent/server.rs:520-523 | a client joins at the end of the list and the reported count follows |
| Clients.ClientList.Broadcast | src/agent/server.rs:528-554 | exactly the clients that took the message stay, in order; nobody else's queue changes; the reported count is the list's length |
| Clients.ClientList.Reap | src/agent/server.rs:558-563 | clients that had hung up leave, nobody else does, nothing is sent |
| Clients.ClientList.Abort | src/agent/server.rs:568-589 | the list is emptied and everyone on it offered the error |
| Clients.ClientList.End | src/agent/server.rs:579-589 | the list is emptied and everyone on it offered the end of the stream |
| Feeds.BroadcastKeepsFeeds | src/agent/server.rs:528-554 | recording and offering one sample keeps every feed a gap-free run from its first sample; who stays has it up to the present, who leaves loses no inner sample |
| Feeds.LeavingKeepsFeeds | src/agent/server.rs:556-589 | leaving adds at most one terminal message; whoever is off the list had hung up, had 64 messages waiting unread, or got one of the farewells there were as its last message |
| Feeds.JoiningKeepsFeeds | src/agent/server.rs:520-523 | a new feed starts with the next sample recorded |
| Actor.Actor.ApplySubscription | src/agent/server.rs:706-709 | a new subscription starts with an empty buffer |
| Actor.Actor.Relisten | src/agent/server.rs:712-723 | a renewed subscription, or none; every invariant of the actor is kept |
| Actor.Actor.AbortStream | src/agent/server.rs:727-732 | no subscription, no clients, link reported down; each client that was listed is offered this very error |
| Actor.Actor.Forward | src/agent/server.rs:789-797 | a frame that answers no command is recorded once and broadcast once when it reads as a measurement and dropped otherwise |
| Actor.Actor.HandleNotification | src/agent/server.rs:765-798 | RX bytes extend the current subscription alone, whose frames are then the whole parse of its bytes; the end of a stream counts one reconnect and renews, or gives streaming up and says so; overtaken by a shutdown exactly while reconnecting |
| Actor.Actor.WaitForFrame | src/agent/server.rs:922-948 | the reply is the first frame of its kind, found in the last notification read; the frames before it were forwarded; a wait that ends otherwise has read everything that arrived and met no such frame; without a stream it is refused untouched |
| Actor.Actor.WriteAndWait | src/agent/server.rs:900-912 | the command is written once; a reconnect replaces the subscription and is not counted; the subscription is lost exactly when renewing it fails; the wait reads the subscription then held from where it stood |
| Actor.Actor.Oneshot | src/agent/server.rs:880-898 | a temporary subscription is torn down; clients are only left without one by a renewal that failed; a shutdown overtakes it exactly when the radio was being waited for at that moment |
| Actor.Actor.PollDevice | src/agent/server.rs:735-763 | it polls exactly when the endpoint or a client that has not hung up wants it; from any reachable state a completed poll ends with a subscription, or nothing to poll for, or streaming given up and the link reported down; the request for a measurement is written once whenever there is a subscription; the outcome of every branch, the farewell it gives, and when a shutdown overtakes it |
| Actor.Actor.Handle | src/agent/server.rs:801-876 | a request that no shutdown overtakes gets exactly one message or joins the list: the refusal, the status byte or the measurement in the reply, and that in bytes; one that is overtaken, exactly in the cases listed, gets none and no frame is used as its reply; the payload written, in bytes, and nothing else; a subscription held is kept, or renewed or lost by the reconnect of a command, and one is taken out only where none is held |
| Actor.Actor.EveryFrameIsASlice | src/agent/server.rs:705-723 | in every reachable state each frame that was used for anything is a contiguous well-formed slice of one subscription's bytes |
| Actor.Actor.Turn | src/agent/server.rs:632-651 | every turn keeps the invariants and does all that the handler of what woke it promises: a notification is read into the current subscription and its frames are used, a tick polls unless nothing wants it, a request is handled, a shutdown changes nothing; it breaks the loop exactly on a shutdown, on the last handle gone, or when overtaken |
| Actor.Actor.Loop | src/agent/server.rs:620-669 | one round for each wake, up to the one that breaks, and the loop is left exactly then; a tick is passed over only with nothing to poll for, a notification only without a subscription; after the loop the list is empty, the count zero, and whoever was listed in the last round was told the end of the stream; every subscriber there ever was had hung up, had 64 messages unread, or last got the end of the stream or a failure that some turn gave cause for |
| Actor.Actor.EndStreams | src/agent/server.rs:654-655 | whoever is listed at the end is offered the end of the stream |
| Actor.LoseSubscription | src/agent/server.rs:905-908 | a run after which a listed client is without a subscription, unless it has hung up itself |
| Stats.AgentStats.RecordSample | src/agent/status.rs:70-79 | the sample is counted, becomes the latest, and the link counts as up |
| Stats.AgentStats.Reading | src/agent/status.rs:96-118 | undisturbed, the latest measurement, fresh exactly when the link is up and it arrived within three intervals or five seconds |
| Stats.WindowIsSafe | src/cli.rs:25-32 | intervals from ten milliseconds to a day are accepted; for these the window is computed without overflow and spans more than two of them; without an upper bound it overflows beyond a third of the longest duration |
| Freshness.RunKeepsInv | src/agent/status.rs:70-106 | over any interleaving the lock has one holder, a sample is only stored while the link is marked up and after it was counted, and the clock does not go back |
| Freshness.ReadingExplained | src/agent/status.rs:96-106 | a reading combines the flag of one instant with the sample of a later one, which is still the latest when its age is taken |
| Freshness.FreshIsOneInstant | src/agent/status.rs:70-106 | a fresh reading is the whole truth of a single instant within the call; this needs the order in which a sample is recorded |
| Freshness.FreshMeans | src/agent/status.rs:94-118 | at that instant the link was up and the sample the latest, no older than three intervals or than five seconds |
| Freshness.OneInstantExactlyUnlessOvertaken | src/agent/status.rs:70-106 | a reading, fresh or not, is the truth of a single instant of its call exactly unless this happens: `connected` was loaded false, then the sample was stored, the lock taken, nothing set `connected` to false until the verdict, and the sample was young by then |
| Freshness.VerdictFromBeforeItsSample | src/agent/status.rs:94-106 | a run in which that happens: no instant of it gives the reading |
| Freshness.RecordAlone | src/agent/status.rs:70-79 | undisturbed, the atomic steps add up to recording the sample |
| Streaming.Relay | src/agent/server.rs:464-471 | messages are copied in order up to the first that is not a sample, or until a write fails |
| Streaming.StreamRenderer.Record | src/output.rs:226-235 | stops exactly when the count is reached |
| Streaming.Execute | src/agent/client.rs:22-44 | renders the samples of the lines read, in order, and stops for the stated reason |
| Streaming.PrefixOfFeed | src/agent/server.rs:464-471 | any prefix of a subscriber's messages shows the samples recorded from its joining on, without a gap |
| Streaming.CountThroughAgent | src/agent/client.rs:10-45 | end to end, how a run ends and what it shows are determined: exactly the first N samples recorded after it subscribed, or as many as come before a deadline, a farewell or the end of file, whichever is first in that order |
| Streaming.CountSubscriber | src/agent/server.rs:464-471 | the same for any subscriber of an agent in any reachable state, against the samples that agent recorded |
| Exclusivity.StepKeepsInv | src/agent/server.rs:93-160 | every step of every process that does not race keeps the invariant: the file of everyone not about to unlock is the one at the pid path, holders hold their locks, sockets belong to their binders |
| Exclusivity.AgentsExcludeEachOther | src/agent/server.rs:93-160 | over every race-free interleaving of starts, stops and crashes at most one process is between its claim and its teardown, and its socket stays at the path |
| Exclusivity.RemovalsSpareOthers | src/agent/server.rs:313-322 | clearing a stale socket and tearing one's own down never unlink a live agent's |
| Exclusivity.GoneLeavesNothing | src/agent/server.rs:152-155 | short of a crash, a process that goes after its claim has taken its pid file, its socket and its lock with it |
| Exclusivity.StaleFilesDoNotPreventAStart | src/agent/server.rs:143-160 | whatever crashed processes left behind, a start that nobody interferes with ends in service, with its pid in the file and its socket at the path |
| Exclusivity.RefusalNamesTheAgent | src/agent/server.rs:111-117 | while an agent serves, a start is refused and the pid file names that agent |
| Exclusivity.RaceBreaksExclusivity | src/agent/server.rs:93-108 | a pid file unlinked between another's open and its lock leads to two agents |
| Exclusivity.SafeExactlyWithoutRace | src/agent/server.rs:93-108 | a step leaves exclusivity safe in every continuation exactly when it is not such a race |
| Exclusivity.OnlyThisOrderIsSafe | src/agent/mod.rs:44-47 | of the six orders of removing the socket, removing the pid file and unlocking, the one the code has is the only safe one |
| Config.ParseConfig | src/cli.rs:625-703 | the loop over the lines computes the fold of the lines' meanings, and reports the first fault |
| Config.QuotedReadsBack | src/cli.rs:663-667 | a quoted value is read back as it is, whatever it contains and however the line is padded |
| Config.PlainReadsBack | src/cli.rs:663-667 | so is a value without quotes that neither begins nor ends with white space |
| Config.QuotedSection | src/cli.rs:641-660 | a quoted section name is read back, however the header is padded |
| Config.PlainSection | src/cli.rs:641-660 | so is one without quotes |
| Config.BlankLines | src/cli.rs:635-638 | white space and comments say nothing |
| Config.Faults | src/cli.rs:641-665 | an unclosed header, a line without an equals sign and a section without a name are refused as such |
| Config.LineEndings | src/cli.rs:634-635 | a line ends in a line feed, with or without a carriage return before it |
| Config.LastLine | src/cli.rs:634-635 | the last line needs no line feed |
| Config.KeysByName | src/cli.rs:710-721 | the six keys by name, and the field each of them sets |
| Profiles.AcceptedExactlyWhen | src/cli.rs:625-734 | a file is accepted exactly when every line is well formed in its place and the default names a section; a refusal names the first line at fault and what is wrong with it |
| Profiles.LastWriteWins | src/cli.rs:562-587 | each resolved field is the command line's, else the last assignment in the chosen section across all re-entries, else the last at the top level; resolving fails exactly for an explicit name without a section |
| Profiles.WithoutAFile | src/cli.rs:562-572 | without a file the command line is all there is, and naming a device is an error |
| Profiles.OrIsAssociative | src/cli.rs:197-234 | overlaying settings is associative, with unset settings as its unit |
| Profiles.BlocksMayChangePlaces | src/cli.rs:656-660 | moving whole blocks of two different devices past each other changes neither acceptance nor anything configured |

## Left out

- Bluetooth itself: adapters, scanning, D-Bus and the choice of write type; what remains is whether an operation succeeds and which bytes arrive.
- Scheduling fairness and wall-clock deadlines: which ready branch runs is arbitrary, timeouts are outcomes, the polling ticker only decides when a poll may happen.
- Measurement values, energy and summaries: a measurement is the bytes of its readings and date, and which dates exist is a parameter.
- JSON, HTTP, metrics text, flags and log levels: messages are values, a line that does not parse is one value.
- The clock-setting payload is seven opaque bytes after its command byte; rejecting a year it cannot carry is the `None` of `SetRtc`.
- Dropping a half-open connection before the next attempt (connection.rs:351-354) is not an operation of the journal: the connection came about all the same.
- What became of a client's queue after it left the list: the model keeps it as the actor last saw it.
- Freshness numbers the samples, so that two alike are told apart; the code has no such number.
- Counters are unbounded, where the code has 64 bits.
- Link.Oneshot: the timeout is a number of rounds of reconnecting; wherever it falls inside one, the journal is a prefix, which is what CutShort covers.
- Actor.Actor.WaitForFrame: frames of the other kind are forwarded when the wait ends, in order, rather than one by one during it; the mailboxes' progress in between is arbitrary anyway.
- The direct subscription of connection.rs:481-520 keeps its assembler across a renewal inside a tick, so no-splicing is a property of the agent only.
- Freshness assumes that loads and stores of one counter are seen in one order; memory orderings weaker than that, and a poisoned lock, are not modelled.
- Exclusivity assumes a file system that locks (server.rs:118-124 goes on without), agents that all take the claim, opens that succeed, and a pid file written at once.
- Sockets, signals, umask and permissions, the runtime directory and SIGPIPE are operating-system effects without a state machine here.
- Config.ParseConfig: a value stands for what it parses to, and whether it parses is a parameter; reading the file and its default path are left out.
