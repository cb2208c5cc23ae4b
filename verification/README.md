# Verified model of the realm provisioning demo

A Dafny model of a system that provisions confidential virtual machines ("realms"): a host daemon
starts a realm and controls it over a vsock connection; inside, an application manager installs
hash-verified container images, boots and supervises them. `dafny verify dfyconfig.toml` checks it.

| file | component |
|---|---|
| `Messages.dfy` | commands, replies, requests and responses |
| `Framing.dfy` | length-delimited frames on a byte stream and the reader that drops what it over-reads |
| `HostTask.dfy` | the host's task for a realm: its automaton and its `select!` loop |
| `ControlSystem.dfy`, `ControlProofs.dfy` | caller, task, guest, streams and channels as one transition system, and what every interleaving keeps |
| `Completion.dfy` | which calls complete and which may hang |
| `Manager.dfy` | the guest's boot pipeline and event loop |
| `Refinement.dfy` | reads of the transition system against bytes, its guest against the event loop |
| `Dispatcher.dfy` | rendezvous of incoming streams and requests for them |
| `Hashing.dfy`, `Installer.dfy` | hashing reader and verified installer |
| `Supervisor.dfy`, `Epochs.dfy` | process launcher and supervisor, and all its launches together |
| `Manifests.dfy` | digests and user specifications, printed and parsed |
| `Realm.dfy` | applications, drives and realm info up to the launch |

Main results:

- **Control connection.** On every interleaving commands and replies alternate and match, calls
  report the truth, and errors are final. One promise is false of the code: a call under way need not
  return. `CallsCompleteExactly` has the exact condition: it may hang as long as the guest has not
  taken the realm info, and when the task has left its loop before the machine exits; otherwise it
  completes in every maximal run. A command written ahead of that moment can be taken along by the
  guest's frame reader (`LossPossibleExactly`), and then never succeeds (`LossIsFatal`): the call
  hangs if the command is swallowed or too little of it is left to decide on, and fails if the rest is
  refused (`FateOfEarlyCommand`, `EarlyCallHangs`, `RefusedCallFails`). At the level of bytes a torn
  command of any length meets one of these two fates (`TornCommandNeverDelivered`, `ReadIsAStep`).
- **Chain of trust.** The root hash determines manifest, configuration, layers and root file system
  of everything the installer accepts, even when reads fail while a layer is drained.
- **Dispatcher.** It refines independent machines per peer that pair streams and requests in order.
- **Launcher.** A status always comes from the latest launch, at most once per launch. That every stop,
  kill or wait returns is false of the code, as the supervisor stops reading the pipes while it waits:
  `CallsReturnExactly` has the exact condition and `WaitHangs` the shortest run.
- **Texts.** Exact languages and round trips for digests and user specifications.

Conventions: nondeterminism is an input. A loop over `select!` takes the order in which its arms
become ready together with the results of what is awaited in them; a reader takes chunk sizes and
pending polls; the contract holds for all of them. Iteration over a hash map picks any remaining key.
Hash functions, JSON, tar and text decoding are function-valued fields of a `Platform`. Collision
freedom is assumed only among the files of the two images that are compared. Of the tar library it is
assumed that an unpacker which stops at an end marker depends only on the bytes up to there; of one
that reads to the end of the file nothing is assumed, and a fault there stops it (`Comparable`,
`Untar`). Of JSON it is assumed that a command begins with a brace, a quote and two letters, and that
nothing that begins with a letter reads as a command (`IsCommandText`, `IsCommandReader`).

## Model

| member | source | states |
|---|---|---|
| `ControlProofs.ConversationAlternates` | vm/src/realm.rs:213-303 | on every interleaving of caller, task and guest the traffic is the realm info, then commands and replies in turn, each at its place; at most realm info plus one command down and one reply up, at most one frame in flight once the info is consumed; no frame decoded at the wrong type; the k-th reply read is the guest's answer to the k-th command |
| `ControlProofs.CallsTellTheTruth` | vm/src/realm.rs:320-357 | the successful calls are exactly the commands written and replied to, in order (the last one possibly still on its way); results only ever go from refusals to successes to errors, so a refusal never follows a success |
| `ControlProofs.SuccessfulCallsWereServed` | vm/src/realm.rs:251-357 | end to end: the k-th call that succeeded was answered by the guest as the k-th command, a start by a start, a terminate by a terminate, a kill by a kill and a shutdown by a shutdown, of the same application; stopping and killing gave an exit status |
| `ControlProofs.ResultTellsWhy` | vm/src/realm.rs:320-328 | the result of a call is the response that was taken, or says that the task had returned before the request could be sent or without responding to it |
| `ControlProofs.ChannelsNeverBlock` | vm/src/realm.rs:180-183 | both channels of capacity one are empty whenever something is sent into them; at most one request or response is under way |
| `ControlProofs.AfterLoopOnlyErrors` | vm/src/realm.rs:305-310 | from any reachable state in which the task has left its loop (timeout or exit) every call that completes later fails, also one already waiting, except that the first one takes a response sent before, and its result is exactly that response's |
| `ControlProofs.LeftForGood` | vm/src/realm.rs:305-310 | no step brings a task that has left its loop and owes no response back, or makes it answer; a call that completes at such a step fails |
| `ControlProofs.NothingAfterShutdown` | app-manager/src/manager.rs:200-203 | no call succeeds after a shutdown call has |
| `ControlProofs.ShutdownStaysLast` | app-manager/src/manager.rs:192-205 | a shutdown is the last command the guest answers on any run |
| `ControlProofs.NothingLostUnlessAhead` | vm/src/utils.rs:20-27 | on every run whose commands are written after the guest has taken the realm info no reader drops bytes of a frame it does not deliver |
| `ControlProofs.LossPossibleExactly` | vm/src/utils.rs:20-27 | in a reachable state the next step can lose a frame if and only if a command has been written while the guest still waits for the realm info |
| `ControlProofs.LosingStep` | app-manager/src/utils.rs:102-109 | the only step that loses a frame is the guest's read of the realm info with a command behind it |
| `ControlProofs.LossIsFatal` | vm/src/realm.rs:255-296 | after a loss no reply is ever read and no call ever succeeds, on every continuation |
| `Completion.CallsCompleteExactly` | vm/src/realm.rs:209-310 | from every reachable state: every maximal run without faults, exit of the machine and new calls ends with the call under way completed, if and only if the call is not at risk, that is unless the task has left its loop with the machine running, or the realm has not connected (the timer may fire first), or the guest has not taken the realm info yet, or the command has been swallowed; booting and handling a command are taken to end |
| `Completion.ProductiveIsWork` | vm/src/realm.rs:209-310 | every event that needs nothing from outside uses something up |
| `Completion.RunsEnd` | vm/src/realm.rs:209-310 | runs of such events are no longer than a measure of the state |
| `Completion.RunToTheEnd` | vm/src/realm.rs:209-310 | from every state there is a maximal run |
| `Completion.SafeStaysSafe` | vm/src/realm.rs:209-328 | no event but a new call puts a call at risk, faults and the exit of the machine included |
| `Completion.SafeCallsComplete` | vm/src/realm.rs:209-328 | a call that is not at risk has completed at the end of every maximal run |
| `Completion.RiskyRun` | vm/src/realm.rs:209-310 | from every reachable state with a call at risk there is a maximal run on which it never completes |
| `Completion.FateOfEarlyCommand` | app-manager/src/utils.rs:102-109 | when the guest reads the realm info with a command behind it, the call is safe from then on exactly if the reader leaves the command whole or leaves so much of it that the next read refuses it |
| `Completion.RefusedCallFails` | app-manager/src/manager.rs:193-193 | a call whose command was lost but not swallowed completes in every maximal run, without success |
| `Completion.EarlyCallHangs` | vm/src/realm.rs:214-218 | the concrete runs, for every realm info and request, in which a call made right after the connection deadlocks: its command is read along with the realm info, or only its beginning is and too little is left to decide on |
| `ControlProofs.TaskFollowsItsAutomaton` | vm/src/realm.rs:209-305 | in every run of the system the task goes through a path of the automaton its loop is proved against, with that path's traffic |
| `ControlProofs.StepKeepsStreams` | vm/src/realm.rs:251-301 | every event keeps the invariant of both streams, the traffic and the guest |
| `ControlProofs.StepKeepsCaller` | vm/src/realm.rs:320-328 | every event keeps the invariant of the caller: one request in one place, calls matching replies |
| `ControlProofs.PathKeepsInv` | vm/src/realm.rs:192-328 | the invariant holds on every path of the whole system |
| `HostTask.RealmTask.HandleRealm` | vm/src/realm.rs:192-311 | the task as a loop: for every order of ready arms its fields, traffic and responses are those of the path of awaits the arms determine; it returns an error without a stream request, and the result of the final wait after it has left its loop |
| `HostTask.RealmTask.SelectLoop` | vm/src/realm.rs:209-305 | the `select!` loop runs arm by arm until one leaves it |
| `HostTask.RealmTask.ServeArm` | vm/src/realm.rs:213-303 | one arm: its guard, its awaits, and for every arm the phase, the connection, the two pipe flags, the traffic and the responses it leaves |
| `HostTask.RealmTask.ServeRequest` | vm/src/realm.rs:251-301 | a request: refused without a connection; otherwise the command of the same kind and application is written, the reply read and the response sent; the task leaves its loop when one of them fails |
| `HostTask.HostPathConcat` | vm/src/realm.rs:209-305 | paths of the task compose, and so do their effects |
| `HostTask.ConversationShape` | vm/src/realm.rs:213-303 | the conversation is the info, then the k-th command and the k-th reply in turn |
| `HostTask.LoopStep` | vm/src/realm.rs:209-305 | one iteration keeps the loop's relation to the path of all arms |
| `Framing.SerdeRead` | vm/src/utils.rs:20-27 | the result of a framed read depends on the unread bytes only, never on chunking: the first frame, a refusal, a closed or truncated stream, or no return; the bytes consumed are those pulled, not those of the frame |
| `Framing.DecodeEncode` | vm/src/utils.rs:29-33 | decoding an encoded frame gives it back and stops at its end, whatever follows |
| `Framing.DecodeExactly` | vm/src/utils.rs:20-27 | the decoder exactly: a big-endian length of at most 8 MiB and that many bytes are a frame, a longer length is refused, anything else needs more |
| `Framing.EncodeExactly` | vm/src/utils.rs:29-33 | the bytes of a frame: the length, most significant byte first, then the payload |
| `Framing.DecodeMonotone` | vm/src/utils.rs:20-27 | more bytes never change a verdict the decoder has reached |
| `Framing.LoneFrameReadExactly` | vm/src/utils.rs:20-27 | a frame alone in flight is read exactly, in any chunks |
| `Framing.QueuedFramesMayBeLost` | vm/src/utils.rs:20-27 | with bytes behind it the first frame is still read correctly, and every amount of over-reading is possible |
| `Framing.OverReadShapes` | vm/src/utils.rs:20-27 | over-reading leaves the remaining frames without some whole ones and possibly a torn one at the front |
| `Framing.SerdeReadTakesFirstFrame` | app-manager/src/utils.rs:102-109 | one read of a queue of frames takes the first and leaves what over-reading leaves |
| `Framing.TornFrameNeverDecodes` | vm/src/utils.rs:20-27 | a text frame shorter than 64 KiB that has lost a proper prefix never decodes |
| `Framing.TornLongFrameDecodes` | vm/src/utils.rs:20-27 | the bound is exact: a 64 KiB text frame cut after two bytes decodes as something else |
| `Framing.TornCommandNeverDelivered` | vm/src/utils.rs:20-27 | a command of any length whose frame has lost a proper prefix is never delivered: what is left is too short to decide on, has a refused length, or decodes to something that begins with a letter, as no command does |
| `Framing.TornEitherWay` | vm/src/utils.rs:20-27 | both fates happen to every command: its last byte alone is too short to decide on, its payload without the length is refused |
| `Refinement.ReadIsAStep` | vm/src/utils.rs:20-27 | every byte-level read of a queue of the system, in any chunks, is one of the reads of the transition system: it blocks exactly when there is none, takes a whole first frame, leaves what such a read leaves, and refuses a torn frame |
| `Refinement.QueuesAreReadable` | vm/src/utils.rs:20-27 | in every reachable state both streams are queues of the kind the previous row covers |
| `Refinement.TurnIsAdmitted` | app-manager/src/manager.rs:193-203 | whatever a turn of the event loop does, the guest of the system can do from any state in which that command is next: same answer, and it goes on exactly if the loop does |
| `Refinement.LoopIsAdmitted` | app-manager/src/manager.rs:192-205 | from any state between two calls every behaviour of the event loop is the guest's part of a run of the system, with the calls that cause it |
| `Refinement.EventLoopIsAdmitted` | app-manager/src/manager.rs:192-205 | every behaviour of the event loop occurs in a run from the initial state |
| `Refinement.GuestIsItsEventLoop` | app-manager/src/manager.rs:192-205 | the converse inclusion: the event loop can give the answers the guest gives in a run of the system, when the applications they name are installed |
| `Dispatcher.ConnectionDispatcher.AddStream` | vm/src/vsock.rs:33-41 | a stream is refused exactly when one is waiting, handed to the waiting receiver if that is alive and lost with an error if not, or kept; no other channel changes; this is the specification's step |
| `Dispatcher.ConnectionDispatcher.RequestStream` | vm/src/vsock.rs:43-53 | a request is refused exactly when one is pending; otherwise its fresh channel holds the waiting stream, if there is one, or is kept |
| `Dispatcher.ConnectionDispatcher.Resolve` | vm/src/vsock.rs:55-65 | stream and request for one peer leave the tables together |
| `Dispatcher.InOrderRendezvous` | vm/src/vsock.rs:33-65 | over any history accepted streams minus accepted requests is -1, 0 or 1, the tables hold exactly the surplus element, and the k-th stream is paired with the k-th request |
| `Dispatcher.RefusedExactly` | vm/src/vsock.rs:33-53 | a stream is refused exactly when one more stream than requests has been accepted, a request in the opposite case |
| `Dispatcher.PendingRequestBlocks` | vm/src/vsock.rs:43-53 | a pending request stays until a stream comes, even if its receiver is gone: until then every request for that peer is refused |
| `Dispatcher.DeadRequestTakesOneStream` | vm/src/vsock.rs:55-65 | the next stream for a peer whose receiver is gone is lost with it, and only then the peer is free again |
| `Dispatcher.StreamsConserved` | vm/src/vsock.rs:33-65 | every stream handed in is waiting, delivered, refused or lost with its receiver, as often as it was handed in |
| `Dispatcher.PeersDoNotInterfere` | vm/src/vsock.rs:33-65 | a peer's calls have the effects and leave the entries they would if no other peer existed |
| `Dispatcher.InterleavingIrrelevant` | vm/src/vsock.rs:33-65 | two interleavings with the same calls per peer give every call the same effect and end in the same tables |
| `Hashing.File.PollRead` | image/handler/src/hasher.rs:34-42 | the inner reader: appends the next bytes, or is pending, or fails at its faulty offset |
| `Hashing.Hasher.PollRead` | image/handler/src/hasher.rs:34-51 | exactly the bytes a poll adds to the buffer enter the hash, whatever the buffer held and however the poll ends |
| `Hashing.Hasher.Finalize` | image/handler/src/hasher.rs:28-30 | the hash of everything absorbed; the running hash restarts |
| `Hashing.Hasher.Read` | image/handler/src/util.rs:21-21 | polling until ready: what is returned is what is absorbed |
| `Hashing.Hasher.ReadToEnd` | image/handler/src/util.rs:13-13 | all readable bytes are returned and absorbed; success exactly when no read fails |
| `Hashing.Hasher.Take` | image/handler/src/docker/installer.rs:133-134 | an unpacker pulls its bytes through the hash |
| `Hashing.DiscardRest` | image/handler/src/util.rs:17-26 | draining absorbs everything up to the end or the first failing read, and terminates |
| `Hashing.HashThroughUnpacker` | image/handler/src/docker/installer.rs:128-136 | after an unpacker that stops anywhere and draining, the digest is that of all readable bytes, of the whole file when no read fails |
| `Hashing.ReadMeasured` | image/handler/src/util.rs:9-15 | content and hash of the whole file, or nothing when a read fails, for any poll behaviour |
| `Installer.Installer.ReadText` | image/handler/src/util.rs:9-15 | text and hash of a file, or the error of the step that fails |
| `Installer.Installer.ReadContainerConfig` | image/handler/src/docker/installer.rs:81-97 | the configuration, or the first error in the order open, read, name, hex, hash, parse |
| `Installer.Installer.ReadManifest` | image/handler/src/docker/installer.rs:59-79 | the loop finds the selection the specification denotes |
| `Installer.Installer.InstallLayer` | image/handler/src/docker/installer.rs:125-141 | streaming a layer through the hashing reader equals unpacking and hashing it as a whole, whether the unpacker stops at an end marker or reads to the end of the file, where it may meet a fault |
| `Installer.Installer.Install` | image/handler/src/docker/installer.rs:106-147 | result and both directories after an install: refused when a directory exists, else exactly the outcome the image denotes, with its root file system |
| `Installer.Installer.Validate` | image/handler/src/docker/installer.rs:149-157 | validation reads the same selection without a root hash and changes nothing |
| `Installer.FirstArm64Exact` | image/handler/src/docker/installer.rs:70-78 | the selected manifest is the first whose configuration is arm64, every earlier one being hash-checked, parsed and for another architecture, and conversely |
| `Installer.ConfigIsNamedByHash` | image/handler/src/docker/installer.rs:84-91 | the configuration hashes to the hexadecimal part of its name before the first dot |
| `Installer.LayersMatchDigests` | image/handler/src/docker/installer.rs:125-141 | every layer hashes, under the digest's own algorithm, to the digest at its index |
| `Installer.AcceptedImageIsAuthentic` | image/handler/src/docker/installer.rs:106-147 | acceptance implies the root hash, the configuration hash, equal numbers of layers and digests, and every layer's hash |
| `Installer.RootfsIsLayersInOrder` | image/handler/src/docker/installer.rs:123-141 | the root file system of an accepted image comes from unpacking its layers in order, the first into an empty directory and each other one on top of those before it |
| `Installer.AuthenticImageIsAccepted` | image/handler/src/docker/installer.rs:59-147 | conversely, an image with such a manifest list, configuration and chain of layers is accepted, with the last file system of the chain |
| `Installer.AddLayersChain` | image/handler/src/docker/installer.rs:123-141 | adding layers that succeeds has gone through a chain of file systems, one per layer |
| `Installer.ChainAddsLayers` | image/handler/src/docker/installer.rs:123-141 | every such chain is what adding the layers does |
| `Installer.AddLayersFails` | image/handler/src/docker/installer.rs:125-141 | otherwise the error is that of the first layer that cannot be added to what those before it have given |
| `Installer.FirstArm64Fails` | image/handler/src/docker/installer.rs:70-78 | without a selection the error is that of the first configuration that is not for another architecture, or that there is none for arm64 |
| `Installer.RootHashDeterminesInstallation` | image/handler/src/docker/installer.rs:106-147 | two images accepted under one root hash, with no collision among their own files, select the same manifest and give the same configuration, layer bytes and root file system, also when their archives end at the end of the file |
| `Installer.SelectionDetermined` | image/handler/src/docker/installer.rs:70-78 | hash-checked configurations make the selection the same in both images |
| `Installer.LayersDetermined` | image/handler/src/docker/installer.rs:125-141 | equal digests make every layer and the resulting file system the same in both images |
| `Installer.RootHashOnlyRestricts` | image/handler/src/docker/installer.rs:63-65 | success with a root hash implies the same selection without one |
| `Installer.InstallThenValidate` | image/handler/src/docker/installer.rs:106-157 | validate after a successful install yields the same configuration; a second install is refused |
| `Supervisor.Launcher.Launch` | image/handler/src/docker/launcher.rs:190-247 | a launch succeeds exactly when there is an argv, the ids resolve and the spawn works; then the arguments are the entry point followed by the command, the ids those given or found, or else the manager's own, and every variable is split at the first equals sign; otherwise the error names the first obstacle and the channels stay |
| `Supervisor.Handle` | image/handler/src/docker/launcher.rs:115-175 | the supervisor loop follows, for every order of arms, the path they determine; output changes nothing, and the first request, hang-up, exit or failing read on an open pipe ends it with the phase, status and signal of that arm |
| `Supervisor.ServeArm` | image/handler/src/docker/launcher.rs:128-171 | one arm of the loop: phase, pipe flags, status and signal |
| `Supervisor.AwaitsIsPath` | image/handler/src/docker/launcher.rs:128-171 | the awaits of an arm are a path of the automaton to the state the arm leaves, and deliver the same |
| `Supervisor.ServeRequest` | image/handler/src/docker/launcher.rs:129-146 | stopping sends SIGTERM, killing SIGKILL, waiting nothing; then the process is awaited, its status sent and the loop left |
| `Supervisor.AtMostOneStatus` | image/handler/src/docker/launcher.rs:115-175 | on every path a supervisor delivers at most one status and has ended when it has |
| `Epochs.StatusIsOfLatestLaunch` | image/handler/src/docker/launcher.rs:177-247 | on every interleaving a returned status is the exit status of the process of the latest launch, and no launch answers two calls with a status; exactly the calls before the first launch say that nothing runs |
| `Epochs.OutcomeTellsWhy` | image/handler/src/docker/launcher.rs:177-185 | the outcome of a call is the status taken, or says that nothing was launched, or that the supervisor had ended before the request could be sent or without answering it |
| `Epochs.EarlierLaunchesAreSilent` | image/handler/src/docker/launcher.rs:239-246 | supervisors of earlier launches have empty channels and can only log and end |
| `Epochs.CallsReturnExactly` | image/handler/src/docker/launcher.rs:127-185 | from every reachable state: every maximal run without faults, launches and new calls ends with the stop, kill or wait under way returned, if and only if it is not one that may hang, that is unless its process has neither exited nor been killed and, once nobody reads its pipes, does not exit by itself or has more to write than they hold |
| `Epochs.CallsReturn` | image/handler/src/docker/launcher.rs:127-185 | a call that cannot hang returns within a bounded number of steps in every order of events, faults included |
| `Epochs.KillReturns` | image/handler/src/docker/launcher.rs:132-142 | a kill always returns, and so does stopping a process that SIGTERM ends |
| `Epochs.SafeStaysSafe` | image/handler/src/docker/launcher.rs:115-185 | no event but a launch or a new call makes such a call one that may hang |
| `Epochs.WaitHangs` | image/handler/src/docker/launcher.rs:129-146 | the concrete run that hangs: waiting for a process that writes more than its pipes hold, which nobody reads any more |
| `Epochs.StepIsWork` | image/handler/src/docker/launcher.rs:127-172 | every event but a launch or a new call uses up lines, open pipes, the exit or a phase |
| `Epochs.NeverStuck` | image/handler/src/docker/launcher.rs:177-185 | while a call that cannot hang is under way something can happen without a fault |
| `Epochs.StepKeepsInv` | image/handler/src/docker/launcher.rs:115-247 | every event keeps the invariant of all epochs |
| `Manifests.DigestRoundTrip` | image/handler/src/docker/manifests.rs:41-74 | parsing a printed digest gives it back, for every algorithm and byte string |
| `Manifests.DigestLanguage` | image/handler/src/docker/manifests.rs:50-74 | exactly sha256 or sha512, a colon and an even number of hexadecimal digits parse, and printing gives the lower-case text |
| `Manifests.DigestExactly` | image/handler/src/docker/manifests.rs:50-74 | a text parses to a digest exactly if it begins with sha256: or sha512:, as the algorithm says, and the rest decodes to the value; printing gives that prefix |
| `Manifests.HexDigitsExact` | image/handler/src/docker/manifests.rs:66-67 | the sixteen digits and their values, letters read in both cases and printed in lower case |
| `Manifests.HexDecodeAt` | image/handler/src/docker/manifests.rs:66-67 | two digits a byte, the higher one first, in order |
| `Manifests.HexLanguage` | image/handler/src/docker/manifests.rs:66-67 | exactly even-length hexadecimal strings decode, and encoding gives the lower-case string |
| `Manifests.SplitOnce` | image/handler/src/docker/manifests.rs:55-56 | splitting at the first separator |
| `Manifests.AccumulateIsValue` | image/handler/src/docker/manifests.rs:105-105 | checking the 32-bit bound at every digit accepts the same texts as checking it once |
| `Manifests.ParseU32Exact` | image/handler/src/docker/manifests.rs:105-105 | a number is an optional plus sign and decimal digits with value at most 2^32 - 1 |
| `Manifests.NumberExactly` | image/handler/src/docker/manifests.rs:105-105 | the same in terms of the digits alone: some non-empty text of decimal digits with that value, possibly after one plus sign |
| `Manifests.DigitsExact` | image/handler/src/docker/manifests.rs:105-105 | the ten decimal digits and their values |
| `Manifests.ParseIdExact` | image/handler/src/docker/manifests.rs:103-111 | a text is a numeric id exactly when it is such a number, else a name, unchanged |
| `Manifests.UserFields` | image/handler/src/docker/manifests.rs:134-157 | the user comes before the first colon and the group after it, each a number or a name |
| `Manifests.IdRoundTrip` | image/handler/src/docker/manifests.rs:103-120 | printing and parsing an id is the identity exactly when a name does not read as a number |
| `Manifests.UserPrintParse` | image/handler/src/docker/manifests.rs:128-158 | printing then parsing a user specification is the identity exactly on canonical values |
| `Manifests.CanonicalIsParserImage` | image/handler/src/docker/manifests.rs:128-146 | the canonical values are exactly the image of the parser |
| `Manifests.UserParseStable` | image/handler/src/docker/manifests.rs:128-158 | parsing, printing and parsing again changes nothing, for every text |
| `Manager.AppManager.ReadProvisionInfo` | app-manager/src/manager.rs:89-101 | every application of the realm info, if every work directory can be made |
| `Manager.AppManager.ForEachApp` | app-manager/src/manager.rs:103-153 | a stage succeeds exactly when it succeeds for every application, in whatever order they are visited |
| `Manager.AppManager.LaunchApplications` | app-manager/src/manager.rs:155-163 | every application once, or, up to the first that fails, distinct ones that can be launched |
| `Manager.StageAdvances` | app-manager/src/app.rs:110-197 | in the order of the pipeline no stage misses what an earlier one provides |
| `Manager.AppManager.Prepare` | app-manager/src/main.rs:37-53 | the stages succeed exactly when every operation works for every application, and then leave one determined state |
| `Manager.AppManager.Boot` | app-manager/src/main.rs:35-56 | booting succeeds exactly when every step works for every application, and an error comes from the first step in order that does not; applications are launched only when all are ready, with the configuration that installing or validating their image gave; on success the state does not depend on iteration order |
| `Manager.AppManager.HandleCommand` | app-manager/src/manager.rs:165-190 | the reply to each kind of command, with the exit status of a stop or kill, and the handle a start adds; nothing for an application that is missing or whose action fails |
| `Manager.AppManager.ServeTurn` | app-manager/src/manager.rs:193-203 | one turn of the event loop: answer, started application and how it ends, for every combination of failures |
| `Manager.AppManager.EventLoop` | app-manager/src/manager.rs:192-205 | the loop does, turn by turn, what the sequence of turns denotes |
| `Manager.LoopAnswersInOrder` | app-manager/src/manager.rs:165-205 | for all turns: one reply per command in order, up to the first shutdown (answered) or the first turn in which reading, the command or writing fails (unanswered), which the end of the loop tells; one handle per successful start |
| `Realm.Realm.CreateApplication` | vm/src/realm.rs:125-136 | an existing id or a failing disk changes nothing; otherwise one application is added |
| `Realm.Realm.AttachDisks` | vm/src/app.rs:65-79 | the main and then the secure disk, if both paths can be encoded |
| `Realm.Realm.Configure` | vm/src/realm.rs:138-167 | the nine machine arguments in order, then two drives per application in some visiting order, exactly when every path can be encoded |
| `Realm.Realm.AttachApps` | vm/src/realm.rs:162-164 | the loop over the applications: two drives each in the order of visits, up to the first that cannot be encoded |
| `Realm.Realm.Launch` | vm/src/realm.rs:169-190 | at most one launch; the realm info names exactly the applications, each with the UUIDs of its main and its secure partition and its provisioning, and their disks are attached |
| `Realm.GuestFindsEveryPartition` | vm/src/realm.rs:314-318 | the partitions of the attached drives are exactly those the realm info names, two drives per application |
| `Realm.Realm.LaunchThenCreate` | vm/src/realm.rs:125-190 | an application created after the launch belongs to the realm, but the info handed to the host task names the others only and the drives are two per other application, its disks |

## Left out

- Sockets, vsock accept, process spawning, signals, chroot, setuid and setgid: operating system calls; their outcomes are inputs.
- Device mapper, dm-crypt, mkfs, mount and partition tables: each stage operation succeeds or fails as a whole; the GPT logic is not part of this model, a disk is its path and partition UUID.
- Real time: the 90-second timer is an event that may fire at any moment, also after the connection, as its arm has no guard.
- Logging of output lines, including what the launcher's line buffers accumulate across lines.
- The daemon's command line, prompts and the abortion of a realm's task when its client's socket fails; the caller never drops its channel ends and no call is cancelled.
- Fields of configurations that neither installer nor launcher uses, and JSON escapes in a digest, which the borrowing deserialiser refuses.
- Completion.CallsCompleteExactly: takes the boot of the guest and the handling of a command to end, because what they wait for is outside the connection: an image registry, a process (`Epochs.CallsReturnExactly` says when that wait ends), and a machine whose console output the task does not read while it awaits a reply.
- Epochs.CallsReturnExactly: output and the capacity of a pipe are counted in lines, all of them of one size; SIGTERM ends a process, does nothing, or makes it write more lines and exit.
- The daemon's accept loop (vm/src/daemon.rs:115-140), which ends at the first stream that is refused or lost: only the dispatcher's answer is modelled.
- Framing.SerdeRead: bytes that arrive while a read is pending are part of the unread bytes from the start; the codec is the default one (four-byte big-endian length, 8 MiB limit), whose crate is not part of this model.
- Hashing.File.PollRead: a read fault is at a fixed offset of a file; a fault that goes away when the same reader polls again is not modelled, as no reader here does.
- Installer.Installer.Install: the partial contents a failing unpack leaves on disk are not described.
- Manager.AppManager.ForEachApp stands for five stage methods with the same loop; the success of an operation for an application is fixed during one boot.
- Supervisor.Launcher.Launch: the spawned process and its supervisor task are started by the transition system in `Epochs`, not by the class.
