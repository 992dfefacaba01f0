# A model of the remote build tool

This project models the three parts of the repository that are protocols or
transformations, and proves what they promise over every input, every run or
every reachable state.

**A build session.** A CLI talks to a daemon, usually through a
single-threaded agent that keeps one WebSocket from one session to the next.
`Parties` has the two ends, `Direct` wires them straight together, `Agent`
puts the agent between them: many CLIs queued on its socket, its two RPCs,
hang-ups, lost connections and daemon errors as steps. `AgentSafety` has the
invariant and what follows for every run, `AgentTransparency` shows that
every run with the agent is a run without it, `AgentProgress` that no state
is stuck and that no run goes on for ever without failing, and `AgentLoop`
that the loop in `proxy` is those steps. `Delivery` is a sync with both ends
together: what the client sends when it is asked, and what the daemon makes
of it. `Framing` is the length-prefixed socket format and `Output` the
tagging of build output.

**The daemon.** `Slots` has slot allocation and workspace paths, for any
number of slots. `Sync` says what a sync leaves in a workspace (a map from
path to contents), and `SyncDaemon` has the loops that do it in place.
`Daemon` runs many threads at once over slots, fingerprints and workspaces,
one file operation at a time, any of them failing anywhere; `DaemonSafety`
has the invariant, `DaemonTheorems` what it means for a build, and
`DaemonSync` that a thread's file operations are those of the sync code.

**The cache around rustc.** `ArgTable` and `RustcTable` have the flag table
and its prefix-aware binary search, `RustcArgs` one argument with its four
ways to hold a value, `Parse` the parse loop. `ParseMeaning` says what the
loop computes without a loop; `Respelling` and `Reparse` are the parse/print
laws, `CommandLines` reads a command line piece by piece; `Digest`,
`KeyInvariance`, `KeyEdits`, `KeyLengths` and `KeyCollisions` are about the
bytes that are hashed. `CommandWords`, `RustcWords` and `WordMeaning` read a
command line the plain way, flag by spelling and value as a string, and say
in these terms which lines are parsed and to what. `DiskCache` is the
write-once store shared by processes, and `DropPoint` the wrapper that
restores outputs or runs rustc.

`Wrappers`, `Protocol`, `Streams`, `Strings` and `Paths` are shared
vocabulary.

## Boundaries

These are hypotheses of the theorems. The code does not hold beyond them, and
where that is a matter of logic the project proves it.

- The flag search is exact on strictly sorted tables in which no flag that
  may hold its value begins another flag. rustc's table is one
  (`RustcTable.ArgsSearchable`). With nested flags the search can miss what a
  scan finds (`ArgTable.NestedFlagsAreMissed`, `ArgTable.SearchCanMiss`).
- A sync that is given up keeps the old fingerprint cached, since files are
  written before the fingerprint is. A build on the fast path has its own
  client's sources unless the slot's latest sync was abandoned
  (`DaemonTheorems.BuildsTheRightTree`), and whenever a fingerprint is cached
  another client with other sources can bring that about by giving up after
  one file (`DaemonTheorems.AbandonedSyncPoisons`); from a daemon that has
  served nobody, one slot and three sessions are enough
  (`DaemonTheorems.WrongTreeIsReachable`).
- Workspace paths join team and scope with an underscore, and paths are equal
  when their components are. Two guards share a directory exactly when their
  numbers are equal and the joined names have the same components
  (`Slots.WorkspacesCoincide`). The theorems about the daemon are for teams
  without an underscore or a slash and scopes without a slash: none of those
  shares a directory with another or lies inside it
  (`Slots.WorkspacesDistinct`). With an underscore in a team, or a slash in a
  scope, some do (`Slots.UnderscoredTeamsCollide`,
  `Slots.SlashedScopesCollide`, `Slots.SlashedScopesNest`).
- Parse, write out, parse gives everything back but `color_mode`, exactly when
  the input is not a `rustc` that comes out first and the command line does
  not end in a bare `-l` or `-L`: those two are written out with the kind they
  were given by default (`Reparse.ReparseIsStable`). Read off the strings: no
  `rustc` is the input with only colours, and one `rustc` to discount, before
  it, and the last string is not an `-l` or `-L` that no flag before takes for
  its value (`CommandLines.ReparseIsStableByArgs`).
- A client skips a file it cannot read and ends its turn as if it had sent it.
  The daemon cannot tell (`Delivery.SkippingIsNotNoticed`): it acknowledges
  the sync, which has left the client's sources exactly if every source file
  that was asked for was sent (`Sync.ConvergesExactlyWhen`). A client that can
  read its files sends them all (`Delivery.ClientAnswers`), and then nothing
  more is assumed of it (`Delivery.SpeculationDelivers`,
  `Delivery.LegacyDelivers`).
- The daemon looks for `target` in the whole path of a file. Below a home
  directory that itself lies under a folder of that name it sees no file of a
  workspace, so nothing is ever stale (`Sync.WalkedManifestIs`,
  `Slots.WorkspaceUnderTarget`), and a sync ends with the client's sources
  exactly if the slot held no others (`Sync.BlindSyncConvergesExactlyWhen`).
  The other theorems about syncs are for a home directory elsewhere.
- Round trips go through `normalize`: written as it was joined, an argument
  reads back exactly when its value is not empty
  (`Reparse.UnnormalizedSurvivesExactlyWhen`).
- A socket message arrives whole exactly when its length fits 32 bits
  (`Framing.FrameRoundTrip`).
- Cache transparency is about the calls made. Of those without
  `-C profile-use` it assumes that the hash tells their inputs apart, that the
  hash input decides whether rustc succeeds, which outputs are listed and what
  is in them, and that a success writes every listed output
  (`DropPoint.Determined`). Nothing is assumed of calls not made or with a
  profile (`DropPoint.ProfilesMayBeUsed`), and a call with a key of its own
  can always be added (`DropPoint.NewKeysMayJoin`). Without the assumption a
  second call with the same key is served the first one's outputs, which is
  right exactly if rustc would have done the same for both
  (`DropPoint.Wrapper.SecondIsServed`). Two ways in which it can be wrong:
  sources and environment are not hashed, so the same line after they changed
  has the same key; and the hashed arguments have nothing between them, so
  `--crate-name n --edition v` and the single name `n--editionv` have one key
  on every line (`KeyCollisions.EditionCollides`,
  `KeyCollisions.GluedFlagsCollide`, `DropPoint.CollidingCallsClash`).
- Of a library name the first `.rlib` is replaced, so `liba.rlib.rlib` is
  looked for as `liba.rmeta.rlib` (`DropPoint.DoubleEndingMisnamed`).
  `DropPoint.RefinedExactly` covers such names too,
  `DropPoint.RefinedOrdinarily` says more simply what happens without them.
- Entries of the store do not change under gets and puts. `clean --expunge`
  empties the store while wrappers may be at work (daemon/src/main.rs:582-593):
  after it an entry is gone and a second put of its path returns true.
- An edit of a command line keeps the hash input where it is made between
  whole arguments and does not change which string is the leading `rustc` that
  is discounted (`KeyEdits.KeepsLead`).

Where the comments and the code differ the model follows the code: the agent
keeps its WebSocket after a last word instead of closing it
(protocol/src/lib.rs:100-101); `SlotsBusy` answers the probe rather than
standing in for `NeedFiles` (protocol/src/lib.rs:17-19); `--emit=metadata` is
accepted although the caveats name only `link` and `dep-info`
(drop-point/src/rustc_args.rs:991); and a CLI does call the agent while its
proxy connection is still open, after the session behind it has ended
(cli/src/bin/abrasive.rs:413-415), which `AgentProgress.NoDeadlock` covers.

## Model

| member | source | states |
|---|---|---|
| Parties.JointClientSend | cli/src/bin/abrasive.rs:298-324 | whatever the CLI sends in its turn, both ends and the wires stay in step |
| Parties.JointDaemonRecv | daemon/src/main.rs:105-127 | a daemon in step with its client finds a message it expects |
| Parties.JointDaemonSay | daemon/src/main.rs:129-226 | whatever a daemon in step says next, nothing is on its way to it and the client expects it |
| Parties.EndersEnd | protocol/src/lib.rs:84-107 | an expected message ends the client's exchange exactly if it ends the session, and hands it the turn exactly if it yields |
| Delivery.ClientAnswers | cli/src/bin/abrasive.rs:298-317 | a client asked for files, in answer to its probe or its manifest, has sent every one with its contents, nothing else, and then the end, once it has got through its turn |
| Delivery.ClientSendsOnlyWhatItRead | cli/src/bin/abrasive.rs:303-309 | a file is sent only if it was asked for and could be read, with what was read |
| Delivery.ClientCanAnswer | cli/src/bin/abrasive.rs:298-317 | there is always such a turn |
| Delivery.NoSyncIsProtocol | cli/src/bin/abrasive.rs:434-473 | a matching fingerprint leads both ends to the build, a full daemon the client away and the daemon back |
| Delivery.BuildForwardsAll | daemon/src/main.rs:463-486 | the last word of a build comes after all of its output |
| AgentSafety.InvStep | cli/src/bin/abrasive-agent.rs:93-149 | every step of a CLI, the agent or the daemon, and every failure, keeps the session invariant |
| AgentSafety.InvRun | cli/src/bin/abrasive-agent.rs:41-46 | so does every run |
| AgentSafety.StoredWebSocketIsClean | cli/src/bin/abrasive-agent.rs:41-46 | between sessions, after any run with any failures, the stored WebSocket is absent, dead, or has nothing in flight with its daemon done |
| AgentSafety.NobodyIsConfused | cli/src/bin/abrasive.rs:434-473 | over every run neither end takes its unexpected-message branch, nor the client the catch-all that drops messages |
| AgentSafety.DroppedExactlyWhen | cli/src/bin/abrasive-agent.rs:41-46 | the WebSocket is given up exactly when a session fails or an answer cannot be delivered, and opened only for the next session |
| AgentSafety.RecordedBeforeFinished | cli/src/bin/abrasive.rs:478-480 | after a build a CLI is finished only once the agent has answered its second call; after a busy answer or a tip it makes none |
| AgentSafety.BareFirst | cli/src/bin/abrasive.rs:822 | a CLI's first connection is a bare one |
| AgentSafety.OneLastWord | protocol/src/lib.rs:100-107 | a CLI has ended exactly if it heard a message that ends a session, and then heard exactly one, last |
| AgentSafety.SessionUp | cli/src/bin/abrasive-agent.rs:117-135 | passing a message up keeps a session in step and turns the agent round exactly at the end of a client's turn |
| AgentSafety.SessionDown | cli/src/bin/abrasive-agent.rs:137-147 | passing a last word down leaves the WebSocket clean and the client finished; any other message keeps the session in step |
| AgentSafety.InvTeardown | cli/src/bin/abrasive-agent.rs:42-45 | dropping the WebSocket on a session error keeps the invariant |
| AgentTransparency.StepSimulated | cli/src/bin/abrasive-agent.rs:113-149 | each step is, for each CLI, some steps of the direct connection |
| AgentTransparency.RunSimulated | cli/src/bin/abrasive-agent.rs:113-149 | so is each run; without failures, with every message delivered in order |
| AgentTransparency.ProxyIsTransparent | cli/src/bin/abrasive-agent.rs:93-149 | from a fresh connection on, what a CLI and its daemon see through the agent is a run of the same two wired together |
| AgentProgress.NoDeadlock | cli/src/bin/abrasive.rs:413-480 | every reachable state in which not everybody is done has a step that is no failure, also while a CLI calls the agent with its proxy connection open |
| AgentProgress.MovesBringTheEndNearer | daemon/src/main.rs:463-486 | every step but a failure decreases a measure over the protocol ahead, files left to send and output left to forward |
| AgentProgress.MaximalRunsFinish | cli/src/bin/abrasive.rs:405-480 | every run that can only go on by failing is over: all live CLIs have finished with exactly one last word; if nothing failed, those are all CLIs |
| AgentProgress.EndlessRunsFail | cli/src/bin/abrasive.rs:405-480 | there is no endless run without failures, from any point on |
| AgentProgress.AttemptsEndAsOpened | cli/src/bin/abrasive.rs:434-473 | over every run, an attempt that opened with a probe can end on `SlotsBusy` or `BuildFinished` only, a tip on `Tip` only |
| AgentProgress.EveryRunCanFinish | cli/src/bin/abrasive.rs:587-599 | every run, whatever failed in it, can go on without failures until all live CLIs, all CLIs if nothing failed, have finished with exactly one last word |
| AgentLoop.Proxy | cli/src/bin/abrasive-agent.rs:113-149 | the two nested loops, on whole streams, forward and leave unread exactly what the session's specification says, and return well exactly then |
| AgentLoop.RelayForwards | cli/src/bin/abrasive-agent.rs:113-149 | both directions are passed on in order with nothing lost; a session that ends well never spoke or had one last word, and one more turn ended than yielded |
| AgentLoop.SessionsAreLoops | cli/src/bin/abrasive-agent.rs:113-149 | every session, with both ends alive or not, under any interleaving and failures: one that ends by a last word or by an end of stream is what the loop does to the streams that were read, and the WebSocket is kept exactly where the loop returns without an error |
| AgentLoop.LoopIsSteps | cli/src/bin/abrasive-agent.rs:113-149 | and back: for any two closed streams some run of the agent's steps does what the loop does to them |
| Framing.LengthSurvives | cli/src/agent.rs:17 | four big-endian bytes hold a length modulo 2^32 |
| Framing.BigEndian | cli/src/agent.rs:17 | of two lengths the bytes of the smaller are less where they first differ |
| Framing.Socket.WriteMsg | cli/src/agent.rs:16-19 | appends the length and the payload |
| Framing.Socket.ReadExact | cli/src/agent.rs:23 | fills the whole buffer from the front of the stream, or fails at its end |
| Framing.Socket.ReadMsg | cli/src/agent.rs:21-28 | takes one message off the front, or none if the stream ends first |
| Framing.FrameRoundTrip | cli/src/agent.rs:16-28 | a message is read back whole, with what follows it left, exactly when its length fits 32 bits |
| Framing.ConversationArrives | cli/src/agent.rs:16-28 | a conversation is read back as sent, and a last message cut short is not delivered |
| Output.Buffer.FlushCompleteLines | cli/src/bin/abrasive.rs:674-681 | shows each finished line behind one tag and keeps the rest |
| Output.Buffer.FlushTrailing | cli/src/bin/abrasive.rs:683-691 | shows an unfinished last line behind a tag and ends it |
| Output.StreamBuildOutput | cli/src/bin/abrasive.rs:638-672 | reads to the first message that stops it; what each terminal shows depends only on the bytes its channel carried, not on how they were cut or interleaved |
| Output.ChannelsApart | cli/src/bin/abrasive.rs:644-651 | each channel carries its own messages' bytes and no others |
| Output.LastArtifactIs | cli/src/bin/abrasive.rs:652-668 | the artifact is that of the last message that brings an executable |
| Output.TaggingLosesNothing | cli/src/bin/abrasive.rs:674-691 | taking the tags off what was shown gives the stream back, with a newline at most added to an unfinished last line |
| Output.ChunksJoin | cli/src/bin/abrasive.rs:644-651 | cutting a stream anywhere changes neither what is shown nor what is kept |
| Slots.HashLogin | daemon/src/slots.rs:103-110 | the loop computes FNV-1a with 64-bit wrap-around |
| Slots.FnvValues | daemon/src/slots.rs:100-110 | the hash has the published values of FNV-1a |
| Slots.PreferredOfA | daemon/src/slots.rs:109 | the preferred slot is the hash modulo the number of slots |
| Slots.FirstFree | daemon/src/slots.rs:64-67 | finds the preferred slot if free, else the lowest free one, else none |
| Slots.ChosenUnique | daemon/src/slots.rs:64-67 | that choice is determined by the flags and the preference |
| Slots.SlotTable.TryAcquire | daemon/src/slots.rs:60-75 | refuses exactly when all slots are held by live guards, else adds a guard for a slot nobody holds, the preferred or the lowest free one; flags match live guards |
| Slots.SlotTable.Drop | daemon/src/slots.rs:90-98 | dropping a guard frees its slot and no other |
| Slots.WorkspacesCoincide | daemon/src/slots.rs:84-87 | two slots share a directory, compared component by component, exactly when their numbers are equal and team and scope, once joined, have the same components |
| Slots.WorkspacesDistinct | daemon/src/slots.rs:84-87 | for teams without underscore or slash and scopes without slash no guard's directory is another's or lies inside it |
| Slots.WorkspaceUnderTarget | daemon/src/slots.rs:84-87 | a workspace lies under a folder named `target` exactly if the home directory does |
| Slots.UnderscoredTeamsCollide | daemon/src/slots.rs:86 | with an underscore they can |
| Slots.SlashedScopesCollide | daemon/src/slots.rs:84-87 | any scope and the same with a slash behind it share a directory |
| Slots.SlashedScopesNest | daemon/src/slots.rs:84-87 | any scope has a workspace with that of another scope inside it |
| Sync.NeededFiles | daemon/src/main.rs:388-394 | exactly the paths the client lists with a hash the daemon does not have there |
| Sync.WalkedManifestIs | daemon/src/main.rs:438-446 | the walk over whole paths sees what lies outside the workspace's `target`, or nothing where the workspace itself lies under one |
| Sync.BlindSyncConvergesExactlyWhen | daemon/src/main.rs:388-418 | there a sync ends with the client's sources exactly when the slot held no other source files |
| Sync.NeededAndStale | daemon/src/main.rs:388-403 | in terms of trees: needed is what is missing, different or out of sight under `target`, stale what the client does not have |
| Sync.ReceiveAnswers | daemon/src/main.rs:405-418 | receiving overwrites exactly the paths that were sent |
| Sync.ReceiptEnds | daemon/src/main.rs:405-418 | for every stream: well exactly if the end of the sync comes after files only, unfinished exactly if nothing else comes, with an error exactly if something else comes first |
| Sync.FetchAcknowledges | daemon/src/main.rs:361-375 | the needed files are asked for, and a sync is acknowledged exactly when it has finished |
| Sync.SpeculationAcknowledges | daemon/src/main.rs:202-226 | likewise for a speculative sync, for every bundle and stream |
| Sync.LegacyAcknowledges | daemon/src/main.rs:243-253 | likewise for a legacy sync, whose first message must be a manifest |
| Sync.ConvergesExactlyWhen | cli/src/bin/abrasive.rs:303-309 | when the client skips files, the sync finishes all the same, with the client's sources exactly if every source file asked for was sent |
| Delivery.SkippingIsNotNoticed | daemon/src/main.rs:405-418 | whatever is skipped, the daemon takes the client's turn for a whole one |
| Sync.UnderTargetIs | daemon/src/main.rs:442 | a path is hidden exactly if a component of it is `target` |
| Sync.FetchConverges | daemon/src/main.rs:361-375 | with stale files gone and needed ones fetched the sources are the client's |
| Sync.SpeculationConverges | daemon/src/main.rs:202-226 | whatever is bundled, speculative sync with a faithful client leaves the client's sources |
| Sync.LegacyConverges | daemon/src/main.rs:243-253 | so does legacy sync |
| Sync.SpeculationIsTransparent | daemon/src/main.rs:202-253 | the two leave the same sources, from any contents and for any bundle |
| Delivery.SpeculationIsProtocol | daemon/src/main.rs:202-226 | the messages of a speculative sync are those the protocol allows, and it stands where the protocol does |
| Delivery.LegacyIsProtocol | daemon/src/main.rs:243-253 | so are those of a legacy sync |
| Delivery.SpeculationDelivers | daemon/src/main.rs:202-226 | a speculative sync with any client that runs, nothing assumed of its answer, leaves that client's sources, and the client goes on to the build |
| Delivery.LegacyDelivers | daemon/src/main.rs:243-253 | so does a legacy sync |
| Sync.OneRoundTripExactlyWhen | daemon/src/main.rs:213-216 | no second round trip is needed exactly when, with the bundle written, every client file is outside `target` and as it should be |
| Sync.Bundle | cli/src/bin/abrasive.rs:502-525 | exactly the changed files that exist, with their contents |
| Sync.ChangedPathsSuffice | cli/src/bin/abrasive.rs:493-525 | if the recorded last sync is the slot's tree and nothing lies under `target`, the client's bundle is enough |
| Sync.ChangedPathsAre | cli/src/bin/abrasive.rs:493-500 | what is changed: nothing without a recorded sync, else what is listed with a hash not recorded |
| Sync.NothingLessSuffices | cli/src/bin/abrasive.rs:493-525 | every bundle that spares the second round trip has every changed file in it |
| SyncDaemon.Workspace.WriteBundledFiles | daemon/src/main.rs:228-240 | the loop writes all bundled files, later ones winning |
| SyncDaemon.Workspace.DeleteStale | daemon/src/main.rs:396-403 | removes exactly the stale paths, in whatever order they are visited |
| SyncDaemon.Workspace.ReceiveFiles | daemon/src/main.rs:405-418 | writes files until the end of the sync, a closed connection or an unexpected message |
| SyncDaemon.Workspace.Fetch | daemon/src/main.rs:361-375 | asks for the needed files, receives them and acknowledges only a finished sync |
| SyncDaemon.Workspace.SpeculativeSync | daemon/src/main.rs:202-226 | leaves the files, unread messages, replies and outcome of the specification |
| SyncDaemon.Workspace.LegacySync | daemon/src/main.rs:243-253 | likewise for the legacy path, including a client that closes or sends something else |
| DaemonSafety.InitInv | daemon/src/main.rs:37-49 | a daemon that has served nobody meets the invariant, for teams without underscore or slash and scopes without slash |
| DaemonSafety.InvStep | daemon/src/main.rs:129-196 | acquiring, checking, each file operation, planning, finishing a sync, building, releasing and giving up keep the invariant |
| DaemonSafety.InvRun | daemon/src/main.rs:129-196 | so does every interleaving of threads |
| DaemonSafety.PlanConverges | daemon/src/main.rs:361-418 | carrying out a plan in any order of its removals and fetches leaves the client's sources |
| DaemonSafety.CheckThread | daemon/src/main.rs:143-147 | a fingerprint match is on the sources last synced, unless a sync has been abandoned since |
| DaemonTheorems.SlotExclusion | daemon/src/slots.rs:60-98 | after any interleaving a flag is set exactly if one thread holds that slot, and no two threads work in one directory, nor one inside the other's |
| DaemonTheorems.AcquireExactly | daemon/src/slots.rs:60-75 | after any interleaving an acquisition is refused exactly if all slots of the scope are held, else yields the preferred or the lowest free slot |
| DaemonTheorems.CachedFingerprintIsLastSync | daemon/src/slots.rs:36-45 | after any interleaving a cached fingerprint is that of the last session to finish its sync there, and so are the sources unless a later sync was abandoned or is under way |
| DaemonTheorems.BuildsTheRightTree | daemon/src/main.rs:129-196 | after any interleaving every build has its own client's sources, unless it is on the fast path in a slot whose latest sync was abandoned |
| DaemonTheorems.AbandonedSyncPoisons | daemon/src/main.rs:189-193 | from any state where a fingerprint is cached, a session with different sources that gives up after one file makes the fast path build the wrong tree |
| DaemonTheorems.WrongTreeIsReachable | daemon/src/main.rs:189-193 | that happens: some run from a daemon that has served nobody ends with a build on the fast path that has another client's sources |
| DaemonSync.ThreadDoesSync | daemon/src/main.rs:143-226 | a thread left alone, whatever order it removes files in, ends on the tree that the sync code leaves, with its fingerprint cached |
| DiskCache.PathsDistinct | drop-point/src/disk_cache.rs:57-60 | keys of one length have entries of their own |
| DiskCache.PathParts | drop-point/src/disk_cache.rs:57-60 | an entry lies two directories deep, named by its key's first two characters |
| DiskCache.ActFacts | drop-point/src/disk_cache.rs:37-55 | a step changes the store only by renaming a complete file to a free path |
| DiskCache.InvStep | drop-point/src/disk_cache.rs:24-55 | every step of every process, failures and deaths included, keeps the invariant and every entry |
| DiskCache.OneWriter | drop-point/src/disk_cache.rs:37-55 | over every interleaving at most one put per path returns true, only if nothing was there before, and its bytes are the entry; one that returns false leaves an entry too |
| DiskCache.EntriesNeverChange | drop-point/src/disk_cache.rs:47-54 | an entry once present is the same in every later state |
| DiskCache.GetsAreWhole | drop-point/src/disk_cache.rs:24-31 | a get sees nothing or the whole of an initial entry or of one winning put |
| DiskCache.Cache.Put | drop-point/src/disk_cache.rs:37-55 | one put with others at work: true exactly if nobody had put the path before the rename and the rename worked, false exactly if somebody had |
| DiskCache.Cache.Get | drop-point/src/disk_cache.rs:24-31 | reading piece by piece while others put gives the entry found at the start, whole |
| ArgTable.EqualMeansMatch | drop-point/src/rustc_args.rs:325-341 | the comparison says equal exactly for arguments that belong to the flag |
| ArgTable.Search | drop-point/src/rustc_args.rs:442-455 | the loop with its recursive call terminates and is the recursive search |
| ArgTable.Bisect | drop-point/src/rustc_args.rs:366-404 | on any table, what is found is an entry that matches, so no assertion of the callers is tripped |
| ArgTable.NothingOnThatSide | drop-point/src/rustc_args.rs:446-452 | on a searchable table nothing matches on the side the comparison points away from |
| ArgTable.OneMatch | drop-point/src/rustc_args.rs:438-441 | on a searchable table at most one entry matches |
| ArgTable.SearchIsScan | drop-point/src/rustc_args.rs:442-455 | on every searchable table, for every key, the search returns what a linear scan returns |
| ArgTable.NestedFlagsAreMissed | drop-point/src/rustc_args.rs:438-455 | on a family of sorted tables with nested flags the search finds nothing where the scan finds a match |
| ArgTable.SearchCanMiss | drop-point/src/rustc_args.rs:438-455 | that family is not empty |
| ArgTable.NeighboursSuffice | drop-point/src/rustc_args.rs:457-467 | comparing neighbours is enough to know a table searchable |
| RustcTable.ArgsSearchable | drop-point/src/rustc_args.rs:914-981 | rustc's table is searchable |
| RustcTable.ArgsValuesMayFollow | drop-point/src/rustc_args.rs:914-981 | every flag in it that takes a value may have it in the next argument |
| RustcWords.ArgsFit | drop-point/src/rustc_args.rs:914-981 | rustc's table has exactly the flags named, with their kinds |
| CommandWords.FoundBySpelling | drop-point/src/rustc_args.rs:366-434 | what the table search finds is the flag that the argument's spelling names |
| CommandWords.ItemsAreWords | drop-point/src/rustc_args.rs:493-513 | a command line is read exactly if every flag has its value and every extern its path, and then word by word |
| RustcArgs.ArgsIter.Next | drop-point/src/rustc_args.rs:493-513 | takes one argument, and the value it needs, off the front |
| RustcArgs.OsStrings.Next | drop-point/src/rustc_args.rs:118-166 | yields the strings of an argument one by one and then nothing |
| Paths.SortPathsSorts | drop-point/src/rustc_args.rs:1199 | externs end up in path order, none lost |
| Paths.SiblingsByName | drop-point/src/rustc_args.rs:1199 | files of one directory are ordered by name, after the directory |
| Paths.FileNameIs | drop-point/src/digest.rs:15-18 | the file name is what stands behind the last slash, whatever slashes follow; `..` is none |
| Paths.JoinedParts | drop-point/src/rustc_args.rs:1032-1038 | joining keeps an absolute path and goes on with any other |
| Parse.ParseArguments | drop-point/src/rustc_args.rs:994-1123 | the loop with its early returns computes the specified outcome |
| Parse.LocateLib | drop-point/src/rustc_args.rs:1180-1191 | the first existing file, by directory and then by kind of name |
| Parse.FindLibIsFirst | drop-point/src/rustc_args.rs:1180-1191 | what is found is the first of `lib<name>.a`, `<name>.lib` and `<name>.a`, directory by directory, that exists |
| Parse.LocateLibs | drop-point/src/rustc_args.rs:1177-1196 | that file for each static library that has one, in order |
| ParseMeaning.WalkMeaning | drop-point/src/rustc_args.rs:1015-1123 | what the loop gathers is the last word said on each subject, the lists in order, and whether anyone asked |
| ParseMeaning.WalkRefuses | drop-point/src/rustc_args.rs:1015-1123 | else it returns the refusal that the first reason to give up causes |
| ParseMeaning.AcceptableMeans | drop-point/src/rustc_args.rs:1125-1215 | with no reason to give up the outcome is an unreadable argument's, or that of what was said |
| ParseMeaning.ConcludesExactlyWhen | drop-point/src/rustc_args.rs:1125-1159 | with no reason to give up, the closing checks pass exactly when input, output directory, crate name and `--emit` were given, what is emitted is supported, and a library is made |
| ParseMeaning.ConcludedTakes | drop-point/src/rustc_args.rs:1161-1215 | when they pass, each field is taken from what was gathered for it, with externs sorted, static libraries found and the dep-info file named |
| ParseMeaning.ParsedExactlyWhen | drop-point/src/rustc_args.rs:994-1159 | a command line is parsed exactly when the stated conditions hold |
| ParseMeaning.ParsedSays | drop-point/src/rustc_args.rs:1161-1215 | each field of a parsed command line in terms of what its arguments say: the one input and `--emit`, the last output directory, name, profile, extra file name, target and colour, all externs sorted, all link paths and libraries found |
| ParseMeaning.FirstReasonDecides | drop-point/src/rustc_args.rs:1017-1116 | the first offending argument decides which refusal is returned |
| ParseMeaning.PassedOverExactlyWhen | drop-point/src/rustc_args.rs:1021-1022 | a line is passed over as no compilation exactly if the first reason to give up is such a flag, or there is none and neither `link` nor `metadata` is emitted |
| ParseMeaning.ConcludedOtherwise | drop-point/src/rustc_args.rs:1125-1159 | with no reason to give up, the first thing missing is named |
| WordMeaning.CrateTypesRead | drop-point/src/rustc_args.rs:679-719 | `lib` and `rlib` are one crate type, `staticlib` another, and every other part is kept |
| WordMeaning.ParsedByWords | drop-point/src/rustc_args.rs:994-1159 | which command lines are parsed, as conditions on the strings given for each flag |
| WordMeaning.ParsedHoldsWords | drop-point/src/rustc_args.rs:994-1215 | each field of a parsed line in terms of those strings, with kinds of libraries and paths, options of code generation, crate types and colours as written |
| Respelling.JoinedReads | drop-point/src/rustc_args.rs:386-434 | a flag joined with its value reads, once normalized, like the two apart, errors included |
| Respelling.RespellItems | drop-point/src/rustc_args.rs:79-87 | joining any set of flags with their values leaves every argument as read, on any searchable table |
| Respelling.RespellingInvariance | drop-point/src/rustc_args.rs:994-1123 | so the whole outcome of parsing is unchanged |
| Reparse.ValueRoundTrip | drop-point/src/rustc_args.rs:679-888 | every kind of value written out and read again is the value |
| Reparse.CrateTypeRoundTrip | drop-point/src/rustc_args.rs:679-719 | so are crate types |
| Reparse.OneReadsBack | drop-point/src/rustc_args.rs:148-178 | a parsed argument written out reads as itself, or in separated form if it is a bare library flag |
| Reparse.AllReadBack | drop-point/src/rustc_args.rs:134-178 | so does a whole list of arguments |
| Reparse.UnnormalizedSurvivesExactlyWhen | drop-point/src/rustc_args.rs:168-178 | an argument written without normalization, joined by a delimiter, reads back exactly when its value is not written as nothing |
| Reparse.MeaningWithoutColors | drop-point/src/rustc_args.rs:1117-1122 | dropping colour arguments changes nothing that is gathered |
| Reparse.ReparseIsStable | drop-point/src/rustc_args.rs:79-178 | parse, write out, parse gives every field but `color_mode` back, exactly when the input is not a leading `rustc` and the line does not end in a bare `-l` or `-L` |
| CommandLines.WholeAppend | drop-point/src/rustc_args.rs:493-513 | a piece whose last argument waits for no value is read alike in front of anything, and what follows as if it stood alone |
| CommandLines.ReparseIsStableByArgs | drop-point/src/rustc_args.rs:79-178 | the same condition for a stable reparse, read off the strings of the command line |
| Digest.Join | drop-point/src/digest.rs:69-74 | the concatenation of all parts |
| Digest.HashArgv | drop-point/src/digest.rs:26-42 | absorbs the kept arguments in order and then the `--cfg` ones sorted |
| Digest.HashBasenames | drop-point/src/digest.rs:76-85 | absorbs the sorted names, each ended by NUL |
| Digest.HashRustcArgs | drop-point/src/digest.rs:13-24 | absorbs arguments, extern names, library names and the target's JSON, and fails exactly if that cannot be read |
| Digest.BasenamesCanonical | drop-point/src/digest.rs:76-85 | two collections of NUL-free names are hashed alike exactly when they are equal as multisets |
| Digest.FilesCanonical | drop-point/src/digest.rs:15-18 | files of some names, wherever they lie, are hashed alike exactly when the names are equal as multisets |
| KeyInvariance.ArgsTyped | drop-point/src/digest.rs:57-64 | the flags the filter names have the kinds of value it takes them to have |
| KeyInvariance.HashInputIs | drop-point/src/digest.rs:13-42 | what a parsed command line's hash input is made of |
| KeyInvariance.KeyInvariance | drop-point/src/digest.rs:13-67 | moving or permuting `--cfg`, reordering or relocating externs, lints, colours, widths, output directory and link paths change neither whether a line is parsed nor its hash input |
| KeyEdits.EditInvariance | drop-point/src/digest.rs:13-67 | between whole arguments, putting one run of arguments for another that the key does not tell from it changes neither whether the line is parsed nor its hash input |
| KeyEdits.EditBesideLibs | drop-point/src/digest.rs:13-67 | the same with other places to look for static libraries, where those found keep their file names |
| KeyEdits.LinkPathMayChange | drop-point/src/digest.rs:16-20 | so for another `-L` path |
| KeyEdits.LinkPathMayGo | drop-point/src/digest.rs:16-20 | for one that comes or goes |
| KeyEdits.CfgMayMove | drop-point/src/digest.rs:26-42 | so for a `--cfg` moved past any other arguments |
| KeyEdits.ExternMayMove | drop-point/src/digest.rs:13-19 | for an `--extern` moved past any others |
| KeyEdits.ExternMayBeElsewhere | drop-point/src/digest.rs:76-85 | for an extern with the same file name in another directory, or under another crate name |
| KeyEdits.NoiseIsIgnored | drop-point/src/digest.rs:53-67 | for a `--check-cfg`, `--diagnostic-width` or `--color` that comes or goes |
| KeyLengths.UnknownFlagsAreHashed | drop-point/src/digest.rs:53-67 | a flag the table does not know, put in anywhere, makes the hashed text longer by its own length |
| KeyLengths.OptimizeAndDebug | drop-point/src/rustc_args.rs:914-981 | `-g` and `-O` are such flags |
| KeyLengths.PassedFlagsAreHashed | drop-point/src/digest.rs:53-67 | so does every passed-through flag with its value, but for `--check-cfg` and `--diagnostic-width` |
| KeyLengths.CodeGenIsHashed | drop-point/src/digest.rs:53-67 | so does every option of code generation that may be cached |
| KeyEdits.OutDirMayChange | drop-point/src/digest.rs:53-67 | for any other `--out-dir` |
| KeyInvariance.KeptArgumentsDecide | drop-point/src/digest.rs:53-67 | command lines with equal kept arguments agree on input, emitted modes, crate name and types, dep-info file and profile |
| KeyCollisions.GluedFlagsCollide | drop-point/src/digest.rs:36-41 | anywhere on any line, a passed-through flag and its value put into the crate name before them leave parsing and hash input as they were; if no name follows, the crates named differ |
| KeyCollisions.EditionCollides | drop-point/src/digest.rs:69-74 | so for `--edition`, however the line goes on |
| DropPoint.PlanCache | drop-point/src/lib.rs:109-130 | parses and hashes, or gives no plan |
| DropPoint.PlanIsSaid | drop-point/src/lib.rs:109-130 | a plan has the last output directory given, the modes emitted, the dep-info file by crate name, the profile when linking, and what is hashed |
| DropPoint.PlannedExactlyWhen | drop-point/src/lib.rs:109-130 | there is a plan exactly if the line is parsed and the target's JSON can be read |
| DropPoint.PlannedNames | drop-point/src/lib.rs:211-233 | exactly which files are cached for a call: refined ones, the dep-info file, the profile |
| DropPoint.RefineOutputs | drop-point/src/lib.rs:259-285 | the loop computes the refined list |
| DropPoint.RefinedExactly | drop-point/src/lib.rs:253-285 | for any listing exactly which names are in it: listed ones that a metadata-only build writes, and libraries' metadata files, in their place unless they are linked too; a metadata file named like a library still to come goes with that |
| DropPoint.RefinedOrdinarily | drop-point/src/lib.rs:253-285 | where no metadata file is named like a library, each listed library's is in it |
| DropPoint.LibraryOutputs | drop-point/src/lib.rs:253-285 | for a library crate: the library, its metadata, or both, as they are emitted |
| DropPoint.DoubleEndingMisnamed | drop-point/src/lib.rs:274-276 | of `liba.rlib.rlib` the first ending is replaced, not the last |
| DropPoint.Wrapper.FromObjects | drop-point/src/cache_io.rs:113-134 | an entry holds exactly the named files as they are on disk; without faults it is made exactly if none is missing or named twice |
| DropPoint.Wrapper.ExtractObjects | drop-point/src/cache_io.rs:72-99 | restores every named member with its mode, or fails having touched only named files; without faults it fails exactly if a member is missing |
| DropPoint.Wrapper.TryServe | drop-point/src/lib.rs:150-186 | a hit has restored every planned file from the entry; a miss touches only planned files; without a fault it is a hit exactly if the entry is there with every planned file |
| DropPoint.Wrapper.SaveOutputs | drop-point/src/lib.rs:188-205 | adds at most one entry under the key, with the planned files as they are on disk |
| DropPoint.EntriesServeAll | drop-point/src/lib.rs:159-186 | an entry is right for every call made with its key |
| DropPoint.HitIsDirect | drop-point/src/lib.rs:180-185 | what a hit restores is what rustc would have written |
| DropPoint.SavedIsTrue | drop-point/src/lib.rs:188-205 | what is saved after a success is what rustc wrote |
| DropPoint.ProfilesMayBeUsed | drop-point/src/lib.rs:219-221 | a world in which calls with a profile succeed without writing it meets the hypotheses, whatever calls are made |
| DropPoint.NewKeysMayJoin | drop-point/src/lib.rs:126-129 | a call whose key no other has may always be made too |
| DropPoint.CollidingCallsClash | drop-point/src/digest.rs:36-41 | two lines that collide and of which rustc takes one only cannot both be among the calls made |
| DropPoint.Wrapper.CachePath | drop-point/src/lib.rs:76-91 | where the calls made are determined, whatever fails on the way, exit code and planned files are those of running rustc, other files are so too or untouched, and the store stays true; without faults a stored call is served from the store and any other runs rustc and is kept |
| DropPoint.Wrapper.RunAll | drop-point/src/lib.rs:76-91 | transparency for every call in any sequence of calls |
| DropPoint.Wrapper.SecondIsServed | drop-point/src/lib.rs:76-91 | a call just kept serves the next with its key, and that is as running rustc would be exactly if rustc would do for the second what it did for the first |
| DropPoint.AlikeCallsShare | drop-point/src/lib.rs:109-130 | command lines that differ only in ways the key does not see share their entries |

## Left out

- AgentProgress.MovesBringTheEndNearer: a CLI that was told the slots are busy ends its attempt; the retry after two seconds is a new CLI, so nothing is said about how long a build may have to wait for a slot.
- AgentLoop.Proxy: each side's stream is given whole; the blocking between reads is in the step model, not in the method.
- Parse.ParseArguments: the mutable locals are kept in one record, updated in place of fourteen variables.
- DiskCache.OneWriter: the interleaving is modelled on values, step by step; `DiskCache.Cache` has the in-place form of one process's calls.
- DropPoint.Wrapper.RunAll: calls run one after another; concurrent wrappers meet only in the store, which `DiskCache` is about.
- A daemon error is a step while it decides, waits for a manifest, plans or receives; once a build runs, its output is forwarded with errors ignored (daemon/src/main.rs:463-486) and only the connection can be lost.
- What the agent remembers of the last sync: its two calls are steps of the model, what they carry is a hypothesis of `Sync.ChangedPathsSuffice`.
- Symbolic links, permissions, clashes between files and directories, and delete errors that are ignored: a workspace is a flat map.
- Output names are taken to be plain file names in the output directory; two spellings of one directory count as different.
- TLS, the WebSocket and its handshake, sockets and timeouts: channels that keep order and can be cut.
- `AgentRequest::Shutdown`, which `login` sends (cli/src/bin/abrasive.rs:163-170): the agent exits with all it serves.
- Tokens, login, credentials, the web application, the installer and the database.
- bincode, gzip, zstd and zip have inverses; blake3 tells inputs apart where a theorem says so; the hasher absorbs strings instead of their UTF-8 bytes.
- Arguments that are not valid Unicode, and so the error for them.
- Running cargo and rustc: any exit code and output, builds writing under `target` only.
- A target's JSON file that changes between calls: what it holds is one function of its path.
- Whether a `--target` names a JSON file and which static libraries exist: an oracle.
- The order in which a refusal lists unsupported crate types: they are listed sorted.
- The CLI's own remark about a received executable: a write that shows no build output.
- Platform triples, the command whitelist, `classify`, `crate_name_from_argv`, logging and colours of log lines.
