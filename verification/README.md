# gohotstuff: the replica core and the wire codec

This project models two parts of gohotstuff and proves what they keep.

**The replica.** One chained-HotStuff replica is a state machine. It holds a parent-linked block tree with a
key index, four pointers into that tree (`high`, `generic`, `locked`, `commit`), the vote and timeout tallies,
a pacemaker round and the history of validator lists. Its steps are the handlers of a proposal, a vote and a
timeout, the local timer, and a validator update, with any contents and in any order.

**The codec.** Messages are printed by filling a buffer of the exact size backwards, and parsed forwards with
hand-written varint loops, a field switch, nested messages, oneofs, and a skipper for unknown fields and
groups. Above it are the conversion of consensus messages and the rebuilding of the signed payload.

Each part is written twice. The objects the program updates in place are classes and arrays with loops, and
each method is proved equal to a function over values; the properties are proved about those functions.

| part | over values | in place |
|---|---|---|
| block tree | `BlockHistory.dfy`, `TreeSpec.dfy` | `BasicTree.dfy` |
| chain pointers | `ChainSpec.dfy` | `BlockTree.dfy` |
| tallies | `TallySpec.dfy` | `Tallies.dfy` |
| schedule, pacemaker, timeout names | `Election.dfy`, `TimeoutNames.dfy` | `Election.dfy` |
| replica steps and runs | `ReplicaSpec.dfy`, `ReplicaSafety.dfy`, `ReplicaSends.dfy`, `ReplicaRuns.dfy`, `RunsExist.dfy` | `State.dfy` |
| each step to the letter | `StepEffects.dfy` | |
| quorums, high, reserved keys over runs | `QuorumRuns.dfy`, `HighAnchoring.dfy`, `HighLoss.dfy`, `ReservedKeys.dfy` | |
| one concrete run | `ForkedTree.dfy`, `ForkedRun.dfy` | |
| wire format | `Wire.dfy`, `Groups.dfy`, `Messages.dfy`, `MessageLaws.dfy`, `MessageRoundTrips.dfy` | `Marshalling.dfy`, `Unmarshalling.dfy` |
| messages and signatures | `ConsensusMessages.dfy`, `CryptoClient.dfy` | |

How the model reads the code:

- Every block ever inserted has a position in an append-only history that records its parent. Pruning cuts
  `Parent` pointers and index keys but not the history, so "descendant" has one meaning over a whole run. The
  live tree is what descends from the current root in the history; on the heap each live node is linked to
  exactly the nodes of its parent and of its sons, in insertion order.
- A Go panic (a negative slice index, a nil dereference) is an outcome of the step, not a precondition:
  `ReplicaSends.AbortsExactly` says when it happens. A handler's error return is an outcome with its reason.
- Four logs are kept that no step reads: accepted votes, vote quorums, accepted timeouts, timeout quorums. What
  goes to the sender queue and to the ticker is recorded as sequences.
- The certificate serializer is a pair of functions. What is assumed of it is that reading a written
  certificate gives back its round and identifier (`ChainSpec.Faithful`), and that the start value names the
  start block, as `conf/conf.yaml:30-32` does. `RunsExist.EveryScheduleRuns` shows this can be met. The default
  start value in `libs/config.go:40` does not deserialize, so it is outside the model.
- Rounds are unbounded integers in the replica. In the codec integers are the 64-bit and 32-bit ones of Go:
  conversions wrap, sign-extend and truncate explicitly, and an index past the largest int is an error.
- Nil and empty byte strings are one value. Every field of the wire structures is tagged `omitempty`, so the
  JSON text that is signed leaves out both (`pb/hotstuff.pb.go:135-142`).
- The quorum rule commits without asking for consecutive rounds, and the proposal's justify is taken without
  a check of its signatures, exactly as in the code; the properties are the local ones that hold anyway.

Three things about the code that the proofs brought out, each shown by a step of one run of a single-validator
replica (`ForkedRun.dfy`) and each with its exact condition:

- `high` can be pruned. A vote quorum may move it to a fork with fewer than three live ancestors, which leaves
  `commit` on the old branch, and the next commit cuts the fork off; the justify then names a block nobody
  finds (`ForkedRun.HighCanBeLost`). `HighLoss.Loses` is the condition, read off the state a proposal arrives
  in: the proposal passes its guards, the commit pointer is the third ancestor of the justified parent, `high`
  is not below it, and inserting the proposal will not bring `high` back. `high` is live throughout a run if
  and only if no proposal of the run meets it (`HighLoss.HighLiveExactly`).
- `delete` leaves the keys of pruned leaves in the index. Such an identifier can never be inserted again
  (`ReservedKeys.ReservedForGood`), and a vote is sent for it although no live block has it
  (`ForkedRun.ReservedVoteIsSent`); a vote names a live block if and only if its identifier was not reserved
  when the proposal arrived (`ReservedKeys.VoteNamesBlock`).
- The keys of pruned inner blocks are freed, so the identifier of the root's old parent can be used again; the
  root, proposed once more on that new block, dereferences a nil `Parent` (`ForkedRun.PrunedRootAborts`). The
  exact condition of every panic is `ReplicaSends.AbortsExactly`.

## Model

| member | source | states |
|---|---|---|
| `TreeSpec.InsertEffect` | state/bt/basic_tree.go:36-71 | A successful insert adds one live leaf under the one live block with the parent key, at a larger round, with an identifier no live block had; every other block is as live as before, and the tree stays well formed. |
| `TreeSpec.InsertExactly` | state/bt/basic_tree.go:36-71 | An insert succeeds, and is refused for each of its reasons, exactly under the stated condition on the live blocks and the keys. |
| `TreeSpec.ResetEffect` | state/bt/basic_tree.go:74-88 | Resetting to a live block keeps exactly its subtree, unchanged; the index loses exactly the identifiers of live blocks outside the subtree that had a son, and the result is well formed. |
| `TreeSpec.DeleteLevel` | state/bt/basic_tree.go:117-128 | One level of delete: nothing at the target; elsewhere the block's own key only if it has sons, then what its sons' subtrees lose. |
| `TreeSpec.LookUpExact` | state/bt/basic_tree.go:91-115 | A lookup gives a block if and only if it is the live block with that identifier. |
| `TreeSpec.ResetLookUp` | state/bt/basic_tree.go:74-96 | After a reset a key is found exactly when it was found before inside the kept subtree. |
| `TreeSpec.ResetAbove` | state/bt/basic_tree.go:74-88 | A chain of parent links ending at the new root survives the reset. |
| `BasicTrees.NewBasicTree` | state/bt/basic_tree.go:18-33 | A negative round, an empty identifier or a nil value is refused; otherwise the new heap tree is well formed, with the root as its only node and key. |
| `BasicTrees.BasicTree.Insert` | state/bt/basic_tree.go:36-71 | The heap insert, with its five refusals, does what the insert over values does: parent and sons stay inverse and every node keeps its contents. |
| `BasicTrees.BasicTree.Reset` | state/bt/basic_tree.go:74-88 | The heap reset leaves the tree linked exactly as the reset over values says, on the same node objects. |
| `BasicTrees.BasicTree.Delete` | state/bt/basic_tree.go:117-128 | The recursive deletion takes out of the index exactly the keys of blocks with sons below the start and outside the target's subtree. |
| `BasicTrees.BasicTree.Lookup` | state/bt/basic_tree.go:99-115 | The depth-first search returns a live node with the key, or the key is absent from the whole subtree. |
| `BasicTrees.BasicTree.LookUp` | state/bt/basic_tree.go:91-96 | LookUp finds the live node with the key if there is one, and otherwise returns the source's errors. |
| `ChainSpec.RedirectEffect` | state/block_tree.go:214-243 | A redirect keeps the chain invariant, takes high to the larger of the two rounds, changes nothing else or everything to the new block and its ancestors, and points generic, locked and commit at the exact ancestors when there are three. |
| `ChainSpec.ExecuteKeepsChain` | state/block_tree.go:101-144 | Inserting a certificate keeps the chain invariant and never moves high or the root back; on an error nothing has changed, otherwise exactly one block was added under the named parent. |
| `ChainSpec.CommitKeepsChain` | state/block_tree.go:146-165 | A commit keeps the invariant: the commit pointer, now the root, still heads a live chain of three links. |
| `ChainSpec.VoteKeepsChain` | state/block_tree.go:167-186 | Processing a vote fails exactly when the block is not found, and otherwise takes high to the larger round. |
| `BlockTrees.BlockTree.constructor` | state/block_tree.go:38-61 | A new block tree satisfies the invariant, with high and generic on the root and no lock or commit. |
| `BlockTrees.BlockTree.Redirect` | state/block_tree.go:214-243 | Following Parent pointers on the heap, the redirect moves the four pointers as the one over values does. |
| `BlockTrees.BlockTree.ExecuteNInsert` | state/block_tree.go:101-144 | The heap insertion and redirect equal the step over values, errors included. |
| `BlockTrees.BlockTree.ProcessCommit` | state/block_tree.go:146-165 | A key equal to the commit pointer's identifier resets the tree to it; otherwise nothing changes. |
| `BlockTrees.BlockTree.ProcessVote` | state/block_tree.go:167-186 | The heap operation equals the step over values, errors included. |
| `BlockTrees.BlockTree.Search` | state/block_tree.go:188-211 | Search returns the live node with this identifier and round, or the source's error. |
| `BlockTrees.BlockTree.GetJustify` | state/block_tree.go:91-99 | The justify is the value of the high block. |
| `TallySpec.TwoThirdsExact` | state/set.go:67-80 | The integer threshold test is exactly "more than two thirds of the validators". |
| `TallySpec.QuorumsIntersect` | state/set.go:67-80 | Two quorums over the same n validators share more than n/3 of them. |
| `TallySpec.AddVoteEffect` | state/set.go:34-65 | Counting a vote adds its sender and no one else to one tally, adds the list it was checked against to that tally's validators, and changes no other tally; the latest pair moves only for a first vote of the latest round or a later one. |
| `TallySpec.CheckVotesEffect` | state/set.go:67-91 | Past the threshold all tallies of rounds at least three behind are gone and every other one is as it was; below it nothing changes. |
| `TallySpec.AddTimeoutEffect` | state/set.go:128-164 | Counting a timeout adds its sender and no one else to one tally, adds the list it was checked against to that tally's validators, and changes no other tally. |
| `TallySpec.VoteLogged` | state/set.go:34-91 | Counting and checking an accepted vote keeps the ledger: exactly the accepted voters of remembered rounds are counted, and a quorum is logged exactly when a tally passes the threshold. |
| `TallySpec.TimeoutLogged` | state/set.go:128-178 | The same for an accepted timeout; timeouts are never forgotten. |
| `TallySpec.LatestIsMaximum` | state/set.go:108-164 | Over any calls, latest round and index are the lexicographic maximum of the initial pair and every pair passed in. |
| `Tallies.CountValidators` | state/set.go:67-80 | The counting loop gives the number of counted senders who are validators, whatever the map order. |
| `Tallies.VoteSet.AddVote` | state/set.go:34-65 | The nested maps and the latest pair after the call are those of the tally over values. |
| `Tallies.VoteSet.HasTwoThirdsAny` | state/set.go:67-91 | The answer is the threshold test, and when it holds the old rounds are forgotten. |
| `Tallies.VoteSet.Reset` | state/set.go:84-91 | Whole rounds at least three behind are forgotten, no others. |
| `Tallies.TimeoutSet.AddTimeout` | state/set.go:128-164 | The maps and the latest pair after the call are those of the tally over values. |
| `Tallies.TimeoutSet.Reset` | state/set.go:187-200 | The latest pair is raised lexicographically and never lowered. |
| `Tallies.TimeoutSet.GetTimeoutIdxMap` | state/set.go:202-220 | The map holds the maximum index of every round that has one, for any map iteration order. |
| `Election.ValidatorsExact` | state/election.go:46-59 | The validators of a round are those of the one epoch in force, and there are none before the first. |
| `Election.LeaderRotates` | state/election.go:62-65 | The i-th of n validators leads the rounds i, i + n, i + 2n and so on, each validator leads one of any n rounds in a row, and below round 0 the index is negative except at multiples of n. |
| `Election.UpdateKeepsPast` | state/election.go:67-78 | An accepted update changes the validators of later rounds only, whatever the new list; with a nonempty list epochs stay strictly increasing. |
| `Election.DefaultElection.Validators` | state/election.go:46-59 | The backward scan finds the list the schedule gives. |
| `Election.DefaultElection.Leader` | state/election.go:62-65 | The leader is the validator at the round modulo the list length, with Go's signed remainder; None is a negative index. |
| `Election.DefaultElection.Update` | state/election.go:67-78 | An update is refused unless its round is later, and otherwise appends an epoch. |
| `Election.DefaultPacemaker.AdvanceRound` | state/pacemaker.go:48-63 | The round becomes the larger of itself and the certificate's round plus one. |
| `Election.DefaultPacemaker.ProcessTimeoutRound` | state/pacemaker.go:66-78 | The round becomes the larger of itself and the timeout's round plus one. |
| `TimeoutNames.TimeoutIDUnique` | state/state.go:512-514 | A timeout identifier names one round and one index. |
| `ReplicaSafety.NewReplicaOk` | state/state.go:73-135 | A replica started on a block its start value names satisfies the invariant. |
| `ReplicaSafety.NewReplicaStarts` | state/state.go:73-135 | A new replica is in the round after its start block, which is its whole tree, with empty tallies, the given validators, and nothing locked, committed or sent. |
| `ReplicaSafety.CommitKeepsProposal` | state/state.go:252-258 | The commit a proposal triggers never prunes the justified parent or anything live below it, and reserved keys stay reserved. |
| `ReplicaSafety.ProposalKeeps` | state/state.go:220-266 | A proposal keeps the invariant and moves rounds, high, root and logs forward only. |
| `ReplicaSafety.VoteKeeps` | state/state.go:272-305 | A vote keeps the invariant; it starts a round only by completing a quorum for its own round and identifier. |
| `ReplicaSafety.TimeoutQuorumEffect` | state/state.go:310-352 | A timeout quorum at round r sets the current round to r + 1; if its block is inserted, high is that block and one round behind. |
| `ReplicaSafety.TimeoutKeeps` | state/state.go:310-352 | A timeout keeps the invariant and starts a round only when it completes a quorum and its block is inserted. |
| `ReplicaSafety.TickKeeps` | state/state.go:355-399 | The local timer keeps the invariant and takes nothing back. |
| `ReplicaSafety.StepKeeps` | state/state.go:185-212 | Every step of any kind keeps the invariant and takes nothing back. |
| `ReplicaSends.StepSends` | state/state.go:228-264 | Every proposal sent is for the current round, led by the host, justified by the high certificate of a smaller round; every vote names a live parent at the stated round and a live block under it or a reserved key; every timeout names the high certificate. |
| `ReplicaSends.AbortsExactly` | state/safetyrules.go:33-62 | A step panics exactly when a proposal names a negative round with a negative leader index, or re-proposes the pruned root; nothing has changed then. |
| `StepEffects.GuardExactly` | state/safetyrules.go:33-62 | A proposal passes the guard if and only if its sender leads its round, its parent stands, and its identifier is new or belongs to a block at that round under that parent; the sender is blamed exactly when another validator leads. |
| `StepEffects.ProposalExactly` | state/state.go:220-266 | A proposal is voted for exactly when it passes the guard and the tree takes its block or has it; the round becomes the maximum of itself and the parent's plus one, and one vote goes to the leader of the round after; whatever changes anything came from the leader of its round. |
| `StepEffects.VoteExactly` | state/state.go:272-305 | A vote is accepted exactly when its sender validates the round and the block stands at it; it is then counted and kept; completing a quorum moves the round past it and high to the block unless a higher one is known, and otherwise only the tally changes. |
| `StepEffects.TimeoutExactly` | state/state.go:310-352 | A timeout is accepted exactly when its round is not behind and its sender validates it; a quorum moves the round to the next; its block is inserted and made high, and the round started, exactly when its parent is live and older and its identifier new. |
| `StepEffects.TickExactly` | state/state.go:355-399 | The timer fires exactly when its round is not behind and the host validates it; it offers index 0, sends one timeout naming the high certificate with the latest index, and restarts the timer with it. |
| `StepEffects.SendsExactly` | state/state.go:460-502 | A vote completing a quorum, or a timeout whose block is inserted, puts out exactly one timer of the stated kind, round and index, and exactly one proposal on the high certificate if the host leads the new round and none otherwise; no other event sends a proposal. |
| `StepEffects.VotesAnswerLeaders` | state/safetyrules.go:33-42 | In a run every vote ever sent answers an earlier proposal of that round and identifier from the leader of its round. |
| `ReplicaRuns.RunOk` | state/state.go:185-212 | The invariant holds in every state of every run. |
| `ReplicaRuns.RunGoesOn` | state/state.go:185-212 | Every run can be continued by every event. |
| `ReplicaRuns.CommitSafety` | state/block_tree.go:146-165 | Between any two moments of a run the committed root is the same or a proper descendant at a strictly larger round. |
| `ReplicaRuns.CommitHeadsChain` | state/block_tree.go:214-243 | Whenever commit is set it is live and heads a live chain of three parent links with increasing rounds. |
| `ReplicaRuns.HighIsMonotone` | state/block_tree.go:214-243 | Over a run the high round never decreases, an equal round keeps the identifier, and it stays below the current round. |
| `ReplicaRuns.TimeoutsAdvance` | state/safetyrules.go:88-110 | Timeout quorums take effect at strictly increasing rounds, and after one at round r every timeout for a round up to r is refused. |
| `QuorumRuns.RoundsAreBacked` | state/state.go:284-303 | A vote that starts a round has completed a quorum for its round and identifier: more than two thirds of a set that includes the round's whole validator list, all in that set and accepted as voters; if no update reached the round the set is that list. |
| `QuorumRuns.QuorumIsOfSchedule` | state/set.go:34-178 | Every vote quorum and every timeout quorum of a run is more than two thirds of its validators and no one else, each accepted for that round and identifier or index; the validators include the list in force when it was completed, come only from lists ever in force for its round, and are the schedule's list if no accepted update reached that round. |
| `QuorumRuns.VoteQuorumForms` | state/state.go:284-303 | In a run, once more than two thirds of a round's validators were accepted for one block, over any number of steps, a quorum for it is logged, unless a quorum three rounds on made the set forget the round. |
| `QuorumRuns.TimeoutQuorumForms` | state/state.go:325-337 | In a run, once more than two thirds of a round's validators were accepted as timed out with one index, a timeout quorum for it is logged. |
| `QuorumRuns.TimeoutRoundsAreBacked` | state/state.go:325-351 | A timeout that starts a round has completed a timeout quorum for its round and index, of the schedule's validators. |
| `QuorumRuns.QuorumsShareVoters` | state/set.go:67-80 | Two quorums of a run for rounds with the same n validators in the schedule share more than n/3 of those validators, each accepted on both sides. |
| `HighLoss.HighLiveExactly` | state/block_tree.go:146-243 | High is live in every state of a run up to a moment if and only if no event before it is a proposal that cuts high off, a condition on the state the proposal arrives in. |
| `HighLoss.StepLoses` | state/state.go:220-266 | A step loses a live high exactly when it is a proposal meeting that condition; no other kind of step moves the root. |
| `HighLoss.AdoptCuts` | state/state.go:248-254 | Inserting under a block and committing above it loses high exactly when commit is that block's third ancestor, high is not below commit, and the insertion is a repeat or does not move high. |
| `HighLoss.CommitCuts` | state/block_tree.go:146-165 | A commit above a block cuts off a live block exactly when the commit pointer is the third ancestor and the block is not below it. |
| `HighLoss.JustifyFoundExactly` | state/block_tree.go:91-99 | In every state of every run Search finds the high block under the round and identifier its certificate names if and only if high is live. |
| `HighLoss.StraysExactly` | state/block_tree.go:231-240 | A redirect takes high off the commit pointer's branch exactly when the block is not outranked, has fewer than three live ancestors, and is not below commit. |
| `HighLoss.RedirectExact` | state/block_tree.go:214-243 | A redirect changes nothing if high outranks the block, and otherwise points high at it and each other pointer at the ancestor the block has for it. |
| `HighAnchoring.HighStaysLive` | state/block_tree.go:91-99 | In a run where every block accepted as high descends from the commit pointer, high stays live and Search finds the block its justify names. |
| `ForkedRun.ScriptRuns` | state/state.go:170-212 | The run of the listed proposals and votes exists. |
| `ForkedRun.HighCanBeLost` | state/block_tree.go:231-240 | In that run a vote moves high to a live fork, and the next proposal meets the condition: high is pruned and Search does not find the justified block. |
| `ForkedRun.ReservedVoteIsSent` | state/state.go:248-264 | In that run a vote is sent for an identifier that is reserved and that no live block has. |
| `ForkedRun.PrunedRootAborts` | state/safetyrules.go:46-55 | In that run a proposal of the pruned root aborts the replica. |
| `ForkedRun.NegativeLeaderAborts` | state/election.go:62-65 | With two validators a proposal for round -1 aborts a new replica. |
| `ReservedKeys.ReservedForGood` | state/bt/basic_tree.go:36-128 | Once a key is reserved it stays reserved in every later state of a run, and every insertion under it is refused as a repeat. |
| `ReservedKeys.VoteNamesBlock` | state/state.go:248-264 | A vote sent for a proposal names this very block, live under its parent, if and only if its identifier was not reserved when the proposal arrived; otherwise no live block has it. |
| `RunsExist.EveryScheduleRuns` | state/state.go:170-212 | Every list of events is the list of some run. |
| `States.State.constructor` | state/state.go:73-135 | A new replica object is valid and in the initial state. |
| `States.State.CheckProposal` | state/safetyrules.go:33-62 | The guard returns the outcome of the guard over values, in the same order of tests. |
| `States.State.CheckSender` | state/safetyrules.go:64-110 | The scan finds the sender exactly when it is a validator of the round. |
| `States.State.OnReceiveProposal` | state/state.go:220-266 | The handler leaves the object in the state, and returns the outcome, of the proposal step. |
| `States.State.OnReceiveVote` | state/state.go:272-305 | The handler leaves the object in the state, and returns the outcome, of the vote step. |
| `States.State.OnReceiveTimeout` | state/state.go:310-352 | The handler leaves the object in the state, and returns the outcome, of the timeout step. |
| `States.State.LocalTimeout` | state/state.go:355-399 | The handler leaves the object in the state, and returns the outcome, of the timer step. |
| `States.State.UpdateValidators` | state/election.go:67-78 | A validator update between messages leaves the replica in the state of the update step, which keeps the invariant. |
| `States.State.NewRoundEvent` | state/state.go:460-502 | The leader queues a proposal with the high value as justify, anyone else waits; both schedule the timer. |
| `Wire.ConversionsUndo` | pb/conn.pb.go:461-479 | Converting an int64 or an int32, negative ones included, to a 64-bit word and back loses nothing. |
| `Wire.SovExact` | pb/hotstuff.pb.go:1172-1174 | The arithmetic size of a varint is the number of bytes written, for every value. |
| `Wire.ReadOfVarint` | pb/hotstuff.pb.go:955-965 | Every 64-bit word takes at most ten bytes and is read back with its length. |
| `Wire.ReadVarintExactly` | pb/hotstuff.pb.go:1183-1197 | For any bytes, minimal or not, a varint is read exactly when it ends within ten bytes, and is the sum of their low seven bits wrapped to 64 bits; otherwise the error is overflow or end of input. |
| `Wire.ReadOfChunk` | pb/hotstuff.pb.go:1206-1237 | A length-delimited chunk is read back, wherever in the buffer it is. |
| `Wire.ChunkExactly` | pb/hotstuff.pb.go:1206-1237 | For any bytes, a length below zero or past the largest int is invalid, and a chunk is read exactly when it lies inside the buffer. |
| `Groups.SkipIsElement` | pb/hotstuff.pb.go:2383-2460 | The skipper accepts exactly one element of the recursive grammar of fields and balanced groups, and stops where it ends. |
| `Groups.SkipIsBodies` | pb/hotstuff.pb.go:2383-2460 | With d groups open the depth counter closes exactly d group bodies. |
| `MessageLaws.ParseComposes` | pb/hotstuff.pb.go:1178-1365 | If a parses, parsing a and b in one buffer is parsing b into the result: both give the same message or both fail. |
| `MessageLaws.ParseUnknowns` | pb/hotstuff.pb.go:1341-1357 | Unknown fields are appended to the unrecognized bytes, in order and unchanged. |
| `MessageLaws.FieldRefusals` | pb/hotstuff.pb.go:1198-1210 | A field is refused for its tag exactly when it ends a group, has no number, or has the wire type of another kind of field, each with its own error. |
| `MessageLaws.FieldAccepted` | pb/hotstuff.pb.go:1182-1357 | A field is taken exactly when its tag fits its kind and its payload is complete, nested messages included. |
| `MessageLaws.ScalarRead` | pb/conn.pb.go:461-531 | A varint field, however it is written, is read into its own field only: a bool is "not zero", an int32 keeps the low 32 bits, an int64 the low 64. |
| `MessageLaws.TextStored` | pb/hotstuff.pb.go:1446-1634 | A byte field is read into its own field only. |
| `MessageRoundTrips.ParsePrinted` | pb/hotstuff.pb.go:1178-2382 | Parsing a printed message into another of its type is their merge: later scalars and bytes win, VoteInfo merges, oneof arms are replaced, unknown fields are appended. |
| `MessageRoundTrips.ConcatenationMerges` | pb/hotstuff.pb.go:1178-2382 | The concatenation of two printed messages parses to their merge. |
| `MessageRoundTrips.RoundTrip` | pb/hotstuff.pb.go:558-965 | Parsing what was printed gives the message back, for all seven types. |
| `MessageRoundTrips.PrintIsInjective` | pb/hotstuff.pb.go:558-965 | Different messages of a type have different bytes. |
| `MessageRoundTrips.ParsedIsWellFormed` | pb/hotstuff.pb.go:1178-2382 | What a message parsed from any bytes keeps as unrecognized is, at every level, a list of fields its type does not know. |
| `MessageRoundTrips.ReprintParses` | pb/hotstuff.pb.go:1178-2382 | Whatever bytes a message was parsed from, printing it again gives bytes that parse to it. |
| `MessageRoundTrips.ParsePacketMsg` | pb/conn.pb.go:397-580 | The packet message with its int32 channel and bool parses back, merged into what was there. |
| `Marshalling.SizeExact` | pb/hotstuff.pb.go:966-1170 | Size is the number of bytes printed, for every message. |
| `Marshalling.PacketMsgSizeExact` | pb/conn.pb.go:336-364 | The size of a packet message, with a sign-extended int32 and a two-byte bool, is exact. |
| `Marshalling.EncodeVarint` | pb/hotstuff.pb.go:955-965 | The varint is written so that it ends just before the offset, and nothing else in the buffer changes. |
| `Marshalling.MarshalProposal` | pb/hotstuff.pb.go:679-741 | The backward writes put the proposal's bytes just before the end index and nothing else. |
| `Marshalling.MarshalVote` | pb/hotstuff.pb.go:758-820 | The same for a vote and its nested VoteInfo. |
| `Marshalling.MarshalVoteInfo` | pb/hotstuff.pb.go:837-871 | The same for a VoteInfo. |
| `Marshalling.MarshalTimeout` | pb/hotstuff.pb.go:888-953 | The same for a timeout. |
| `Marshalling.MarshalSum` | pb/hotstuff.pb.go:601-663 | The same for an arm of the oneof. |
| `Marshalling.MarshalMessage` | pb/hotstuff.pb.go:573-599 | The same for a message, whose oneof arm is placed by its computed size. |
| `Marshalling.MarshalPacketMsg` | pb/conn.pb.go:220-266 | The same for a packet message. |
| `Marshalling.MarshalPacket` | pb/conn.pb.go:283-324 | The same for a packet. |
| `Marshalling.Marshal` | pb/hotstuff.pb.go:558-566 | A buffer of exactly Size bytes is filled down to offset 0 with the message's bytes. |
| `Unmarshalling.DecodeVarint` | pb/hotstuff.pb.go:1183-1197 | The shift loop reads the word modulo 2^64, stops after at most ten bytes, and never leaves the buffer. |
| `Unmarshalling.SkipField` | pb/hotstuff.pb.go:2383-2460 | The loop with index and depth equals the skipper over values, ends on every input, and never reads outside the buffer. |
| `Unmarshalling.UnmarshalField` | pb/hotstuff.pb.go:1182-1357 | One turn of the parse loop, with all its error returns, equals one field over values. |
| `Unmarshalling.Unmarshal` | pb/hotstuff.pb.go:1178-1365 | The parse loop ends on every input and equals the parser over values; success means all bytes were used. |
| `ConsensusMessages.ConversionRoundTrip` | state/msg.go:13-111 | Converting to the wire and back gives the message, without the addressee, the key and the signature. |
| `ConsensusMessages.ConversionExactly` | state/msg.go:13-62 | A printed message of another module is refused, and one without an arm or a vote without VoteInfo dereferences nil; no other. |
| `CryptoClient.SignThenVerify` | crypto/crypto_client.go:80-223 | Verify by any client, on any output of another client's Sign, checks the payload that was signed, with the new signature and the signer's key. |
| `CryptoClient.SignSucceeds` | crypto/crypto_client.go:80-166 | Sign gives a message exactly when its bytes parse, hold one of the three messages, and the payload under its key can be signed. |
| `CryptoClient.VerifyChecks` | crypto/crypto_client.go:168-223 | For any bytes, Verify returns what the scheme says of the message's own signature and key over data that gives back everything a receiver converts; without a message it returns an error. |
| `CryptoClient.SignedConversion` | crypto/crypto_client.go:80-166 | A message converted, signed and converted back is the same but for the addressee, with the key and signature attached. |
| `CryptoClient.PayloadCoversMessage` | crypto/crypto_client.go:168-223 | Two messages with the same verified payload and signature convert to the same consensus message. |

## Left out

- Agreement between replicas: `UpdatePreferredRound` does nothing, there is no last-voted round, a justify is
  taken without its signatures, and the commit rule does not ask for consecutive rounds
  (`state/safetyrules.go:26-62`), so the code does not give it. Local commit safety and accountability are
  proved instead.
- "At most one proposal per round": votes after the threshold start the round again
  (`state/state.go:290-303`), so it does not hold.
- `generic` and `locked` as the exact ancestors of `high` at all times: they keep old values when the new
  `high` is shallow; `ChainSpec.RedirectEffect` says when they are exact.
- `ParentProposal`: its round result is the block's own round, and its only caller ignores it.
- Marshalling.Marshal: an oneof arm whose inner message is nil is not represented.
- Unmarshalling.Unmarshal: the parsed message is a value that the loop replaces; a message left half filled by
  an error is not visible.
- ReplicaSends.AbortsExactly: a panic ends the program; in the model the run may go on from the unchanged
  state, which only adds runs.
- States.State.UpdateValidators: an empty validator list is excluded, since every leader lookup would then
  divide by zero.
- ReplicaSafety.NewReplicaOk: the start value is required to name the start block and the validator list not to
  be empty; the source checks neither.
- States.State.constructor: under the same two requirements.
- BlockTrees.BlockTree.constructor: under the first of them; with another start value the high certificate does
  not stand for the start block, and nothing is promised.
- The JSON form of certificates: `RunsExist.dfy` shows only that some text form meets the assumption.
- Branches for a nil `high` pointer, which construction rules out.
- The map that `GetTimeoutIdxMap` builds is passed to `Leader` and `Validators`, which ignore it; the handlers
  here do not build it.
- The round and identifier fields repeated inside each tally entry, and the `root` field of `BlockTree`, which
  nothing reads.
- The `senderQueue` and `peerMsgQueue` capacities and blocking, mutexes, goroutines, the ticker's clock, sleeps
  and random identifiers: steps are atomic, queues are sequences, and the next identifier comes with the event.
- Signing, timestamps and keys inside the replica's steps: `schedule` only forwards what was queued.
- JSON text, hashing, ECDSA, libp2p, configuration, commands, logging: parameters where they matter, otherwise
  absent.
- Protobuf getters, descriptors, registration and the `XXX_` methods.
