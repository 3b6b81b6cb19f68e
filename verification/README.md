# Redis 6.0.5: the core of its protocols and data paths in Dafny

This project models the parts of Redis 6.0.5 whose correctness is hardest to see from the code, and proves what they are
for. It has six groups of modules.

**Cluster bus** (`cluster.c`). `ClusterNode` holds one node's view of the cluster and the packet handlers as functions of
it; `ClusterPing` says field by field what a PING changes. `ClusterElection` runs any number of such nodes over a network
that drops, delays and reorders packets, and proves that no two replicas win an election with the same epoch.
`ClusterFailover` proves the other half: from any state in which a master has failed and a majority is willing to vote,
the run can be continued until its replica has won. `ClusterAdmin` says what the local steps of a run do, and `ClusterEpochs` bounds every epoch in the system by the
`currentEpoch` next to it, `ClusterConvergence` proves that slot claims, in PINGs and UPDATEs, settle to one table
whatever the order of delivery, `ClusterAnyTable` for which slots that is so from any table at the start, and
`ClusterCollision` that equal `configEpoch`s are resolved in as few moves as possible. `ClusterSlots` is the state in
place: a slot table, one bitmap and counter per node, and the operations that change them together; each is proved
against the handler in `ClusterNode`.

**Append only file** (`aof.c`). `Decimal` and `AofFormat` are the text format with its printer and parser, `AofLoader`
the loader with truncation and roll back, `AofReplay` and `AofFeed` what commands do and how they are translated before
they are written. `AofSystem` is the server, its file, the rewriting child and the pipe between them as one state
machine, with the theorems on durability and recovery, which `AofRestart` carries through crashes, truncation and
restarts. `AofOptions` says which options of SET are accepted, `AofClock` follows expire times through the two readings of the clock; `AofStaleSize` and `AofStop` hold runs in
which durability fails. `AofServer` is the same state updated in place. `AofRewrite` and `AofRebuild` print a dataset in commands of at
most 64 items and prove that replaying them rebuilds it.

**Access control lists** (`acl.c`). `AclUser` applies rules to a user, `AclRules` says what every rule does to who logs in,
which commands run and which keys they touch, `AclDescribe` gives the rules printed for a user and the proof that they
rebuild it, `AclPrinted` which rules those are, `AclText` the file lines, `AclBook` whole files, loaded and saved, `AclStore` a user
in place, `AclFile` the all-or-nothing load of a file, `ACL SAVE` and `ACL SETUSER`.

**Blocking operations** (`blocked.c`, `adlist.c`, `t_list.c`). `Blocked` is the index of blocked clients and the serving
of ready keys with termination and conservation of elements. `BlockedFair` says who gets which element, `BlockedWakeup`
that no wake-up is lost while ready keys are served, and `BlockedRuns` that this holds over whole runs of commands. `AdList` is the doubly linked list on the heap,
`BlockedLists` the table of such lists with the nodes the clients have stored, and `BlockedServer` the whole state in
place, on top of it.

**Bit operations** (`bitops.c`). `Bitfield` with `BitfieldType`, `BitCount`, `BitScan`, and `BitOp` with `BitOpBits`.

**CRC-64** (`crc64.c`, `crcspeed.c`). `Crc64`: the word-at-a-time form refines the bit-by-bit one.

Some properties do not hold of the code as it is. Each comes with the exact condition under which it holds and an input
or run for which it fails.

* Election safety needs a vote tally that is empty when votes are asked for. The tally is cleared when the election is
  scheduled, and the epoch moves only when the request is sent, so a vote of the previous epoch that arrives in between is
  counted for the new one: `CleanStartExact`, `LateAckBreaksSafety`. The model delivers an acknowledgement at most once
  and takes the masters with slots of an epoch as known to everyone who counts in it.
* Durability needs commands that can be fed. A SET may give its expire time more than once; only the last one is read,
  and the scan for the log takes an earlier one that spells `px` or `ex` for an option. If that is the other unit, an
  assertion stops the server after the command has run: `ScanExact`, `StopExact`, `ReplacedTimeStops`, `StopLosesKey`.
* A relative expire time is later in the log than in the dataset if the clock moves between the command and its feed, by
  just that much: `ReplayExact`, `ClockMoves`. `Durability` is stated up to that delay.
* Durability needs that `fstat` succeeds when a rewritten file is put into place. Otherwise the recorded size is that of
  the old file, and undoing a short write cuts at the wrong place: `FinishExact`, `UndoExact`, `StaleSizeLosesKey`.
* Durability through a restart needs that the file kept no open MULTI. A file cut inside a transaction is truncated behind
  its last complete command, not before the MULTI, and what the new server logs lands in that transaction:
  `RestartExact`, `KeptOpens`, `TornTransaction`, `HiddenWrites`.
* A file written by `ACL SAVE` gives the users back if and only if no allowed subcommand holds a space or a newline or ends
  in other white space: `SavedFileExact`, `SpaceInSubcommand`, `NewlineInSubcommand`.
* `BITFIELD` shifts by the width of a signed field, which C leaves undefined for 64 bits. Reading a negative field of that
  width and wrapping in it depend on what the shift gives, and nothing else does: `ReadExact`, `IncrExact`,
  `ShiftedByNothing`.
* `BITFIELD SET` under SAT stores the greatest value of a signed type, not the least, for values below 2^(bits-1) - 2^63:
  `SetSignedExact`, `LowestSaturatesHigh`.
* A slot table need not settle in every order of delivery when an owner has stopped claiming its slot and its new, higher
  epoch is still to be heard: `ExactConvergence`, `OrderDecides`, `OrderMatters`.
* Applying a claim stops the server exactly when a replica that holds slots itself loses the last slot of its master,
  which meets an assertion, or a replica without a master is offered a free slot, which follows a null pointer: the
  `stopped` result of `ClusterSlots.Cluster.UpdateSlotsConfigWith`, and `AfterScan`. ADDSLOTS leads to the first
  (`SlotsHeldStop`), and CLUSTER REPLICATE of a node whose handshake then times out to the second (`LoseMaster`,
  `NoMasterStops`).
* A client blocked on a list can sleep beside its elements, because a list stored over a value of another type announces
  nothing: the key is overwritten, and only adding a key signals it. SORT with STORE does that, and it is the only such
  step: `SetKeyExact`, `NobodySleeps`, `SilentSleeps`.

Where code and comments differ the model follows the code. A truncated transaction is rolled back to the last MULTI read,
which is not the first if MULTI was nested (`RollbackExact`). The category counts used for describing a user
include commands of modules, while setting a category skips them; the round trip holds all the same.

`dafny verify dfyconfig.toml` checks the whole project. Methods that change an object state its whole new state, mostly as
a function of the old one; the lemmas are about that function.

## Model

| member | source | states |
|---|---|---|
| `ClusterNode.BuildHeader` | redis-6.0.5/src/cluster.c:2348-2397 | a header carries the sender's name and currentEpoch, and its configEpoch is never newer than that currentEpoch when the node records nothing newer |
| `ClusterNode.BuildUpdate` | redis-6.0.5/src/cluster.c:2679-2688 | an UPDATE never reports an epoch newer than the currentEpoch of the header it travels with |
| `ClusterNode.NoteEpochs` | redis-6.0.5/src/cluster.c:1763-1774 | currentEpoch becomes the greater of its own and a trusted sender's and ignores the others; the recorded configEpoch reaches the announced one; slots, votes and tally stay; bounded headers keep the node bounded |
| `ClusterNode.SetNodeAsMaster` | redis-6.0.5/src/cluster.c:1554-1568 | the node becomes a master; slots, epochs and the election state of the receiver stay |
| `ClusterNode.SetMaster` | redis-6.0.5/src/cluster.c:4017-4033 | this node becomes a replica of the named node and no master; slots, epochs, votes, tally and all other entries stay |
| `ClusterNode.DelNodeSlots` | redis-6.0.5/src/cluster.c:3811-3821 | exactly the slots of the one node are released |
| `ClusterNode.SwitchRole` | redis-6.0.5/src/cluster.c:1944-1977 | a sender that announces a master is one no longer, and loses all its slots if it was; one that announces none becomes a master; the slots of all others, epochs, votes and tallies stay |
| `ClusterNode.UpdateSlotsConfigWith` | redis-6.0.5/src/cluster.c:1581-1663 | the slot table becomes the rebinding of the claimed slots, and this node becomes a replica of the sender exactly when its master, or it as a master, loses its last slot by that; epochs stay, no slot starts being imported, nobody is promoted, a claim of the node about itself changes nothing |
| `ClusterNode.LosesAllIs` | redis-6.0.5/src/cluster.c:1643-1663 | losing the last slot is, after the scan, that a slot of the current master was taken and it has none left |
| `ClusterNode.StaleOwner` | redis-6.0.5/src/cluster.c:2024-2048 | an UPDATE is sent back if and only if some claimed slot is held by another node under a newer epoch, and it names such a node |
| `ClusterNode.HandleConfigEpochCollision` | redis-6.0.5/src/cluster.c:1120-1135 | only a master whose epoch equals that of a sender with a greater name changes, and only its own entry |
| `ClusterNode.NextConfigEpoch` | redis-6.0.5/src/cluster.c:1120-1135 | the epoch taken is currentEpoch plus one, above every configEpoch known to a node that records nothing newer than currentEpoch |
| `ClusterNode.BumpConfigEpoch` | redis-6.0.5/src/cluster.c:1055-1072 | after a bump the own configEpoch is at least every known one, and strictly above them all if it changed |
| `ClusterNode.ProcessPing` | redis-6.0.5/src/cluster.c:1763-2057 | PING, PONG and MEET never move currentEpoch back, keep the epoch bound, touch no vote and no tally, and answer with bounded UPDATEs only; their effect field by field is in ClusterPing |
| `ClusterNode.SkippedScan` | redis-6.0.5/src/cluster.c:1989-2004 | not scanning the slots when the bitmaps are equal changes nothing |
| `ClusterNode.ApplyClaim` | redis-6.0.5/src/cluster.c:1989-2004 | with or without the comparison of bitmaps the table is the rebinding of the claim |
| `ClusterNode.FixCollision` | redis-6.0.5/src/cluster.c:2050-2057 | a node that is no master or whose configEpoch differs from the announced one is left alone |
| `ClusterNode.ProcessUpdate` | redis-6.0.5/src/cluster.c:2131-2152 | an UPDATE keeps the epoch bound if its sender is trusted and its header is bounded, never moves currentEpoch back, and touches no vote and no tally; its effect on slots and peers is in UpdateExact, UpdateRecords and UpdateAboutMe |
| `ClusterNode.NewMaster` | redis-6.0.5/src/cluster.c:2142-2148 | the reported node gets the reported epoch and is a replica no longer; every other entry stays |
| `ClusterNode.CastVote` | redis-6.0.5/src/cluster.c:2904-2908 | a vote is recorded for the currentEpoch, its time is recorded for the candidate's master and no other node, and the attempt of this node stays |
| `ClusterNode.ProcessAuthRequest` | redis-6.0.5/src/cluster.c:2810-2911 | a vote is granted only to a known sender, at most once per epoch, in an epoch not beyond the request's; a refused request changes no vote |
| `ClusterNode.VotesApart` | redis-6.0.5/src/cluster.c:2837-2877 | two votes in a row are cast in growing epochs and, about the same master, at least two timeouts apart |
| `ClusterNode.ProcessAck` | redis-6.0.5/src/cluster.c:2106-2118 | the tally grows by one exactly when the sender is a known master with slots whose epoch is not older than the attempt |
| `ClusterNode.ScheduleElection` | redis-6.0.5/src/cluster.c:3122-3139 | scheduling clears tally and request flag but keeps the attempt's epoch |
| `ClusterNode.RequestVotes` | redis-6.0.5/src/cluster.c:3186-3192 | an attempt takes a new epoch above every known configEpoch and does not clear the tally |
| `ClusterNode.TakeOver` | redis-6.0.5/src/cluster.c:3206-3212 | the winner's configEpoch becomes the greater of its own and that of the election; votes, tally and currentEpoch stay |
| `ClusterNode.TakeOverSlots` | redis-6.0.5/src/cluster.c:3012-3028 | the winner is a master, has its own slots and all those of its old master, which has none left; no other node gains or loses a slot |
| `ClusterNode.UpdateRank` | redis-6.0.5/src/cluster.c:3158-3171 | a later rank changes no epoch, vote, tally, peer or size |
| `ClusterNode.HandleSlaveFailover` | redis-6.0.5/src/cluster.c:3050-3219 | the call schedules, asks for votes, wins or does nothing, and what each of these does to tally, flag and epochs; a request is sent in a new epoch, winning needs one sent and a tally of at least size/2+1 |
| `ClusterNode.UpdateState` | redis-6.0.5/src/cluster.c:3884-3900 | size becomes the number of masters with slots; no epoch, vote, tally, peer or slot changes |
| `ClusterElection.StepInv` | redis-6.0.5/src/cluster.c:1763-2152 | every step of the whole system keeps: votes belong to epochs not beyond the voter's last, one per epoch, acknowledgements in flight are uncounted votes, each tally is the number of votes counted |
| `ClusterElection.RunInv` | redis-6.0.5/src/cluster.c:1763-2152 | the same over every run |
| `ClusterElection.OneVotePerEpoch` | redis-6.0.5/src/cluster.c:2837-2845 | in every run, under no hypothesis, a master votes for at most one candidate per epoch |
| `ClusterElection.RunHonest` | redis-6.0.5/src/cluster.c:3122-3215 | in every disciplined run each tally holds only votes of the attempt's epoch by its electorate, and each win is backed by a majority of it |
| `ClusterElection.ElectionSafety` | redis-6.0.5/src/cluster.c:3186-3215 | over a whole run no two different replicas win with the same epoch, given an agreed electorate per epoch, acknowledgements delivered at most once, and empty tallies at each request for votes |
| `ClusterElection.CleanStartExact` | redis-6.0.5/src/cluster.c:3122-3192 | asking for votes leaves only votes of the new epoch in the tally if and only if the tally is empty at that moment |
| `ClusterElection.SameWinner` | redis-6.0.5/src/cluster.c:3200-3215 | two majorities of one electorate share a voter, so two backed wins of an epoch have one winner |
| `ClusterElection.Intersect` | redis-6.0.5/src/cluster.c:3053-3053 | majorities of a set intersect |
| `ClusterElection.DeliverRequest` | redis-6.0.5/src/cluster.c:2103-2105 | delivering a vote request keeps the invariant whether or not it is granted |
| `ClusterElection.DeliverAck` | redis-6.0.5/src/cluster.c:2106-2118 | delivering an acknowledgement keeps the invariant |
| `ClusterElection.FailoverInv` | redis-6.0.5/src/cluster.c:3050-3219 | a failover attempt keeps the invariant whatever its outcome |
| `ClusterLateAck.LateAckBreaksSafety` | redis-6.0.5/src/cluster.c:3126-3188 | without the empty tally safety fails: a concrete run in which replicas 1 and 2 both win epoch 2, one of them with a vote of epoch 1 |
| `ClusterEpochs.StepBounded` | redis-6.0.5/src/cluster.c:1763-2152 | each step keeps: nobody records an epoch newer than its currentEpoch, no packet carries one newer than its header's currentEpoch, and a node in handshake is filed under a name that no node of the system bears |
| `ClusterEpochs.EpochBound` | redis-6.0.5/src/cluster.c:1763-1774 | all of that holds in every reachable state, for all nodes and all packets in flight |
| `ClusterEpochs.LocalBounded` | redis-6.0.5/src/cluster.c:1826-1881 | meeting a stranger under a random name, ending a handshake, which gives the node its real name, and every other local step keep the bound |
| `ClusterEpochs.FreshEpochs` | redis-6.0.5/src/cluster.c:1055-1135 | in every reachable state a bump, a collision fix and a new election take an epoch strictly above all configEpochs the node knows |
| `ClusterConvergence.PingEffect` | redis-6.0.5/src/cluster.c:1944-2057 | what a master's PING does to slot table and recorded epochs, across role switch, scan and collision |
| `ClusterConvergence.HearClaim` | redis-6.0.5/src/cluster.c:1604-1641 | hearing one more claim keeps what was settled and settles the new one |
| `ClusterConvergence.ListenSettles` | redis-6.0.5/src/cluster.c:1604-1641 | any sequence of PINGs and UPDATEs, in any order and with repetitions, settles the claims of all that sent a PING |
| `ClusterConvergence.SettledTable` | redis-6.0.5/src/cluster.c:1604-1641 | once all claims are heard a slot is assigned if and only if it is claimed, and to its claimant with the highest epoch |
| `ClusterConvergence.Convergence` | redis-6.0.5/src/cluster.c:1604-1641 | two nodes with different starts, whose slot owners are claimants, and different delivery orders of PINGs and UPDATEs end with the same slot table, in which every slot belongs to its highest claimant |
| `ClusterConvergence.EmptyTableSettled` | redis-6.0.5/src/cluster.c:1604-1641 | an empty slot table is a valid start |
| `ClusterCollision.MeetMoves` | redis-6.0.5/src/cluster.c:2050-2057 | a PING of a master makes the receiver move exactly if their epochs are equal and its name is the smaller one, to an epoch beyond all in use |
| `ClusterCollision.OneMoreEpoch` | redis-6.0.5/src/cluster.c:1120-1135 | each resolved collision puts one more distinct epoch into use |
| `ClusterCollision.CollisionsResolve` | redis-6.0.5/src/cluster.c:1120-1135 | a run resolves at most as many collisions as masters exceed epochs, and exactly that many if and only if all epochs are distinct |
| `ClusterCollision.NotStuck` | redis-6.0.5/src/cluster.c:1120-1135 | while two epochs are equal some meeting resolves a collision |
| `ClusterCollision.GreatestStays` | redis-6.0.5/src/cluster.c:1120-1135 | the greatest name of a colliding group keeps its epoch over the whole run |
| `SlotBitmap.SetBit` | redis-6.0.5/src/cluster.c:3718-3722 | exactly the one bit is set |
| `SlotBitmap.ClearBit` | redis-6.0.5/src/cluster.c:3725-3729 | exactly the one bit is cleared |
| `SlotBitmap.SetBitSlots` | redis-6.0.5/src/cluster.c:3718-3729 | as sets of slots, setting adds one and clearing removes one |
| `ClusterSlots.Member.SetSlotBit` | redis-6.0.5/src/cluster.c:3749-3771 | sets the bit in place and keeps numslots the number of bits |
| `ClusterSlots.Member.ClearSlotBit` | redis-6.0.5/src/cluster.c:3774-3779 | clears the bit in place and keeps numslots the number of bits |
| `ClusterSlots.Cluster.constructor` | redis-6.0.5/src/cluster.c:478-482 | a new cluster is this node alone, all slots free, and its tables agree |
| `ClusterSlots.Cluster.BitmapAgrees` | redis-6.0.5/src/cluster.c:3782-3784 | a node's bitmap is the set of slots the table gives it, and numslots its size |
| `ClusterSlots.Cluster.AddSlot` | redis-6.0.5/src/cluster.c:3790-3795 | fails on a busy slot; otherwise table and bitmap are changed together |
| `ClusterSlots.Cluster.DelSlot` | redis-6.0.5/src/cluster.c:3800-3807 | fails on a free slot; otherwise table and bitmap are changed together, the assertion on the bit holds |
| `ClusterSlots.Cluster.DelNodeSlots` | redis-6.0.5/src/cluster.c:3811-3821 | frees exactly the node's slots and counts them |
| `ClusterSlots.Cluster.RebindLoop` | redis-6.0.5/src/cluster.c:1604-1641 | the loop in place computes the rebinding and whether a slot was taken whose owner is the current master, none being equal to none |
| `ClusterSlots.Cluster.RebindSlots` | redis-6.0.5/src/cluster.c:1604-1641 | the same, with table and bitmaps still inverse |
| `ClusterSlots.Cluster.SetMaster` | redis-6.0.5/src/cluster.c:4017-4033 | in place, what the specification of becoming a replica says; table and bitmaps stay inverse |
| `ClusterSlots.Cluster.UpdateSlotsConfigWith` | redis-6.0.5/src/cluster.c:1581-1663 | in place, exactly the specified handler, unless the server stops, which it does exactly when a replica that has no master is offered a free slot, or a replica that holds slots besides those taken loses the last slot of its master |
| `ClusterSlots.Cluster.ScanClaim` | redis-6.0.5/src/cluster.c:1604-1663 | the scan computes the rebinding and reports a demotion exactly when the current master loses its last slot to the sender |
| `ClusterSlots.AfterScan` | redis-6.0.5/src/cluster.c:1643-1663 | with a master known, the server stops exactly when this node is to become a replica while it still has slots |
| `ClusterSlots.SlotsHeldStop` | redis-6.0.5/src/cluster.c:4017-4019 | a replica that was given slot 8 by ADDSLOTS stops when the one slot of its master is claimed |
| `ClusterSlots.NoMasterStops` | redis-6.0.5/src/cluster.c:1643-1663 | a replica that knows no master stops at a claim to a free slot |
| `ClusterSlots.Cluster.LoseMaster` | redis-6.0.5/src/cluster.c:3481-3486 | a running replica gets there: it replicates a node in handshake, which is deleted when it does not answer, and from then on any claim to a free slot stops it |
| `ClusterSlots.Cluster.Replicate` | redis-6.0.5/src/cluster.c:4661-4697 | refused for this node, a replica and a node that is not empty; it stops a replica that holds slots, and otherwise sets the master as specified |
| `ClusterSlots.Cluster.Grants` | redis-6.0.5/src/cluster.c:2810-2902 | the tests in place are exactly the specified conditions of a vote |
| `ClusterSlots.Cluster.SendFailoverAuthIfNeeded` | redis-6.0.5/src/cluster.c:2810-2911 | in place, a vote is granted exactly under those conditions and recorded as specified; otherwise nothing changes |
| `ClusterSlots.Cluster.MoveAll` | redis-6.0.5/src/cluster.c:3022-3028 | all slots of one node go to another, the others stay |
| `ClusterSlots.Cluster.WinElection` | redis-6.0.5/src/cluster.c:3206-3215 | in place, exactly the specified takeover |
| `ClusterSlots.Cluster.ReplaceMaster` | redis-6.0.5/src/cluster.c:3012-3028 | the replica becomes master of exactly its old master's slots |
| `ClusterSlots.Cluster.DelNode` | redis-6.0.5/src/cluster.c:948-975 | afterwards no slot, importing or migrating entry and no replica refers to the deleted node, everything else is unchanged |
| `ClusterSlots.Cluster.GetMaxEpoch` | redis-6.0.5/src/cluster.c:1011-1024 | the greatest of currentEpoch and all configEpochs |
| `ClusterSlots.Cluster.ClaimNotStale` | redis-6.0.5/src/cluster.c:2885-2902 | true exactly when no claimed slot is served under a newer epoch |
| `ClusterSlots.Cluster.BumpConfigEpoch` | redis-6.0.5/src/cluster.c:1055-1072 | takes a new epoch exactly when the own one is zero or not the greatest |
| `ClusterSlots.Cluster.SetSlotNode` | redis-6.0.5/src/cluster.c:4464-4500 | refused exactly to a replica and for an own slot with keys given away; slot and marks change as asked, and a slot that was being imported is taken under the greatest epoch known or a new one beyond it |
| `ClusterSlots.Cluster.CloseImport` | redis-6.0.5/src/cluster.c:4481-4498 | an imported slot is closed under a new epoch if the own one was not already the greatest |
| `ClusterSlots.Cluster.AddOrDelSlots` | redis-6.0.5/src/cluster.c:4361-4407 | takes all its arguments or none: refused for a repeated, busy or free slot |
| `Decimal.AtoiRender` | redis-6.0.5/src/aof.c:524-538 | the number reader undoes the number printer whatever follows the numeral |
| `Decimal.AtoiCut` | redis-6.0.5/src/aof.c:787-788 | a numeral cut short still reads as a positive number |
| `AofFormat.CatCommand` | redis-6.0.5/src/aof.c:522-545 | prints exactly the encoding of the command |
| `AofFormat.HeaderLine` | redis-6.0.5/src/aof.c:779-788 | a printed header line fits the line buffer and is read back with its number |
| `AofFormat.ParseEncode` | redis-6.0.5/src/aof.c:779-825 | reading a printed command gives it back and stops right behind it |
| `AofFormat.CutEncode` | redis-6.0.5/src/aof.c:779-825 | a command cut at any byte reads as an unexpected end, never as another command or as a format error |
| `AofLoader.LogFile.Gets` | redis-6.0.5/src/aof.c:779-784 | reads a line of at most 127 bytes, and meets the end of the file exactly when it runs out before a newline |
| `AofLoader.LogFile.Get` | redis-6.0.5/src/aof.c:811-824 | reads all the bytes asked for or reports the end of the file |
| `AofLoader.ReadArg` | redis-6.0.5/src/aof.c:797-824 | the reading of one argument is the parser's, and the end-of-file flag tells a short file from a read error |
| `AofLoader.ReadArgs` | redis-6.0.5/src/aof.c:796-825 | the argument loop is the parser of that many arguments |
| `AofLoader.ReadCommand` | redis-6.0.5/src/aof.c:779-834 | one turn of the loop parses one command |
| `AofLoader.LoadCommands` | redis-6.0.5/src/aof.c:764-873 | the loading loop computes the specified outcome |
| `AofLoader.LoadAppendOnlyFile` | redis-6.0.5/src/aof.c:710-928 | the loader computes the specified outcome: nothing to load, preamble, loaded, truncated, or refused with its reason |
| `AofLoader.AfterRuns` | redis-6.0.5/src/aof.c:836-846 | after any log the fake client has run everything but the open transaction and holds back exactly that |
| `AofLoader.AfterOffsets` | redis-6.0.5/src/aof.c:836-859 | the two offsets are the end of the log and the start of its last MULTI |
| `AofLoader.LoadLog` | redis-6.0.5/src/aof.c:764-920 | a log of whole commands loads completely, or, inside a transaction, is rolled back to the offset of the last MULTI, or is refused when truncated files are |
| `AofLoader.LoadCut` | redis-6.0.5/src/aof.c:764-920 | a log cut inside a command runs exactly the complete commands and is truncated right behind them |
| `AofLoader.AnyPrefixLoads` | redis-6.0.5/src/aof.c:764-920 | for every byte prefix of a transaction-free log the loader runs exactly its complete commands and keeps exactly their encoding |
| `AofLoader.RollbackExact` | redis-6.0.5/src/aof.c:836-873 | after a roll back the log closes all its transactions if and only if no MULTI was nested in the open one; what takes effect is the same either way |
| `AofLoader.NestedMultiStaysOpen` | redis-6.0.5/src/aof.c:836-873 | two MULTI in a row: the roll back keeps the first, still open |
| `AofReplay.ReplayEffective` | redis-6.0.5/src/multi.c:95-102 | transaction markers do not change what a log does |
| `AofFeed.ScanExact` | redis-6.0.5/src/aof.c:611-618 | for every SET that is accepted the scan finds the expire time the command used, and it finds the other unit as well, which stops the server, if and only if an expire time that was replaced by a later one spells the option of that unit |
| `AofFeed.ReplacedTimeStops` | redis-6.0.5/src/t_string.c:97-141 | SET k v EX px EX 10 is accepted with 10 seconds, and the scan finds both options |
| `AofFeed.TranslateFaithful` | redis-6.0.5/src/aof.c:599-637 | replaying what is written for any command that can be fed repeats its effect at the time of writing, with absolute expire times |
| `AofClock.ReplayExact` | redis-6.0.5/src/aof.c:554-583 | with one clock reading for the command and another for the log, replaying what is written differs in the expire time only, by the difference of the readings, and gives the dataset if and only if they are equal, the command sets no relative time, or the key is not there |
| `AofClock.ClockMoves` | redis-6.0.5/src/aof.c:554-583 | EXPIRE k 10 written a millisecond after it ran |
| `AofClock.LiveNear` | redis-6.0.5/src/aof.c:554-583 | a command run in two datasets that differ only in expire times, at two times, leaves them so: never earlier and at most by the delay later |
| `AofClock.SteadyNow` | redis-6.0.5/src/aof.c:554-583 | with one reading nothing is asked of the commands the model does not interpret |
| `AofSystem.FedOpens` | redis-6.0.5/src/aof.c:584-637 | what is written for a command opens or closes a transaction exactly as the command does |
| `AofSystem.FedReplays` | redis-6.0.5/src/aof.c:584-637 | each command that can be fed is replayed in the database it ran in, whatever was selected before |
| `AofSystem.FaithfulFed` | redis-6.0.5/src/aof.c:584-653 | feeding keeps a log and its bytes faithful to the dataset, expire times up to the delay of the feed |
| `AofSystem.ExecuteKeeps` | redis-6.0.5/src/aof.c:584-653 | running a command keeps the invariant of log, rewrite buffer and child, whether it is fed or stops the server |
| `AofSystem.StopExact` | redis-6.0.5/src/aof.c:611-618 | a step stops the server if and only if the AOF is not off and the command is a SET with a replaced expire time that spells the option of the other unit |
| `AofStop.StopLosesKey` | redis-6.0.5/src/aof.c:611-618 | a run of one SET after which the server is stopped, the key is in the dataset, and file and buffer are empty |
| `AofSystem.UndoExact` | redis-6.0.5/src/aof.c:430-452 | a short write is undone by ftruncate if and only if the recorded size is the size of the file |
| `AofSystem.FlushKeeps` | redis-6.0.5/src/aof.c:338-494 | full, failed and short writes, undone or not, leave file and buffer together the same bytes and the size right |
| `AofSystem.ForkKeeps` | redis-6.0.5/src/aof.c:1593-1634 | starting a rewrite keeps the invariant |
| `AofSystem.RewrittenIs` | redis-6.0.5/src/aof.c:1693-1710 | the finished file is the snapshot followed by everything fed since the fork, once and in order |
| `AofSystem.FinishExact` | redis-6.0.5/src/aof.c:1683-1832 | the end of a rewrite keeps the invariant if and only if it failed, the AOF is off, or the recorded size comes out right |
| `AofStaleSize.StaleSizeLosesKey` | redis-6.0.5/src/aof.c:1666-1679 | a run from an empty server in which only one fstat fails, at the end of a rewrite, and the next short write is undone: loading file and buffer then succeeds without the first key |
| `AofStaleSize.StaleRun` | redis-6.0.5/src/aof.c:338-494 | each of its nine steps is one of the machine |
| `AofSystem.PipeKeeps` | redis-6.0.5/src/aof.c:95-122 | pipe writes and reads of any length and the stop handshake keep the invariant |
| `AofSystem.StepInv` | redis-6.0.5/src/aof.c:338-653 | every step of server, file, pipe and child keeps the invariant |
| `AofSystem.RunInv` | redis-6.0.5/src/aof.c:338-653 | so does every run in which fstat works |
| `AofSystem.Durability` | redis-6.0.5/src/aof.c:338-653 | at every point of every run, while the AOF is on, the server is not stopped and no transaction is half fed, loading file and buffer gives the dataset with expire times that are never earlier and at most the delay of the feed later, and exactly the dataset if there is none; the recorded size is the file's |
| `AofSystem.CrashRecovery` | redis-6.0.5/src/aof.c:338-494 | the file alone always restores the dataset as it was logged after the complete commands on disk outside an unfinished transaction, also after the server was stopped |
| `AofSystem.ExactlyOnce` | redis-6.0.5/src/aof.c:95-194 | what the child read, what is in the pipe and what the parent holds are together the bytes fed since the fork; the finished file is snapshot plus all of them |
| `AofRestart.LoadLeaves` | redis-6.0.5/src/aof.c:764-920 | loading any prefix of a log succeeds, leaves in the file the encoding of what is kept, and restores what its complete commands outside an open transaction did |
| `AofRestart.KeptOpens` | redis-6.0.5/src/aof.c:836-920 | what is kept has an open transaction if and only if the complete commands on disk have one and the file was cut inside a command or a MULTI is nested in it |
| `AofRestart.RestartExact` | redis-6.0.5/src/aof.c:710-928 | at every point of every run the server may crash with any part of its buffer written and start again; the new server meets the conditions of a run if and only if no open MULTI is kept in its file |
| `AofRestart.DurableLives` | redis-6.0.5/src/aof.c:338-928 | durability in the same sense over any number of runs with a crash, a truncation and a restart in between, each restart keeping no open MULTI |
| `AofRestart.HiddenWrites` | redis-6.0.5/src/aof.c:836-920 | behind a MULTI that was kept everything logged before the next EXEC is cut off at the next start |
| `AofRestart.TornTransaction` | redis-6.0.5/src/aof.c:836-920 | a run that feeds MULTI, SET and EXEC, and a crash that leaves the first byte of the SET on disk, after which the new server starts behind an open MULTI |
| `AofServer.AofWrite` | redis-6.0.5/src/aof.c:300-317 | retries until everything is written or a write fails: the bytes taken before the first failure, at most the whole buffer, reach the file, and the result is their number, -1 for none of some |
| `AofServer.Server.BufferAppend` | redis-6.0.5/src/aof.c:125-169 | the blocks hold what they held plus the new bytes, each block nonempty and within its size |
| `AofServer.Server.WriteDiffData` | redis-6.0.5/src/aof.c:95-122 | block by block, exactly the bytes the writes take before one takes nothing are sent and the rest is kept; nothing is sent once asked to stop |
| `AofServer.Server.BufferWrite` | redis-6.0.5/src/aof.c:174-194 | succeeds exactly if each block is taken by one write, and then the file ends in all pending bytes |
| `AofServer.Server.FeedCommand` | redis-6.0.5/src/aof.c:584-653 | in place, exactly the specified feed, for every accepted command; it stops the server exactly when the scan finds both options |
| `AofServer.Server.FlushAppendOnlyFile` | redis-6.0.5/src/aof.c:338-494 | in place: nothing for an empty buffer; postponed exactly while a sync runs, the flush is not forced and less than two seconds have passed; otherwise the write results decide whether all, a part or nothing is written, and file, buffer, recorded size and end of the server follow from that in each case |
| `AofServer.Server.WriteOut` | redis-6.0.5/src/aof.c:394-494 | all bytes taken: they are in the file and the buffer is empty; a part taken: it is cut off again or counted, and only what is not in the file stays in the buffer; the server ends exactly under the always policy with a failure |
| `AofServer.Server.StartRewrite` | redis-6.0.5/src/aof.c:1612-1633 | in place, the specified fork |
| `AofServer.Server.StopRequested` | redis-6.0.5/src/aof.c:1510-1531 | in place, the specified answer to the child's request |
| `AofServer.Server.RewriteDone` | redis-6.0.5/src/aof.c:1683-1832 | in place, the specified end of a rewrite, with nothing left in the blocks; the new file is put into place exactly if the child ended well, the file opens, all pending bytes are written and the rename works |
| `AofServer.ScanOptions` | redis-6.0.5/src/aof.c:611-618 | the option scan in place never reads behind the last argument; its assertion fails if and only if a replaced expire time spells the option of the other unit, and otherwise it has the expire time the command used |
| `AofServer.PrintTranslated` | redis-6.0.5/src/aof.c:599-637 | prints exactly the translation, or stops |
| `AofServer.Print` | redis-6.0.5/src/aof.c:584-637 | prints SELECT when the database changes and then the translation, or stops |
| `AofServer.ReadDiff` | redis-6.0.5/src/aof.c:1306-1316 | appends all that is in the pipe |
| `AofRewrite.ChunksBounded` | redis-6.0.5/src/aof.c:950-1150 | each command carries between 1 and 64 items, and its argument count is two plus theirs |
| `AofRewrite.ChunksComplete` | redis-6.0.5/src/aof.c:950-1150 | the arguments of all commands concatenate to the items in order |
| `AofRewrite.RewriteItems` | redis-6.0.5/src/aof.c:950-1150 | the loops that announce a count before printing the items print exactly those commands |
| `AofRebuild.AddedTwice` | redis-6.0.5/src/aof.c:950-1150 | adding in two commands is adding in one, for lists, sets, sorted sets and hashes |
| `AofRebuild.ReplayChunks` | redis-6.0.5/src/aof.c:950-1150 | replaying all chunks adds all items to what is at the key |
| `AofRebuild.ReplayObject` | redis-6.0.5/src/aof.c:950-1150 | on a fresh key the chunks build exactly the object |
| `AofRebuild.ItemsOf` | redis-6.0.5/src/aof.c:950-1150 | any iteration order of an object yields items that rebuild it |
| `AofRebuild.RewriteEntry` | redis-6.0.5/src/aof.c:1341-1376 | what is printed for a key recreates its value and expire time in a database without it |
| `AofRebuild.RewriteDatabase` | redis-6.0.5/src/aof.c:1325-1384 | what is printed for a database recreates all its keys |
| `AofRebuild.RewriteDataset` | redis-6.0.5/src/aof.c:1318-1385 | what the child prints for any dataset rebuilds that dataset from nothing: loading the printed file ends normally and gives the dataset |
| `AofRebuild.RebuiltLoads` | redis-6.0.5/src/aof.c:764-873 | a file of commands that rebuild a dataset, none of them a transaction, is loaded completely and restores it |
| `Crc64.StepsXor` | redis-6.0.5/src/crcspeed.c:33-49 | the table steps are linear over GF(2) |
| `Crc64.StepsInjective` | redis-6.0.5/src/crcspeed.c:111-143 | no two states have the same successor |
| `Crc64.ByteByTable` | redis-6.0.5/src/crcspeed.c:116-119 | one table look up is eight steps |
| `Crc64.WordByBytes` | redis-6.0.5/src/crcspeed.c:122-134 | taking eight bytes one by one is taking their little endian word at once |
| `Crc64.SliceOne` | redis-6.0.5/src/crcspeed.c:124-131 | one byte of a word by its own table, the others later |
| `Crc64.TableByte` | redis-6.0.5/src/crcspeed.c:116-119 | a byte through the first table is one byte step |
| `Crc64.TableWord` | redis-6.0.5/src/crcspeed.c:122-134 | a word through the eight tables is eight byte steps |
| `Crc64.CrcSpeed` | redis-6.0.5/src/crcspeed.c:111-143 | for every string, starting value and alignment the fast form computes the byte by byte CRC |
| `Crc64.CrcReflect` | redis-6.0.5/src/crc64.c:69-78 | the loop moves the bits one by one |
| `Crc64.ReflectIsRev` | redis-6.0.5/src/crc64.c:69-78 | over 64 bits that is the reversal of the word |
| `Crc64.RevBitStep` | redis-6.0.5/src/crc64.c:95-103 | reversed, the left shifting step is the right shifting one |
| `Crc64.BitsByByte` | redis-6.0.5/src/crc64.c:94-104 | eight bit steps are one byte step on the reversed state |
| `Crc64.SlowIsFast` | redis-6.0.5/src/crc64.c:88-111 | the bit-by-bit state, reversed, is the fast state from the reversed start |
| `Crc64.BitByBit` | redis-6.0.5/src/crc64.c:88-111 | the bit-by-bit loops compute the reversed bit-by-bit state |
| `Crc64.InitTable` | redis-6.0.5/src/crcspeed.c:33-49 | each table entry is its byte run through the right number of zero bytes |
| `Crc64.FillRow` | redis-6.0.5/src/crcspeed.c:41-48 | the seven further entries of a byte, nothing else changed |
| `Crc64.SameExactly` | redis-6.0.5/src/crc64.c:88-123 | from the same start the two functions agree if and only if the start is its own bit reversal |
| `Crc64.FastRefinesSlow` | redis-6.0.5/src/crc64.c:88-123 | from zero they always agree, and the fast form continues piece by piece |
| `Crc64.FastAppend` | redis-6.0.5/src/crcspeed.c:111-143 | the CRC of a concatenation is the CRC continued |
| `AclUser.Lookup` | redis-6.0.5/src/acl.c:592-598 | finds the command of that name regardless of case, or there is none |
| `AclUser.SetPermsOk` | redis-6.0.5/src/acl.c:754-890 | rules about commands keep bitmap, flag and subcommands sound |
| `AclUser.SetAccessOk` | redis-6.0.5/src/acl.c:740-826 | rules about flags, passwords and patterns keep them sound |
| `AclUser.SetUserOk` | redis-6.0.5/src/acl.c:737-901 | every rule keeps a user sound: on or off, no passwords under nopass, no patterns under allkeys, subcommands only of commands not allowed, unassigned bits equal to the reserved one |
| `AclUser.SetAllOk` | redis-6.0.5/src/acl.c:737-901 | so does every sequence of rules |
| `AclUser.RemoveFirst` | redis-6.0.5/src/acl.c:802-809 | exactly one occurrence is removed |
| `AclDescribe.BitRuleMeans` | redis-6.0.5/src/acl.c:827-835 | a described command rule is accepted and sets exactly that bit |
| `AclDescribe.SubRuleMeans` | redis-6.0.5/src/acl.c:836-876 | a described subcommand rule is accepted and adds exactly that subcommand |
| `AclDescribe.CategoriesMean` | redis-6.0.5/src/acl.c:472-487 | the described categories do to any user what they did to the fake one |
| `AclDescribe.FixesMean` | redis-6.0.5/src/acl.c:489-515 | the last pass settles bit and subcommands of each command |
| `AclDescribe.SettledIsEqual` | redis-6.0.5/src/acl.c:521-533 | the predicted bitmap equals the user's: the panic cannot happen |
| `AclDescribe.CommandRoundTrip` | redis-6.0.5/src/acl.c:443-535 | applied to any user the command rules rebuild bitmap and subcommands, and ALLCOMMANDS is set if and only if every bit is |
| `AclDescribe.AccessRoundTrip` | redis-6.0.5/src/acl.c:543-587 | the other rules rebuild flags, passwords and patterns |
| `AclDescribe.RoundTrip` | redis-6.0.5/src/acl.c:443-587 | for every sound user the described rules are accepted by a fresh user and rebuild it, with the same permissions |
| `AclDescribe.ReachableRoundTrip` | redis-6.0.5/src/acl.c:443-901 | in particular for every user that any sequence of rules can make |
| `AclText.SplitExact` | redis-6.0.5/src/acl.c:1301-1301 | words joined by a separator split into the same words if and only if none contains it |
| `AclText.SavedLine` | redis-6.0.5/src/acl.c:1404-1428 | the line saved for a user whose subcommands are fit holds no newline and is parsed into that user's rules |
| `AclText.RulesClean` | redis-6.0.5/src/acl.c:1301-1336 | a rule read from a line has no space or newline and does not end in other white space |
| `AclStore.Account.constructor` | redis-6.0.5/src/acl.c:236-253 | a new user is off, without passwords, patterns and permissions |
| `AclStore.Account.SetCommandBit` | redis-6.0.5/src/acl.c:376-385 | in place, the specified bit and flag change |
| `AclStore.Account.AddAllowedSubcommand` | redis-6.0.5/src/acl.c:630-657 | in place, appended unless already there in another case |
| `AclStore.Account.SetBitsForCategory` | redis-6.0.5/src/acl.c:393-408 | in place: every command of the category that comes from no module gets the value and loses its subcommands, all others keep theirs |
| `AclStore.Account.SetCommands` | redis-6.0.5/src/acl.c:754-890 | in place, exactly the specified rules about commands, with their errors |
| `AclStore.Account.SetFlags` | redis-6.0.5/src/acl.c:740-826 | in place, exactly the specified other rules, with their errors |
| `AclStore.Account.SetRule` | redis-6.0.5/src/acl.c:737-901 | an accepted rule takes effect as specified, a refused one changes nothing |
| `AclStore.Account.SetRules` | redis-6.0.5/src/acl.c:1660-1670 | rules one after the other: all of them, or exactly those before the first refused one, whose error is reported |
| `AclStore.Account.CopyFrom` | redis-6.0.5/src/acl.c:309-330 | afterwards both users have the same rules |
| `AclStore.Account.CountCategory` | redis-6.0.5/src/acl.c:414-434 | counts the allowed and the denied commands of a category |
| `AclStore.Account.DescribeCategories` | redis-6.0.5/src/acl.c:462-487 | prints base rule and categories and leaves the fake user where they lead |
| `AclStore.Account.DescribeCommand` | redis-6.0.5/src/acl.c:492-515 | prints the rules that settle one command and settles its bit in the fake user |
| `AclStore.Account.DescribeCommandRules` | redis-6.0.5/src/acl.c:443-535 | prints exactly the specified rules; the final comparison of bitmaps always succeeds |
| `AclStore.Account.Describe` | redis-6.0.5/src/acl.c:543-587 | prints exactly the specified rules |
| `AclFile.NewDefault` | redis-6.0.5/src/acl.c:931-937 | the default user is made by its four rules |
| `AclFile.LoadLines` | redis-6.0.5/src/acl.c:1289-1373 | stages exactly the users of the lines, or reports that some line failed |
| `AclFile.LoadOne` | redis-6.0.5/src/acl.c:1295-1372 | a line is applied only if it is well formed, all its rules are accepted and no earlier line failed |
| `AclFile.Restart` | redis-6.0.5/src/acl.c:1358-1370 | the user, created or reset, ends as the rules from the reset state say; re-applying them cannot fail |
| `AclFile.Users.constructor` | redis-6.0.5/src/acl.c:940-946 | there is a default user from the start |
| `AclFile.Users.SetUserCommand` | redis-6.0.5/src/acl.c:1643-1677 | all modifiers are applied or none, to the same object if the user exists; the error is that of the first refused one, or of a name with white space |
| `AclFile.Users.Commit` | redis-6.0.5/src/acl.c:1672-1676 | only the named user changes |
| `AclFile.Users.LoadFromFile` | redis-6.0.5/src/acl.c:1253-1399 | the load of a file text succeeds if and only if no line is malformed or has a rule that a new user refuses; then each user is the result of its last line, the only other one is the initial default user, all objects are new except the default user's, which keeps its identity; on an error every user is as before |
| `AclFile.Users.Adopt` | redis-6.0.5/src/acl.c:1377-1392 | the staged users take over, the default user by copying |
| `AclFile.Users.SaveToFile` | redis-6.0.5/src/acl.c:1404-1428 | the text holds the line of every user once |
| `AclFile.CreateOrReset` | redis-6.0.5/src/acl.c:1358-1363 | the user named is as new, all others are as before |
| `AclBook.InitialDefaultIs` | redis-6.0.5/src/acl.c:931-937 | what the initial rules of the default user amount to |
| `AclBook.LoadAllExact` | redis-6.0.5/src/acl.c:1289-1373 | a load fails if and only if a line is malformed or has a rule that a new user refuses; otherwise each user named is what the rules of its last line make of a new one, and all others are as before |
| `AclBook.RuleCarries` | redis-6.0.5/src/acl.c:836-876 | a rule without spaces and newlines that ends in no white space adds only subcommands a file can carry |
| `AclBook.LoadedCarried` | redis-6.0.5/src/acl.c:1253-1399 | whatever file is loaded, every allowed subcommand can be saved again |
| `AclBook.SavedLines` | redis-6.0.5/src/acl.c:1404-1428 | a saved text splits into the lines of its users |
| `AclBook.SavedLoads` | redis-6.0.5/src/acl.c:1404-1428 | loading a saved text gives back every user with the same permissions |
| `AclBook.SavedFileExact` | redis-6.0.5/src/acl.c:1404-1428 | loading the text saved for any users gives the same users back if and only if no allowed subcommand holds a space or a newline or ends in other white space |
| `AclBook.SpaceInSubcommand` | redis-6.0.5/src/acl.c:836-876 | a rule with a space in its subcommand is accepted, and the saved file does not give the user back |
| `AclBook.NewlineInSubcommand` | redis-6.0.5/src/acl.c:836-876 | a rule with a newline in its subcommand is accepted, and the saved file is refused |
| `AdList.List.AddNodeTail` | redis-6.0.5/src/adlist.c:114-132 | the node is new and last; all others keep place and identity |
| `AdList.List.AddNodeHead` | redis-6.0.5/src/adlist.c:88-106 | the node is new and first; all others keep place and identity |
| `AdList.List.DelNode` | redis-6.0.5/src/adlist.c:167-180 | exactly the node at that address is removed |
| `AdList.List.RotateHeadToTail` | redis-6.0.5/src/adlist.c:345-357 | the first node becomes the last, the same node |
| `AdList.List.RotateTailToHead` | redis-6.0.5/src/adlist.c:330-342 | the last node becomes the first, the same node |
| `AdList.List.Join` | redis-6.0.5/src/adlist.c:361-376 | the nodes of the other list follow, and it is left empty and valid |
| `AdList.List.Values` | redis-6.0.5/src/adlist.c:229-240 | the iteration visits every node once, in order |
| `Blocked.BlockOk` | redis-6.0.5/src/blocked.c:556-597 | blocking keeps the index: each client is in the list of each of its keys once and in no other, no list is empty, flags and counter agree |
| `Blocked.UnblockOk` | redis-6.0.5/src/blocked.c:146-167 | unblocking keeps the index and the counter drops by one |
| `Blocked.TakeUnblockedOk` | redis-6.0.5/src/blocked.c:96-105 | taking a client off the queue clears its flag, leaves the other clients and their places alone and keeps queue and flags in agreement |
| `Blocked.SignalOk` | redis-6.0.5/src/blocked.c:644-665 | the set of ready keys stays exactly the set of queued ones, without duplicates |
| `Blocked.HeadLeaves` | redis-6.0.5/src/blocked.c:601-620 | unblocking the first client of a key leaves the others in their order, or no list at all |
| `Blocked.RotateOk` | redis-6.0.5/src/blocked.c:226-231 | rotating a list keeps the index |
| `Blocked.ServeTurn` | redis-6.0.5/src/blocked.c:222-260 | serving a client keeps everything, unblocks one, and the list is never empty or gone at the next turn |
| `Blocked.ServeLoopOk` | redis-6.0.5/src/blocked.c:217-261 | the loop over the clients keeps the index and either unblocks a client or leaves the ready keys alone |
| `Blocked.HandleKeyOk` | redis-6.0.5/src/blocked.c:486-524 | handling a key keeps the index and either unblocks a client or leaves the ready keys alone |
| `Blocked.HandleAllOk` | redis-6.0.5/src/blocked.c:474-527 | the handling of ready keys always ends, cyclic BRPOPLPUSH included, with no ready key left and the index intact; whom it serves is in HandleKeyShares and NoLostWakeUp |
| `Blocked.DeliverConserves` | redis-6.0.5/src/t_list.c:628-676 | an element is handed out, pushed to the target or put back, never lost or doubled |
| `Blocked.HandleAllConserves` | redis-6.0.5/src/blocked.c:474-527 | over the whole handling the elements in all lists and those handed out stay the same |
| `BlockedLists.PushTail` | redis-6.0.5/src/adlist.c:114-132 | in a table of lists, one list gets a new last node and all other lists stay intact |
| `BlockedLists.DeleteNode` | redis-6.0.5/src/adlist.c:167-180 | in a table of lists, one list loses exactly the node given and all other lists stay intact |
| `BlockedLists.RotateList` | redis-6.0.5/src/adlist.c:345-357 | in a table of lists, the first node of one list becomes its last and all other lists stay intact |
| `BlockedLists.OneNodeEach` | redis-6.0.5/src/blocked.c:589-590 | when each node of a list is the one stored for its client, no client is in the list twice |
| `BlockedLists.WaitLists.Append` | redis-6.0.5/src/blocked.c:577-594 | the client is last in the list of the key, created if need be, and has stored its node; the lists share no node, and each stored node is in the list of its key with that client as value |
| `BlockedLists.WaitLists.Remove` | redis-6.0.5/src/blocked.c:611-622 | deleting the node the client has stored takes exactly this client out of the list, and the key out of the table if it was the last; no object is allocated |
| `BlockedLists.WaitLists.RotateClients` | redis-6.0.5/src/blocked.c:226-231 | the first client becomes the last, and every client's stored node is still its own |
| `BlockedLists.WaitLists.Find` | redis-6.0.5/src/blocked.c:613-619 | the stored node is in the list of the key and holds the client |
| `BlockedServer.Server.BlockForKeys` | redis-6.0.5/src/blocked.c:556-597 | in place, exactly the specified blocking |
| `BlockedServer.Server.constructor` | redis-6.0.5/src/blocked.c:556-597 | a server without clients meets the invariant of index, ready keys and counters |
| `BlockedServer.Server.UnblockWaitingData` | redis-6.0.5/src/blocked.c:601-625 | in place, each node the client has stored is deleted from the list of its key, found without a search; the client is in no list afterwards, the others keep their order, and lists left empty are gone |
| `BlockedServer.Server.UnblockClient` | redis-6.0.5/src/blocked.c:146-167 | in place, exactly the specified unblocking |
| `BlockedServer.Server.ServeClient` | redis-6.0.5/src/t_list.c:628-676 | in place, exactly the specified delivery with its undo |
| `BlockedServer.Server.ServeClients` | redis-6.0.5/src/blocked.c:222-260 | the loop with rotation, service and break is the specified one |
| `BlockedServer.Server.ServeListKey` | redis-6.0.5/src/blocked.c:214-269 | serves the key and removes it when emptied |
| `BlockedServer.Server.HandleClientsBlockedOnKeys` | redis-6.0.5/src/blocked.c:474-527 | the nested loops end and leave no ready key, and no client that waits for a list which has elements |
| `Bitfield.GetAfterSet` | redis-6.0.5/src/bitops.c:209-241 | what is read after a set is the value modulo 2^bits |
| `Bitfield.FieldAfterSet` | redis-6.0.5/src/bitops.c:209-263 | a value of the type comes back as stored, signed or not |
| `Bitfield.GetUnsigned` | redis-6.0.5/src/bitops.c:229-241 | reads the number in the bits |
| `Bitfield.SetUnsigned` | redis-6.0.5/src/bitops.c:209-222 | writes the digits of the value in place and no other bit |
| `Bitfield.UnsignedExact` | redis-6.0.5/src/bitops.c:288-323 | overflow is reported if and only if the sum does not fit, with the clamp or the residue to store |
| `Bitfield.SignedExact` | redis-6.0.5/src/bitops.c:325-375 | the same for signed fields and an increment of a value of the type, the distances to the limits being computed in 64 bits |
| `Bitfield.SetSignedExact` | redis-6.0.5/src/bitops.c:325-375 | for a value of 64 bits the check reports the clamp or residue of the value itself if and only if the policy is not SAT or the value is not below 2^(bits-1) - 2^63 |
| `Bitfield.TooLowOverflows` | redis-6.0.5/src/bitops.c:325-375 | below that, the distance to the upper limit wraps around and the check reports an overflow upwards |
| `Bitfield.LowestSaturatesHigh` | redis-6.0.5/src/bitops.c:325-375 | SET i8 under SAT with the least 64 bit number stores 127, not -128 |
| `Bitfield.SetOutcomeIs` | redis-6.0.5/src/bitops.c:1040-1100 | what SET stores for each type and policy, and exactly when it is what was asked for |
| `Bitfield.WrappedIs` | redis-6.0.5/src/bitops.c:357-375 | the residue is in range and congruent modulo 2^bits |
| `Bitfield.GetField` | redis-6.0.5/src/bitops.c:243-263 | reads the field as its type says, except that a negative field of 64 bits comes out as whatever the undefined shift gives |
| `Bitfield.ReadExact` | redis-6.0.5/src/bitops.c:243-263 | a field is read right whatever that is if and only if it is not a negative one of 64 bits |
| `Bitfield.ShiftedByNothing` | redis-6.0.5/src/bitops.c:258-261 | where a shift by 64 is a shift by 0, a field of 64 bits that holds -5 reads as -1 |
| `Bitfield.IncrExact` | redis-6.0.5/src/bitops.c:1040-1061 | INCRBY is right whatever the undefined shifts give if and only if the width is below 64, or the field is not negative and nothing wraps |
| `Bitfield.Signed64Exact` | redis-6.0.5/src/bitops.c:325-375 | in 64 bits overflow is reported if and only if the sum does not fit, with the right clamp |
| `Bitfield.IncrBy` | redis-6.0.5/src/bitops.c:1040-1100 | stores the sum if it fits, else clamp or residue, or nothing under FAIL, for every width up to 64, unless an undefined shift is met; all other bits stay; the reply is what the field then holds |
| `Bitfield.SetField` | redis-6.0.5/src/bitops.c:1040-1100 | SET stores the value of the type or its clamp or residue, or nothing under FAIL, no other bit changes, and the reply is the old value as it is read; what is stored is the value asked for if and only if the policy is not SAT, the field is unsigned, or the value is not below 2^(bits-1) - 2^63 |
| `Bitfield.GetCommand` | redis-6.0.5/src/bitops.c:1101-1134 | the nine byte window reads what the zero padded string holds, for every width up to 64 |
| `BitCount.SwarIs` | redis-6.0.5/src/bitops.c:66-80 | the masked sums of a 32 bit word leave in each byte the number of its bits |
| `BitCount.TopByte` | redis-6.0.5/src/bitops.c:80-86 | the multiplication leaves the sum of the four bytes of the word in the top byte when none is above 56 |
| `BitCount.PairsAre` | redis-6.0.5/src/bitops.c:66-66 | subtracting half the masked bits of a word leaves in every two bits their sum |
| `BitCount.NibblesPack` | redis-6.0.5/src/bitops.c:67-67 | the second masked sum works on each byte of a word by itself |
| `BitCount.OctetsPack` | redis-6.0.5/src/bitops.c:80-80 | so does the third when no four bits exceed four |
| `BitCount.CountIs` | redis-6.0.5/src/bitops.c:66-80 | what the three sums leave of a byte is the number of its bits |
| `BitCount.Columns` | redis-6.0.5/src/bitops.c:80-86 | the sum of up to seven words holds in each byte the bits of one column, without carry |
| `BitCount.CountBlock` | redis-6.0.5/src/bitops.c:57-86 | twenty-eight bytes are counted exactly |
| `BitCount.Popcount` | redis-6.0.5/src/bitops.c:40-92 | for every string and alignment the result is the number of bits set |
| `BitScan.SkipWords` | redis-6.0.5/src/bitops.c:118-142 | skips only bytes and words that cannot hold the bit, and stops where one may |
| `BitScan.LoadWord` | redis-6.0.5/src/bitops.c:144-159 | the last bytes, zero padded, first byte on top |
| `BitScan.Bitpos` | redis-6.0.5/src/bitops.c:101-186 | the first such bit of the zero padded string, or -1 exactly when ones are sought and there are none; the scan of the last word always finds its bit |
| `BitOp.FastPath` | redis-6.0.5/src/bitops.c:662-728 | the blocks of four 64 bit words compute the bytewise operation up to less than 32 bytes before the end of the shortest source |
| `BitOp.PartApply` | redis-6.0.5/src/bitops.c:678-717 | AND, OR and XOR of two 64 bit words work on each of their bytes by itself |
| `BitOp.PartFlip` | redis-6.0.5/src/bitops.c:717-727 | so does the complement |
| `BitOp.WordOp` | redis-6.0.5/src/bitops.c:680-686 | loading two words, combining and storing them is the operation on their eight bytes, all others untouched |
| `BitOp.WordNot` | redis-6.0.5/src/bitops.c:718-722 | the same for the complement |
| `BitOp.Bitop` | redis-6.0.5/src/bitops.c:656-745 | for sources of any lengths the result is the zero padded bytewise operation on the longest length |
| `AclUser.Bar` | redis-6.0.5/src/acl.c:837-841 | the first bar of a rule, or its end if there is none |
| `AclDescribe.LookupFinds` | redis-6.0.5/src/acl.c:592-598 | every command is found under its own name |
| `AclDescribe.SubRulesMean` | redis-6.0.5/src/acl.c:503-514 | the subcommand rules of one command are accepted and add exactly those, in order |
| `AclDescribe.FixMeans` | redis-6.0.5/src/acl.c:492-515 | the rules printed for one command settle its bit and subcommands and nothing else |
| `AclDescribe.CategoryRuleMeans` | redis-6.0.5/src/acl.c:885-890 | a category rule is accepted and sets exactly that category |
| `AclDescribe.GuessCoarse` | redis-6.0.5/src/acl.c:462-487 | what the categories lead to differs from the base only in commands of the table, and allows no subcommand |
| `AclText.WordsParse` | redis-6.0.5/src/acl.c:1295-1348 | a line of words without blanks is parsed into the user name and those words |
| `AclText.RulesWords` | redis-6.0.5/src/acl.c:543-587 | if no subcommand is unfit, every described rule is a word |
| `AclText.WordsCarried` | redis-6.0.5/src/acl.c:543-587 | if every described rule is a word, no subcommand is unfit |
| `AclStore.Account.AllowSubcommand` | redis-6.0.5/src/acl.c:836-876 | in place, the specified effect or error of a rule with a bar |
| `AclStore.Account.CopySubs` | redis-6.0.5/src/acl.c:320-328 | one command's subcommands are copied |
| `AclStore.Account.DescribeSubs` | redis-6.0.5/src/acl.c:503-514 | prints the rules of one command's subcommands |
| `AclStore.Account.DescribeList` | redis-6.0.5/src/acl.c:558-580 | prints passwords or patterns with their mark |
| `AclFile.NewStage` | redis-6.0.5/src/acl.c:1281-1287 | loading starts from nothing but a new default user |
| `AclFile.TryRules` | redis-6.0.5/src/acl.c:1333-1348 | the trial run fails exactly if the rules fail on a reset user |
| `AclFile.TryOn` | redis-6.0.5/src/acl.c:1660-1670 | the trial run on a copy succeeds exactly if all modifiers are accepted |
| `AclFile.Users.AddUser` | redis-6.0.5/src/acl.c:1673-1674 | a new user under a new name, all others the same objects |
| `AclFile.Users.Stage` | redis-6.0.5/src/acl.c:1656-1658 | the copy starts as the user is, or fresh |
| `AclFile.Users.Overwrite` | redis-6.0.5/src/acl.c:1672-1676 | the named user becomes the copy, in the same object |
| `AdList.List.constructor` | redis-6.0.5/src/adlist.c:41-53 | a new list is empty |
| `Blocked.ServeOneOk` | redis-6.0.5/src/blocked.c:233-256 | serving the first client keeps the index, unblocks it and leaves the others in order |
| `Blocked.DeliverOk` | redis-6.0.5/src/t_list.c:628-676 | a delivery keeps the index and touches no waiting list |
| `Blocked.ServeKeyOk` | redis-6.0.5/src/blocked.c:214-269 | serving a key keeps the index and either unblocks somebody or leaves the ready keys alone |
| `Blocked.ServeKeyConserves` | redis-6.0.5/src/blocked.c:214-269 | serving a key loses and doubles no element |
| `BlockedServer.Server.ServeFirst` | redis-6.0.5/src/blocked.c:233-256 | in place, exactly the specified service of the first client |
| `BlockedServer.Server.HandleReady` | redis-6.0.5/src/blocked.c:486-524 | in place, exactly the specified handling of one ready key, and it makes progress; who gets which element is in HandleKeyShares |
| `Bitfield.Store` | redis-6.0.5/src/bitops.c:1061-1069 | the value the overflow check leaves goes to the field, no other bit changes; nothing is stored exactly under FAIL with an overflow |
| `BitScan.ScanWord` | redis-6.0.5/src/bitops.c:168-180 | the first such bit of a word that has one |
| `BitOp.Lengths` | redis-6.0.5/src/bitops.c:627-654 | greatest and least length of the sources |
| `BitOp.Block` | redis-6.0.5/src/bitops.c:677-727 | one block of four words holds the whole operation, the rest is untouched |
| `BitOp.Combine` | redis-6.0.5/src/bitops.c:680-686 | one more source is combined into a block |
| `BitOp.SlowByte` | redis-6.0.5/src/bitops.c:731-744 | one byte of the operation, with zero behind the end of a source |
| `ClusterSlots.Cluster.MoveSlot` | redis-6.0.5/src/cluster.c:1632-1636 | a slot changes hands in table and bitmaps together |
| `ClusterSlots.Cluster.DropReferences` | redis-6.0.5/src/cluster.c:953-961 | no slot and no mark refers to the node any more |
| `AofRebuild.SetItems` | redis-6.0.5/src/aof.c:984-1027 | any iteration of a set yields all its members |
| `AofRebuild.PairItems` | redis-6.0.5/src/aof.c:1031-1150 | any iteration of a hash or sorted set yields pairs that rebuild it |
| `AofRebuild.RewriteValue` | redis-6.0.5/src/aof.c:1347-1369 | what is printed for a value of any type builds it at a fresh key |
| `AofRebuild.RewriteKey` | redis-6.0.5/src/aof.c:1336-1382 | one key more is rebuilt, the keys before stay as they were |
| `AofRewrite.PrintItem` | redis-6.0.5/src/aof.c:950-1150 | one more item: a header announcing the right count exactly at the start of a chunk |
| `AofRewrite.ChunksGrow` | redis-6.0.5/src/aof.c:950-1150 | the items after a full chunk start a new one and leave those before as they are |
| `Crc64.LookUp` | redis-6.0.5/src/crcspeed.c:124-131 | a table entry is its byte run through the right number of steps |
| `Crc64.ByteBits` | redis-6.0.5/src/crc64.c:94-104 | the loop over the mask takes the bits from the least significant one |
| `AofFormat.ParseBulk` | redis-6.0.5/src/aof.c:797-824 | a printed argument is read back |
| `AofFormat.CutBulk` | redis-6.0.5/src/aof.c:797-824 | a printed argument cut short reads as an unexpected end |
| `AofFormat.ParseCommand` | redis-6.0.5/src/aof.c:779-825 | a command read is not empty and what follows it is a proper rest of the input, so loading ends |
| `AofSystem.RecoverPrefix` | redis-6.0.5/src/aof.c:764-920 | loading any prefix of a log restores what its complete commands outside an open transaction did |
| `ClusterCollision.RunCount` | redis-6.0.5/src/cluster.c:1120-1135 | over a run the epochs in use grow by the number of collisions resolved |
| `ClusterCollision.EpochsVersusMasters` | redis-6.0.5/src/cluster.c:1120-1135 | as many epochs as masters if and only if all are distinct |
| `ClusterConvergence.SameTable` | redis-6.0.5/src/cluster.c:1604-1641 | two nodes that settled the same claims have the same table |
| `ClusterAnyTable.HoldsForever` | redis-6.0.5/src/cluster.c:1604-1641 | an owner recorded under an epoch that no other claim on its slot exceeds keeps it whatever PINGs and UPDATEs are heard |
| `ClusterAnyTable.BeatenLoses` | redis-6.0.5/src/cluster.c:1604-1641 | an owner that will be recorded under a smaller epoch than the highest claimant's has lost the slot once that claim is heard |
| `ClusterAnyTable.UnclaimedStays` | redis-6.0.5/src/cluster.c:1604-1641 | a slot nobody claims keeps its owner |
| `ClusterAnyTable.UnbeatenKeeps` | redis-6.0.5/src/cluster.c:1604-1641 | otherwise the owner is no claimant and keeps the slot for good when it is heard first |
| `ClusterAnyTable.ExactConvergence` | redis-6.0.5/src/cluster.c:1604-1641 | from any slot table every order of delivery of PINGs and UPDATEs gives a slot to its highest claimant if and only if its owner at the start is that claimant or will be recorded under a smaller epoch |
| `ClusterAnyTable.OrderDecides` | redis-6.0.5/src/cluster.c:1604-1641 | an owner that no longer claims its slot but has a higher epoch still to be heard keeps it if heard first and loses it if the highest claimant is heard first |
| `ClusterAnyTable.OrderMatters` | redis-6.0.5/src/cluster.c:1604-1641 | three nodes, one slot and two claims for which the two orders end differently |
| `ClusterElection.StepHonest` | redis-6.0.5/src/cluster.c:3122-3215 | each disciplined step keeps the tallies free of votes of other epochs |
| `ClusterElection.StepWins` | redis-6.0.5/src/cluster.c:3200-3215 | each step keeps every win backed by a majority |
| `ClusterEpochs.ReceiveBounded` | redis-6.0.5/src/cluster.c:1763-2152 | receiving any packet from a trusted sender keeps the bound and answers with bounded packets |
| `ClusterNode.UpdateExact` | redis-6.0.5/src/cluster.c:2131-2152 | a slot goes to the reported node exactly if the UPDATE is accepted, names it, the slot is not being imported and is free or held under a smaller epoch; every other slot keeps its owner |
| `ClusterNode.UpdateRecords` | redis-6.0.5/src/cluster.c:2131-2152 | an accepted UPDATE records the reported epoch and ends the replica role of the reported node; a refused one does nothing but note the epochs of the header; nobody else's epoch changes |
| `ClusterNode.UpdateAboutMe` | redis-6.0.5/src/cluster.c:2131-2152 | an UPDATE about the receiver itself moves no slot |
| `ClusterNode.FailoverExact` | redis-6.0.5/src/cluster.c:3050-3219 | over role, master, its failed flag, manual failover, slots, data age, clock, request flag, tally and size: exactly when an election is scheduled, votes are asked for or the election is won, and the node after each outcome |
| `ClusterPing.PingOwners` | redis-6.0.5/src/cluster.c:1944-2057 | a slot changes hands exactly if a master claims it under an epoch above its owner's, and is released exactly if its owner turned replica |
| `ClusterPing.PingEpochs` | redis-6.0.5/src/cluster.c:1763-2057 | the receiver's own epochs move exactly in a collision with a greater name, by one beyond currentEpoch; the sender's recorded epoch becomes what it announces if that is greater; no other epoch changes |
| `ClusterPing.PingRoles` | redis-6.0.5/src/cluster.c:1944-2004 | the sender has the role and master it announces; the receiver becomes its replica exactly if its master, or it as a master, lost all slots to it; no other role changes |
| `ClusterPing.PingReply` | redis-6.0.5/src/cluster.c:2006-2048 | an UPDATE goes back exactly if some claimed slot has an owner under a newer epoch, and it reports the owner of the first such slot with its epoch and slots |
| `ClusterPing.CollisionIs` | redis-6.0.5/src/cluster.c:2050-2057 | a collision is handled exactly for two masters with equal epochs whose receiver has the smaller name, seen on the state before the packet |
| `ClusterPing.HeaderExact` | redis-6.0.5/src/cluster.c:2348-2397 | a master advertises exactly its own slots and epoch, a replica exactly those of its master |
| `ClusterFailover.FailoverSucceeds` | redis-6.0.5/src/cluster.c:3050-3219 | from any reachable state in which the master has failed, no manual failover runs and a majority is willing to vote, the run can be continued by scheduling, asking, voting and counting until the replica has won and owns all slots of its master under a new epoch |
| `ClusterFailover.Poll` | redis-6.0.5/src/cluster.c:2810-2911 | all willing voters can be asked one after the other, and each adds one to the tally |
| `ClusterFailover.AutomaticFailover` | redis-6.0.5/src/cluster.c:3050-3219 | a whole run from the start of a cluster: the master is marked as failed, its replica wins epoch 1 without any manual failover and owns the slot |
| `ClusterConvergence.HearUpdate` | redis-6.0.5/src/cluster.c:2131-2152 | a truthful UPDATE in between leaves settled what is settled |
| `ClusterConvergence.ListenOne` | redis-6.0.5/src/cluster.c:1944-2152 | one more packet, PING or UPDATE, keeps what was settled, and a PING settles its sender's claim |
| `ClusterAnyTable.HearTuned` | redis-6.0.5/src/cluster.c:1944-2152 | a PING applies the claim of its sender, an accepted UPDATE the one it reports: the slot moves exactly if that claim names it and the owner is recorded under a smaller epoch |
| `ClusterAnyTable.KeepingOrder` | redis-6.0.5/src/cluster.c:1944-2152 | an order of PINGs in which an owner that will not be recorded under a smaller epoch keeps its slot |
| `AclRules.CategoryExact` | redis-6.0.5/src/acl.c:393-410 | after setting a category: every command of it that comes from no module has the value and no subcommands, every other bit and subcommand is as before |
| `AclRules.CategoryRuleRuns` | redis-6.0.5/src/acl.c:885-890 | +@category and -@category change exactly which commands of the category may run, and an unknown category is refused |
| `AclRules.AllCommandsRule` | redis-6.0.5/src/acl.c:754-759 | allcommands and +@all let every command run, and change nothing else |
| `AclRules.NoCommandsRule` | redis-6.0.5/src/acl.c:760-764 | nocommands and -@all let nothing but AUTH run, and change nothing else |
| `AclRules.CommandRule` | redis-6.0.5/src/acl.c:827-884 | +command and -command change whether that command may run and no other |
| `AclRules.SubcommandRule` | redis-6.0.5/src/acl.c:836-876 | +command|sub lets exactly the calls with that subcommand run in addition, and is refused for an unknown command, an empty subcommand or a command already allowed |
| `AclRules.AddPasswordRule` | redis-6.0.5/src/acl.c:772-790 | after > or # exactly the old passwords and the new one log in, and a malformed hash is refused |
| `AclRules.DropPasswordRule` | redis-6.0.5/src/acl.c:791-809 | after < or ! exactly the other passwords log in; an unknown password and a malformed hash are refused |
| `AclRules.LoginRules` | redis-6.0.5/src/acl.c:740-771 | who can log in after on, off, nopass and resetpass; commands and keys stay |
| `AclRules.KeyRules` | redis-6.0.5/src/acl.c:748-753 | after allkeys every key may be touched, after resetkeys none; commands and logins stay |
| `AclRules.PatternRule` | redis-6.0.5/src/acl.c:810-826 | a pattern adds exactly the keys it matches; it is refused with a space in it, and when all keys are allowed already |
| `AclRules.ResetRule` | redis-6.0.5/src/acl.c:891-897 | after reset nobody logs in, no key may be touched and nothing but AUTH may run |
| `AclStore.Account.CheckUserCredentials` | redis-6.0.5/src/acl.c:954-988 | a login succeeds if and only if the user is on and needs no password or has this one |
| `AclStore.Account.CheckCommandPerm` | redis-6.0.5/src/acl.c:1060-1131 | a command is allowed if and only if its bit, flag or subcommand says so and every key matches a pattern; otherwise the first key that matches none is reported |
| `BlockedFair.ServeOneExact` | redis-6.0.5/src/t_list.c:628-676 | the first client gets the first element for LPOP and the last for RPOP; the rest stays in the list, a push goes to the head of its target, and with a target of the wrong type everything stays |
| `BlockedFair.ServeOneLeaves` | redis-6.0.5/src/blocked.c:233-256 | the client served is blocked no longer and waits in no list; all other clients are untouched |
| `BlockedFair.Fifo` | redis-6.0.5/src/blocked.c:217-261 | the clients at the front of the list, as many as there are elements, get them in blocking order, each from its own end of what the ones before have left; the others keep their places |
| `BlockedFair.HandleKeyShares` | redis-6.0.5/src/blocked.c:486-524 | handling a ready list key serves exactly those clients with those elements, and the key is gone exactly if nothing is left |
| `BlockedWakeup.ServeLoopWakes` | redis-6.0.5/src/blocked.c:217-261 | after the loop nobody waits for this list if it has elements, and every other list somebody waits for is still announced |
| `BlockedWakeup.HandleKeyAlert` | redis-6.0.5/src/blocked.c:486-524 | handling one key keeps every list with elements and a waiting client among the ready ones |
| `BlockedWakeup.NoLostWakeUp` | redis-6.0.5/src/blocked.c:474-527 | if every list with elements that somebody waits for is ready at the start, then at the end no client waits for a list that has elements |
| `BlockedRuns.FirstKey` | redis-6.0.5/src/t_list.c:686-717 | BLPOP and BRPOP use the first key that is not empty, and block if and only if all are |
| `BlockedRuns.StepAlert` | redis-6.0.5/src/t_list.c:628-765 | every step but one keeps every list somebody waits for among the ready ones: blocking pops, pushes, new keys, disconnecting, serving |
| `BlockedRuns.SetKeyExact` | redis-6.0.5/src/db.c:214-256 | storing a value under a key keeps that if and only if it does not put a list over a value of another type that somebody waits behind |
| `BlockedRuns.NobodySleeps` | redis-6.0.5/src/blocked.c:474-527 | in every run without such a store, after each handling of ready keys no client waits for a list that has elements |
| `BlockedRuns.SilentSleeps` | redis-6.0.5/src/db.c:214-256 | BLPOP k, SET k, SORT STORE k: the client waits on although the list has an element and no key is ready |
| `BlockedServer.Server.BlockingPopCommand` | redis-6.0.5/src/t_list.c:679-733 | in place, BLPOP and BRPOP: the first key with elements is popped, a wrong type is refused, otherwise the client blocks on all keys |
| `BlockedServer.Server.PopAtOnce` | redis-6.0.5/src/t_list.c:690-714 | in place, the specified pop with its push and the removal of an emptied key |
| `Crc64.CheckValue` | redis-6.0.5/src/crc64.c:134-137 | of 123456789 both forms give e9c6d914c4b8d9ca, the value of the source's own test |
| `AofFeed.TimedCommands` | redis-6.0.5/src/aof.c:554-583 | EXPIRE, PEXPIRE, EXPIREAT, SETEX, PSETEX and SET with n: at which time the key expires, and the PEXPIREAT with that time that is written |
| `ClusterAdmin.ForgetExact` | redis-6.0.5/src/cluster.c:948-975 | deleting a peer: no slot is its own any more, its replicas have no master, every other slot, entry and epoch stays; a node does not forget itself |
| `ClusterAdmin.EndHandshakeExact` | redis-6.0.5/src/cluster.c:1861-1881 | a handshake ends by renaming the peer wherever it is referred to, or by deleting it if that name is known already; a peer not in handshake stays as it is |
| `ClusterAdmin.LearnExact` | redis-6.0.5/src/cluster.c:1366-1374 | a node heard of is recorded with epoch 0 and without slots; a known one stays as it is |
| `ClusterAdmin.SetConfigEpochExact` | redis-6.0.5/src/cluster.c:4788-4823 | SET-CONFIG-EPOCH succeeds exactly at a node that knows nobody else and has epoch 0, and raises currentEpoch if it has to |
| `ClusterAdmin.ReplicateExact` | redis-6.0.5/src/cluster.c:4661-4696 | REPLICATE makes this node a replica exactly if the master is known, another node and no replica, and this node has no slots and, as a master, no keys |
| `AclPrinted.CategoryPrinted` | redis-6.0.5/src/acl.c:472-487 | a category is printed exactly if more of its commands, modules' included, differ from the base rule than agree with it |
| `AclPrinted.CommandPrinted` | redis-6.0.5/src/acl.c:489-502 | a command rule is printed exactly if base rule and printed categories do not give the command its bit |
| `AclPrinted.CountIs` | redis-6.0.5/src/acl.c:414-434 | the counts are the numbers of allowed and denied commands of the category |
| `ClusterNode.GrantExact` | redis-6.0.5/src/cluster.c:2810-2911 | told by the state before the request: a vote is granted exactly to a replica of a failed master, or one that forces it, by a master with slots, in an epoch not voted in yet and not behind, two timeouts after the last vote about that master, with no claimed slot under a newer epoch |
| `AofOptions.OptionsExact` | redis-6.0.5/src/t_string.c:97-141 | SET accepts its arguments exactly if they spell options of which NX excludes XX, and KEEPTTL, EX and PX exclude each other, in any order and case and with repetitions; then the flags are those that occur and the expire time is the last one given |
| `AofOptions.ReadOptions` | redis-6.0.5/src/t_string.c:97-141 | the loop in place: the flags read, or a syntax error exactly if there are none |
| `BlockedRuns.PopNowExact` | redis-6.0.5/src/t_list.c:690-714 | the first or last element is handed out or put at the head of the target, the key is gone exactly if nothing is left, no other key changes, and with a target of the wrong type nothing happens |
| `BlockedRuns.StepExact` | redis-6.0.5/src/db.c:179-262 | a push, a pop, an overwriting store and a removal change their own key only, an emptied list is gone, and clients are told only if the key was not there before |
| `BitOpBits.ResultBits` | redis-6.0.5/src/bitops.c:656-745 | a bit of the result is set exactly if all sources have it, some, an odd number of them, or, for NOT, the one source has it not; a source has no bits behind its end |
| `Bitfield.DirectionExact` | redis-6.0.5/src/bitops.c:288-375 | the check reports 1 for a sum above the type, -1 for one below it unless it wraps, and 0 for a sum that fits |
| `BitfieldType.TypeExact` | redis-6.0.5/src/bitops.c:447-471 | exactly i1 to i64 and u1 to u63 are accepted as types |
| `BitfieldType.NumberExact` | redis-6.0.5/src/bitops.c:461-465 | exactly what is printed for a number is read as that number |
| `AclText.LineExact` | redis-6.0.5/src/acl.c:1295-1330 | a line of words names a user exactly if there are at least two, the first is user and the second has no white space in it; every other line is malformed |
| `AofServer.DeliversAll` | redis-6.0.5/src/aof.c:95-122 | all pending bytes reach the child if every write takes some |
| `ClusterAdmin.BumpExact` | redis-6.0.5/src/cluster.c:1055-1072 | BUMPEPOCH takes a new epoch exactly if the own one is zero or not the greatest known |
| `ClusterAdmin.PingAnswers` | redis-6.0.5/src/cluster.c:1811-1857 | a PING is answered by a PONG to its sender whose currentEpoch is not behind the sender's, and by nothing but an UPDATE besides |
| `ClusterAdmin.UpdateAnswered` | redis-6.0.5/src/cluster.c:2006-2048 | that UPDATE is sent exactly if some claimed slot has an owner under a newer epoch |
| `ClusterAdmin.UpdateApplied` | redis-6.0.5/src/cluster.c:2131-2152 | an UPDATE received moves exactly the slots it may, and is not answered |
| `BlockedRuns.PopExact` | redis-6.0.5/src/t_list.c:679-733 | BLPOP and BRPOP pop one element from the first key that holds something, are refused if it is no list, or block on exactly the keys named |
| `BlockedRuns.MoveExact` | redis-6.0.5/src/t_list.c:743-765 | BRPOPLPUSH moves one element, is refused for a key or target of the wrong type, or blocks on the one key with its target |
| `BlockedRuns.TimeOutExact` | redis-6.0.5/src/blocked.c:146-167 | a client whose time is over waits in no list, and no key and no element changes |
| `AclText.TrimExact` | redis-6.0.5/src/acl.c:1295-1295 | trimming takes off exactly the characters of the set at both ends |

## Left out

- Cluster: gossip sections, failure reports, PUBLISH, MODULE, replica migration, RESET, FAILOVER TAKEOVER and the configuration file; they add packets and fields that the proved properties do not read.
- Cluster: deleting the keys of lost slots, and the module flag that switches redirection off.
- Cluster: time, random delays and ranks are inputs of the steps; a node's address is not modelled, and the random name of a node in handshake is taken to be one that no node bears.
- ClusterNode.NextConfigEpoch: epochs are unbounded, wrap-around at 2^64 is not modelled.
- ClusterSlots.Member.SetSlotBit: does not set the flag that lets replicas migrate to a master with its first slot.
- ClusterSlots.Cluster.SetMaster: requires that this node has no slots, which the source asserts.
- ClusterNode.UpdateSlotsConfigWith: leaves a node without a master as it is where the source would follow a null pointer; ClusterSlots.Cluster.UpdateSlotsConfigWith says when that is.
- ClusterSlots.Cluster.UpdateSlotsConfigWith: requires the master of this node, if it has one, to be a known node; deleting a node clears such references, as DelNode proves.
- ClusterElection.ElectionSafety: rests on the agreed electorate, the empty tally and single delivery named above.
- ClusterElection.CleanStartExact: is about the step that asks for votes; that an empty tally at each of them is sufficient over whole runs is ElectionSafety, that it cannot be dropped is LateAckBreaksSafety.
- AOF: streams and modules are not rewritten.
- AOF: scores are kept as the text that is printed; formatting of floating point numbers is not modelled.
- AOF: fsync and its delay, except for postponing the write; read errors that are not a short file; NUL bytes in command names.
- AOF: WATCH and DISCARD; commands without special treatment are one arbitrary deterministic function of the dataset.
- Decimal.AtoiRender: numbers are unbounded, overflow of the C conversion is not modelled.
- AofServer.Server.BufferAppend: allocating a block and filling it is one step.
- AofSystem.Durability: rests on fstat succeeding at the end of a rewrite and, if the clock moves between a command and its feed, on commands without special treatment not depending on the exact expire times.
- AofLoader.LoadAppendOnlyFile: an RDB preamble is recognised and not loaded.
- AofRestart.RestartExact: fstat is taken to succeed at the start of the server.
- ACL: DELUSER, GENPASS, LOG, WHOAMI, and disconnecting the clients of deleted users.
- AclStore.Account.CheckCommandPerm: the keys of a command and the matching of a pattern are inputs, and a connection without a user is not modelled.
- ACL: SHA-256 is an arbitrary function with 64 hexadecimal digits as result; bits are numbered, not split into words; rules hold no NUL byte.
- BlockedRuns.NobodySleeps: expired keys and MULTI, in which a blocking command does not block, are not modelled; SWAPDB, which announces the lists of both databases, is not either.
- Blocked: sorted sets, streams and modules as blocking types, the timeout table, propagation to replicas and keyspace events; a key stands for database and name.
- AdList: insertion next to a node, duplication, search and indexing, which no modelled operation uses.
- Bitfield: several operations in one BITFIELD command, and growing the string for them.
- Bitfield.IncrBy: what C leaves undefined in 64 bits is a parameter; the same holds for GetField, GetCommand and SetField.
- Bitfield.SetSignedExact: the difference of signed numbers that C leaves undefined on overflow is taken to wrap around.
- BitCount.Popcount: the byte table is a function.
- BitScan.Bitpos: the variant for machines that need aligned access is left out, and so it is in BITOP.
- BitOp.Bitop: an unsigned long has eight bytes.
- Crc64.CrcSpeed: the big-endian and the 16-bit variants are left out.
- The rest of the server: event loop, replication, clients, scripting, sentinel, storage formats.
