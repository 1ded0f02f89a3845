# yfs in Dafny

A model of the protocols of yfs, the file server of the MIT 6.824 labs, with proofs of
what they guarantee over whole runs.

- **Paxos** (`Views`, `Quorum`, `Proposals`, `Acceptor`, `AcceptorHistory`, `Proposer`, `PaxosSystem`, `PaxosSafety`,
  `PaxosSteps`, `PaxosTheorems`, `PaxosRuns`, `PaxosBreaks`, `PaxosLog`, `TextStream`): handlers and runs as
  imperative classes, specified by functions; a step system in which any number of proposers, of any
  instances, interleave over a network that loses, repeats and reorders messages, and acceptors restart
  from their logs or take over a log that another node dumped at any earlier time. Agreement is proved by one invariant over every orderly run.
- **At-most-once RPC** (`RpcClient`, `RpcServer`, `RpcWindow`, `RpcSystem`, `RpcExact`, `RpcSettled`, `RpcRepeat`):
  the client's acknowledgement window, the server's reply window, and the system of both over such a network.
- **Replicated state machine** (`Rsm`, `RsmSystem`, `RsmSafety`, `RsmTheorems`, `RsmExact`, `RsmWait`, `RsmRefine`, `RsmRuns`): primary and backups,
  viewstamps, the multicast one call at a time, view changes and state transfer. `ViewHistory` proves that the
  views it runs on are the ones that Paxos commits.
- **Lock server** (`LockServer`, `LockTransfer`, `Marshall`): the replicated lock state over all request traces,
  and its transfer through the byte-level marshalling code.
- **File system data** (`Extents`, `FileData`, `Directory`, `Bits`, `Inodes`): the write-back extent cache
  of several clients, file contents, the directory format and the inode bitmap.

The state that the source updates in place is a class (or an `array`) whose methods are proved against
specification functions; the theorems are about those functions and about the step systems built from
them. RPC calls, clocks and thread scheduling appear as events of a step system or as parameters that give
the outcome of each call.

## Where the code does not keep what the design promises

Each finding has a lemma with a concrete run, and the property is proved under the rule that the run breaks.

- Agreement (`PaxosTheorems.PaxosAgreement`) needs three rules, and for each of them a run that breaks it once
  chooses two values for one instance, for any five different node names:
  - An accept carries an instance number that is neither filled in nor checked, and a commit resets the
    promise (paxos.cc:199-201, 296-311, 342). A late accept of an abandoned run is granted in the next instance:
    `PaxosBreaks.StaleAcceptBreaksAgreement`.
  - A prepare is granted for an instance that the acceptor has not reached (paxos.cc:270-290); the commits in
    between reset that promise: `PaxosBreaks.EarlyPrepareBreaksAgreement`.
  - A node that joins reads another node's log into its fields (rsm.cc:325, paxos.cc:368-373). Under an open
    promise of its own, or if the log holds fewer commits, it forgets what it voted for:
    `PaxosBreaks.RejoinBreaksAgreement`.
- A time-out acknowledges a call that may still be executing (rpc/rpc.cc:293). A later request can then make the
  server forget a reply above an entry still in progress, and a late copy of the forgotten request is executed
  again: `RpcRepeat.TimeoutBreaksAtMostOnce`. `RpcExact.AtMostOnceExact` says of every run exactly when this can
  happen: the deliveries of a run are all `Harmless` if and only if no state of it is one delivery away from a
  second execution. Simpler sufficient conditions are corollaries in `RpcSettled`.
- The multicast passes over the node that is the primary when its turn comes (rsm.cc:399-400). A primary that
  commits the next view during its multicast loses nothing (`RsmTheorems.NextViewIsOrderly`), even if it is voted
  out by it; one that commits several and so passes over a new primary it has not yet called acknowledges a
  request that the new primary lacks: `RsmRuns.AcknowledgedLostByCommit`. The exact condition for each commit is
  `RsmExact.CommitExact`.
- A primary that was voted out and joins again can install the state of the new primary in the middle of
  its own multicast (rsm.cc:239-240, 273-276), and then executes its old request on top:
  `RsmRuns.TransferInMulticastDiverges`.
- `client_invoke` advances the viewstamps before the multicast and does not take them back when it fails
  (rsm.cc:395-396, 421). Equal viewstamps then need not mean equal states, and a skipped transfer
  leaves primary and backup different: `RsmRuns.SkippedTransferDiverges`; the exact condition is
  `RsmSafety.TransferExact`. After a failed call a backup can also be two requests ahead:
  `RsmRuns.BackupTwoAhead`. If the failed call had been executed after all, the primary even acknowledges
  later requests on a state that its backup does not share: `RsmRuns.ExecutedFailureDiverges`.
- A node that joined but was never brought up to date becomes primary when the others leave
  (rsm.cc:581-602), without the requests acknowledged before: `RsmRuns.UnsyncedPrimaryLosesRequest`. Exactly when
  a new primary leaves out a request: `RsmExact.ServeExact`.
- A replica that skips views keeps a primary that lost its place and came back, while the others go with another
  node (rsm.cc:581-602): `RsmRuns.KeepsReturnedPrimary`. This does no harm: `RsmTheorems.AstrayIsIdle`.
- A release of a lock that was never acquired returns with the server's mutex held
  (lock_server_cache_rsm.cc:140-143): `LockServer.UnknownReleaseJams`.
- A cached extent that is removed and then read in the same tenure of its lock comes back
  (extent_client_cache.cc:68-81): `Extents.ReadAfterRemoveExact`, `Extents.RemovedComesBack`; and giving back
  the lock of an extent for which the client has no entry deletes it on the server
  (extent_client_cache.cc:86-91): `Extents.UntouchedReleaseExact`.

## Model

| member | source | states |
|---|---|---|
| Quorum.IsAMember | paxos.cc:43-49 | the search loop decides membership, both ways |
| Quorum.Majority | paxos.cc:60-72 | the counting loop is true exactly when more than half of the first list's positions hold nodes of the second, repeats counted |
| Quorum.MajorityExact | paxos.cc:60-72 | a majority is exactly a set of answers that covers more than half of the places of the list |
| Quorum.MajoritiesMeet | paxos.cc:60-72 | any two majorities of one list, even one with repeats, have a listed node in common |
| Quorum.CountMonotone | paxos.cc:60-72 | more answers never undo a majority |
| Proposals.GeIsGtOrEqual | paxos.cc:18-28 | the two comparison operators fit together: at least is above or equal |
| Proposals.GtTrans | paxos.cc:18-28 | the order of proposal numbers is transitive, mixed strict and weak |
| Proposals.OrderLaws | paxos.cc:18-28 | proposal numbers are totally and strictly ordered, node names breaking ties |
| Proposals.NameOrderExact | paxos.cc:18-28 | names are ordered by the first character in which they differ, a proper prefix first, both ways |
| Proposals.NumberOrderExact | paxos.cc:18-28 | a proposal number is above another exactly by its number, or with equal numbers by the first differing character of the names |
| AcceptorModel.AcceptorNode.constructor | paxos.cc:239-263 | a booted acceptor is what its log file stands for, plus the first view on the first node |
| AcceptorModel.AcceptorNode.LogRead | log.cc:17-58 | the loop over the records leaves the fields that replay defines |
| AcceptorModel.AcceptorNode.PrepareReq | paxos.cc:265-292 | new state, log and answer of a prepare in all three cases: behind, promised, refused |
| AcceptorModel.AcceptorNode.AcceptReq | paxos.cc:295-311 | new state, log and answer of an accept; the promise is not raised |
| AcceptorModel.AcceptorNode.CommitWo | paxos.cc:332-353 | a commit records the value, opens the next instance and clears promise and vote; an old one changes nothing |
| AcceptorModel.AcceptorNode.DecideReq | paxos.cc:314-330 | a decision commits the acceptor's own vote; false exactly where an assertion of the handler fails |
| AcceptorModel.AcceptorNode.RestoreLog | paxos.cc:368-373 | taking over another log reads it into the live fields without clearing them |
| AcceptorModel.HandlersAreDurable | paxos.cc:265-353 | every handler logs what replay needs: the log rebuilds the live state again |
| AcceptorModel.BootIsDurable | paxos.cc:239-263 | a booted acceptor is rebuilt by its own log |
| AcceptorModel.SameDecisions | paxos.cc:265-353 | the node name of a proposal numbered 0, which replay may change, influences no promise, vote or decision |
| AcceptorModel.ReplayOver | log.cc:17-58 | reading a log over old fields: committed values are merged, and everything else is the log's own as soon as it holds a commit |
| AcceptorHistory.PrepareExact | paxos.cc:265-292 | after any history, told from the log alone: a prepare is answered that the instance is over exactly if one as high was committed; otherwise granted exactly if its number is above every promise since the last commit, with the last vote since then; and the log grows by that promise only |
| AcceptorHistory.AcceptExact | paxos.cc:295-311 | after any history an accept is granted exactly if no promise since the last commit is above it, and the log grows by that vote only |
| AcceptorHistory.CommitExact | paxos.cc:332-353 | after any history a commit takes effect exactly if no instance as high was committed; then it is logged and recorded, and promise and vote are open again |
| AcceptorHistory.DecideExact | paxos.cc:314-330 | after any history the assertions of the decide handler hold exactly if the instance was committed before, or is next and the last vote is for the decided value, which is then committed |
| ProposerModel.ProposerNode.SetN | paxos.cc:85-89 | the next number is one above the higher of the node's last one and its acceptor's promise |
| ProposerModel.ProposerNode.PrepareCalls | paxos.cc:149-190 | the loop collects exactly the granted promises and the value so far, or stops at the first node that is ahead |
| ProposerModel.ProposerNode.AcceptCalls | paxos.cc:194-216 | the nodes that answered yes, in order |
| ProposerModel.ProposerNode.Run | paxos.cc:91-142 | a whole run: accepts go to the promisers only, with the collected value or the caller's; it decides exactly with a majority in both phases; a run that is not stable does nothing |
| ProposerModel.CollectHighest | paxos.cc:161-187 | the fold over the replies returns the value of the highest vote among the promisers, or none if none voted |
| ProposerModel.CollectOrigin | paxos.cc:149-190 | every collected promise and every value learned from a node ahead comes from one of the replies |
| ProposerModel.CollectExact | paxos.cc:149-190 | the prepare loop stops exactly if some node is ahead, with the value of the first such node; otherwise it has the promise of every node that granted one, in order, and no other |
| ProposerModel.AcceptersOrigin | paxos.cc:194-216 | who counts as an accepter answered yes |
| ProposerModel.AcceptersExact | paxos.cc:194-216 | the accepters are exactly the targets that answered yes, in order |
| PaxosSafety.ChosenPersists | paxos.cc:91-142 | once a number is voted for by a majority, every proposal of the instance with a higher number carries its value |
| PaxosSafety.ChosenUnique | paxos.cc:91-142 | the invariant allows one chosen value for each instance |
| PaxosSafety.CommittedAgree | paxos.cc:332-353 | the invariant makes committed values of an instance equal on all nodes, although each run takes its node list from its own node's last view |
| PaxosSteps.ProposalIsSafe | paxos.cc:110-122 | a run that reaches its accept phase rests on a majority of promises and proposes their highest vote or a value it was started for |
| PaxosSteps.GrantedAcceptIsPromised | paxos.cc:295-311 | an accept granted in the open instance has exactly the promised number, although the handler tests only at least |
| PaxosSteps.DecideNeverFails | paxos.cc:314-330 | the assertions of the decide handler hold for every decision in the network, and the decided value is chosen |
| PaxosSteps.RestartKeepsInv | paxos.cc:239-263 | a node that restarts from its log is the node it was, and the invariant stays |
| PaxosSteps.StepKeepsInv | paxos.cc:91-360 | every orderly event keeps the invariant, given what holds of a log taken over |
| PaxosSteps.StepKeepsLogs | paxos.cc:361-373 | and every event keeps that for all dumped logs, however old: each is the log of a state whose commits were chosen and whose vote was proposed |
| PaxosSteps.RunKeepsInv | paxos.cc:91-360 | and so does every orderly run, of any length |
| PaxosTheorems.PaxosAgreement | paxos.cc:91-360 | over every orderly run of any number of proposers and instances, nodes commit the same value for an instance and at most one value is chosen |
| PaxosTheorems.LaterVotesAgree | paxos.cc:295-311 | once a majority voted for a number, every vote that any acceptor casts under a higher one is for the same value |
| PaxosTheorems.LearnedIsChosen | paxos.cc:175-178 | what a node learns, from a decision or from a node ahead, is the chosen value, and the decide assertions never fail |
| PaxosTheorems.ChosenWasStarted | paxos.cc:91-142 | only values that some run was started for are chosen |
| PaxosTheorems.VoteIsPromised | paxos.cc:295-311 | a vote never exceeds the promise; a granted accept has the promised number of the open instance |
| PaxosTheorems.PromisesGrow | paxos.cc:265-311 | while an instance is open, promise and vote only grow, through every event including restarts |
| PaxosTheorems.InvariantExact | paxos.cc:265-311 | exactness of the invariant, not of agreement: a delivered prepare or accept keeps it if and only if it is not granted, or is for an instance reached (prepare) or open (accept) |
| PaxosTheorems.ViewsShare | config.cc:175-221 | consecutive committed views of a node are not empty and share a member |
| PaxosBreaks.StaleAcceptBreaksAgreement | paxos.cc:194-216 | for any five node names, a state of an orderly run in which delivering one accept of an abandoned run makes a second value chosen |
| PaxosBreaks.RejoinBreaksAgreement | paxos.cc:368-373 | for any five node names, a run that is orderly but for one log taken over, under an open promise at equal height or with fewer commits than the node has, and ends with two values chosen |
| PaxosBreaks.EarlyPrepareBreaksAgreement | paxos.cc:265-292 | for any five node names, a run that is orderly but for one prepare granted ahead of the acceptor's instance, and ends with two values chosen |
| ViewHistory.HistoryIsGood | config.cc:175-221 | the decoded values that any node of a reachable state has committed start with the first node alone, and each later one adds one node that was no member or removes one, and is not empty |
| ViewHistory.HistoriesAgree | config.cc:100-110 | and all nodes have the same views as far as they have them |
| ViewHistory.PrimaryIsAgreed | rsm.cc:581-602 | so a node that commits in order never aborts in choosing a primary: it is the first member of the new view, belonged to the view before, and is the one every other node chooses |
| PaxosLog.ReplayRebuilds | log.cc:17-58 | after any sequence of promises, votes and commits, replaying the log from the initial fields gives the live fields |
| PaxosLog.SameFuture | paxos.cc:265-353 | states equal up to the name in a number 0 answer every further sequence of requests alike |
| PaxosLog.RestartIsInvisible | paxos.cc:239-263 | after a restart at any time every later request gets the same answer, and the later state and log are the same |
| PaxosLog.ReadFileOf | log.cc:17-58 | parsing the text of any records with proper names and values without newlines gives exactly those records, blanks inside values kept |
| PaxosLog.ReadLogText | log.cc:17-58 | the parsing loop overwrites the fields as replay does, and aborts exactly where the text is not a log |
| PaxosLog.DumpExact | log.cc:60-72 | a dump is the file itself exactly when the file is empty or ends a line, else it adds one newline |
| PaxosLog.RestoreOfDump | log.cc:60-82 | a node that restores another node's dump holds exactly its records |
| PaxosLog.FileRebuilds | log.cc:85-131 | from live fields through the written text and back |
| Views.ReadMembers | config.cc:100-110 | the reading loop returns all tokens of the text |
| Views.WriteValue | config.cc:112-121 | the writing loop returns the text of the view |
| Views.MembersOfValue | config.cc:100-121 | a view survives writing and reading exactly when its names are not empty and free of blanks |
| Views.RemoveMember | config.cc:201-221 | the filter loop drops exactly the named node |
| Views.WithoutKeepsOrder | config.cc:201-221 | what is left are exactly the other members, in their order |
| Views.ChangedShares | config.cc:175-221 | adding or removing one node leaves a member in common with the old view, unless the new one is empty |
| RpcClient.RepresentsIsCanonical | rpc/rpc.cc:384-408 | two window lists for one set agree in front and members |
| RpcClient.Client.constructor | rpc/rpc.cc:101-131 | a new client has reported nothing |
| RpcClient.Client.NextCall | rpc/rpc.cc:196-215 | the header acknowledges the largest prefix of ids that are all reported |
| RpcClient.Client.UpdateXidRep | rpc/rpc.cc:384-408 | after any report, repeats included, the list is sorted, its front is the largest fully reported prefix, and above it the list is exactly the reported ids |
| RpcServer.WalkWindow | rpc/rpc.cc:659-703 | the in-place loop with erasure computes the walk: the entry hit and the window at that point, or the surviving entries |
| RpcServer.InsertEntry | rpc/rpc.cc:694-701 | the new entry is put one place before the first smaller one, or at the front, in a list that need not be sorted |
| RpcWindow.PlaceExact | rpc/rpc.cc:692-701 | the place of a new entry told from its neighbours: at the front if the list is empty or starts with a smaller id, else before an entry that is not smaller, up to which none is, and which is last or followed by a smaller one |
| RpcServer.Server.CheckDuplicateAndUpdate | rpc/rpc.cc:659-703 | verdict and new window for the client, all other clients' windows untouched |
| RpcServer.Server.RecordReply | rpc/rpc.cc:710-725 | the reply is stored in the entry of its request only |
| RpcWindow.CheckExact | rpc/rpc.cc:659-703 | a request is let through exactly if it is not remembered and the last entry that its own header leaves is not above it |
| RpcWindow.WalkHitExact | rpc/rpc.cc:659-690 | a repeated request erases exactly the acknowledged replies in front of its own entry |
| RpcWindow.AnswerExact | rpc/rpc.cc:659-703 | which of the four answers a request gets, each exactly: the recorded reply, in progress, forgotten, or new |
| RpcSystem.DeliveryExact | rpc/rpc.cc:578-641 | what a delivery does in every state of the invariant: a repeat of a finished, remembered request is answered with its result, one in execution not at all, and any other request is refused or executed |
| RpcSystem.NewIsNew | rpc/rpc.cc:659-703 | under the invariant a request that is let through was never let through before |
| RpcSystem.LeftGuards | rpc/rpc.cc:668-690 | whatever a harmless delivery drops, every request executed before is still remembered or guarded by an entry that a late copy of it would leave |
| RpcSystem.StepKeepsInv | rpc/rpc.cc:498-643 | every call, completion, reply and time-out, and every harmless delivery, keeps the invariant |
| RpcSystem.RunKeepsInv | rpc/rpc.cc:498-643 | and so does every run whose deliveries are harmless |
| RpcSystem.AtMostOnceIfHarmless | rpc/rpc.cc:578-641 | over every run with lost, repeated and reordered messages and time-outs whose deliveries are harmless: no request is executed twice, and all answers to it are the result of its one execution |
| RpcExact.StepExact | rpc/rpc.cc:659-703 | a step is harmless if and only if no single delivery after it executes a request a second time |
| RpcExact.AtMostOnceExact | rpc/rpc.cc:498-643 | the deliveries of a run are all harmless if and only if no state of the run is one delivery away from a second execution; then at-most-once holds |
| RpcExact.HarmRepeats | rpc/rpc.cc:659-703 | after any harmless run, any delivery that is not harmless has a one-event continuation in which a request is executed twice |
| RpcExact.LostReplyIsSentAgain | rpc/rpc.cc:629-632 | after every harmless run a repeat of a finished, still remembered request gets its one result again |
| RpcSettled.AtMostOnceIfSafe | rpc/rpc.cc:668-690 | at-most-once over every run in which whatever a delivery drops lies below the last entry it leaves; a request refused once is then never executed |
| RpcSettled.AtMostOnceIfSettled | rpc/rpc.cc:578-641 | in particular if no delivered header acknowledges a request in execution, time-outs or not |
| RpcSettled.AtMostOnceWithoutTimeouts | rpc/rpc.cc:348-382 | in particular over every run without time-outs |
| RpcRepeat.TimeoutBreaksAtMostOnce | rpc/rpc.cc:285-300 | a run with one time-out in which a request is executed twice, after one delivery that is not harmless |
| RpcRepeat.TimeoutMayBeHarmless | rpc/rpc.cc:285-300 | a reachable delivery that acknowledges a request in execution and is safe all the same |
| Rsm.SetPrimary | rsm.cc:581-602 | the primary stays if it is a member; else the first member of the previous view that is in the new one; none exactly where the source aborts |
| Rsm.RsmNode.CommitChange | rsm.cc:341-354 | a newer view is entered in state view change with its primary; an older one changes nothing |
| Rsm.RsmNode.StartServing | rsm.cc:193-226 | the primary is in sync and waits for every other member |
| Rsm.RsmNode.TransferReq | rsm.cc:463-493 | refused unless in sync for the asked view; the state is sent only if the viewstamps differ |
| Rsm.RsmNode.StateTransfer | rsm.cc:252-280 | state and viewstamp of the primary are installed, or nothing if the viewstamps agree |
| Rsm.RsmNode.TransferDoneReq | rsm.cc:499-523 | the backup is struck off the list the primary waits for |
| Rsm.RsmNode.InvokeReq | rsm.cc:435-458 | a backup executes exactly the request with the expected viewstamp, outside view changes |
| Rsm.RsmNode.ClientInvoke | rsm.cc:379-426 | busy in a view change and not primary elsewhere, without effect; else stamped, and executed and answered with OK exactly if every call made succeeds, with views committed during each call and the target of a call fixed when it starts; the first failed call ends it with busy, state unchanged and viewstamps advanced |
| Rsm.MulticastExact | rsm.cc:398-425 | whatever views are committed meanwhile: the first call that fails is the last; the request is executed and answered with OK exactly if none fails; the viewstamps do not depend on it |
| RsmRefine.StepsAreClientInvoke | rsm.cc:379-426 | over every orderly run and any interleaving, the steps of a replica from a client's request to the end of its multicast make up what the method computes, and OK is answered exactly if the request was executed and its acknowledgement recorded |
| RsmSystem.PrimaryIsFirst | rsm.cc:581-602 | views never list a node twice, and the primary of every view is its first node |
| RsmSystem.InOrderPrimary | rsm.cc:581-602 | a replica that commits every view in order never aborts; the new primary is the old one, or the next in line of the previous view if the old one is gone |
| RsmSystem.PickFinds | rsm.cc:581-602 | committing any view, whatever was missed, never aborts, and picks the known primary if it is a member, else the common one |
| RsmSystem.HeadStays | rsm.cc:581-602 | the primary of a view stays primary in every later view until it leaves |
| RsmSystem.PickExact | rsm.cc:581-602 | a replica that commits a view, whatever it missed, picks the common primary if and only if it knows it already or the one it knows is no member |
| RsmSafety.ThroughMeansNoFailure | rsm.cc:398-420 | a multicast that got through proves that no call of the view ever failed |
| RsmSafety.QualifiedCovers | rsm.cc:167-187 | a qualified new primary has executed whatever was or may still be acknowledged in earlier views |
| RsmSafety.SkippedIsClosed | rsm.cc:167-187 | a member that went past a view without executing a request of it closes that request for acknowledgement |
| RsmSafety.EqualStamps | rsm.cc:463-493 | equal viewstamps mean equal states exactly when both or neither replica gave up the stamped request |
| RsmSafety.TransferExact | rsm.cc:252-280 | a transfer leaves the backup with the primary's state if and only if the viewstamps do not hide a request given up on one side |
| RsmSafety.StepKeepsInv | rsm.cc:150-523 | every orderly event keeps the invariant |
| RsmSafety.RunKeepsInv | rsm.cc:150-523 | and so does every orderly run, in which no acknowledgement is taken back |
| RsmTheorems.AcknowledgedNeverLost | rsm.cc:379-426 | of any two acknowledgements, in whatever views and by whatever primaries, the state behind the one with the lower viewstamp is a prefix of the other: none lost, none reordered |
| RsmTheorems.ActiveHasAll | rsm.cc:167-187 | a replica active in a view has executed every request acknowledged in it or earlier |
| RsmTheorems.Sandwich | rsm.cc:379-458 | the primary's state is the view's start plus the acknowledged requests, is a prefix of every backup's, and no backup is more than one ahead while no call of the view has failed |
| RsmTheorems.NoAckAfterFailure | rsm.cc:379-426 | after the first failed call of a view nothing more of that view is acknowledged |
| RsmTheorems.SameHistoryAfterSync | rsm.cc:193-280 | active members of a view hold one start state plus prefixes of one sequence of stamped requests, transfer skipped or not |
| RsmTheorems.OnePrimary | rsm.cc:379-392 | two replicas that accept client requests in one view are the same |
| RsmTheorems.StatusExact | rsm.cc:387-392 | a client is told busy exactly during a view change, and otherwise accepted exactly by the first member of the view and sent elsewhere by every other |
| RsmTheorems.CallExact | rsm.cc:435-458 | a call is executed by the node it reaches exactly if that is active in the view of the request and has executed all earlier requests of it and this one not yet |
| RsmWait.PrimaryWaited | rsm.cc:193-226 | whoever takes requests has waited until every other member was brought to the view or went on to a later one |
| RsmTheorems.NextViewIsOrderly | rsm.cc:341-354 | in the middle of a multicast of the view before, committing the next view is always possible, finds the common primary and is within the rules |
| RsmTheorems.AnyViewIsOrderly | rsm.cc:341-354 | outside a multicast committing any later view, whatever was missed, finds a primary and is within the rules |
| RsmTheorems.AstrayIsIdle | rsm.cc:581-602 | a replica whose primary is not the common one is inactive and refuses all requests, and if it takes itself for the primary it was missing from a view since it was last brought up to date |
| RsmExact.CommitExact | rsm.cc:398-420 | a view may be committed during a multicast if and only if, with the primary it brings, the loop still reaches every other member of the view it multicasts to |
| RsmExact.ServeExact | rsm.cc:167-187 | if requests can be told apart, a replica that starts to serve leaves out a request acknowledged in an earlier view if and only if one was acknowledged in a view it was not brought to; if it never left the group there is none |
| RsmRuns.AcknowledgedLostByCommit | rsm.cc:398-420 | a run that breaks one rule, a primary that commits three views during one call and so passes over the new primary, and ends with a primary that lacks an acknowledged request |
| RsmRuns.TransferInMulticastDiverges | rsm.cc:252-280 | a run that breaks one rule, a transfer in the middle of the replica's own multicast, and ends with two active members that executed the same requests in different orders |
| RsmRuns.SkippedTransferDiverges | rsm.cc:463-493 | a reachable state from which a skipped transfer leaves primary and backup different |
| RsmRuns.KeepsReturnedPrimary | rsm.cc:581-602 | an orderly run in which a replica that skips views takes a returned node for the primary that nobody else does, and stays in the view change |
| RsmRuns.BackupTwoAhead | rsm.cc:379-426 | a reachable state with a backup two requests ahead of its primary |
| RsmRuns.UnsyncedPrimaryLosesRequest | rsm.cc:167-187 | a run that breaks one rule, a node that was never brought up to date starts to serve, and ends with an active primary that lacks an acknowledged request |
| RsmRuns.ExecutedFailureDiverges | rsm.cc:398-426 | a run that breaks one rule, a call reported as failed was executed, and ends with an acknowledged state that is no prefix of the backup's |
| LockServer.LockServerNode.AcquireReq | lock_server_cache_rsm.cc:100-131 | new locks, answer and revoke queue of an acquire |
| LockServer.LockServerNode.ReleaseReq | lock_server_cache_rsm.cc:133-155 | new locks and retry queue of a release, and whether the mutex stays held |
| LockServer.AcquireExact | lock_server_cache_rsm.cc:100-131 | an acquire is granted exactly with a new id on a free lock; with a new id on a held lock the holder stays, is to be asked for the lock, and the client waits; any other is an error without effect; other locks are untouched |
| LockServer.RevokesExact | lock_server_cache_rsm.cc:41-66 | over every trace the revokes sent, followed by those still queued, are exactly the holders at each refused acquire, in order |
| LockServer.RetriesExact | lock_server_cache_rsm.cc:69-97 | the same for retries and the clients that were refused |
| LockServer.RevokeNamesTenure | lock_server_cache_rsm.cc:52-60 | after every trace a revoke names its lock, and the id of the tenure if its receiver still holds the lock |
| LockServer.StepKeepsHolder | lock_server_cache_rsm.cc:41-155 | a held lock stays held, under the same id, through every operation that does not give it back, and none of them is granted |
| LockServer.RunKeepsHolder | lock_server_cache_rsm.cc:41-155 | the same over every trace |
| LockServer.GrantsAreSeparated | lock_server_cache_rsm.cc:100-155 | from a grant on the client holds the lock under that id until a request of its own gives it back and frees it, and only then is the lock granted again |
| LockServer.RepeatedAcquireIsNoop | lock_server_cache_rsm.cc:112-128 | a granted acquire executed again at any later time changes nothing and is not granted |
| LockServer.RepeatedReleaseIsNoop | lock_server_cache_rsm.cc:147-152 | an old release executed again, after the client went on with higher ids, changes nothing |
| LockServer.ReleaseExact | lock_server_cache_rsm.cc:147-152 | a release changes the holder exactly when its client holds the lock under an id it covers |
| LockServer.OldReleaseNeedsIncreasing | lock_server_cache_rsm.cc:147-152 | without increasing ids an old release takes the lock away from its client |
| LockServer.LocalStepsAreHarmless | lock_server_cache_rsm.cc:41-97 | revoker and retryer never change a holder, a locked flag or a recorded id |
| LockServer.UnknownReleaseJams | lock_server_cache_rsm.cc:140-143 | after the release of an unknown lock every further request is blocked |
| Marshall.DecU32Of | rpc/rpc.cc:814-823 | a 32-bit number is read back from its bytes, and nothing else is consumed |
| Marshall.DecU64Of | rpc/rpc.cc:840-846 | the same for 64 bits |
| Marshall.DecBoolOf | rpc/rpc.cc:777-782 | the same for a flag |
| Marshall.DecStringOf | rpc/rpc.cc:832-838 | the same for a string of bytes, zeros included, whatever the variable held before |
| Marshall.NetworkOrder | rpc/rpc.cc:814-846 | numbers are written most significant byte first, and 64 bits as high word and low word |
| Marshall.StringLayout | rpc/rpc.cc:832-838 | a string is written as its length and its bytes |
| Marshall.Output.constructor | rpc/marshall.h:53-58 | an empty message behind the header |
| Marshall.Output.RawByte | rpc/rpc.cc:752-762 | appends the byte, doubling a full buffer |
| Marshall.Output.RawBytes | rpc/rpc.cc:764-775 | appends all bytes: one growth always makes enough room |
| Marshall.Output.PutU32 | rpc/rpc.cc:814-823 | appends the four bytes of the format |
| Marshall.Output.PutU64 | rpc/rpc.cc:840-846 | appends high word and low word |
| Marshall.Output.PutString | rpc/rpc.cc:832-838 | appends length and bytes |
| Marshall.Input.constructor | rpc/marshall.h:137-157 | the cursor stands before the content |
| Marshall.Input.RawByte | rpc/rpc.cc:887-896 | the next byte, or zero and failure at the end |
| Marshall.Input.GetU32 | rpc/rpc.cc:936-944 | four bytes, most significant first, zeros past the end |
| Marshall.Input.GetU64 | rpc/rpc.cc:956-964 | two words |
| Marshall.Input.GetString | rpc/rpc.cc:966-987 | a string that fits is taken; otherwise failure and the variable keeps its value |
| LockTransfer.MarshalState | lock_server_cache_rsm.cc:157-193 | the nested loops write the format of the whole lock table |
| LockTransfer.UnmarshalState | lock_server_cache_rsm.cc:195-252 | the nested loops read any byte sequence, well formed or not, as the format defines |
| LockTransfer.TransferKeepsLocks | lock_server_cache_rsm.cc:157-252 | reading what was written gives back the whole nested table (flags, owners, ids of every client, both queues), for every order of the maps, and consumes the message exactly |
| LockTransfer.TransferKeepsFuture | lock_server_cache_rsm.cc:157-252 | the receiver answers every further trace of requests like the sender |
| LockTransfer.Transfer | lock_server_cache_rsm.cc:157-252 | the two programs composed return the sender's table |
| LockTransfer.LocksListed | lock_server_cache_rsm.cc:164-191 | every lock table is one of the listings that the transfer theorem is about |
| Extents.Server.Remove | extent_server.cc:88-100 | the extent is gone; failure exactly if it was not there |
| Extents.ClientCache.Get | extent_client_cache.cc:16-32 | hit or miss, answer and new entry; a failed read is cached as present |
| Extents.ClientCache.GetAttr | extent_client_cache.cc:34-45 | hit or miss; an entry is made but not filled |
| Extents.ClientCache.Put | extent_client_cache.cc:47-66 | the entry is present and dirty with the new bytes, the server untouched |
| Extents.ClientCache.Remove | extent_client_cache.cc:68-81 | an entry is dropped locally only; without one the server's extent is removed |
| Extents.ClientCache.Flush | extent_client_cache.cc:83-102 | dirty bytes are written back, clean ones dropped, no entry removes the extent on the server |
| Extents.RunKeepsInv | extent_client_cache.cc:16-102 | in every orderly run of any clients, holders' entries and the server agree with the latest puts and removes, and idle clients keep nothing readable |
| Extents.GetReturnsLatest | extent_client_cache.cc:16-45 | the lock holder's read of an existing extent returns the latest bytes any client put, and its size |
| Extents.FreeIsWrittenBack | lock_client_cache.h:22-31 | an extent whose lock is free is on the server exactly as the latest put or remove left it |
| Extents.MissingExact | extent_client_cache.cc:16-32 | a read of a missing extent gives no bytes, and it and a read of the attributes fail exactly while nothing is cached for it |
| Extents.TouchedMayRelease | lock_client_cache.cc:39-59 | one read, write or remove in a tenure is enough to give the lock back safely |
| Extents.UntouchedReleaseExact | extent_client_cache.cc:83-91 | giving back the lock without a touch keeps the extent exactly if the client has an entry or there was no extent |
| Extents.ReadAfterRemoveExact | extent_client_cache.cc:68-81 | a read after a remove finds the extent again exactly if the client had an entry and the server the extent |
| Extents.RemovedComesBack | extent_client_cache.cc:68-102 | a run in which a removed extent survives on the server |
| FileData.Write | yfs_client.cc:313-337 | the string surgery is the pointwise splice: written range, old bytes elsewhere, zeros in the gap |
| FileData.ReadAfterWrite | yfs_client.cc:296-337 | every byte of a read of any range after a write |
| FileData.ReadBack | yfs_client.cc:296-337 | what was written is read back whole, even past the old end |
| FileData.ReadApart | yfs_client.cc:296-337 | ranges apart from the written one read as before |
| FileData.WritesJoin | yfs_client.cc:313-337 | adjacent writes are one write |
| FileData.WritesCommute | yfs_client.cc:313-337 | writes apart from each other commute |
| Directory.PadInjective | yfs_client.cc:339-344 | names of at most 1024 bytes stay different when padded |
| Directory.StringToDirForm | yfs_client.cc:523-537 | the reading loop with its two bounds, for any data and any count, keeping the first of equal names; it leaves the data exactly if that ends inside the count or inside an item the loop reaches |
| Directory.ParseOfFormat | yfs_client.cc:523-554 | decoding an encoded directory gives back the map, for every order of its items |
| Directory.StoredUnique | yfs_client.cc:539-554 | the stored bytes determine the directory |
| Directory.FormatLayout | yfs_client.cc:539-554 | where each byte of the stored form is: count, names and numbers at their offsets, in machine order |
| Directory.DirFormToString | yfs_client.cc:539-554 | the writing loop stores exactly the map |
| Directory.Create | yfs_client.cc:339-363 | exactly one binding of the stored directory is new; existing name and missing number leave the bytes as they were |
| Directory.Unlink | yfs_client.cc:479-510 | exactly the named binding disappears; a missing name or a directory is refused and nothing changes |
| Directory.Lookup | yfs_client.cc:394-420 | the number bound to the padded name, both ways |
| Inodes.FindZeroBitPos | yfs_client.cc:17-50 | the lowest clear bit of any word that is not full |
| Inodes.FindIdle | yfs_client.cc:53-71 | the least number not in use, 0 exactly if there is none |
| Inodes.SetInode | yfs_client.cc:73-91 | exactly the number is added, 0 and a number in use are refused; a number beyond the map aliases a smaller one through the 32-bit index or leaves the map |
| Inodes.ClearInode | yfs_client.cc:93-110 | exactly the number is removed, 0 and a free number are refused; beyond the map as for setting |
| Inodes.Allocator.GetAvailInum | yfs_client.cc:111-138 | hands out the least free number, never a live one, which the directory code takes for a file exactly if one was asked for; 0 exactly when full |
| Inodes.Allocator.RestoreInum | yfs_client.cc:149-165 | frees the number under its mark, in its own bitmap only, or leaves the map exactly if the index is beyond it |
| Inodes.FreeUndoes | yfs_client.cc:73-110 | freeing after allocating restores the bitmap word for word |

## Left out

- PaxosTheorems.PaxosAgreement: assumes orderly runs: no accept granted outside the open instance, no prepare granted ahead of the acceptor, no log taken over under an open promise at equal height or with fewer commits; `PaxosBreaks` has a run with two chosen values for each. Runs are started as the configuration layer does: to add a node that is no member, or, by a member, to remove another node; node names are not empty and hold no blanks.
- RpcSystem.AtMostOnceIfHarmless: one client with a non-zero nonce, whose windows the server keeps apart from the others'; ids do not wrap at 32 bits, and clients with nonce 0, which opt out, are not modelled.
- RpcExact.AtMostOnceExact: the exact condition is about one more delivery after each state of the run; that a harmful delivery is never followed by that copy of the request is possible, and then nothing is executed twice.
- RsmTheorems.AcknowledgedNeverLost: assumes orderly runs: a call reported as failed was not executed, a view committed during a multicast does not make a node primary that is still to be called, a new primary has belonged to every view since it was last brought up to date, no transfer happens during the replica's own multicast, and equal viewstamps hide no request given up on one side only; each is shown by a run in `RsmRuns`.
- LockTransfer.UnmarshalState: the sum of cursor and length in the bounds test is not wrapped at 32 bits; an uninitialised `lid` of a new lock is 0.
- LockServer.LockServerNode.ReleaseReq: entries of the process-local revoke and retry queues are lock numbers, not pointers.
- FileData.Write: offsets are not negative and sums do not wrap at 64 bits.
- Inodes.SetInode: where the source touches memory beyond the bitmap the model only says so.
- Marshall.Input.GetString: the sum of cursor and length in the bounds test is not wrapped at 32 bits.
- Proposers do not crash; the last number a proposer used is volatile in the source and could be reused.
- Replicas of the state machine do not restart.
- Liveness, time-outs as durations, heartbeats, back-off and all retry loops.
- Sockets, the poll manager and the thread pool; each critical section is one step.
- The lock client's own caching and its queue of revokes; only its flush before release and its increasing ids are used.
- The configuration layer's cached copy of the current view (`reconstruct`, `paxos_commit`), and the vector and map templates of the marshalling layer.
- Attribute times, random choice of inode numbers, FUSE glue, base64, fault-injection hooks, RPC header packing and checksums.
