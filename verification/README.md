# Verified models of a peer-to-peer simulation suite

This project models, in Dafny, the logic of four parts of the repository and proves what they are for.

1. **The ring agreement of Sample2, and the vote of Sample3.** Numbered nodes route blocks over
   power-of-two fingers and broadcast with a token-split tree. On top of that runs a one-shot protocol
   (K, ShRq, ShPn, LB, one MSgn per A node, M). `Broadcast`, `Routing` and `Agreement*` treat it as a
   transition system in which blocks arrive in any order; `Snode.dfy` and `Anode.dfy` give the node objects
   whose methods are proved to do these steps, `SnodeSteps` the steps as one node sees them,
   `AgreementActions` what the single actions send. `DiskBacklog` is the leader's disk, `Ballots` the vote of Sample3.
2. **The Chord layer of Sample4.** `ChordRange` (identifier intervals), `ChordPeer` (decisions of one node),
   `ChordLookup` (lookups on a stabilised ring), `ChordGuard` (when joins are dropped), `ChordJoin` and
   `ChordRing` (overlapping joins), `ChordStabilise` and `ChordConverge` (convergence) and `ChordNode` (the node
   object). `Scheduler` and `MessageScheduler` are the choice of the next message, `Network` the simulated
   network's queues.
3. **SHA-1.** `Sha1` holds the definition of FIPS 180-4 and the unrolled implementation, `Sha1Stream` the
   streaming class and its padding, `Sha1Example` a test vector.
4. **JSON pointers.** `JsonPointer` covers escaping, splitting and printing (RFC 6901, sections 3 and 4).

`RingArithmetic`, `Sums` and `Options` are shared helpers. `dafny verify dfyconfig.toml` checks everything.

Where the source updates state in place, the project has a class or an array method whose postconditions equate
the new state with a function of the old one; what the source promises is proved about these functions, for all
inputs, all runs and all reachable states.

## What the code does that its description does not say

- S1 answers every ShRq twice: once when the block is processed (Sample2/Sample2/Snode.cpp:189-193) and once
  from `main` (lines 39-44). Both answers are in the model; neither changes the outcome.
- An update of the leader's disk at the moment of the previous one discards the backlog, because line 313 only
  keeps it when time has elapsed. `SameTimeLosesBacklog` is an example, `ConservationHolds` and
  `BacklogFormulaHolds` say exactly when the accounting is right.
- `checkReceive` stops at the first queue whose head has an unknown sender, so queues after it may wait without
  a pending check. `UnknownSenderBlocks` is an example; the contract of `CheckReceive` says exactly when one call
  leaves a queue waiting, and no queue ever waits if every message that is pushed has a known sender.
- An A node whose K block comes while it is making its signature never reads that block, since the end of the delay
  causes one call, which only sends. `KStaysUnread` is an example, `EndsAsExpected` the exact condition.
- The retransmit guard of Chord can drop a JOIN, although every node knows its neighbours. `GuardIsWideEnough` is the
  exact condition: among m nodes with exact neighbours and any other fingers, all joins are answered if and only if
  1.5 times the size of a finger table is at least m - 1 (m - 2 if the joiner takes the last free identifier).
  `JoinCanBeDropped` gives a ring and a join for every size beyond that. Once all fingers are exact no join is ever
  dropped: `JoinIsAnswered`.
- While successors are stale, a lookup for the first finger can move a successor away: `StaleAnswerIsFarther`.
- A PREDECESSOR timer waits as long as a SUCCESSOR timer (Sample4/src/trp/low_latency_chord.cpp:243-244).

## Model

| member | source | states |
|---|---|---|
| Broadcast.ForwardIsChildren | Sample2/Sample2/Snode.cpp:279-304 | on any ring, ForwardBlock sends exactly to the children its receiver has in one fixed binary tree of offsets from the source; the range and token tests cut off only offsets that do not exist |
| Broadcast.ForwardServes | Sample2/Sample2/Snode.cpp:279-304 | for every node, what is forwarded will serve it as often as the received block would have, not counting the receiver itself |
| Broadcast.AboveSplits | Sample2/Sample2/Snode.cpp:287-303 | the two targets divide the nodes below the receiver between them without overlap |
| Broadcast.BroadcastSafety | Sample2/Sample2/Snode.cpp:255-304 | in every run, for every ring size, source and delivery order: nobody receives twice, a node is unserved exactly while one block for it is in flight, and a block with token t is at an offset from 2^t-1 to 2^(t+1)-2, so 2^t is at most n |
| Broadcast.BroadcastCompletes | Sample2/Sample2/Snode.cpp:255-304 | when nothing is in flight every node has received exactly once, after exactly n-1 sends |
| Broadcast.BroadcastProgress | Sample2/Sample2/Snode.cpp:255-304 | a run with a block in flight can be continued |
| Routing.NextHop | Sample2/Sample2/Snode.cpp:231-248 | the next hop lowers the clockwise distance to the target by its top bit |
| Routing.TopBitIsAFinger | Sample2/Sample2/Snode.cpp:239-247 | the computed finger index is inside the table |
| Routing.UnicastHops | Sample2/Sample2/Snode.cpp:231-253 | a unicast block always arrives, after exactly as many hops as the distance has one bits |
| Routing.RouteLength | Sample2/Sample2/Snode.cpp:231-253 | no route is longer than the finger table |
| AgreementInvariant.HandleEffect | Sample2/Sample2/Snode.cpp:182-260 | whatever block a node handles, flags are never cleared, ShRq, ShPn and MSgn blocks are accounted for, and all blocks sent are of the right kind for the right node |
| AgreementInvariant.HandleCovers | Sample2/Sample2/Snode.cpp:182-260 | for each broadcast and each node, handling a block keeps the number of times the node is or will be served, and starting M adds one |
| AgreementSteps.NextInv | Sample2/Sample2/Snode.cpp:3-83 | every step keeps the invariant: broadcasts serve each node once, the S1 exchange loses nothing, every A node's one LB block or signature is in one place |
| AgreementRuns.SignatureConservation | Sample2/Sample2/Snode.cpp:60-75 | in every reachable state: A nodes that have not signed + queued msgn blocks + MSgn blocks in flight + counted signatures = number of A nodes |
| AgreementRuns.MImpliesAllSigned | Sample2/Sample2/Snode.cpp:182-216 | if any node has M or any M block exists, all signatures were made and counted once, LB had reached and been sent on by every signer's node, and the leader had K, ShPn and had started LB |
| AgreementRuns.MStartsOnce | Sample2/Sample2/Snode.cpp:203-211 | no run starts the M broadcast twice |
| AgreementRuns.StuckIsFinished | Sample2/Sample2/Snode.h:93-115 | a state of the invariant in which no step is possible is the end state the destructor asks for, also when one node is W, S1 and leader |
| AgreementRuns.AgreementCompletes | Sample2/Sample2/Snode.h:93-115 | every run that cannot be continued has ended with M everywhere, all signatures counted and nothing queued |
| AgreementRuns.AgreementTerminates | Sample2/Sample2/Snode.cpp:3-83 | every run, in any order of steps, has at most 8 Snum + Anum (Snum + 4) steps |
| AgreementMeasure.NextMeasure | Sample2/Sample2/Snode.cpp:3-83 | every step lowers the remaining work of blocks, one-time actions and queues |
| AgreementActions.ActionsInOrder | Sample2/Sample2/Snode.cpp:16-62 | in every reachable state each one-time action was done only by the node it belongs to, and after everything that main waits for |
| AgreementActions.LeaderAsks | Sample2/Sample2/Snode.cpp:31-38 | the leader's ShRq is in flight on its first hop, or has arrived if the leader is S1 |
| AgreementActions.S1Answers | Sample2/Sample2/Snode.cpp:39-44 | the ShPn that S1 sends from main is in flight on its first hop, or has arrived if S1 is the leader |
| AgreementActions.SignatureGoesOn | Sample2/Sample2/Snode.cpp:60-75 | a msgn block that is read leads to one MSgn block on its first hop, or is counted by the leader |
| AgreementActions.BroadcastStarts | Sample2/Sample2/Snode.cpp:16-22 | K and LB go from their source to its children in the tree, and the source has them itself |
| AgreementActions.KConservation | Sample2/Sample2/Snode.cpp:85-122 | once a node has sent K to its A nodes, delayed and delivered k blocks are as many as its A nodes |
| AgreementActions.AllKDelivered | Sample2/Sample2/Snode.cpp:85-122 | a run that cannot be continued has delivered one k block for every A node |
| SnodeObject.Snode.constructor | Sample2/Sample2/Snode.h:69-91 | a new node has all flags clear, nothing delayed and the right fingers |
| SnodeObject.Snode.InitializeFingers | Sample2/Sample2/Snode.cpp:262-277 | the loop fills in number + 2^k mod n for every power below n, without leaving 32-bit integers for n up to 2^30 |
| SnodeObject.Snode.TopBit | Sample2/Sample2/Snode.cpp:240-246 | the shift loop finds the top bit of the distance |
| SnodeObject.Snode.ForwardBlock | Sample2/Sample2/Snode.cpp:279-304 | queues exactly the blocks that the broadcast tree asks for |
| SnodeObject.Snode.ProcessRoutingBlock | Sample2/Sample2/Snode.cpp:231-260 | flags, counter and queued blocks afterwards are those of the transition system's handling step |
| SnodeObject.Snode.ProcessBlock | Sample2/Sample2/Snode.cpp:182-216 | likewise for a block that has arrived |
| SnodeSteps.ActIsNext | Sample2/Sample2/Snode.cpp:3-83 | a step as one node sees it is the network's step, in every state that holds the node and the block it reads |
| SnodeSteps.ReadAfterQueueing | Sample2/Sample2/Snode.cpp:124-166 | a block may be read before or after blocks for A nodes are queued, with the same outcome |
| SnodeObject.Snode.MainPass | Sample2/Sample2/Snode.cpp:5-83 | a pass of main is a finite sequence of steps of the transition system, after which the node has none left to do; it reports that it did nothing exactly if nothing was to be done, and then changed nothing |
| SnodeObject.SleepsIsDisabled | Sample2/Sample2/Snode.cpp:16-82 | main lets a node sleep exactly when none of its actions is enabled in the transition system |
| SnodeObject.Snode.SendBlock | Sample2/Sample2/Snode.cpp:218-228 | the block is delayed until the present moment plus its latency, and a notification is pending for that moment |
| SnodeObject.Snode.QueueA | Sample2/Sample2/Snode.cpp:126-137 | likewise for a block for an A node |
| SnodeObject.Snode.NoBlockIsLate | Sample2/Sample2/Snode.cpp:85-122 | a block that is still delayed is due now or later and has a notification pending for that moment, so time cannot pass it |
| SnodeObject.Snode.DelayedSend | Sample2/Sample2/Snode.cpp:85-122 | pending notification times always match the keys of the delayed blocks, so each firing delivers exactly one block that is due, k before lb before routing blocks, and the branch without a block is unreachable |
| SnodeObject.BalancedFinds | Sample2/Sample2/Snode.cpp:85-122 | a pending notification always has a delayed block that is due then |
| SnodeObject.Snode.SendToConnectedA | Sample2/Sample2/Snode.cpp:124-166 | one more delayed block for every attached A node, in order, each with its notification; one waiting block is read after the 1st, 21st, 41st and so on, and the outcome is reached by steps from the state in which all are queued |
| AnodeObject.Anode.CheckIncoming | Sample2/Sample2/Anode.cpp:11-45 | one call is the function Check: a due signature is sent before anything is read, k blocks are read before lb blocks, and each lb block read leads to one signature |
| AnodeObject.CheckIsStep | Sample2/Sample2/Anode.cpp:11-45 | each call is an enabled step of the transition system, or changes nothing there |
| AnodeObject.ReadingDelays | Sample2/Sample2/Anode.cpp:11-45 | a call is followed by a delay exactly if it has read a block, and only a call that reads an lb block leads to a signature |
| AnodeObject.DelayHoldsBack | Sample2/Sample2/Anode.cpp:11-45 | a block that comes during a delay stays where it is until the delay ends |
| AnodeObject.LBWaitsForK | Sample2/Sample2/Anode.cpp:11-45 | an lb block that comes while a k block is processed is read after that |
| AnodeObject.EndsAsExpected | Sample2/Sample2/Anode.h:44-52 | however its K and its LB block are timed, an A node at rest has signed exactly once, and it is as its destructor asks exactly if K did not come while the signature was being made |
| AnodeObject.KStaysUnread | Sample2/Sample2/Anode.cpp:11-45 | LB is read, K comes, the signature is sent: K stays unread |
| Attachment.Attach | Sample2/Sample2/Top.cpp:15-31 | the loop appends every A node to the list of the S node drawn for it |
| Attachment.AttachedOnce | Sample2/Sample2/Top.cpp:15-31 | every A node is attached to exactly one S node, once |
| Attachment.AttachedIsCounted | Sample2/Sample2/Top.cpp:15-31 | the lists have the lengths that the transition system counts |
| DiskBacklog.Leader.UpdateDiskInfo | Sample2/Sample2/Snode.cpp:306-339 | the code is the update function on time and backlog, and only the leader's disk changes |
| DiskBacklog.BitsAreAccounted | Sample2/Sample2/Snode.cpp:306-339 | bits in = bits drained + backlog + bits thrown away by same-time updates, for all histories |
| DiskBacklog.ConservationHolds | Sample2/Sample2/Snode.cpp:306-339 | bits in = bits drained + backlog exactly if no update came at the moment of the previous one with a backlog left |
| DiskBacklog.BacklogFormulaHolds | Sample2/Sample2/Snode.cpp:306-339 | after every update the backlog is the maximum over suffixes of bits added - speed * time elapsed, exactly under the same condition |
| DiskBacklog.StrictlyIncreasingTimes | Sample2/Sample2/Snode.cpp:306-339 | with strictly increasing times both laws hold |
| DiskBacklog.BacklogNotNegative | Sample2/Sample2/Snode.cpp:306-339 | the backlog is never negative |
| DiskBacklog.SameTimeLosesBacklog | Sample2/Sample2/Snode.cpp:311-325 | two writes at one moment: 15 bits in, 5 kept, none drained |
| BallotRecord.Record.ProcessBlock | Sample3/Sample3/Mnode.cpp:195-232 | a vote adds its voter; there is one winner more exactly if that made the number of voters rqVotes, and then the present moment is its win time; every other tally and win time stays; the index stays inside winTimes and the record consistent |
| BallotRecord.CountConsistent | Sample3/Sample3/Mnode.cpp:195-232 | currMaxVotes stays the largest tally, currWinners the number of nodes with rqVotes votes, win times stay ordered |
| BallotRecord.Record.Recount | Sample3/Sample3/Top.cpp:64-94 | the destructor's loops compute the sums that the winners and votes are compared with |
| BallotRecord.WinnersBelowTallies | Sample3/Sample3/Top.cpp:64-94 | winners times rqVotes never exceeds the number of different votes |
| Ballots.VotesAreComplete | Sample3/Sample3/Mnode.cpp:195-232 | in every reachable state a vote was cast exactly if it is recorded or under way; a run that cannot be continued was halted, or has recorded for every node exactly those that chose it |
| Ballots.WinTimesAreMoments | Sample3/Sample3/Mnode.cpp:213-217 | in every reachable state win time i is the moment of the step in which the number of winners went from i to i + 1 |
| Ballots.VotingTerminates | Sample3/Sample3/Mnode.cpp:14-24 | every run has at most Mnum rndNum (Mnum + 1) steps |
| Ballots.NextInv | Sample3/Sample3/Mnode.cpp:14-24 | casting, passing on and counting votes in any order keeps the invariant |
| Ballots.VotesAreRight | Sample3/Sample3/Mnode.cpp:195-232 | in every reachable state recorded voters have voted for that node, the record agrees with a recount, win times never decrease, and currWinners * rqVotes is at most Mnum * rndNum |
| ChordRange.RangeIsClosedArc | Sample4/src/inc.cpp:102-124 | isInRangeOverZero decides membership in the closed clockwise arc, for every ring size |
| ChordRange.RangeNotIncIsOpenArc | Sample4/src/inc.cpp:128-150 | isInRangeOverZeroNotInc decides the open arc, where from = to means everything else |
| ChordRange.InRangeIsClosedArc | Sample4/src/inc.h:669-709 | inRange decides the closed arc, mirrored for counter-clockwise fingers |
| ChordRange.InitFingers | Sample4/src/trp/low_latency_chord.cpp:409-438 | the loops give finger i the offsets above 2^(i-1) up to 2^i, in both directions |
| ChordRange.FingersTile | Sample4/src/trp/low_latency_chord.cpp:409-438 | the intervals are disjoint and tile the offsets 1 .. 2^(size-1) exactly |
| ChordLookup.HopHalves | Sample4/src/trp/low_latency_chord.cpp:1327-1397 | with exact pointers a reply names the true successor, and a forward uses a regular finger and more than halves the distance to the last node at or before the target |
| ChordLookup.LookupFindsSuccessor | Sample4/src/trp/low_latency_chord.cpp:1310-1479 | on a stabilised ring every periodic lookup of every node for every finger is answered with the true successor after at most W forwards, and the retransmit guard never drops it |
| ChordLookup.FindReplies | Sample4/src/trp/low_latency_chord.cpp:1328-1371 | from any pointers, right or wrong: a target in one of the two arcs a node knows is answered with the end of that arc |
| ChordLookup.FindFallsBack | Sample4/src/trp/low_latency_chord.cpp:1373-1425 | from any pointers: beyond these arcs the last finger on the way is used, then the first finger that is another node, then the predecessor, then the node itself |
| ChordLookup.FilledIsExact | Sample4/src/trp/low_latency_chord.cpp:2334-2356 | a node with exact neighbours that has stored the true successor of id + 2^k for every finger k is exact |
| ChordLookup.RefreshKeepsExact | Sample4/src/trp/low_latency_chord.cpp:2334-2356 | a refresh with the right node leaves an exact node exact |
| ChordLookup.JoinIsAnswered | Sample4/src/trp/low_latency_chord.cpp:792-836 | on a stabilised ring a join, whomever it contacts, is answered by the node whose arc contains the joiner after at most W + 1 forwards, and is never dropped |
| ChordLookup.StaleAnswerIsFarther | Sample4/src/trp/low_latency_chord.cpp:2346-2353 | five nodes with exact predecessors and stale successors, one of which gets a successor farther away than the one it has |
| ChordGuard.JoinHopIsHandled | Sample4/src/trp/low_latency_chord.cpp:792-836 | following a join from node to node is what the nodes do with their JOIN messages: drop it, answer it with the old predecessor, or pass it on with their own id and one more forward |
| ChordGuard.HopAdvances | Sample4/src/trp/low_latency_chord.cpp:1327-1478 | a node that knows its neighbours, whatever its other fingers, sends a join on to a node between itself and the one that has to answer |
| ChordGuard.JoinReachesOwner | Sample4/src/trp/low_latency_chord.cpp:512-526 | among m nodes that know their neighbours, a join within the bound is answered by the joiner's true successor after at most m - 1 forwards |
| ChordGuard.JoinCanBeDropped | Sample4/src/trp/low_latency_chord.cpp:512-526 | beyond the bound, for every number of identifiers, nodes and fingers: a ring with exact neighbours and a join that is dropped on it |
| ChordGuard.GuardIsWideEnough | Sample4/src/trp/low_latency_chord.cpp:512-526 | every join on every ring of m nodes with exact neighbours is answered if and only if the finger tables are large enough for m |
| ChordLookup.ReplyIsRight | Sample4/src/trp/low_latency_chord.cpp:1328-1371 | an answer from predecessor, node or successor is the true successor of the target |
| ChordRing.AnswerIsInArc | Sample4/src/trp/low_latency_chord.cpp:1373-1478 | a join is answered only by a node whose arc contains the joiner; a node with neighbours never takes the go-home branch for a join |
| ChordRing.AdmitInserts | Sample4/src/trp/low_latency_chord.cpp:792-836 | an admission puts the joiner between the answering node and its old predecessor and changes no other effective predecessor |
| ChordRing.NotifyChangesNothing | Sample4/src/trp/low_latency_chord.cpp:2188-2204 | in every state of the invariant a NOTIFY leaves the predecessor alone |
| ChordRing.OwnLookupFindsOther | Sample4/src/trp/low_latency_chord.cpp:2346-2353 | nobody answers a node's lookup for its first finger with that node, so the answer always becomes its successor |
| ChordRing.NextInv | Sample4/src/trp/low_latency_chord.cpp:579-952 | every step of joining, stabilising, notifying and finger refreshing, the first finger included, keeps the ring |
| ChordRing.PredecessorsAreTheRing | Sample4/src/trp/low_latency_chord.cpp:792-836 | in every reachable state, however joins overlap, the predecessors, counting the one in an undelivered answer, are exactly the clockwise order of all admitted nodes |
| ChordRing.SettledPredecessors | Sample4/src/trp/low_latency_chord.cpp:613-618 | once no answer is on its way, every node's own predecessor is exact |
| ChordStabilise.SuccessorsConverge | Sample4/src/trp/low_latency_chord.cpp:2236-2250 | in every run after the last join: predecessors stay exact, each change of a successor brings it strictly nearer without passing the true one, there are at most as many changes as it skips nodes, and an exact one stays |
| ChordStabilise.ReachableSettles | Sample4/src/trp/low_latency_chord.cpp:875-952 | every reachable state in which no join is under way is a start for those runs |
| ChordStabilise.AnswerTaken | Sample4/src/trp/low_latency_chord.cpp:2236-2250 | taking the predecessor of the present successor leaves that successor alone exactly if it is the true one |
| ChordStabilise.RoundProgress | Sample4/src/trp/low_latency_chord.cpp:924-946 | in every run, between the moment a node asks its successor and the moment it takes the answer, its successor has changed, or it is exact |
| ChordStabilise.RoundsMakeExact | Sample4/src/trp/low_latency_chord.cpp:924-946 | after as many completed rounds as its successor skipped nodes, a node's successor is the true one for the rest of the run, whatever else happens meanwhile |
| ChordConverge.CanConverge | Sample4/src/trp/low_latency_chord.cpp:875-952 | from every state of the invariant, joins under way or not, the ring can be brought to rest with all predecessors and successors exact |
| ChordConverge.RunsCanConverge | Sample4/src/trp/low_latency_chord.cpp:875-952 | every run of the joining network, however far, can be continued until the pointers are the clockwise order of all admitted nodes |
| ChordConverge.StableIsExact | Sample4/src/trp/low_latency_chord.cpp:2236-2250 | after the last join, no continuation changes any successor exactly if all are exact |
| ChordNode.Node.constructor | Sample4/src/trp/low_latency_chord.cpp:409-455 | a node starts with every address its own |
| ChordNode.Node.FindSuccessorOf | Sample4/src/trp/low_latency_chord.cpp:1310-1479 | the scans over the finger table with their early exits make the decision that the ring and lookup theorems are about |
| ChordNode.Node.ServeJoin | Sample4/src/trp/low_latency_chord.cpp:792-836 | a join is answered with the old predecessor, or passed on with the node's own id as sender and one more forward |
| ChordNode.Node.TakeSuccessor | Sample4/src/trp/low_latency_chord.cpp:613-618 | the first answer gives the joiner its successor, its first finger and its predecessor; later ones change nothing |
| ChordNode.Node.TakePredecessor | Sample4/src/trp/low_latency_chord.cpp:924-946 | after a stabilisation the successor is notified |
| ChordNode.Node.Receive | Sample4/src/trp/low_latency_chord.cpp:765-952 | the new pointers and the messages sent are those of the network's receiving step |
| ChordNode.Node.FillFinger | Sample4/src/trp/low_latency_chord.cpp:2334-2356 | the answer to a lookup is stored as that finger and no other; the successor follows the first finger unless the answer is the node itself, and stays otherwise |
| ChordNode.Node.AskFor | Sample4/src/trp/low_latency_chord.cpp:1825-1866 | the first hop of a lookup for finger k is the finger with the highest index below k that is not the node itself, or the seed; for finger 0 it is the finger itself |
| Scheduler.ServedTakesOne | Sample4/src/trp/low_latency_chord.cpp:193-227 | a message is taken exactly if some buffer holds one; it is the head of one buffer and no other message is touched |
| Scheduler.WaitingDrops | Sample4/src/trp/message_buffer.h:321-343 | every call that serves another buffer shortens the wait of each waiting buffer |
| Scheduler.HeadIsServed | Sample4/src/trp/low_latency_chord.cpp:193-227 | while time stands still and immediate buffers are empty, the head of any buffer is served within twice the sum of the limits (the smaller of maxDeep and maxSize of each buffer), whatever is appended meanwhile |
| MessageScheduler.TimerFallsDue | Sample4/src/trp/low_latency_chord.cpp:237-248 | when a timer of each of the five kinds falls due |
| MessageScheduler.MessageBuffers.FirstByImmediate | Sample4/src/trp/message_buffer.h:321-343 | one buffer yields its head exactly if it is immediate or has been called less often at this moment than maxDeep and maxSize allow, and counts the call |
| MessageScheduler.MessageBuffers.ClearCounters | Sample4/src/trp/low_latency_chord.cpp:212-225 | every buffer that holds a message gets its whole credit back, the others stay as they are |
| MessageScheduler.MessageBuffers.Push | Sample4/src/trp/message_buffer.h:85-97 | a full buffer loses its oldest message and says so; no buffer exceeds its size |
| MessageScheduler.MessageBuffers.FirstMessage | Sample4/src/trp/low_latency_chord.cpp:193-227 | the loops end after at most two rounds with the head of the chosen buffer, or with all buffers empty |
| MessageScheduler.MessageBuffers.FirstTimer | Sample4/src/trp/low_latency_chord.cpp:229-282 | the first timer that is due is taken; otherwise the core is woken when the next one falls due |
| MessageScheduler.MessageBuffers.Next | Sample4/src/trp/low_latency_chord.cpp:193-293 | a message is returned exactly if a buffer holds one or a timer is due, never a timer before a message, and exactly that message is erased; if nothing is returned, the core is woken when the next timer falls due; a timer that is alone fires exactly when the timeout of its own kind has passed |
| Network.Network.PushIntoNetwork | Sample4/src/net/network.cpp:25-52 | messages for unknown nodes are dropped, others appended, and a receive check is pending |
| Network.Network.CheckReceive | Sample4/src/net/network.cpp:55-111 | every idle queue gets a slot exactly up to the first one that cannot be routed, so all are taken care of exactly if every idle head is routable, and always if all queued messages have known nodes, which pushing a message of a known sender, checking and sending keep |
| Network.UnknownSenderBlocks | Sample4/src/net/network.cpp:25-111 | a message of an unknown sender is accepted and leaves the queue behind it idle without a check |
| Network.Network.Send | Sample4/src/net/network.cpp:261-288 | exactly the queues whose time has come deliver their head; delivered followed by queued stays what was pushed, in order |
| Sha1Transform.Transform | Sample4/src/trp/sha1.hpp:128-228 | for every digest and block the eighty unrolled steps compute the compression of FIPS 180-4, section 6.1.2 |
| Sha1Definition.RotationIsDoubling | Sample4/src/trp/sha1.hpp:69-72 | rotations by 1, 5 and 30 bits in terms of doubling with carry |
| Sha1Example.AbcHash | Sample4/src/trp/sha1.hpp:280-322 | the definition gives "abc" the hash of the first test vector of RFC 3174, section 7.3 |
| Sha1Transform.Rol | Sample4/src/trp/sha1.hpp:69-72 | the code's shifts are the rotation of the definition |
| Sha1Transform.Blk | Sample4/src/trp/sha1.hpp:75-78 | the sixteen words that are kept give the next word of the message schedule |
| Sha1Transform.StepIsRound | Sample4/src/trp/sha1.hpp:85-121 | renaming the registers instead of moving them is one round of the definition |
| Sha1Transform.Choice | Sample4/src/trp/sha1.hpp:85-97 | the code's choice function is Ch |
| Sha1Transform.Majority | Sample4/src/trp/sha1.hpp:108-113 | the code's majority function is Maj |
| Sha1Stream.BytesOfWord | Sample4/src/trp/sha1.hpp:231-241 | the first byte of a word is its most significant one |
| Sha1Stream.HexDigits | Sample4/src/trp/sha1.hpp:313-319 | the sixteen digits |
| Sha1Stream.BufferToBlock | Sample4/src/trp/sha1.hpp:231-241 | sixty-four bytes become sixteen big-endian words |
| Sha1Stream.Sha1.Update | Sample4/src/trp/sha1.hpp:257-273 | after update the object stands for the old message followed by the new bytes |
| Sha1Stream.StateDetermined | Sample4/src/trp/sha1.hpp:257-273 | digest, buffer and counter depend on the bytes alone, not on how they were cut into calls |
| Sha1Stream.OneMoreBlock | Sample4/src/trp/sha1.hpp:280-311 | up to 55 waiting bytes: padding and length fit one block of the padded message |
| Sha1Stream.TwoMoreBlocks | Sample4/src/trp/sha1.hpp:296-311 | more waiting bytes: the length needs a block of its own |
| Sha1Stream.WrappedCount | Sample4/src/trp/sha1.hpp:283 | the 64-bit block counter gives the right length modulo 2^64 even when it has wrapped |
| Sha1Stream.Sha1.Final | Sample4/src/trp/sha1.hpp:280-322 | the result is the hexadecimal form of the SHA-1 of the padded message of section 5.1.1, and the object is ready for the next one |
| JsonPointer.ReplaceSubstring | Sample4/json-release-3.10.4/include/nlohmann/detail/string_escape.hpp:24-33 | the in-place loop replaces every occurrence from left to right and never searches replaced text |
| JsonPointer.EscapeIsEncode | Sample4/json-release-3.10.4/include/nlohmann/detail/string_escape.hpp:42-47 | the two passes of escape write each character by its own code |
| JsonPointer.UnescapeIsDecode | Sample4/json-release-3.10.4/include/nlohmann/detail/string_escape.hpp:56-60 | on well-escaped text the two passes of unescape read left to right what RFC 6901 says |
| JsonPointer.EscapedTilde | Sample4/json-release-3.10.4/include/nlohmann/detail/string_escape.hpp:42-60 | the token "~1" is written "~01" and read back, which depends on the order of the passes |
| JsonPointer.ParsedPointers | Sample4/json-release-3.10.4/include/nlohmann/detail/json_pointer.hpp:786-844 | examples of RFC 6901, section 5 |
| JsonPointer.UnescapeEscape | Sample4/json-release-3.10.4/include/nlohmann/detail/string_escape.hpp:42-60 | unescape undoes escape for every string |
| JsonPointer.EscapeUnescape | Sample4/json-release-3.10.4/include/nlohmann/detail/string_escape.hpp:42-60 | escape undoes unescape on every well-escaped token |
| JsonPointer.SplitString | Sample4/json-release-3.10.4/include/nlohmann/detail/json_pointer.hpp:786-844 | the loop returns the unescaped tokens, or error 107 or 108 |
| JsonPointer.ToStringLoop | Sample4/json-release-3.10.4/include/nlohmann/detail/json_pointer.hpp:65-73 | the fold prints a slash and the escaped text for every token |
| JsonPointer.SplitToString | Sample4/json-release-3.10.4/include/nlohmann/detail/json_pointer.hpp:52-73 | parsing a printed pointer gives its tokens back, for every list of tokens |
| JsonPointer.ToStringSplit | Sample4/json-release-3.10.4/include/nlohmann/detail/json_pointer.hpp:786-844 | printing a parsed pointer gives the text back, for every accepted text |
| JsonPointer.SplitAccepts | Sample4/json-release-3.10.4/include/nlohmann/detail/json_pointer.hpp:786-844 | accepted are exactly the empty text and the well-escaped texts that begin with a slash; the others get error 107 or 108 as documented |

## Left out

- Fields of blocks and messages that no decision depends on (senders, info fields, message identifiers), counters of
  blocks received and sent, logging, snapshots and output.
- Simulated time in the agreement: latencies and bandwidth delays are replaced by arbitrary order of steps; handlers of
  one node are atomic, since only its own thread writes its flags.
- The K blocks of A nodes lead to nothing, so the transition system only counts them until delivery; what an A node does
  with its own is in `AnodeObject`.
- Overflow of `bigFifo` (a million blocks), and rings of more than 2^30 nodes.
- Sample3 is modelled with equal numbers of S and M nodes, since its routing uses one and its node table the other;
  votes of one node may interleave with other steps, which only adds runs; sc_stop ends the run at once.
- Chord: timeouts, retries, acknowledgements, inaccessible fingers, resets and the memory list of sent messages; every node
  joins once with a fresh identifier, and a joiner contacts a node of the ring.
- Chord: the transmit buffers between a handler and the network. A message is on its way when the handler creates it, and
  messages to one node arrive in that order.
- Chord: answers to lookups while nodes join are represented by arbitrary refreshing of fingers. Runs of `ChordStabilise`
  leave out refreshing the first finger, because of `StaleAnswerIsFarther`.
- ChordNode.Node.FindSuccessorOf: all latencies are equal, the code's default, so the choice between two fingers by latency
  (Sample4/src/trp/low_latency_chord.cpp:1390-1393) keeps the first, and the branch for a forbidden finger (lines
  1439-1458) cannot be taken.
- ChordNode.Node.Receive: the messages of joining, stabilising and notifying; acknowledgements and timers are not modelled,
  and a SUCCESSOR message after the join is the answer to a lookup, which is `FillFinger`. NOTIFY is taken as with
  acknowledgements switched on; without them the code ignores it, which by `NotifyChangesNothing` leads to the same.
- The joiner's timer, which repeats a join that was dropped, is not modelled.
- ChordStabilise.RoundsMakeExact: that a node completes rounds is assumed of the run; update timers are not modelled.
- Counter-clockwise lookups, `forceUpdateFingerTable` and `setPredecessorThanSuccessor`, which are switched off, and the
  application traffic.
- `message_buffer::mess`, `eraseTxMess`, `findAllMess` and `eraseAllMess`.
- Network: random dispersion of latencies (any delay is allowed), and the types of messages apart from the change from
  transmitted to received.
- SHA-1: reading from streams and files; messages are byte sequences, so their length in bits is a multiple of eight.
- JSON pointer evaluation and flattening, which need the JSON value type; nlohmann::basic_json is not part of this model.
- Sample1, the C++ configuration and the monitor.
