# A verified model of the DAG consensus engine

The engine keeps, on every node, a store of *events*. An event names two parents: its creator's previous
event and the last event known of some other peer. From the parents' stored *frame numbers* and *flag
tables* a node computes the new event's frame number, whether it is a *root* (the first event of its creator
in its frame), and the flag table it is stored with. The table is pruned by what this particular node has
finalised. When an event sees a high enough root of every peer, the node sorts a run of frames and calls
them final. Nodes exchange events by gossip, and a consumer on each node polls for the transactions of final
frames.

The project proves that this gives agreement. Over every run of a cluster of any size, whatever any two nodes
have finalised at any two moments, one record sequence is a prefix of the other, and so are the items their
consumers have received. The final order has the transactions of each peer exactly as they were submitted to
it. This holds of every node that was never brought an event it had already, and the project proves that these
are exactly the nodes whose frames can be trusted.

## How the proof is built

1. `Dag` defines frame numbers, roots and coverage on the event graph alone, with no table, node or history,
   and proves the graph facts: majority certificates, quorum intersection, one root per creator and frame,
   no frame skipped, and that a store covering a frame already holds every event of all frames below.
2. `Cores`, `Stores`, `FlagTables`, `Peers`, `Frames` model one node the way the source is written: classes
   with mutable fields, loops over tables, the finalisation loop. Every method is proved against a function
   on the value of the object (`State()`).
3. `Refinement` proves that a node's pruned tables compute exactly what `Dag` defines, and that the frame up
   to which a node finalises is exactly the highest frame that one of its events covers. `Freshness` says
   exactly when an insertion keeps this true, and `Soundness` what any insertion keeps.
4. `Protocol` models the three procedures, `Stream` the consumer's cursor, `Nodes` and `Steps` the invariants
   of one node and what each procedure does to them.
5. `Cluster` is a state machine of many nodes with messages that may be delayed, overtaken or lost; `Runs`,
   `Exchanges` and `Schedules` state the results over all its runs. `Effects` says what single steps do, told
   without the functions they are computed with, and `Ledger` follows the transactions from submission to the
   consumer.
6. `Histories`, `Meetings` and `Progress` build runs: from every reachable state finality can be made to grow.
   `Overlaps` builds runs whose requests overlap, so that a node is hit. `Witnesses` uses both to show, from
   every start of two nodes or more, that the conditions of the results are needed.

A node has two invariants. `NodeSound` speaks of events, indexes, heads, clocks and records and holds in every
state of every run. `CoreTrue` adds that frame numbers, flag tables, frames and finality are what the event
graph determines. It is lost exactly when a reply brings the node an event it has already: the node is then
*hit*. `CoreExact` is `CoreTrue` but for repeated records. A hit keeps it when the event's own frame is still
open; when it is final, the final sequence holds the event twice from then on (`Runs.ExactOrRepeats`). Either
way agreement can be broken, by a continuation that hits nobody (`Witnesses.HitBreaksAgreement`).

Methods come with the functions they implement; what the source promises is proved about those functions.
A lookup that the source unwraps is a precondition of the method that performs it. These preconditions hold
in every reachable state: `Runs.ProcedureAFindsItsParents`, `Cluster.DeliveryIsSound` and
`Runs.PollsServeInOrder` say so.

## What is assumed

- A hash determines the fields it covers, and no event is its own ancestor: `EventHash` is a free
  constructor over the hashed fields. The order of hash bytes is a number `digest` that differs for
  different events of the run.
- All nodes boot with the same non-empty set of peers, under distinct names, with heights and times zero, in
  lists built by adding the peers one at a time, on each node in its own order. Results on the contact
  schedule, procedure A and the stream are for two peers or more.
- Every event is created by procedure A on its creator's node, so that no chain forks.
- The sending of a request, the creation of an event, the answer to a request, the application of a reply, a
  submission and a poll are single steps. A node's requests and creations alternate, each event being created
  on the contact last asked, as in procedure A; steps of every other kind, and of other nodes, come between
  them in any order.

Freshness of deliveries is not assumed of the cluster. The engine does not check it, and overlapping requests
break it (`Witnesses.SecondAnswerHits`). Results about frames name it as a condition on the node they speak of
(`Unhit`), results about events, gossip, clocks and transactions do not need it.

## Where the code differs from its comments or from what one would expect

The model follows the code.

- `open_merge_flag_table` filters only its first table (src/flag_table.rs:66-82); the comment at
  src/flag_table.rs:56-59 says it filters both. `Stores.StaleEntriesAreHarmless` and
  `Refinement.VisibleIsTrue` prove that the entries left over decide nothing.
- `derive_creator_flag_table` keeps the largest frame of each creator (src/store.rs:84-93); the comment at
  src/store.rs:56-58 says the smallest.
- `next_peer` uses `current`, which its comment says is always zero and omitted (src/peer.rs:297-301).
- The stream's cursor is stepped at the end of a frame (src/lib.rs:685) and once more, without being written
  back, when the next frame is entered (src/lib.rs:645). While it names frame f, from 1 on, the stream
  therefore serves the first event of frame f + 1 and then frame f but for its first event. All nodes do this
  alike, so that consumers still agree (`Runs.ConsumersAgree`), but the order is the final one only under the
  conditions of `Stream.RoundFollowsFinalOrder` and `Stream.RecordsFollowFinalOrder`, and the first event of
  frame 1 is never served. `Witnesses.StreamLeavesFinalOrder` gives runs where the consumer can tell.
- Nothing keeps a node from applying an event twice (src/lib.rs:121-135, src/store_sled.rs:78):
  `Runs.NodeIsTrueUntilHit`, `Runs.HitNodeDisagrees` and `Witnesses.AgreementNeedsFreshness` say what that
  costs a node, `Witnesses.ConsumersNeedFreshness` what it costs its consumer.

## Model

| member | source | states |
|---|---|---|
| Runs.Agreement | src/core.rs:277-305 | in every run, the final sequences of any two nodes that no stale delivery has hit, at any two moments, are comparable: one is a prefix of the other, record for record |
| Runs.NodeIsTrueUntilHit | src/lib.rs:121-135 | a node's frames, tables and finality can be trusted if and only if no reply has brought it an event that it had already; what happened to other nodes does not matter |
| Ledger.FinalTransactions | src/lib.rs:600-696 | over any run, in the final order of a node that is not hit the transactions of each peer stand exactly as they were submitted to it: in that order, none missing or repeated, up to a point at or past every event of a final frame that the peer ever created |
| Ledger.DeliveredWasSubmitted | src/lib.rs:600-696 | over any run, the consumer of a node that is not hit receives no transaction more often than it was submitted, and always under the name of the peer it was submitted to |
| Ledger.ChainInFinalOrder | src/core.rs:277-305 | up to any place of the final order, the transactions of a peer are those of its self-parent chain up to its last event so far |
| Runs.HitNodeDisagrees | src/store_sled.rs:69-80 | a node that was hit has an event recorded twice for good; once that event's frame is final, its final sequence repeats the record and is no longer comparable with that of any node that was not hit, as soon as the latter reaches the repetition |
| Runs.HitIsForGood | src/store_sled.rs:69-80 | the first stale delivery to a node gives an event of that very reply a second record in every later state |
| Runs.ExactOrRepeats | src/core.rs:183-308 | in every reachable state the frame numbers, tables and finality of every node, hit or not, are what the event graph determines, or the node repeats a record of its final sequence for good |
| Witnesses.SecondAnswerHits | src/lib.rs:213-316 | from every start of two or more peers, for every node, a run of procedure A hits it and nobody else: it asks its contact, goes once round its schedule creating an event at each call, asks it again and goes round once more, and only then is answered |
| Witnesses.HitBreaksAgreement | src/core.rs:260-305 | every run in which a node is hit and another is not can be continued, hitting nobody, to one where their final sequences are incomparable |
| Witnesses.RepetitionSurfaces | src/core.rs:260-305 | every run in which a node is hit can be continued, hitting nobody, to one where its final sequence repeats a record |
| Witnesses.AgreementNeedsFreshness | src/lib.rs:121-135 | from every start of two or more peers, for any two nodes, a run hits one, not the other, and leaves them with incomparable final sequences |
| Witnesses.ConsumersNeedFreshness | src/lib.rs:600-696 | from every start of two or more peers, for any two nodes and any two different transactions, a run hits one, not the other, and what their consumers have received is incomparable |
| Overlaps.HitRun | src/lib.rs:213-316 | from every start of two or more peers, for every node and any number from two on, a run of procedure A hits it alone and leaves it with at least that many records of one event, because its first requests to one contact were all answered from the same knowledge |
| Witnesses.Drain | src/lib.rs:600-696 | any number of polls of a node delivers the next items of its stream, in order and as far as there are any, and touches nothing but its cursor |
| Witnesses.StreamBegins | src/lib.rs:638-686 | where one event alone carries a transaction below some frame, the stream begins with as many copies of it as there are records of the event on the way, and goes on with what that frame carries |
| Witnesses.StreamLeavesFinalOrder | src/lib.rs:638-686 | from every start of two or more peers, for any node and any two different transactions, a run that hits nobody makes the first item the node's consumer receives carry one of them while the first item in final order carries the other |
| Progress.FinalityCanGrow | src/core.rs:260-305 | from every reachable state of two or more nodes there is a continuation, hitting nobody, that makes any number of frames final on every node whose frame numbers, tables and finality are exact |
| Progress.CoverFrame | src/core.rs:260-278 | by meetings alone every node's last event can be brought to cover any frame |
| Progress.Climb | src/core.rs:198-227 | whatever frame all last events have reached, an epoch, a meeting and another epoch take all past it |
| Progress.NextFrame | src/core.rs:198-227 | an event on two tips of a frame, one of which sees every peer's tip of that frame, enters the next frame |
| Progress.Epoch | src/peer.rs:296-308 | two sweeps round the ring of contacts, each node up to its successor, make every new last event an heir of every old one |
| Meetings.Meet | src/lib.rs:213-308 | a round of procedure A whose answer arrives in time puts the new event on both nodes' last events, whatever else is under way |
| Runs.ConsumersAgree | src/lib.rs:600-696 | what the consumers of any two nodes that are not hit have received at any two moments are the same items in the same order, as far as both go |
| Runs.PollsServeInOrder | src/lib.rs:600-696 | over any run each poll of any node, hit or not, serves exactly the item of its stream that the cursor has come to, waits only when nothing open is left, and never fails; at a node that is not hit the items before the cursor are those its consumer has received |
| Runs.CursorOfRun | src/lib.rs:625-691 | in every reachable state the cursor of every node, hit or not, points into its stream |
| Runs.StreamOfRun | src/lib.rs:625-691 | in every reachable state a consumer has received exactly what lies before the cursor |
| Runs.FinalityIsPermanent | src/core.rs:277-305 | the final sequence at any moment of a node that is not hit is a prefix of its own final sequence at every later moment |
| Runs.FrameNumbersAgree | src/core.rs:198-240 | whatever order events arrived in and whatever was final at the time, an event stored at a node that is not hit has the frame number that its ancestors alone determine |
| Runs.TablesAreExact | src/core.rs:235-254 | over any run, at a node that is not hit: the table of an event stays as it was stored, and is exact from the frame first open at the event's insertion on, however much has become final since |
| Runs.SomeStepBrought | src/lib.rs:107-308 | every event a node has beyond the leaves it booted with was brought to it by some step of the run, which `TablesAreExact` speaks of |
| Runs.OwnTablesAreExact | src/core.rs:235-254 | over any run, at a node that is not hit, every stored event has a table that is exact from the event's own frame on, final or not |
| Runs.FinalFramesAreComplete | src/core.rs:260-299 | once a node that is not hit has finalised a frame it holds a record of every event of that frame that any node ever creates, earlier or later |
| Runs.EveryStateIsSound | src/lib.rs:107-416 | in every state of every run, stale deliveries or not: events, indexes, heads and clocks of all nodes, messages under way, the event graph and the transactions are sound |
| Runs.StatesGrow | src/lib.rs:107-416 | along any run the event graph, every store, every frame's records and the number of final frames only grow |
| Runs.GraphOfRun | src/lib.rs:245-308 | the graph of all events ever created is closed under parents and has no two events of one creator and height |
| Runs.ClockCondition | src/lib.rs:115-119 | every clock is at least every Lamport time in its node's store, every reply's clock at least those it carries, and every event is strictly later than all its ancestors |
| Runs.HeightsNameStoredEvents | src/lib.rs:144-150 | in every reachable state each peer's height names the last of its events in the store, found under that creator and height |
| Runs.TransactionsAreConserved | src/core.rs:135-147 | over any run, the transactions of a node's own events by height followed by its pool are exactly those submitted to it, in order, at most 16000 in an event |
| Runs.ProcedureAFindsItsParents | src/lib.rs:213-282 | with two or more peers procedure A is never stuck: a node that has asked finds both parents of its next event and can create it, one that has not can ask another peer |
| Effects.CreationTakesHeads | src/lib.rs:245-308 | over any run, a new event stands on the creator's last event and on the last event it has of the contact it asked; it takes the front of the pool, leaving some only when it carries 16000; its time is the stepped clock |
| Effects.ClocksMove | src/core.rs:131-169 | over any run a clock starts at zero, moves one on with each event its node creates, to a message's time when that is later, and at no other time |
| Effects.RequestWasSent | src/lib.rs:228-239 | every request under way was sent at an earlier step by the node it names, to a peer, with that node's clock and the times and heights it then listed |
| Effects.ReplyWasSent | src/lib.rs:363-390 | every reply under way answers a request, back to its sender, with the later of the two clocks, the times and heights the answering node listed, and the gap-free suffixes of its store |
| Effects.AnswersCarryClocks | src/lib.rs:363-390 | an answer raises the answering node's clock, and its entry of the asker, to the asker's clock when the request was sent, and changes nothing else there |
| Effects.TimesAreHeard | src/lib.rs:144-150 | in every reachable state, hit or not, a node's entry of each other peer has at least the time of each of that peer's stored events, and no entry is ahead of the node's clock |
| Cluster.InitialIsSound | src/core.rs:60-115 | freshly booted nodes with no message under way satisfy the cluster's invariant and each node's own |
| Cluster.StepsKeep | src/lib.rs:107-416 | every enabled step keeps the cluster's invariant and loses no event and no record of any node |
| Cluster.StepTruth | src/lib.rs:107-416 | a step keeps a node's frames true, and all that is final as it was, if and only if it does not bring that node an event it has already; otherwise that event is recorded twice |
| Cluster.StepIsExact | src/lib.rs:107-416 | a step that brings a node no event it has already, or only such as are in frames still open there, keeps its numbers exact |
| Cluster.StepExactOrRepeats | src/lib.rs:107-416 | no step, stale or not, leads an exact node anywhere else: it is exact afterwards, or some event is recorded twice in a frame that is final |
| Cluster.StepTables | src/core.rs:235-254 | whatever step brings a node an event, its table is exact from the frame then first open on |
| Cluster.DeliveryIsSound | src/lib.rs:107-158 | delivering a reply, however delayed and however much of it is stored already, meets no missing parent, adds exactly its events, and keeps the node's frames true if and only if none of them was stored |
| Cluster.RequestKeeps | src/lib.rs:213-239 | sending a request keeps it, and the request's heights name events its sender has |
| Cluster.ContactIsPeer | src/peer.rs:296-308 | the contact of a request is a peer, and another one where there are two or more |
| Cluster.CreateKeeps | src/lib.rs:245-308 | creating an event on any known peer's last event keeps the invariant, the shared graph growing by that one event |
| Cluster.AnswerKeeps | src/lib.rs:348-412 | answering a request, however old, keeps it |
| Cluster.DeliverKeeps | src/lib.rs:107-158 | delivering any reply under way, stale or not, keeps the invariant |
| Cluster.ConsumeKeeps | src/lib.rs:600-696 | a poll touches nothing but the cursor |
| Exchanges.ExchangeUnitesKnowledge | src/lib.rs:107-158 | an undisturbed request, answer and delivery is always possible, never stale, and leaves the requester with exactly the union of both stores |
| Exchanges.ExchangeUnitesClocks | src/lib.rs:107-119 | an undisturbed exchange leaves both nodes with the larger of their clocks |
| Exchanges.AnswersOverlap | src/store_sled.rs:140-174 | the answers to two requests of one node both carry every event that both contacts have above the listed heights, so that once the node has it the other reply is stale |
| Cluster.ReplyIsSound | src/lib.rs:371-390 | a reply to an old request is still applicable in order: each parent of each of its events is stored at the requester or is itself in the reply, and the reply's clock covers all of them |
| Cluster.NodeStepKeeps | src/lib.rs:107-416 | replacing one node by a state that knows more disturbs neither the other nodes nor the messages under way |
| Cluster.OwnChainGrows | src/core.rs:139-147 | taking the pool's front into a new event conserves the node's transactions in order |
| Cluster.OwnChainUntouched | src/lib.rs:121-151 | applying other creators' events leaves a node's own transactions conserved |
| Freshness.InsertionNeedsFreshness | src/core.rs:183-308 | given that an event fits the graph, inserting it keeps the core's invariant if and only if it is not stored yet |
| Freshness.StaleInsertionRepeats | src/store_sled.rs:69-80 | inserting a stored inner event once more, its frame open or final, adds exactly one record of it to its own frame, so that it has a second one |
| Freshness.RepeatedForGood | src/store_sled.rs:69-80 | a second record stays through everything a core does later, and the core's invariant never holds again |
| Freshness.StaleInsertionSpoils | src/store_sled.rs:69-80 | inserting any stored inner event once more breaks the invariant, whatever is finalised in the same call |
| Nodes.FinalSequencesAgree | src/core.rs:277-305 | of two nodes over one fork-free graph, the one that has finalised fewer frames has a prefix of what the other has |
| Nodes.FinalFramesAgree | src/frame.rs:39-54 | a frame final on both nodes has the same records in the same order on both |
| Nodes.FinalFrameIsComplete | src/core.rs:260-299 | a final frame has one record for every event of that frame in the whole graph, not just of those in this store |
| Nodes.FinalityFollowsKnowledge | src/core.rs:260-305 | what is final depends on the set of stored events only and grows with it: same events, same final sequence |
| Nodes.BoundGrowsWithKnowledge | src/core.rs:260-278 | a store with more events never has a lower finality bound |
| Nodes.FinalSequenceOnlyExtends | src/core.rs:285-299 | when finality grows, the old final sequence is a prefix of the new one |
| Nodes.FinalFramesAreFrozen | src/core.rs:231-299 | no later insertion gets a frame number that is final already, and the final sequence is only extended |
| Nodes.FinalOrderRespectsCausality | src/frame.rs:39-54 | of two final events the ancestor comes first |
| Nodes.FinalOrderInFull | src/frame.rs:39-54 | of two records in final order the first has the lower frame, or in the same frame the lower Lamport time, or at the same time the lower hash |
| Nodes.FinalityInFull | src/core.rs:260-305 | a frame is final at a node if and only if some stored event has, from every peer, an ancestor of a later frame |
| Nodes.RecordsAreOrdered | src/frame.rs:39-54 | the final sequence is ordered by frame, then Lamport time, then hash, and holds records of stored events only |
| Nodes.FinalSequenceIsDistinct | src/core.rs:285-299 | no event is finalised twice by a core whose invariant holds |
| Nodes.RepetitionBreaksAgreement | src/core.rs:285-299 | a final sequence with a repetition is comparable with a true one only until the latter reaches the repetition |
| Nodes.RepeatedInFinalSequence | src/core.rs:285-299 | an event recorded twice is twice in the final sequence as soon as its frame is final |
| Nodes.IndexesAgree | src/store_sled.rs:58-111 | lookup by hash and by creator and height find the same events; each event has exactly one record in the frame it names and none elsewhere; each record points to a stored event with its Lamport time |
| Nodes.FramesHaveNoGaps | src/core.rs:198-227 | at every node, hit or not: if a stored event names frame f, no frame from 0 to f is empty |
| Nodes.FinalFramesAreNotEmpty | src/lib.rs:655-658 | at every node, hit or not, no finalised frame is empty, which the stream's index relies on |
| Nodes.FinalFramesHaveMajority | src/core.rs:200-227 | at every node, hit or not, a final frame has records of a majority of peers |
| Nodes.BootedNodeIsTrue | src/core.rs:60-115 | a booted node satisfies both its invariants over the graph of the leaves |
| Nodes.LeavesAreStored | src/core.rs:93-113 | the leaf loop stores each peer's leaf in frame 0 with an exact flag table |
| Nodes.MissingEventExtends | src/core.rs:187-195 | any event of the graph that a node lacks may be inserted as soon as the node has both parents |
| Nodes.MissingEventIsNext | src/lib.rs:144-150 | such an event is the next of its creator's chain, one above the last known height |
| Nodes.HeadsStayTrue | src/lib.rs:144-150 | raising the creator's height after an insertion makes the peer list name the last events again |
| Steps.AppliedIsSound | src/lib.rs:121-151 | applying a reply in its order never meets a missing parent; exactly its events are added, the node stays sound and no record is lost, whether or not some events were stored already |
| Steps.AppliedIsTrue | src/lib.rs:121-151 | it keeps the frames true and everything final as it was if and only if none of the events was stored already; otherwise one of them is recorded twice |
| Steps.AppliedIsExact | src/lib.rs:121-151 | a reply whose stored events are all in frames still open leaves the node's numbers exact |
| Steps.AppliedExactOrRepeats | src/lib.rs:121-151 | any reply, whatever of it is stored and final, leaves the numbers of an exact node exact or some event recorded twice in a final frame |
| Steps.AppliedTables | src/core.rs:235-254 | each new event of a reply is stored with a table that lists all roots it can reach from the frame that was first open at that event's own insertion, with the events before it in the reply applied |
| Steps.AppliedOneIsSound | src/lib.rs:121-151 | one event applied, stored already or not: the node stays sound, the creator's entry included |
| Steps.AppliedOneIsTrue | src/lib.rs:121-151 | one event applied keeps the frames true if and only if it was not stored |
| Steps.AppliedOneRaises | src/lib.rs:144-150 | applying an event raises its creator's entry to the event's time and height, never lowers it, and touches no other entry |
| Steps.AppliedRaises | src/lib.rs:121-151 | after a reply each entry has the largest of the old time and the times of that creator's events, and the largest height |
| Steps.FirstIsDeliverable | src/store_sled.rs:171-171 | in Lamport order the first event's parents are stored already, and the rest is again deliverable |
| Steps.CreatedIsSound | src/lib.rs:245-308 | creating an event leaves the node sound over the graph grown by that event |
| Steps.CreatedIsTrue | src/lib.rs:245-308 | it keeps the node's frames true and everything final as it was |
| Steps.NewEventIsFresh | src/lib.rs:245-303 | the created event forks nothing: no node has another event of that creator and height, and it is strictly later than both parents |
| Steps.AnswerIsDeliverable | src/store_sled.rs:140-174 | what a gossip query returns is closed under parents relative to any requester whose events reach the heights of its gossip list |
| Steps.AnswerIsTheDifference | src/store_sled.rs:140-174 | an answer to a node's present heights carries exactly the events the answering node has and the requester lacks |
| Steps.SuffixIsStored | src/store_sled.rs:140-174 | soundness: each event of an answer is stored at the answering node and above the requester's height |
| Steps.UnknownIsInSuffix | src/store_sled.rs:145-169 | completeness: no gap stops the query below any stored event above the requester's height |
| Steps.GossipIsKnown | src/peer.rs:310-322 | the sender of a gossip list has every event of the graph up to the heights it lists |
| Steps.HeadsMakeGossip | src/peer.rs:310-322 | a node's gossip list names the last event it has of every peer |
| Steps.ReplyClockCovers | src/lib.rs:363-390 | the answering node's clock is at least the Lamport time of each event it sends |
| Refinement.InsertionRefines | src/core.rs:183-308 | inserting a new event with known parents keeps the invariant; the event is stored with the frame number the graph determines and a table exact from the frame then first open; nothing final changes and finality does not recede |
| Refinement.InsertionIsExact | src/core.rs:183-308 | inserting an event, new or stored, whose own frame is open keeps frame numbers, tables and finality exactly what the graph determines |
| Refinement.InsertionDecides | src/core.rs:198-240 | from the parents' stored frames: the higher one, or if they agree the next frame if and only if the event sees that frame's roots of more than two thirds of the peers; the stored table lists the event if and only if its frame is above its self-parent's |
| Refinement.InsertionPrunes | src/core.rs:231-240 | apart from the event itself, the new table keeps exactly the self-parent's roots of open frames and those that only the other parent's table lists |
| Refinement.DecisionIsTrue | src/core.rs:198-227 | frame number and root flag computed from pruned tables equal the recursive definition on the event's ancestors |
| Refinement.StrictMergeIsExact | src/flag_table.rs:37-54 | from the first open frame on, the strict merge of the parents' pruned tables is exactly the frame's roots among the proper ancestors |
| Refinement.TableCreators | src/core.rs:206-211 | the derived table counts exactly the distinct creators of the merged roots |
| Refinement.VisibleIsTrue | src/core.rs:235-240 | the merged table lists only roots among the ancestors under their true frames, and all of them from the first open frame on |
| Refinement.SeenIsTrue | src/core.rs:260-263 | the creator table gives, for every peer, the highest root frame that the event sees of it |
| Refinement.UptoIsTrue | src/core.rs:260-278 | the computed frame is the highest one that the event covers, whenever that lies above what is final; when it fires it lies strictly above |
| Refinement.UptoOfFullTable | src/core.rs:277-278 | with an entry of every peer, the minimum is covered and no higher frame is |
| Refinement.UptoOfPartialTable | src/core.rs:277-277 | with some peer missing, nothing above what is final is covered |
| Refinement.BoundMovesToUpto | src/core.rs:277-305 | finalising that far leaves final exactly the frames below the highest one that some stored event covers |
| Refinement.FinalisingSortsTheRange | src/core.rs:285-299 | the loop sorts each frame of its range once and touches no other |
| Refinement.FinalisedFramesAreTrue | src/core.rs:285-299 | sorting keeps exactly one record for every event and leaves all final frames in order |
| Refinement.ParentsAreKnown | src/core.rs:187-240 | inserting any fitting event, new or stored and its frame open or final, finds both parents and decides the true frame and root flag |
| Refinement.FiledIsExact | src/core.rs:241-259 | recording the event keeps events, both indexes and tables exact |
| Refinement.FramesInsertedAreTrue | src/core.rs:257-305 | appending the new record and sorting the range keeps exactly one record for every event and every final frame as it was |
| Refinement.InsertionShape | src/core.rs:241-305 | any insertion files one event, appends one record and sorts a range of frames, whatever the state of the tables |
| Soundness.InsertionKeepsRecords | src/core.rs:257-305 | no insertion, stale or not, loses a record or takes back a final frame |
| Soundness.InsertionIsSound | src/core.rs:183-308 | inserting an event that fits the graph, new or stored, finds its parents and keeps events and indexes sound |
| Soundness.InsertionKeepsFrames | src/core.rs:197-305 | whatever fitting event is inserted, new or stored: each event has a record in the frame it names, each table entry in the frame it gives, no frame is entered without a majority of creators in the frame below, and the first open frame is not empty once any is final |
| Dag.FrameRule | src/core.rs:198-227 | the recursive definition of frame numbers satisfies the three-way rule of the code |
| Dag.MajorityIsTwoThirds | src/peer.rs:358-360 | where the parents agree on a frame, the event is a root of the next one if and only if it sees roots of more than two thirds of the peers, and stays otherwise |
| Dag.FrameMonotone | src/core.rs:198-227 | frame numbers never decrease from ancestor to descendant |
| Dag.NoFrameSkipped | src/core.rs:198-227 | every event has an ancestor in each frame up to its own |
| Dag.MajorityCertificate | src/core.rs:200-227 | an event past frame f has frame-f roots of at least root_majority distinct creators among its ancestors |
| Dag.QuorumsIntersect | src/peer.rs:358-360 | any two events past frame f share frame-f roots of more than a third of the peers |
| Dag.RootsAreUnique | src/core.rs:197-240 | a creator has at most one root in a frame |
| Dag.RootOfChain | src/core.rs:197-240 | every event has a root of its creator and frame behind it |
| Dag.RootFramesIncrease | src/core.rs:197-240 | root frames strictly increase along a creator's chain |
| Dag.ChainOfCreator | src/lib.rs:245-282 | of two events of one creator the lower is an ancestor of the higher along self-parents |
| Dag.ChainIsContiguous | src/store_sled.rs:145-169 | below any event of a creator there is one at every height |
| Dag.LamportIncreases | src/core.rs:131-134 | Lamport times strictly increase from ancestor to descendant |
| Dag.NewEventsAreAboveBound | src/core.rs:231-240 | an event that extends its creator's chain never falls below the finality bound |
| Dag.CoveredFramesAreComplete | src/core.rs:260-299 | a store that covers a frame has every event of the whole graph below that frame |
| Dag.CoversIsReaching | src/core.rs:260-278 | an event covers a frame if and only if it has, from every peer, an ancestor of that frame or a later one, root or not |
| Dag.ClosedHoldsAncestors | src/core.rs:187-195 | a parent-closed store has all ancestors of its events |
| Dag.AncestorsAreClosed | src/core.rs:187-195 | the ancestors of an event are closed under parents; with `ClosedHoldsAncestors` they are the least such set |
| Cores.DAGcore.constructor | src/core.rs:60-115 | the booted core: creator set, list sorted, a leaf and its table for every peer |
| Cores.DAGcore.CreateLeaves | src/core.rs:93-113 | the leaf loop |
| Cores.DAGcore.InsertEvent | src/core.rs:183-308 | the whole new state of the core and its store; false with nothing changed exactly when a parent or its table is missing |
| Cores.DAGcore.RecordEvent | src/core.rs:197-259 | stores the event under the decided frame and its table |
| Cores.DAGcore.PlaceEvent | src/core.rs:197-240 | frame, root flag and visible table from the parents' frames and tables |
| Cores.DAGcore.DecideFrame | src/core.rs:198-227 | the three-way decision, counting creators through both loops: with equal frames a root of the next one if and only if three times the creators counted are more than twice the peers |
| Cores.DAGcore.FinaliseBy | src/core.rs:260-306 | finalises as far as the new event's table allows |
| Cores.DAGcore.GetUpto | src/core.rs:260-278 | the frame up to which the table allows finalisation |
| Cores.DAGcore.FinaliseFrames | src/core.rs:285-305 | the finalisation loop: each frame of the range sorted in increasing order, the last one remembered |
| Cores.DAGcore.FinaliseFrame | src/core.rs:287-299 | one frame read, sorted and written back |
| Cores.DAGcore.GetNextLamportTime | src/core.rs:131-134 | steps the clock and nothing else |
| Cores.DAGcore.UpdateLamportTime | src/core.rs:165-169 | raises the clock to what was heard, never lowers it |
| Cores.DAGcore.AddTransaction | src/core.rs:135-138 | appends to the pool and changes nothing else |
| Cores.DAGcore.NextTransactions | src/core.rs:139-147 | the front of the pool up to 16000 transactions, fewer only when the pool is emptied; the rest stays in order |
| Cores.CoreState.FrontOfThePool | src/core.rs:139-147 | an event takes the whole pool, or its first 16000 transactions when there are more, and leaves the rest in order |
| FlagTables.StrictMergeFlagTable | src/flag_table.rs:37-54 | both loops, in any order of the entries, give the specified merge |
| FlagTables.OpenMergeFlagTable | src/flag_table.rs:60-84 | both loops, in any order of the entries, give the specified merge: what lies below the given frame comes from the second table, and only where the first has no such entry or a higher one |
| FlagTables.OpenMergeEntries | src/flag_table.rs:60-84 | hash by hash: the first table's own entries are kept from the given frame on, the second's own always, and a shared one with its lower frame unless that is the first table's and too low |
| FlagTables.MinFrame | src/flag_table.rs:86-102 | the least frame of the table, zero when it is empty, in any order of the entries |
| Stores.StaleEntriesAreHarmless | src/flag_table.rs:60-84 | on consistent tables, at any threshold from the merge's own frame on, the creator table of the open merge is that of the full union |
| Stores.CreatorTableIsUnique | src/store.rs:59-98 | there is one per-creator maximum table, so the order of iteration leaves no trace |
| Stores.Store.DeriveCreatorFlagTable | src/store.rs:59-98 | the loop arrives at that table for the known hashes at or above the threshold |
| Stores.Store.SetEvent | src/store_sled.rs:58-85 | both event indexes and the event's frame are written, nothing else |
| Stores.Store.GetEvent | src/store_sled.rs:87-93 | the event stored under the hash, or none |
| Stores.Store.GetEventOfCreator | src/store_sled.rs:131-138 | the event stored under creator and height, or none |
| Stores.Store.SetFlagTable | src/store_sled.rs:113-121 | one table written, nothing else |
| Stores.Store.GetFlagTable | src/store_sled.rs:123-129 | the table stored under the hash, or none |
| Stores.Store.SetFrame | src/store_sled.rs:95-103 | one frame written, nothing else |
| Stores.Store.GetFrame | src/store_sled.rs:105-111 | a fresh copy of the frame; an absent one is empty |
| Stores.Store.CollectCreator | src/store_sled.rs:146-169 | the inner loop ends at the first missing height with the whole gap-free suffix of the creator collected |
| Stores.Store.GetEventsForGossip | src/store_sled.rs:140-174 | exactly the gap-free suffix of every listed creator, without repetition, in Lamport order |
| Stores.SuffixIsGossip | src/store_sled.rs:171-171 | the final sort keeps the collected events and puts them in Lamport order |
| Stores.GossipExists | src/store_sled.rs:140-174 | every request has an answer |
| Frames.Frame.Finalise | src/frame.rs:39-54 | the records sorted in place by growing Lamport time and, at equal times, by growing hash, none lost or repeated |
| Frames.RecordOrderIsTotal | src/frame.rs:40-53 | the comparator is a total preorder |
| Frames.RecordOrderIsStrict | src/frame.rs:40-53 | it tells apart the records of any events whose hashes compare differently |
| Frames.DigestExists | src/frame.rs:46-49 | any set of events has hashes that compare differently |
| Sorting.SortedFormIsUnique | src/frame.rs:39-54 | sorting distinct records gives the same sequence whatever order they arrived in |
| Sorting.SortSorts | src/frame.rs:40-53 | the stable sort's result is in order |
| Sorting.SortKeepsElements | src/frame.rs:40-53 | the stable sort permutes |
| Sorting.SortIsStable | src/frame.rs:40-53 | elements that rank equal keep their order |
| Schedules.NodesConnect | src/peer.rs:296-308 | from the lists that the nodes boot with, each built in its own order and sorted on its own node, following each node's own contacts leads from every node to every other |
| Schedules.RequestsFollowSchedule | src/lib.rs:215-226 | in every run, request number q of a node goes where call q of the schedule it booted with leads: to the peer n halved q mod floor(log2 n) + 1 times places after the node in the order of names |
| Schedules.ScheduleOfRun | src/peer.rs:296-308 | in every reachable state a node's peers stand as they were sorted at the start and its offset has moved once for each request |
| Peers.ContactSchedule | src/peer.rs:296-308 | offsets run n/2, n/4, ..., 1 with period floor(log2 n), never contact the node itself, and end each period at the ring successor |
| Peers.ContactsByOffset | src/peer.rs:296-308 | call k contacts the peer that stands n halved k mod floor(log2 n) + 1 times after the node itself on the ring of names |
| Peers.ContactsConnect | src/peer.rs:296-308 | following each node's own contacts leads from every node to every other, for any family of separately sorted lists of the same peers |
| Peers.SuccessorIsContact | src/peer.rs:301-307 | every list contacts its own ring successor in each period |
| Peers.NameOrderIsUnique | src/peer.rs:285-291 | two sorted lists of the same peers have them in the same places |
| Peers.PositionIsCommon | src/peer.rs:285-291 | a node's `current` is its place in everybody's sorted list |
| Peers.OffsetAtCall | src/peer.rs:302-306 | the offset at any call, by its place in the period |
| Peers.HalvingReachesOne | src/peer.rs:302-306 | halving n reaches one after exactly floor(log2 n) steps and never zero before |
| Peers.HalvedDivides | src/peer.rs:302-303 | halving k times is dividing by 2^k |
| Peers.PeriodIsLogarithm | src/peer.rs:302-306 | the period is the whole part of the binary logarithm of n |
| Peers.AddedKeepsNamesDistinct | src/peer.rs:257-263 | adding a new name keeps the list well formed, its size and its schedule's start |
| Peers.ResortedIsValid | src/peer.rs:285-291 | sorting keeps the peers, puts them in strict name order and leaves `current` at the creator |
| Peers.ResortedWithoutCreator | src/peer.rs:285-291 | while a list lacks its creator, `current` is the first place |
| Peers.GossipListsEveryPeer | src/peer.rs:310-322 | the gossip list has exactly one entry for every peer, with its time and height |
| Peers.UpdatedRaises | src/peer.rs:148-156 | a peer's entry goes to the larger of old and heard time and to the larger of old and heard height; the others stay |
| Peers.FindIndex | src/peer.rs:325-330 | the first peer of that name, or none |
| Peers.DAGPeerList.Add | src/peer.rs:257-263 | size, offset, order and `current` after an addition |
| Peers.DAGPeerList.SortPeers | src/peer.rs:285-291 | the list sorted by name with `current` found anew |
| Peers.DAGPeerList.SetCreator | src/peer.rs:292-295 | the creator set and the list sorted again |
| Peers.DAGPeerList.NextPeer | src/peer.rs:296-308 | the peer `current + r` places round the ring; the offset moves on |
| Peers.DAGPeerList.GetGossipList | src/peer.rs:310-322 | the loop's list |
| Peers.DAGPeerList.GetNextHeight | src/peer.rs:141-144 | one more than the height before, for that peer only |
| Peers.DAGPeerList.UpdateLamportTimeAndHeight | src/peer.rs:148-156 | time and height of one peer raised, never lowered |
| Peers.DAGPeerList.FindPeerWithLamportTimeUpdate | src/peer.rs:333-347 | the time of one peer raised; whether there is such a peer |
| Protocol.ProcedureA | src/lib.rs:213-308 | one round: the request that is sent and the state after the event is created |
| Protocol.SendRequest | src/lib.rs:213-239 | the request to the next contact with the gossip list and the clock of that moment |
| Protocol.CreateEvent | src/lib.rs:245-308 | height and clock stepped, transactions taken, the event on both last events inserted |
| Protocol.ProcedureB | src/lib.rs:348-412 | the reply, with the gap-free suffixes the requester lacks, and the clock and peer update; no reply to a stranger |
| Protocol.Listener | src/lib.rs:107-158 | the clock raised and the reply's events applied in order |
| Protocol.ApplyNext | src/lib.rs:121-151 | one event inserted and its creator's entry raised |
| Events.TransferKeepsHash | src/event.rs:87-149 | an event received is the one sent, with its hash intact and its frame number forgotten |
| Events.NetRoundTrip | src/event.rs:106-149 | an event and its network form determine each other through the hash |
| Stream.FirstFrameDrains | src/lib.rs:625-691 | the items of the first frame come first, in final order: while any is left a poll serves the next one |
| Stream.StreamStaysTrue | src/lib.rs:655-665 | what has been received stays right while more becomes final |
| Stream.StreamsAgree | src/lib.rs:625-691 | the streams of two nodes over one fork-free graph are comparable |
| Stream.RoundFollowsFinalOrder | src/lib.rs:638-686 | while its cursor names frame f the stream serves the first event of frame f + 1 and then frame f but for its first; that is frame f in its final order if and only if the two first events have the same items |
| Stream.StreamFollowsFinalOrder | src/lib.rs:638-686 | all open rounds follow the final order if and only if the first records of all their frames have the same items, and then what is served is a prefix of the items in final order |
| Stream.RecordsFollowFinalOrder | src/lib.rs:638-686 | record by record the stream follows the final order if and only if no more than two frames are final |
| Stream.RoundsMissOneRecord | src/lib.rs:638-686 | after round f the stream has looked at the records of frames 0 to f, each once, but for the first of frame 1, and at the first of frame f + 1 |
| Stream.FirstOfFrameOneIsNeverServed | src/lib.rs:638-686 | the first event of frame 1 never reaches the consumer |
| Stream.PollServesTheNext | src/lib.rs:625-691 | a poll serves exactly the next item of the stream, waits exactly when there is none, and never fails |
| Stream.PollServesTheCursor | src/lib.rs:625-691 | whatever a core was told, a poll serves the item at the cursor, waits only when nothing open is left, and never fails |
| Stream.CursorStaysSound | src/lib.rs:655-665 | a cursor keeps its place while a core learns more, even where late records are appended to final frames |
| Stream.SoundIsFull | src/lib.rs:655-658 | in a cluster of two or more every node's final frames have two records or more, of stored events |
| Stream.TurnAdvances | src/lib.rs:625-691 | a turn moves the cursor by one item or past one event without any, and waits only when nothing open is left |
| Stream.PollNext | src/lib.rs:600-696 | the cursor loop in place: what it serves, where the cursor stands, and nothing at all before a frame is final |
| Stream.TakeTurn | src/lib.rs:625-691 | one turn of the loop |
| Stream.PollNeverEndsEmpty | src/lib.rs:688-690 | the loop stops only with an item, when it has to wait, or past a frame's end |

## Left out

- Protocol.CreateEvent: the locks taken and released between the steps of one creation, answer, application or poll are not modelled; each is one step.
- Frames.Frame.Finalise: the standard library's `sort_by`, here as in the gossip query and the peer list, is a stable sorting function, not an algorithm over memory.
- Stream.PollNext: the quit flag and wakers are not modelled; a poll that would index past a frame's end is excluded by its precondition, which `Runs.PollsServeInOrder` discharges.
- Forks: two events of one creator and height. The code does not detect them, and its argument assumes that they do not occur; procedure A makes none (`Steps.NewEventIsFresh`).
- Signatures and `check_event` (src/core.rs:170-182), which is taken to accept every event made by procedure A. Signatures are not covered by the hash.
- Internal transactions and changes of the peer set (src/core.rs:148-164), reserved and always empty.
- Transport, threads, timers, shutdown, `Drop` and logging.
- The database: serialisation, flushing, paths and write errors. The two key spaces of the event tree (src/store_sled.rs:61-65) are two maps.
- Reading peers from a file, `new_with_content`, addresses, keys, configuration setters and `Display`.
- Machine widths of heights, times and frame numbers, which count events and do not wrap in any feasible run.
- Liveness of finalisation: `Progress.FinalityCanGrow` says that frames can become final from every reachable state, not that they do; that needs messages to arrive, which the code does not ensure.
