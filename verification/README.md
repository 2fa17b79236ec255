# Spines daemon: k-paths, intrusion-tolerant link, dissemination graphs, leaky bucket

This project models four parts of the Spines overlay daemon and proves what they are for. Every
component has two sides: functions on values that follow the source branch by branch, and classes
or methods with the source's own loops and fields whose contracts say that they compute exactly
those functions. The properties are lemmas about the functions, over all inputs and all runs.

**k node-disjoint paths** (`multipath.c`). Initialisation splits every host into an inbound and an
outbound half; a search of 16-bit distances (unreached is 65535) is repeated on the residual network
and each path found is flipped into a flow; the saturated links become the routing mask, which is
cached per destination and number of paths.
Files: `FlowNetwork`, `Sums`, `BellmanFord`, `Augmentation`, `MinCostFlow`, `DisjointPaths`,
`Topology`, `KPaths`, `OverlayPaths`, `MultiPath`.
The potentials of one search carry over to the next; from them follow the absence of negative
cycles, the end of the walk back, and, through flow decomposition and weak duality, disjointness,
optimality and maximality. `OverlayPaths` says the same of the configuration and the costs alone, with
no word of the network built from them, and `MultiPath.PathStamp` and `MultiPath.GraphStamp` what every
stamp is. One promise fails: the largest number of disjoint paths is not always
found, because 65535 stands for "unreached". Exactly where the computation stops is
`KPaths.StopsExactly`: at the first `r < k` for which every `r + 1` disjoint paths cost at least 65535
more than some `r`. So a system of paths is matched in number if and only if none of the steps up to
it is that dear (`KPaths.FindsExactly`), which is always so while all usable link costs together stay
below 65535 (`KPaths.ComputesMostPaths`); at exactly 65535 it need not be (`KPaths.SentinelIsSharp`).

**Intrusion-tolerant link** (`intrusion_tol_udp.c`). A sliding window of any size over ring buffers,
cumulative acknowledgements proved by XOR digests of nonces, negative acknowledgements, fragmentation
at byte level, and the change of incarnation. Two neighbours exchange packets over wires that keep
everything ever sent, so a packet may arrive late, again, out of order, or never.
Files: `Fragments`, `Rebuilding`, `ItLink`, `SenderSide`, `ReceiverSide`, `Delivery`, `LinkReset`,
`Transport`, `Incarnations`, `LinkGuarantees`, `LostMessage`, `Recovery`, `RecoveryRuns`, `EndToEnd`,
`Meeting`, `LinkWindow`.
A session is a pair of incarnations; `Transport` has what the two sides do in one. In `Incarnations`
either side may start again at any time, and hears of the other's new incarnation when it does; it
leaves its session with what it has and enters the next one. All that was ever sent stays in the air
under the incarnations put on it, and a side takes whatever passes its check of these two numbers;
that this keeps the sessions apart is proved (`Incarnations.HeardIs`). `Incarnations.IsRun` and
`Incarnations.After` define runs over any number of sessions. Every session keeps the state in which
each side left it and every daemon all it was ever given, so the guarantees in `LinkGuarantees` are
about all sessions of a run, past ones too.
Nothing is left behind within a session: once packets stop getting lost, all that a side was given
is handed up on the other after as many stages of letting packets out and a window's worth of recovery
rounds as congestion windows are needed (`EndToEnd.EveryRunDelivers`), and such stages are possible at
any time (`EndToEnd.NeverStuck`). Which messages are taken on is `ItLink.AcceptsExactly`; that one which
is can get to the other side, `EndToEnd.OfferedArrives`. Sides that have lost each other meet again in
four deeds at most (`Meeting.EveryRunMeets`), so the same holds after every run (`Meeting.AlwaysDelivers`).
Which packets the reassembler accepts, byte by byte and whoever made them, is `Rebuilding.BuildExactly`,
and why it rejects the others `Rebuilding.RejectedFor`.
One promise fails: a message acknowledged in part when the other side starts again is not put in
again. `LinkGuarantees.LossExactly` says exactly when that loses it, `LinkGuarantees.NothingElseLost`
that nothing else is lost, and `LostMessage.HalfTakenIsLost` gives a run that loses any message of two
packets or more, between daemons configured to put messages in again.

**Dissemination graphs** (`dissem_graphs.c`). The graph used for a destination is kept up to date
link by link; it is shown to be a function of the set of problem links alone. The builder's
shortest-path search and both problem graphs are shown to be what they are meant to be.
Files: `GraphChoice`, `DissemState`, `LinkCosts`, `ShortestTree`, `ProblemGraphs`.
One promise fails: link status changes write an edge's cost without telling the record of problems
(`reliable_flood.c` line 3448). They are the only writes of a daemon in intrusion-tolerance mode, and
there are none otherwise, so runs are of one kind or the other (`LinkCosts.Flooded`, `LinkCosts.Told`).
`LinkCosts.StatusChangesAreMissed` gives a run of two status changes after which a link is down and on
no record. `LinkCosts.StatusExactly`, `LinkCosts.CellExactly` and `LinkCosts.LegExactly` say of each
kind of write, from the state before it, exactly when the record is right after it, and
`LinkCosts.StatusRunExactly` the same of whole runs. The class `MultiPath.PathMasks` holds the costs,
the mask cache and the record together.

**Leaky bucket** (`link.c`). `LeakyBucket`. The bound since creation holds: the cap and what the elapsed
time is worth. Over a later stretch the same bound does not always hold, because a full bucket keeps
its old fill time (`LeakyBucket.TwiceTheCap`, `LeakyBucket.OneIdleSecond`). It does, short of one byte
for the rounding of a fill, exactly if somebody waits, the bucket is empty, or the bucket and what it
has been due since its last fill come to no more than the cap (`LeakyBucket.OnceTheCapExactly`). What
holds over every stretch is `LeakyBucket.Throughput` and `LeakyBucket.AnyStretch`. From below,
`LeakyBucket.WaitsExactly` says exactly when the first to wait has left.

Assumptions. `stdhash` is a finite set or map; `stdskl` is one in key order and keeps entries whose
keys compare equal, so a node's neighbours are all the links out of it; `E_queue` only schedules a
later step. A link is in a dissemination graph's mask exactly when it is in that graph's edge list.
Nonces are arbitrary 64-bit values, timers and the congestion window are parameters or only decide
which possible step comes next, and the fill amount of the bucket is exact before it is cut to 32 bits.
Sequence numbers are natural numbers: the daemon's 64-bit counters are taken not to wrap. A daemon's
incarnation is the second it started in, and no two lives of a daemon start in the same one. A
neighbour hears only of incarnations the other side has had, and only if its configuration is the same
(`intrusion_tol_udp.c` lines 395-405 and 937-945), so one choice between dropping messages and putting
them in again holds for both. A search may
take two passes per configured host and one more; counting further nodes, as the daemon may, only
allows passes that change nothing (`BellmanFord.PassesStop`).
Configured costs are at least zero where the graph builder uses them, and every link of a split
network is configured in both directions (`multipath.c` lines 224-230: the daemon exits otherwise).

## Model

| member | source | states |
|---|---|---|
| Topology.InitArcs | p4/spines-src-5.5/daemon/multipath.c:131-317 | The loops that prepend edges build one split arc per host and, for every configured edge, its arc, and the reverse one where edges are two-way; nothing else |
| Topology.ArcPlaces | p4/spines-src-5.5/daemon/multipath.c:131-317 | Which arc stands at every place of the list: the reverse arcs and arcs of the edges in order, then one per host |
| Topology.BuiltNetwork | p4/spines-src-5.5/daemon/multipath.c:131-317 | The result is a split network whatever the costs: exactly one arc through each host, at most one per direction of a link, no self-loops |
| BellmanFord.RelaxAcyclic | p4/spines-src-5.5/daemon/multipath.c:427-433 | With a feasible potential a relaxation never closes a cycle of previous edges |
| BellmanFord.PassesConverge | p4/spines-src-5.5/daemon/multipath.c:395-443 | The search stops moving within as many passes as there are half nodes, so the negative-cycle exit is dead |
| Augmentation.PathFound | p4/spines-src-5.5/daemon/multipath.c:447-462 | The walk back from a reached destination ends at the source after fewer steps than nodes and meets residual entries only |
| Augmentation.FlipsEffect | p4/spines-src-5.5/daemon/multipath.c:451-462 | An augmentation swaps exactly the path's arcs, keeps twins complementary, and keeps the bag equal to the saturated real edges |
| Augmentation.Augment | p4/spines-src-5.5/daemon/multipath.c:376-464 | Each augmentation keeps conservation at all halves but the ends, adds one unit, and leaves a feasible potential for the next search |
| MinCostFlow.RoundOk | p4/spines-src-5.5/daemon/multipath.c:376-462 | One turn of the path loop never takes a fatal exit, breaks if and only if no residual walk to the destination costs less than the 16-bit sentinel, and otherwise adds a unit that costs less than it |
| MinCostFlow.RoundsOk | p4/spines-src-5.5/daemon/multipath.c:376-464 | Every call ends with a conserving flow of as many units as paths were counted |
| MinCostFlow.RiseOfFlow | p4/spines-src-5.5/daemon/multipath.c:376-464 | The potential a flow climbs in all is its value times the height of the destination |
| MinCostFlow.CostAbove | p4/spines-src-5.5/daemon/multipath.c:376-464 | Any flow of m units costs at least as much as the computed one of r and (m - r) times the height of any certificate of the residual network |
| MinCostFlow.CheapestFlow | p4/spines-src-5.5/daemon/multipath.c:376-464 | No flow of the same value over usable links costs less |
| MinCostFlow.DearestUnit | p4/spines-src-5.5/daemon/multipath.c:447-448 | When the search comes up empty, every flow of one unit more costs at least 65535 more |
| MinCostFlow.LargestFlow | p4/spines-src-5.5/daemon/multipath.c:447-448 | When the destination is out of residual reach no flow over usable links is larger |
| MinCostFlow.HonestSentinel | p4/spines-src-5.5/daemon/multipath.c:447-448 | While all usable costs total less than 65535, every walk is too dear if and only if there is no walk |
| DisjointPaths.SystemCarries | p4/spines-src-5.5/daemon/multipath.c:361-464 | Any system of node-disjoint paths is a flow of that value and cost |
| DisjointPaths.Decompose | p4/spines-src-5.5/daemon/multipath.c:361-503 | Any conserving flow of value r contains r paths that share only their ends |
| DisjointPaths.NothingElse | p4/spines-src-5.5/daemon/multipath.c:361-503 | With positive link costs a cheapest flow holds nothing but its paths |
| KPaths.ComputesBestPaths | p4/spines-src-5.5/daemon/multipath.c:335-503 | MultiPath_Compute always answers, with r <= k node-disjoint paths of least total cost lit up in the mask; with positive costs the mask is exactly their links |
| KPaths.NoCheapWalkIsDear | p4/spines-src-5.5/daemon/multipath.c:447-448 | The search comes up empty if and only if every r + 1 node-disjoint paths cost at least 65535 more than some r |
| KPaths.StopsExactly | p4/spines-src-5.5/daemon/multipath.c:376-464 | The computation stops at r if and only if r is the first number below k whose next path is that dear, or k when there is none |
| KPaths.FindsExactly | p4/spines-src-5.5/daemon/multipath.c:376-464 | As many paths are found as a given node-disjoint system of at most k has if and only if no step up to that many is that dear |
| KPaths.ComputesMostPaths | p4/spines-src-5.5/daemon/multipath.c:376-464 | While usable costs total less than 65535 fewer than k paths found means no node-disjoint system is larger |
| KPaths.SentinelIsSharp | p4/spines-src-5.5/daemon/multipath.c:381-448 | At a total of exactly 65535 maximality fails: on a two-way chain that works one way only the one path there is is not found |
| KPaths.ShortAnswerStands | p4/spines-src-5.5/daemon/multipath.c:591-601 | When only r < k paths exist, asking for any number from r up gives the same count and mask |
| OverlayPaths.WeightIs | p4/spines-src-5.5/daemon/multipath.c:403-422 | On current costs an arc is skipped if and only if its cost is -1, or the reverse link's is where both ways count; otherwise it weighs the size of the cost, or the larger of the two; on configured costs it weighs that cost, or the larger of the two |
| OverlayPaths.ArcsAreHops | p4/spines-src-5.5/daemon/multipath.c:213-422 | The network has a usable arc from x to y if and only if a link from x to y is configured and counts, and only one |
| OverlayPaths.PathsAgree | p4/spines-src-5.5/daemon/multipath.c:131-422 | A host sequence is a path of the network if and only if it is one over configured links that count, told from the configuration and the costs, and it costs the sum of their costs' sizes |
| OverlayPaths.AnswersCheapest | p4/spines-src-5.5/daemon/multipath.c:335-503 | The computation answers with r <= k paths over configured links that share no host but their ends, whose summed cost sizes are least, and whose links are lit |
| OverlayPaths.AnswersExactly | p4/spines-src-5.5/daemon/multipath.c:376-464 | It stops at r if and only if r is the first number below k for which any r + 1 such paths cost at least 65535 more than some r, or k when there is none |
| OverlayPaths.AnswersMost | p4/spines-src-5.5/daemon/multipath.c:376-464 | While the links that count cost less than 65535 together, fewer than k paths found means no more are there |
| OverlayPaths.ConfiguredIs | p4/spines-src-5.5/daemon/multipath.c:131-317 | What the computation needs, read off the configuration: both ends configured and every link priced both ways |
| MultiPath.PathMasks.Search | p4/spines-src-5.5/daemon/multipath.c:379-443 | The relaxation loops compute the specified passes |
| MultiPath.PathMasks.WalkAndFlip | p4/spines-src-5.5/daemon/multipath.c:450-462 | The augmentation loop flips exactly the walk back and updates the bag accordingly |
| MultiPath.PathMasks.ComputeMask | p4/spines-src-5.5/daemon/multipath.c:335-503 | The imperative computation equals the specified one, fatal exits included |
| MultiPath.StampForgetsHistory | p4/spines-src-5.5/daemon/multipath.c:506-611 | After any two histories that leave the same costs and the same links bad, every stamp is the same |
| MultiPath.PathStamp | p4/spines-src-5.5/daemon/multipath.c:506-611 | A stamp for one to five paths lights that many cheapest disjoint paths, stopping only before one that is too dear; above five it is for five; none for a destination that is not configured |
| MultiPath.GraphInUse | p4/spines-src-5.5/daemon/dissem_graphs.c:1612-1853 | A destination keeps two paths while fewer than two problem links lead into it and fewer than two out of this node; with two at one end only and no problem further on in that end's graph it has that graph; otherwise the graph for both |
| MultiPath.GraphStamp | p4/spines-src-5.5/daemon/multipath.c:528-611 | For the graph flag the stamp is the stored mask of the one end's graph while that is in use, otherwise two cheapest disjoint paths, and with them the stored mask for both ends while that is in use |
| MultiPath.PlainStamp | p4/spines-src-5.5/daemon/multipath.c:512-530 | A stamp is refused if and only if the destination is above 50 or none with paths asked for; zero paths asked for means all bits |
| MultiPath.PathMasks.StampBitmask | p4/spines-src-5.5/daemon/multipath.c:506-611 | Every stamp equals a fresh computation on the present costs and the present problem links, and the cache stays coherent |
| MultiPath.PathMasks.Lookup | p4/spines-src-5.5/daemon/multipath.c:576-610 | A cached or newly filled entry, including those filled for other path counts, equals a fresh computation |
| MultiPath.PathMasks.SetLegCost | p4/spines-src-5.5/daemon/network.c:605-622 | A change of the leg's own cost tells the record, writes the edge's cost and leaves no stale entry; an unchanged one does nothing |
| MultiPath.PathMasks.ApplyStateCell | p4/spines-src-5.5/daemon/link_state.c:306-319 | A remote cost change tells the record, writes the cost and empties the cache |
| MultiPath.PathMasks.ApplyLinkStatus | p4/spines-src-5.5/daemon/reliable_flood.c:3403-3453 | A link status change is refused below the configured cost, and otherwise writes the cost without telling the record and leaves no stale entry |
| Fragments.PackPacket | p4/spines-src-5.5/daemon/intrusion_tol_udp.c:1504-1533 | The packing loop takes fragments while they fit and writes each followed by its header, byte by byte; of the 100 places of a scatter array one is left for the tail |
| Fragments.LongFragmentsFitPlaces | p4/spines-src-5.5/libspread-util/include/spu_scatter.h:40-56 | No packet of a message runs out of places if all its fragments have 26 bytes or more |
| Fragments.CountPackets | p4/spines-src-5.5/daemon/protocol.c:477-505 | The budget estimate equals the number of packets the packer will use |
| Fragments.ProgressIffFits | p4/spines-src-5.5/daemon/intrusion_tol_udp.c:1504-1506 | A packet takes at least one fragment if and only if the next one fits; otherwise packing repeats empty packets |
| Fragments.GreedyIsOptimal | p4/spines-src-5.5/daemon/intrusion_tol_udp.c:1477-1533 | No division of a fragment list into groups that fit a packet has fewer groups |
| Fragments.BuildMessage | p4/spines-src-5.5/daemon/intrusion_tol_udp.c:1602-1702 | The backward and forward passes over a packet compute the specified rebuilding, which Rebuilding.BuildExactly and Rebuilding.RejectedFor describe byte by byte |
| Fragments.BuildInverse | p4/spines-src-5.5/daemon/intrusion_tol_udp.c:1613-1702 | Rebuilding takes from a packet exactly the fragments the packer put in and knows when the message is complete |
| Fragments.FeedMessages | p4/spines-src-5.5/daemon/intrusion_tol_udp.c:1477-1702 | Feeding the packets of any messages in order gives back exactly these messages and never an error |
| Fragments.FeedPrefix | p4/spines-src-5.5/daemon/intrusion_tol_udp.c:2345-2375 | Feeding only the first packets gives a prefix of the messages and never an error |
| Rebuilding.HeaderLayout | p4/spines-src-5.5/daemon/intrusion_tol_udp.c:1520-1529 | A fragment header has the length, low byte first, then the number and the total |
| Rebuilding.EncodeIs | p4/spines-src-5.5/daemon/intrusion_tol_udp.c:1504-1533 | A packet is the fragments one after the other, each followed by its header and numbered by its place in the message |
| Rebuilding.BuildExactly | p4/spines-src-5.5/daemon/intrusion_tol_udp.c:1602-1702 | A packet is taken as the next of a message if and only if it is empty or its bytes are the next fragments with their headers, of the same message, and behind them only groups that begin again at number one |
| Rebuilding.AcceptedIs | p4/spines-src-5.5/daemon/intrusion_tol_udp.c:1602-1702 | What is taken from an accepted packet is exactly these fragments, and the message is complete if and only if the last of them has number total |
| Rebuilding.AcceptsWellFormed | p4/spines-src-5.5/daemon/intrusion_tol_udp.c:1602-1702 | Every packet of that form is accepted, whatever stands in its fragments |
| Rebuilding.RejectedFor | p4/spines-src-5.5/daemon/intrusion_tol_udp.c:1613-1684 | A rejected packet has, behind some well-formed fragments, a header with the fault its error code names, or all of them are well-formed but do not go on from the next one expected; nothing is taken from it |
| Rebuilding.ConsumeExactly | p4/spines-src-5.5/daemon/intrusion_tol_udp.c:2352-2376 | Of any packet: one that goes on with the message is added to it and completes it with its last fragment; any other condemns its sender and leaves the message as far as it was |
| Rebuilding.HandUpExactly | p4/spines-src-5.5/daemon/intrusion_tol_udp.c:2312-2340 | Of any packet: without ordering, if its last header names one fragment in all, it is handed up at once if it is that fragment and otherwise condemns its sender; that it should have to wait for more cannot happen |
| SenderSide.PackAllOk | p4/spines-src-5.5/daemon/intrusion_tol_udp.c:1477-1562 | Packing keeps rings, digests and packet stream right, and leaves a message pending only when the window is full |
| SenderSide.ForwardOk | p4/spines-src-5.5/daemon/intrusion_tol_udp.c:1087-1131 | A message that is not refused is appended to what is sent, and nothing packed before is disturbed |
| ItLink.AcceptsExactly | p4/spines-src-5.5/daemon/intrusion_tol_udp.c:1087-1105 | With nothing pending a message is taken on if and only if its bytes, counted in 16 bits, come to at most 45 times the room less four; with one pending none is |
| ItLink.RefusedStays | p4/spines-src-5.5/daemon/intrusion_tol_udp.c:1087-1105 | A refused message changes nothing |
| ItLink.TotalJoins | p4/spines-src-5.5/daemon/intrusion_tol_udp.c:1092-1093 | The bytes of a message are those of its fragments added up |
| SenderSide.DigestKnown | p4/spines-src-5.5/daemon/intrusion_tol_udp.c:1543-1549 | For every number let out the ring holds the XOR of all nonces up to it, despite reuse of cells |
| SenderSide.TakeAruOk | p4/spines-src-5.5/daemon/intrusion_tol_udp.c:2106-2200 | A true acknowledgement passes the digest check and moves the tail to just past it |
| SenderSide.TakeAruExactly | p4/spines-src-5.5/daemon/intrusion_tol_udp.c:2106-2200 | An acknowledgement is turned away if and only if it names a number in the window without proving it by the XOR of all nonces up to there; then, and outside the window, nothing moves |
| SenderSide.MarkNacksExactly | p4/spines-src-5.5/daemon/intrusion_tol_udp.c:2232-2240 | A number of the window is marked afterwards if and only if it was before, or it is asked for and has been let out |
| SenderSide.NewUnmarked | p4/spines-src-5.5/daemon/intrusion_tol_udp.c:1536-1541 | What is newly packed is not marked as asked for |
| SenderSide.OpenedExactly | p4/spines-src-5.5/daemon/intrusion_tol_udp.c:2190-2200 | What has been let out reaches the head or a congestion window beyond the tail, and no further unless it was out already |
| ReceiverSide.StoreCells | p4/spines-src-5.5/daemon/intrusion_tol_udp.c:2285-2310 | Storing a packet changes its own cell, marks exactly the numbers skipped, and nothing else |
| ReceiverSide.DrainOk | p4/spines-src-5.5/daemon/intrusion_tol_udp.c:2342-2383 | Moving the ARU over received cells hands their packets up in order and leaves a missing packet at the tail |
| ReceiverSide.DrainEarly | p4/spines-src-5.5/daemon/intrusion_tol_udp.c:2342-2383 | Moving the ARU neither forgets nor repeats what was handed up on arrival |
| ReceiverSide.AcceptOk | p4/spines-src-5.5/daemon/intrusion_tol_udp.c:2245-2384 | A genuine packet, early, late or repeated, is taken in rightly and is never beyond the window |
| ReceiverSide.AcceptExactly | p4/spines-src-5.5/daemon/intrusion_tol_udp.c:2257-2310 | Which of the four things becomes of a packet, whatever it holds, by its number and its cell; unless it is stored nothing changes |
| LinkReset.ClearInboundOk | p4/spines-src-5.5/daemon/intrusion_tol_udp.c:2435-2457 | Emptying only the cells of the window empties the whole ring |
| Delivery.KeptPrefix | p4/spines-src-5.5/daemon/intrusion_tol_udp.c:2352-2356 | The packets ordered reassembly sees are the first packets of the messages delivered in order |
| Transport.StepKeeps | p4/spines-src-5.5/daemon/intrusion_tol_udp.c:1061-2824 | Every move of either side within a session keeps the two-sided invariant |
| Transport.LetOutRun | p4/spines-src-5.5/daemon/intrusion_tol_udp.c:2190-2200 | The loop that lets out what the moved tail allows is a run of single steps |
| Transport.DataTaken | p4/spines-src-5.5/daemon/intrusion_tol_udp.c:2267-2276 | In any state kept by the invariant no packet off the wire is turned away |
| Transport.AckBelieved | p4/spines-src-5.5/daemon/intrusion_tol_udp.c:2110-2150 | In any state kept by the invariant every acknowledgement off the wire is believed |
| Transport.WiresTell | p4/spines-src-5.5/daemon/intrusion_tol_udp.c:1725-1890 | Whatever a side sends, data or not, acknowledges all it has taken by then with the XOR of all nonces up to there and asks for what it names; data is what was packed under its number |
| Incarnations.StampsTellSessions | p4/spines-src-5.5/daemon/intrusion_tol_udp.c:526-539 | The two comparisons pass if and only if the side is in the session that the packet was stamped in |
| Incarnations.HeardIs | p4/spines-src-5.5/daemon/intrusion_tol_udp.c:526-539 | Of all packets ever sent in any session, those that pass the check at a side are exactly the ones the other side sent in the session the first is in |
| Incarnations.NextKeeps | p4/spines-src-5.5/daemon/intrusion_tol_udp.c:700-710 | Whatever a side does in its session, hears of the other, or starts again: every session stays sound, the packets in the air belong to the sessions they were sent in, and each side is in step with all its daemon was given |
| Incarnations.MovesAreDeeds | p4/spines-src-5.5/daemon/intrusion_tol_udp.c:526-547 | Any possible moves within a session go on a run in which both sides are in it |
| LinkGuarantees.DeliveredInOrder | p4/spines-src-5.5/daemon/intrusion_tol_udp.c:2257-2384 | In every session with loss, repetition and reordering, what each side hands up in order is a prefix of what the other took on; all of it once everything packed has been taken |
| LinkGuarantees.DeliveredOfGiven | p4/spines-src-5.5/daemon/intrusion_tol_udp.c:2257-2384 | What is handed up in any session is an unbroken run of all the messages the other daemon was ever given, from where the session began |
| LinkGuarantees.ChainHolds | p4/spines-src-5.5/daemon/intrusion_tol_udp.c:1168-1176 | out tail <= in tail <= in head <= tcp head <= out head <= out tail + W in every session of every run |
| LinkGuarantees.NothingRefused | p4/spines-src-5.5/daemon/intrusion_tol_udp.c:2110-2276 | In every session of every run no honest packet fails the digest check or the window check |
| LinkGuarantees.LossExactly | p4/spines-src-5.5/daemon/intrusion_tol_udp.c:2475-2482 | At any time in any session, all messages ahead of the last one acknowledged in part or whole have been handed up, and that one has been if and only if all its packets have been taken; with ordering off every one-fragment message among them has been |
| LinkGuarantees.NothingElseLost | p4/spines-src-5.5/daemon/intrusion_tol_udp.c:2475-2527 | A session entered with reintroduction goes on with exactly the messages from the first that begins after what was acknowledged, and of the earlier ones, whatever their size and with ordering on or off, exactly the half-taken one is lost |
| LostMessage.HalfAcknowledged | p4/spines-src-5.5/daemon/intrusion_tol_udp.c:2106-2384 | Seven steps lead to a message of which only the first packet has been taken and acknowledged |
| LostMessage.HalfTakenIsLost | p4/spines-src-5.5/daemon/intrusion_tol_udp.c:2475-2482 | With reintroduction configured, for every message of two packets or more there is a run after which it is neither handed up nor in any window |
| LinkGuarantees.PackedOptimally | p4/spines-src-5.5/daemon/intrusion_tol_udp.c:1477-1562 | In every session, however often packing was interrupted, no division into packets uses fewer |
| LinkGuarantees.UnorderedExactlyOnce | p4/spines-src-5.5/daemon/intrusion_tol_udp.c:2312-2375 | With ordering off each one-fragment message is handed up exactly once on arrival, the others complete and in order |
| LinkGuarantees.OrderedNeverEarly | p4/spines-src-5.5/daemon/intrusion_tol_udp.c:2317-2319 | With ordering on nothing is handed up out of order |
| LinkReset.FirstIs | p4/spines-src-5.5/daemon/intrusion_tol_udp.c:2476 | The first fragment number of a packet is the one the packer wrote |
| LinkReset.BeginsFirst | p4/spines-src-5.5/daemon/intrusion_tol_udp.c:2475-2482 | From any point of the stream, the next packet that begins a message is the first packet of the first message not yet started |
| LinkReset.PendingStarts | p4/spines-src-5.5/daemon/intrusion_tol_udp.c:2517-2518 | The first message none of which was acknowledged begins at or before the head, even while a message is being packed, since the window is then full and longer than any message |
| LinkReset.ResetOk | p4/spines-src-5.5/daemon/intrusion_tol_udp.c:2475-2527 | The new window is exactly the old packets from the first that begins a message, renumbered, with digests rebuilt, and it continues with the messages from that one on; of the packets put in again the first, if there is one, counts as let out |
| LinkReset.ResetUnmarked | p4/spines-src-5.5/daemon/intrusion_tol_udp.c:2488-2527 | Nothing that is put in again counts as asked for |
| LinkReset.DiscardOk | p4/spines-src-5.5/daemon/intrusion_tol_udp.c:2460-2473 | Without reintroduction the outbound half is as good as new |
| Recovery.RoundOk | p4/spines-src-5.5/daemon/intrusion_tol_udp.c:2614-2748 | A loss-free round of timeout, NACKs and retransmission, whatever else happens between its steps, strictly shrinks the set of missing numbers below any bound let out before it, and acknowledges them all once none is missing |
| Recovery.Recovers | p4/spines-src-5.5/daemon/intrusion_tol_udp.c:2614-2824 | After one round more than numbers are missing everything let out by the start has arrived and is acknowledged, however much more has been let out since |
| RecoveryRuns.RoundReaches | p4/spines-src-5.5/daemon/intrusion_tol_udp.c:2614-2824 | A round is a sequence of possible moves |
| RecoveryRuns.RoundPossible | p4/spines-src-5.5/daemon/intrusion_tol_udp.c:2614-2824 | From every sound state a round is possible |
| RecoveryRuns.EveryRunRecovers | p4/spines-src-5.5/daemon/intrusion_tol_udp.c:2614-2824 | In every run with both sides in one session, and in either direction, rounds go on the run and recover everything let out |
| RecoveryRuns.RoundsAlwaysPossible | p4/spines-src-5.5/daemon/intrusion_tol_udp.c:2614-2824 | Any number of rounds is possible in any session of any run |
| Recovery.MissingExactly | p4/spines-src-5.5/daemon/intrusion_tol_udp.c:2805-2820 | An acknowledgement names, in order, only missing numbers of the window whose time has come, and all of them unless it is full, when it names the first ones |
| Recovery.RetransmitExactly | p4/spines-src-5.5/daemon/intrusion_tol_udp.c:2720-2740 | What is sent again is, in order, only what was asked for and may be sent again by now, and all of it unless the budget runs out, when it is the first of it |
| Recovery.RetransmitUnmarks | p4/spines-src-5.5/daemon/intrusion_tol_udp.c:2720-2740 | A number stays marked if and only if it was and has not been sent again |
| EndToEnd.LetsOutEnough | p4/spines-src-5.5/daemon/intrusion_tol_udp.c:2190-2200 | When the congestion window has been used up, either all the packets of what was taken on have been let out or a congestion window of them beyond the tail |
| EndToEnd.StageOk | p4/spines-src-5.5/daemon/intrusion_tol_udp.c:2614-2824 | A stage of letting packets out and a window's worth of rounds acknowledges everything taken on before, or a congestion window more than before |
| EndToEnd.AllDelivered | p4/spines-src-5.5/daemon/intrusion_tol_udp.c:1061-2824 | After as many stages as congestion windows are needed, everything taken on before has been handed up on the other side, and nothing else if nothing was taken on since |
| EndToEnd.EveryRunDelivers | p4/spines-src-5.5/daemon/intrusion_tol_udp.c:1061-2824 | In every run with both sides in one session, and in either direction, stages go on the run and hand up all messages a daemon was given since the session began |
| EndToEnd.StagesAlwaysPossible | p4/spines-src-5.5/daemon/intrusion_tol_udp.c:1061-2824 | Any number of stages is possible in any session of any run |
| EndToEnd.NeverStuck | p4/spines-src-5.5/daemon/intrusion_tol_udp.c:1061-2824 | Every run with both sides in one session can go on so that all messages a daemon was given since the session began are handed up |
| EndToEnd.OfferedArrives | p4/spines-src-5.5/daemon/intrusion_tol_udp.c:1061-2824 | In every run with both sides in one session, a message that can be put into packets and has fewer than 65536 bytes and at most 45 times the room less four, offered to a side with nothing pending, is taken on, and the run can go on until it is handed up on the other side with all before it |
| Meeting.EveryRunMeets | p4/spines-src-5.5/daemon/intrusion_tol_udp.c:697-710 | After any run, whoever has started again and whoever has heard of it, four deeds at most bring both sides into the session of their present incarnations, each going on from where it was as it is configured to, and neither daemon is given anything meanwhile |
| Meeting.AlwaysDelivers | p4/spines-src-5.5/daemon/intrusion_tol_udp.c:697-2824 | So any run can go on until the two have met and then until all a side brought into the session has been handed up on the other side |
| LinkWindow.LinkState.constructor | p4/spines-src-5.5/daemon/link.c:337-389 | A new link is two fresh halves |
| LinkWindow.LinkState.PackFragments | p4/spines-src-5.5/daemon/intrusion_tol_udp.c:1477-1562 | The loop over the rings in place computes the specified packing |
| LinkWindow.LinkState.SizeOf | p4/spines-src-5.5/daemon/intrusion_tol_udp.c:1092-1093 | The bytes of a message added up in 16 bits |
| LinkWindow.LinkState.LetOut | p4/spines-src-5.5/daemon/intrusion_tol_udp.c:2192-2200 | Lets out, in order, exactly what the congestion window allows |
| LinkWindow.LinkState.ForwardData | p4/spines-src-5.5/daemon/intrusion_tol_udp.c:1084-1178 | Takes on a message if and only if none is pending and its bytes in 16 bits come to at most 45 times the room less four, packs it, and lets out what the window allows |
| LinkWindow.LinkState.ProcessAru | p4/spines-src-5.5/daemon/intrusion_tol_udp.c:2106-2206 | Checks the digest, moves the tail, lets out what that allows, and packs more |
| LinkWindow.LinkState.ProcessNacks | p4/spines-src-5.5/daemon/intrusion_tol_udp.c:2232-2240 | Marks exactly the requested packets of the window |
| LinkWindow.LinkState.AcceptData | p4/spines-src-5.5/daemon/intrusion_tol_udp.c:2245-2384 | Stores, marks gaps, hands up and moves the ARU in place as specified, with the same four outcomes |
| LinkWindow.LinkState.RetransmitNacked | p4/spines-src-5.5/daemon/intrusion_tol_udp.c:2720-2740 | Sends marked packets whose time has come from the tail on within the budget, clearing their marks |
| LinkWindow.LinkState.NameMissing | p4/spines-src-5.5/daemon/intrusion_tol_udp.c:2805-2820 | Names missing numbers whose time has come from the tail on as far as they fit |
| LinkWindow.LinkState.ChangeIncarnation | p4/spines-src-5.5/daemon/intrusion_tol_udp.c:2435-2527 | The reset loops over the rings in place compute the specified reset |
| GraphChoice.StartedIs | p4/spines-src-5.5/daemon/dissem_graphs.c:1612-1722 | The three steps taken for a new problem end in the graph the enlarged problem set calls for |
| GraphChoice.ResolvedIs | p4/spines-src-5.5/daemon/dissem_graphs.c:1723-1852 | The three steps taken for a resolved problem end in the graph the reduced set calls for, and the fatal consistency check cannot fire |
| GraphChoice.MoreProblemsNoLess | p4/spines-src-5.5/daemon/dissem_graphs.c:1542-1852 | More problems never lead to a less redundant graph, nor from one end's graph straight to the other's |
| DissemState.Dissemination.ProblemOnGraph | p4/spines-src-5.5/daemon/dissem_graphs.c:1542-1566 | Says whether the graph has a problem link elsewhere than at the exempted end |
| DissemState.Dissemination.ProblemStarted | p4/spines-src-5.5/daemon/dissem_graphs.c:1612-1722 | Adds the link to the problems; counts equal their flags, flags mirror the problems, every destination has the graph they call for |
| DissemState.Dissemination.ProblemResolved | p4/spines-src-5.5/daemon/dissem_graphs.c:1723-1852 | The same for removal, with the fatal exit unreachable |
| DissemState.Dissemination.ProcessEdgeUpdate | p4/spines-src-5.5/daemon/dissem_graphs.c:1569-1853 | Only a change between down, problematic and usable counts, and then the problem set changes by exactly this link |
| LinkCosts.RecordIsExact | p4/spines-src-5.5/daemon/dissem_graphs.c:1583-1619 | In every run of leg and state-cell changes the recorded problems are exactly the links with negative cost that are not still as they started |
| LinkCosts.LastSetHolds | p4/spines-src-5.5/daemon/link_state.c:306-319 | In every run each link has the cost last set: by a leg whose own cost changes, by any state cell, or by a status that takes the link down or names at least the configured cost |
| LinkCosts.HistoryIndependent | p4/spines-src-5.5/daemon/dissem_graphs.c:1612-1853 | Two runs that leave the same links bad choose the same graph for every destination |
| LinkCosts.CellExactly | p4/spines-src-5.5/daemon/link_state.c:312-315 | After a state cell the record is right about the link if and only if it was before or the class of the cost changed |
| LinkCosts.LegExactly | p4/spines-src-5.5/daemon/network.c:605-619 | After a leg change the same, but only if the leg's own cost changed |
| LinkCosts.StatusExactly | p4/spines-src-5.5/daemon/reliable_flood.c:3403-3448 | A status change turns a right record wrong and a wrong one right if and only if it is taken and makes a good link bad or a bad one good |
| LinkCosts.StatusRunExactly | p4/spines-src-5.5/daemon/reliable_flood.c:3372-3453 | A run of status changes ends with a right record about a link if and only if it has never been up or the last change taken leaves its cost at zero or more |
| LinkCosts.StatusRunsChooseNothing | p4/spines-src-5.5/daemon/reliable_flood.c:3445-3453 | Whatever status changes come, every destination stays with two paths |
| LinkCosts.StatusChangesAreMissed | p4/spines-src-5.5/daemon/reliable_flood.c:3445-3453 | Two status changes after which a link is down and on no record |
| ShortestTree.Nearest | p4/spines-src-5.5/daemon/dissem_graphs.c:319-327 | Picks the nearest open node, the first by number among equals |
| ShortestTree.RelaxKeeps | p4/spines-src-5.5/daemon/dissem_graphs.c:336-351 | Looking at a link keeps the order of distances and every previous node right |
| ShortestTree.Distances | p4/spines-src-5.5/daemon/dissem_graphs.c:316-356 | The loop ends with every reachable node finished and no link shortening anything |
| ShortestTree.DistanceIsLeast | p4/spines-src-5.5/daemon/dissem_graphs.c:316-356 | Finished nodes are exactly the reachable ones and their distances are least path costs |
| ProblemGraphs.BuildDestinationGraph | p4/spines-src-5.5/daemon/dissem_graphs.c:268-391 | The last link from a neighbour is in the graph iff its least cost from the source avoiding the destination plus the link is within the limit; the rest is a shortest-path tree out of the source all of which leads to such neighbours |
| ProblemGraphs.LeastReversed | p4/spines-src-5.5/daemon/dissem_graphs.c:943-952 | Least costs in the reversed graph are those from the other end |
| ProblemGraphs.Mirror | p4/spines-src-5.5/daemon/dissem_graphs.c:932-985 | Reversing, solving the destination problem and reversing back gives the mirror-image graph |
| ProblemGraphs.BuildSourceGraph | p4/spines-src-5.5/daemon/dissem_graphs.c:932-985 | The first link to a neighbour is in the graph iff it leads to the destination in time; the rest is a shortest-path tree into the destination |
| LeakyBucket.SendOk | p4/spines-src-5.5/daemon/link.c:732-841 | Sending keeps sent plus waiting equal to accepted in order, the bucket in its bounds, and the first waiting packet too big for it; while somebody waits nothing leaves |
| LeakyBucket.FillOk | p4/spines-src-5.5/daemon/link.c:1062-1104 | Filling keeps the same and credits no more than the rate allows since the last fill |
| LeakyBucket.FillCredits | p4/spines-src-5.5/daemon/link.c:1083-1103 | A fill below the cap credits all the time since the last one is worth, up to the cap, whether anybody waits or not: it is in the bucket or has left; a fill at the cap changes nothing |
| LeakyBucket.WaitsExactly | p4/spines-src-5.5/daemon/link.c:732-1104 | In every run the first to wait, if no larger than the cap, has left if and only if the bucket it found and the ticks since come to its size |
| LeakyBucket.CreditIs | p4/spines-src-5.5/daemon/link.c:1089-1093 | Ticks are worth the rate times the time between them, less than a byte each lost to rounding |
| LeakyBucket.UnlimitedSends | p4/spines-src-5.5/daemon/link.c:790-802 | Without a limit every packet leaves at once |
| LeakyBucket.CapIs | p4/spines-src-5.5/daemon/network.c:181-187 | The cap is what half a millisecond is worth and one packet of the largest size |
| LeakyBucket.SinceCreation | p4/spines-src-5.5/daemon/link.c:761-1104 | In every run bytes sent since creation are at most the cap plus rate times elapsed time |
| LeakyBucket.Throughput | p4/spines-src-5.5/daemon/link.c:761-1104 | Over any stretch bytes sent are at most the bucket plus the rate times the time since its last fill |
| LeakyBucket.AnyStretch | p4/spines-src-5.5/daemon/link.c:761-1104 | Over any stretch bytes sent are at most twice the cap plus rate times its length |
| LeakyBucket.Stretch | p4/spines-src-5.5/daemon/link.c:761-1104 | Over a stretch from any time no more is sent than the first fill allows for and the stretch is worth |
| LeakyBucket.Burst | p4/spines-src-5.5/daemon/link.c:1083-1098 | With nobody waiting, the bucket and what one fill brings can leave at one instant, in packets no larger than the network takes |
| LeakyBucket.OnceTheCapExactly | p4/spines-src-5.5/daemon/link.c:761-1104 | Once the cap suffices from a time on, short of one byte, if and only if somebody waits, the bucket is empty, or bucket and uncredited time come to no more than the cap |
| LeakyBucket.TwiceTheCap | p4/spines-src-5.5/daemon/link.c:1083-1086 | Whatever the limit, after an idle time worth the cap a leg sends twice the cap at one instant |
| LeakyBucket.OneIdleSecond | p4/spines-src-5.5/daemon/spines.c:701 | At the default rate one idle second does it |
| LeakyBucket.NetworkLeg.LinkSend | p4/spines-src-5.5/daemon/link.c:732-841 | The imperative send equals the specified one |
| LeakyBucket.NetworkLeg.TrySendBuffered | p4/spines-src-5.5/daemon/link.c:843-876 | The loop over the backlog equals the specified one |
| LeakyBucket.NetworkLeg.FillBucket | p4/spines-src-5.5/daemon/link.c:1062-1104 | The imperative fill equals the specified one, which credits what LeakyBucket.FillCredits says, and the overfull exit is unreachable |

## Left out

- Byte layout of masks: a mask is the set of its one-bits; neighbour masks are not modelled.
- KPaths.ComputesBestPaths: excludes a current cost of -32768, whose 16-bit absolute value is negative, and negative configured costs where those are used.
- MultiPath.PathMasks.StampBitmask: a destination that is not configured gives the outcome Down, where the daemon would dereference NULL.
- Fragments.FeedMessages: fragments must fit a packet with their header and number at most 99, as the packer needs to make progress.
- LinkWindow.LinkState.ForwardData: excludes messages of which a packet would take more than 49 fragments, and run past the end of its scatter array; `Sendable` excludes them from runs.
- SenderSide.ForwardOk: refusals for a dead link or a malformed first element, which change nothing, are not modelled; a failing send ends the loop that lets packets out earlier.
- LinkReset.ResetOk: needs messages of at least one fragment, since the reset reads the first header of every packet; the same holds for unordered delivery.
- Meeting.EveryRunMeets: with reintroduction it needs messages of at least one fragment and a window longer than a message, as LinkReset.ResetOk does; the pings by which a side hears of the other are not modelled.
- Incarnations.NextKeeps: a fresh key exchange and the waiting time between two changes are not modelled.
- Recovery.RoundOk: counts rounds in which every timer has expired and at least one NACK and one retransmission is allowed, and in which nobody else answers what is asked for; how long a round takes is not modelled. The same holds for EndToEnd.AllDelivered.
- LeakyBucket.OnceTheCapExactly: counts whole bytes; less than one byte over the bound is left to the rounding of each fill.
- LinkCosts.RecordIsExact: speaks of links between configured nodes; the record ignores others. Routing by another weight than problem-type routing leaves the record idle.
- ProblemGraphs.BuildDestinationGraph: costs are natural numbers where the builder uses doubles that hold 16-bit costs exactly.
- DG_Compute_Graphs: the masks and edge lists it fills in, the fallback to two paths for an empty graph, and the union graph for both ends are not modelled; the choice of graphs is proved for any edge lists.
- Cryptography, handshake, pings, round-trip and loss estimates, congestion-window arithmetic, and hostile packets beyond what one side does with them (`Rebuilding`, `ReceiverSide.AcceptExactly`, `SenderSide.TakeAruExactly`).
- The Steiner-tree and other graph builders that are not on the live path, and dissemination graphs for two-way edges, which the daemon refuses.
- Memory, reference counts, sockets, alarms, event queue and skip list internals; the p1 and p2 programs.
