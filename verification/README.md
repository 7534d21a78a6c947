# A verified model of goisis

goisis is an IS-IS router. One goroutine owns its protocol state, so a run of the router is a sequence of atomic steps:
a hello, an LSP, a CSNP or PSNP arrives, a timer fires, a circuit is added or deleted, a recomputation runs. This
project models that state in Dafny and proves what holds after every such sequence. The parts are:

- **Update process** (`Lsdb`, `Reception`, `Servicing`, `Flooding`, `Sequencing`, `UpdateProcess`, `Snp`, `Csnp`,
  `Exchange`). The link-state database of a level, the send and acknowledge flags of its circuits, purges,
  sequence-number exhaustion, CSNP splitting. `Lsdb` gives every step as a function on values; `Reception` and
  `Servicing` say of each step what is stored, where it is to be sent and when, and what is reported; `UpdateProcess` is the server's own form, circuits as objects whose flag maps are
  written in place, each method proved equal to the step it performs; `Flooding` and `Sequencing` prove what every step
  keeps and what follows for every run.
- **Decision process** (`Topology`, `TentativeSet`, `Dijkstra`, `FirstHops`, `Ties`, `Spf`, `LanHops`, `TiedLan`, `Routes`,
  `RouteTable`, `Interlevel`, `Election`, `Recompute`, `Grounding`, `Fib`). Dijkstra over a heap with an index, which
  first hops a run records and what the order of equally near nodes can decide, route preference, export and leaking
  between levels, the election of Flexible Algorithm definitions, and forwarding-table programming with failing writes.
- **Origination** (`Packing`, `Origination`, `Coverage`, `Refresh`, `Router`). Greedy packing, fragments, stale-fragment
  purges, circuits coming and going on two levels, and the refresh of every own LSP.
- **Adjacency timing** (`Restart`, `SyncBudget`). The restart helper's hold and the budget that bounds how long the
  corrupt-lifetime report is suppressed.
- **Octets** (`Wire`, `SubTlv`, `PlainTlv`, `Reachability`, `Layout`, `Codec`, `Fletcher`, `Authentication`, `Echo`). The
  nested TLV codec for every registered type and what its octets mean, the checksum, digests that survive ageing, and own LSPs that come back.
- **Reload** (`Reload`, `Reloading`). The difference of two configuration files and the calls that apply it.

Time is a natural number of nanoseconds that never goes back. Lifetimes are in seconds. Sending, forwarding-table
writes, jitter, overload, policy and checksum values are parameters of the steps.

## What turned out not to hold as documented

- The comment on the suppression budget (pkg/server/lsdb.go:143-146) allows for one window. `SyncBudget.OneWindowIsNotEnough`
  is a run that exceeds it; `SuppressionIsBounded` proves the bound with two, and with one as long as no charge takes the
  budget past its limit.
- First hops at equal cost are not complete. On every topology and in every order of ties, the hops recorded are exactly
  the first routers of the shortest paths that are kept (`FirstHops.HopsAreExact`). A path is lost in two ways. One of its
  edges leads to a node settled before the one it leaves, which takes a zero metric. Or it meets its first router from a
  node that has first hops already. `LanHops.DirectHopIsMissed` is a topology of four nodes on which every computation
  loses the direct hop: merging the empty hop set of an attached LAN with a nonempty one loses it
  (pkg/server/spf.go:621-624). Where every edge that ends a shortest path is forced, the topology alone decides
  (`FirstHops.OrderlyHops`), and without pseudonodes and zero metrics nothing is lost.
- The recomputation cascade stops unless a tie decides something. A pseudonode that advertises a prefix contributes it
  only if it has a first hop. All computations agree on whether it has one exactly when the topology does not admit both
  answers (`Ties.DecidedIsAgreed`). They do agree where every edge into a pseudonode costs something. Otherwise the table
  can move between two computations over one topology (`Recompute.UndecidedMoves`, and `TiedLan.TableMoves` on three
  nodes). In the same way, which Flexible Algorithm definition is elected can depend on the order of the entries exactly
  when two unbeaten definitions differ in whether they can be evaluated (`Election.OrderDecides`). A router and one of its
  own pseudonodes can tie like that (`Election.TieIsDecidedByOrder`).
- A purge can be lost to a neighbour that still holds a live copy at its number. CSNP and PSNP lines are compared by
  number once they are not newer, so such a line takes the flag of the purge down (`Sequencing.ListedBelow`,
  `Sequencing.AcknowledgedBelow`), and none ever raises it again (`Flooding.PurgeIsNotRearmed`). By number every
  neighbour stays covered in every run. By rank each step keeps coverage unless it brings such a line
  (`Flooding.StepKeepsRanks`), and a PDU with one line for the LSP costs the cover exactly when that line is live against
  a purge only the flag covers (`Flooding.PduLoses`, at an input in `Flooding.PurgeIsLost`). A complete exchange sends
  and requests what ranks higher with the same exception (`Exchange.ExchangeSettles`).
- An echo of an own live LSP is idle exactly when it carries the stored checksum (`Sequencing.EchoIsIdle`). The stored
  value is computed before a keyed level fills in the digest. Without a key it is the one sent. With a key it is exactly
  when the checksum sums of the digest itself vanish (`Echo.EchoOfOwn`). `Echo.KeyedEchoReissues` is a node, a key and an
  LSP that is issued again because its own echo arrived.
- Draining a circuit that is deleted is documented to send every flagged LSP. On a point-to-point circuit a send keeps the
  flag, so the drain stops after one round: with more than 100 due LSPs that all fit, some stay unsent
  (`UpdateProcess.BacklogIsLost`). On a LAN, or with no more than 100 due, everything that fits is sent when the writes
  succeed (`UpdateProcess.FloodingCircuit.Drain`, `Router.FarewellIsSent`).
- A rejected forwarding-table withdrawal is forgotten. `Fib.ForwardingTable.Install` and `Retry` say of each prefix that
  agreement holds exactly when nothing unwanted is left; `Fib.RejectedWithdrawalStays` is a route no retry removes.
- A batch issued again at the file it came from is clean exactly when no redefined algorithm has a new locator and no
  dropped prefix is still connected on a circuit (`Reload.ReissueSettles`). The second half is not in the documentation.

## Model

| member | source | states |
|---|---|---|
| `Flooding.StepKeepsCover` | pkg/server/flooding.go:69-221 | By number: whatever the node does next, on every point-to-point circuit with an Up adjacency each LSP held is flagged to be sent, or the neighbour has reported it at least this new since the flag was armed, or it exceeds the circuit MTU, or a synchronization is owed. |
| `Flooding.StepKeepsRanks` | pkg/server/flooding.go:580-663 | By rank, where a purge is above a live copy at its number: the same, unless the step is a CSNP or PSNP with a line that is live at the number of a purge held. |
| `Flooding.PduLoses` | pkg/server/flooding.go:595-661 | A CSNP or a PSNP over a point-to-point circuit, with one line for an LSP that is covered by rank, leaves it uncovered if and only if that line is live against a purge, the purge fits, and the neighbour has not reported it. |
| `Flooding.PurgeIsNotRearmed` | pkg/server/flooding.go:595-661 | Such a line never arms the flag: after the CSNP line it is down on any circuit, and the PSNP line leaves it as it was or takes it down. |
| `Flooding.PurgeIsLost` | pkg/server/flooding.go:595-609 | A purge at number 7 that a line listing a live copy at 7 leaves uncovered. |
| `Flooding.ReceiveLspKeeps` | pkg/server/flooding.go:69-293 | Every branch of LSP reception (stale, purge against live, conflict, unknown purge, entry limit, own system ID, install) keeps the coverage, by number and by rank. |
| `Flooding.CsnpEntriesKeep` | pkg/server/flooding.go:595-609 | A list of CSNP entries, in any order and with repeats, keeps it by number, and by rank when none is live against a purge held. |
| `Flooding.PsnpEntriesKeep` | pkg/server/flooding.go:645-661 | So does a list of acknowledgements or requests. |
| `Flooding.SyncCovers` | pkg/server/flooding.go:504-533 | A synchronization covers the whole database whatever held before, and one held down is remembered as owed. |
| `Flooding.AttemptKeeps` | pkg/server/flooding.go:335-391 | A send, a failed write and an LSP too large for the circuit keep it. |
| `Flooding.OriginateKeeps` | pkg/server/origination.go:483-555 | Originating, or exhausting the number space while doing so, keeps it. |
| `Flooding.AgeKeeps` | pkg/server/lifetime.go:102-144 | Dropping an old purge or purging an expired LSP keeps it. |
| `Sequencing.NewerIsHigher` | pkg/server/lsdb.go:299-312 | The comparison of copies is exactly the strict order on (sequence number, purge above live). |
| `Sequencing.AgeingRaises` | pkg/server/lsdb.go:256-263 | Time alone never lowers the rank of a stored copy. |
| `Sequencing.StepAdvances` | pkg/server/flooding.go:69-293 | No step lowers the rank at which an identifier that stays in the database is held. |
| `Sequencing.RankNeverFalls` | pkg/server/lifetime.go:41-144 | Over any stretch of any run in which an identifier stays in the database, its rank at the end is no lower than at the start. |
| `Sequencing.StepSound` | pkg/server/lifetime.go:41-144 | Every step keeps: purges have no lifetime left, own LSPs never carry number 0, a held-down identifier has no live own copy, and every kept acknowledgement is flagged. |
| `Sequencing.ExhaustSound` | pkg/server/lifetime.go:78-97 | The exhaustion procedure keeps it and installs the hold-down. |
| `Sequencing.NoLiveCopy` | pkg/server/origination.go:486-491 | While a hold-down lasts, no own copy of the identifier has lifetime left. |
| `Sequencing.EveryStateIsSound` | pkg/server/flooding.go:69-221 | All of the above, and the flooding coverage, in every state of every run from an empty node. |
| `Sequencing.EchoIsIdle` | pkg/server/flooding.go:90-121 | An own live LSP received back at the number held leaves the database unchanged if and only if it carries the stored checksum. |
| `Sequencing.AcknowledgedBelow` | pkg/server/flooding.go:646-652 | A point-to-point acknowledgement removes the flag of an LSP the neighbour reports at a lower rank if and only if ours is a purge, theirs is live, and the numbers are equal. |
| `Sequencing.ListedBelow` | pkg/server/flooding.go:595-609 | A CSNP line, on any circuit, does so if and only if ours has no lifetime left, theirs is live, and the numbers are equal. |
| `Sequencing.EveryPurgeIsCovered` | pkg/server/flooding.go:580-663 | Over every run from an empty node, coverage by rank holds as long as no line was live against a purge held. |
| `Sequencing.LossHasACause` | pkg/server/flooding.go:580-663 | A state in which some neighbour is not covered by rank has such a line before it. |
| `Sequencing.EntryComparesSummaries` | pkg/server/flooding.go:595-609 | A CSNP entry moves the flags of its LSP as the comparison of the two summaries does, and no other flags. |
| `UpdateProcess.FloodLsp` | pkg/server/origination.go:559-570 | The loop over circuit objects arms the flag and drops the report on every circuit but the excepted one, and touches nothing else. |
| `UpdateProcess.FloodingCircuit.ReceiveCsnpList` | pkg/server/flooding.go:580-622 | The two loops of CSNP processing: listed entries in order, then everything the range holds and the entries do not. |
| `UpdateProcess.FloodingCircuit.ReceivePsnpList` | pkg/server/flooding.go:627-663 | The PSNP loop, as acknowledgements or as requests by circuit kind. |
| `UpdateProcess.FloodingCircuit.Transmit` | pkg/server/flooding.go:335-391 | Due flags are served in any order; at most the budget is written, failed writes counted; unless the budget is spent every due flag is served; what is written is exactly what fits and succeeds. |
| `UpdateProcess.FloodingCircuit.Drain` | pkg/server/flooding.go:692-701 | The rounds together serve a set of due flags once. With every write successful all that is due and fits is written on a LAN, and on a point-to-point circuit when it is at most 100; on one where every flag fits at most 100 are written. |
| `UpdateProcess.BacklogIsLost` | pkg/server/flooding.go:686-701 | So with more than 100 due there, some due LSP is not written. |
| `UpdateProcess.FloodingCircuit.TransmitPsnp` | pkg/server/flooding.go:395-421 | One line per flagged LSP, from the database or else the kept acknowledgement or else a request; all flags and acknowledgements are gone afterwards. |
| `UpdateProcess.Server.ProcessLsp` | pkg/server/flooding.go:69-221 | The imperative update process equals the reception step, and its outcome is told by rank: a corrupt copy and an unknown purge are not stored; a higher-ranked foreign copy is stored with its fields, armed on every other circuit and acknowledged point-to-point; an own identifier is reclaimed, passed on or purged; a copy no newer is answered, acknowledged, or purged in conflict; no other identifier is touched. |
| `Reception.ReceiveOutcome` | pkg/server/flooding.go:69-221 | Every case of reception in terms of ranks and fields: what is stored and with which lifetime, on which circuits it is to be sent, where it is acknowledged, and that nothing else changes. |
| `Reception.NewerIsTaken` | pkg/server/flooding.go:123-221 | An intact foreign copy that ranks above what is held, or is live, unknown and within the entry limit, is in the database afterwards with its number, checksum and contents and a lifetime of at least the maximum age, armed on every other circuit, disarmed and point-to-point acknowledged where it came from. |
| `Reception.OwnIsReclaimed` | pkg/server/flooding.go:227-293 | An LSP this node originates, seen above the copy held, is issued again one above the number seen, with its own contents, a full lifetime, and armed on every circuit. |
| `Reception.OriginateOutcome` | pkg/server/origination.go:483-555 | What originating one LSP comes to: held down, unchanged, exhausted, too large, or stored one number up with a full lifetime and to be sent everywhere. |
| `Reception.WithdrawOutcome` | pkg/server/lifetime.go:41-97 | What withdrawing one comes to: a purge one number up, or at the top with a hold-down, to be sent everywhere. |
| `Reception.AgeOutcome` | pkg/server/lifetime.go:102-144 | What ageing one comes to: a purge past its zero age is dropped, an expired foreign LSP is purged at its number and to be sent everywhere, anything else stays. |
| `Reception.RunsDown` | pkg/server/lsdb.go:256-263 | A stored lifetime runs down by whole seconds to zero. |
| `UpdateProcess.Server.HandleOwn` | pkg/server/flooding.go:227-263 | Reclaim, pass on, or purge an LSP carrying our system ID, as the step does. |
| `UpdateProcess.Server.Reclaim` | pkg/server/flooding.go:267-293 | Re-issue above the number seen, or exhaust. |
| `UpdateProcess.Server.Owns` | pkg/server/flooding.go:50-64 | The loop decides whether this node originates the identifier. |
| `UpdateProcess.Server.ProcessCsnp` | pkg/server/flooding.go:580-622 | CSNP processing on one circuit of the server equals the step. |
| `UpdateProcess.Server.ProcessPsnp` | pkg/server/flooding.go:627-663 | PSNP processing, ignored on a LAN by all but the DIS. |
| `Servicing.CsnpOutcome` | pkg/server/flooding.go:580-622 | A CSNP moves only flags on its circuit: a line that ranks higher is asked for, one the neighbour misses is armed at once, one held alike is disarmed; an LSP without a line is armed if and only if it is held and in the range. |
| `Servicing.PsnpOutcome` | pkg/server/flooding.go:627-663 | A PSNP line disarms on a point-to-point circuit what it reports at the number held or above, arms on the DIS of a LAN what it misses, and does nothing on a LAN otherwise. |
| `Servicing.SyncOutcome` | pkg/server/flooding.go:504-533 | A synchronization arms every LSP held at once and holds the next one down for five seconds; one that comes within that time is noted as owed and arms nothing. |
| `Servicing.AdjacencyOutcome` | pkg/server/hello.go:584-623 | Coming Up arms the database or notes it as owed, falling back keeps the flags, a teardown clears all of them. |
| `Servicing.TransmitOutcome` | pkg/server/flooding.go:335-391 | Per LSP of a send pass: not due or not tried stays; unknown or too large is dropped; a failed write stays due; one written is due again in five seconds point-to-point and done with on a LAN. |
| `Servicing.ReportOutcome` | pkg/server/flooding.go:395-421 | A report names the copy held with its lifetime less whole seconds passed, else the kept acknowledgement, else an empty request. |
| `UpdateProcess.Server.SyncCircuitLevel` | pkg/server/flooding.go:504-533 | Synchronize now, or defer to the end of the hold-down. |
| `UpdateProcess.Server.ComeUp` | pkg/server/hello.go:584-594 | A level that becomes usable is synchronized from scratch. |
| `UpdateProcess.Server.TearDown` | pkg/server/hello.go:614-623 | The flags aimed at a lost neighbour go with it. |
| `UpdateProcess.Server.TransmitSrm` | pkg/server/flooding.go:335-391 | The send pass changes only the circuit it runs on, serves every due flag unless the budget is spent, and spends it on exactly the tried LSPs that fit. |
| `UpdateProcess.Server.Exhaust` | pkg/server/lifetime.go:78-97 | Purge at the top of the number space and hold the identifier down. |
| `UpdateProcess.Server.Withdraw` | pkg/server/lifetime.go:41-64 | Purge an own LSP at the next number, or exhaust. |
| `UpdateProcess.Server.TurnIntoPurge` | pkg/server/lifetime.go:130-144 | Purge a foreign LSP at its own number. |
| `UpdateProcess.Server.Issue` | pkg/server/origination.go:483-555 | Originate one fragment unless held down, unchanged, exhausted or too large. |
| `UpdateProcess.Server.AgeLsps` | pkg/server/lifetime.go:102-122 | One pass over the database in any order equals the set-wise ageing of it. |
| `UpdateProcess.AgedIsSettled` | pkg/server/lifetime.go:102-122 | After a pass nothing is left that should have been dropped or purged. |
| `UpdateProcess.AgePassIsSteps` | pkg/server/lifetime.go:102-122 | An ageing pass is a sequence of steps, so it keeps coverage and soundness. |
| `UpdateProcess.TransmitPassIsSteps` | pkg/server/flooding.go:335-391 | So is a send pass. |
| `Snp.BeforeIsLess` | pkg/server/flooding.go:682-684 | Octet-wise comparison of identifiers is comparison of the numbers they stand for. |
| `Snp.NextLspId` | pkg/server/flooding.go:538-546 | The carrying loop adds one, and wraps only at all ones. |
| `Snp.ListedReconciles` | pkg/server/flooding.go:595-609 | One listed entry brings clear flags to what a pointwise comparison calls for, and leaves them there when repeated. |
| `Snp.ReconciledByRank` | pkg/server/flooding.go:595-609 | That comparison in the order copies supersede each other: requested if and only if theirs ranks higher; sent if and only if the copies conflict or ours ranks higher, except a purge against a live copy at its number. |
| `Snp.PurgeIsNotSent` | pkg/server/flooding.go:595-609 | A purge that ranks higher than a listed live copy and is neither sent nor asked for. |
| `Csnp.ChunkEntries` | pkg/server/flooding.go:666-679 | Groups of at most 15 entries, none empty and all but the last full, that in order make up the list. |
| `Csnp.BudgetTakesOneTlv` | pkg/server/flooding.go:429-445 | The 512-octet floor leaves room for one full TLV, and header, budget and authentication fill the buffer exactly. |
| `Csnp.SendCsnp` | pkg/server/flooding.go:429-487 | The PDUs list the sorted database in order, fit the budget, their ranges follow one another from all zeros to all ones, and none is opened while the one before had room for its first TLV. |
| `Csnp.AreaIs` | pkg/server/flooding.go:470-479 | The size that is budgeted is two octets for each TLV and sixteen for each entry. |
| `Csnp.RangesAreDisjoint` | pkg/server/flooding.go:429-487 | No identifier lies in two ranges. |
| `Csnp.RangeOf` | pkg/server/flooding.go:429-487 | Every identifier lies in one. |
| `Csnp.EntryIsInItsRange` | pkg/server/flooding.go:429-487 | An entry sits in a PDU if and only if its identifier lies in that PDU's range. |
| `Csnp.Circuit.ProcessCsnp` | pkg/server/flooding.go:580-622 | The receiving loops move the flags of every identifier as specified for that identifier alone. |
| `Csnp.PduReconciles` | pkg/server/flooding.go:580-622 | A PDU settles the identifiers of its range and no other. |
| `Csnp.SplittingIsInvisible` | pkg/server/flooding.go:429-487 | PDUs of one split, received in any order with losses and repeats, leave on each identifier whose PDU has come exactly the flags of comparing the two databases. |
| `Csnp.CompleteExchange` | pkg/server/flooding.go:580-622 | Once each PDU has come, the flags are those of the full comparison. |
| `Exchange.CsnpCompares` | pkg/server/flooding.go:580-622 | Receiving a CSNP at a node moves the flags of every LSP of its database as comparing summaries does, by its lines or by being left out of the range. |
| `Exchange.CodeOrders` | pkg/server/flooding.go:682-684 | Identifiers are ordered by system, then pseudonode octet, then fragment. |
| `Exchange.ExchangeSettles` | pkg/server/flooding.go:429-622 | Once every PDU of a split has reached a node, in any order with repeats, it asks for exactly what ranks higher at the neighbour and sends exactly what ranks higher here or conflicts, except a purge listed as live at its own number. |
| `TentativeSet.RootIsScanned` | pkg/server/spf.go:575-645 | The root of the ordered heap is an entry the linear scan may return. |
| `TentativeSet.TentSet.Pop` | pkg/server/spf.go:599-603 | Pops a least entry and removes exactly it, heap order and index map kept. |
| `TentativeSet.TentSet.Relax` | pkg/server/spf.go:608-626 | The heap form does what the linear-scan form does: insert, lower, merge hops, or nothing. |
| `TentativeSet.UpStep` | pkg/server/spf.go:632-645 | One sift-up exchange moves the disorder to the parent. |
| `TentativeSet.DownStep` | pkg/server/spf.go:632-645 | One sift-down exchange moves it below the lesser child. |
| `Spf.ComputeSpf` | pkg/server/spf.go:358-406 | Settles exactly the nodes with a two-way path through no overloaded transit node and below the ceiling, each at the least cost. The first hops recorded are exactly the first routers of the shortest paths the run keeps; on an orderly topology exactly those the topology decides; without pseudonodes and zero metrics all of them. Every real node but self has one. |
| `Spf.Expand` | pkg/server/spf.go:387-404 | Relaxing every edge of the settled node; the 32-bit sum never wraps because metrics have 24 bits. |
| `Dijkstra.NoShorterPath` | pkg/server/spf.go:358-406 | When nothing is tentative, no path below the ceiling beats a settled distance. |
| `Dijkstra.SettledIsShortest` | pkg/server/spf.go:358-406 | Settled is reachable, and the recorded cost is the least. |
| `Dijkstra.Extends` | pkg/server/spf.go:547-559 | One more edge on backed paths backs the entry that edge produces, first hops included. |
| `Dijkstra.TraceIsRegular` | pkg/server/spf.go:375-406 | At every moment of every run: settled apart from tentative and no farther, every entry backed by paths, every edge of a settled node taken into account. |
| `FirstHops.TraceAccounts` | pkg/server/spf.go:608-626 | At every moment a tentative entry has merged the first hops of all, and only, the edges out of settled nodes that give its distance. |
| `FirstHops.FirstRouterRecorded` | pkg/server/spf.go:547-559 | On every topology the first router of a shortest path that is kept is recorded at every node the path passes. |
| `FirstHops.RecordedIsKept` | pkg/server/spf.go:547-559 | Every first hop recorded belongs to a shortest path that is kept, and an entry without any has one that meets no router. |
| `FirstHops.HopsAreExact` | pkg/server/spf.go:375-406 | So the hops recorded are exactly those, whichever of the equally near nodes are settled first. |
| `FirstHops.ClearIsKept` | pkg/server/spf.go:547-626 | No order loses a shortest path whose edges are forced and which meets its first router from a node no shortest path reaches over one. |
| `FirstHops.OrderlyHops` | pkg/server/spf.go:547-626 | Where every edge that ends a shortest path is forced, the hops recorded are exactly those of such paths. |
| `FirstHops.OrderDoesNotMatter` | pkg/server/spf.go:375-406 | There two computations settle the same map whatever their ties. |
| `FirstHops.PlainIsComplete` | pkg/server/spf.go:375-406 | Without pseudonodes and zero metrics the first router of every shortest path is recorded. |
| `Ties.Run` | pkg/server/spf.go:375-406 | Every way of ranking equally near nodes is the way some computation breaks its ties. |
| `Ties.BareSomewhere` | pkg/server/spf.go:547-626 | Some computation settles a node without a first hop if and only if it is in a set of pseudonodes joined by shortest paths that is entered from nearer by only from within. |
| `Ties.RoutedSomewhere` | pkg/server/spf.go:547-626 | Some computation settles it with one if and only if some shortest path meets a router and no node twice. |
| `Ties.DecidedIsAgreed` | pkg/server/spf.go:410-413 | All computations agree on whether it has one if and only if not both hold. |
| `Ties.CostlyIsDecided` | pkg/server/spf.go:547-626 | They agree on every node when each edge into a pseudonode costs something. |
| `LanHops.OneOutcome` | pkg/server/spf.go:381-406 | On a four-node topology with a LAN every run of the loop, whatever least entries it takes, ends in one and the same state. |
| `LanHops.DirectHopIsMissed` | pkg/server/spf.go:608-626 | In that state a shortest path over the directly attached LAN starts at a router that is not among the recorded first hops. |
| `Routes.MergeSummary` | pkg/server/spf.go:524-543 | One merge keeps best class, then least metric, the union of hops at that best and the conjunction of the topology marks. |
| `Routes.SummaryIsUnique` | pkg/server/spf.go:524-543 | A set of contributions has one summary. |
| `Routes.FoldOrderIsImmaterial` | pkg/server/spf.go:408-433 | Folding contributions in any order, with repeats, makes the same choice. |
| `Routes.SummariesMerge` | pkg/server/spf.go:524-543 | The summary of all contributions is the merge of the summaries of any two parts. |
| `Routes.WinnerIsUnique` | pkg/server/rib.go:365-400 | Across levels and algorithms each prefix has one winner. |
| `RouteTable.CollectRoutes` | pkg/server/spf.go:408-433 | Visiting nodes in any order gives for each prefix the summary of all contributions below the ceiling: a route exists if and only if some settled node other than this one advertises the prefix at a total below the ceiling over a first hop; it has the best class, the least total of that class, the hops of all that reach it, and is marked when all of them are. |
| `RouteTable.AttachedDefault` | pkg/server/spf.go:466-496 | The default goes to the nearest attached routers, all of them at equal distance. |
| `RouteTable.ComputeRoutes` | pkg/server/spf.go:358-443 | Shortest paths and the routes over them together, each route told as distance plus advertised metric, with the default to the nearest attached routers where it is wanted. |
| `RouteTable.RouteSetMeans` | pkg/server/spf.go:408-443 | What each route of a computed table is, in terms of distances, advertisements and first hops, and that nothing else is in it. |
| `RouteTable.BringsOverShortest` | pkg/server/spf.go:408-433 | A contribution costs the least cost of a path to its advertiser plus the metric advertised. |
| `Topology.LinkIs` | pkg/server/spf.go:370-404 | A path steps along an edge that is advertised both ways between known nodes, and leaves an overloaded node only if it is this one. |
| `Interlevel.MergeInto` | pkg/server/rib.go:140-147 | Merging one computation into the table, prefix by prefix in any order. |
| `Interlevel.MergedIsUnique` | pkg/server/rib.go:140-147 | There is one merged table whatever the order of computations. |
| `Interlevel.PlainLevelOneWins` | pkg/server/rib.go:365-400 | A Level-1 route not leaked down always wins, and a Level-1 winner is the Level-1 table's own route. |
| `Interlevel.LeakedCopyLoses` | pkg/server/rib.go:389-400 | A copy leaked down never beats the Level-2 route it came from. |
| `Interlevel.ExportReadsLevelOne` | pkg/server/rib.go:241-266 | What is exported depends on the Level-1 table alone. |
| `Interlevel.LeakReadsPlainTables` | pkg/server/rib.go:286-330 | What is leaked is what Level 2 reaches, the policy takes and the area does not reach by itself; no other table is read. |
| `Recompute.MergedIsChosen` | pkg/server/rib.go:365-400 | Of each prefix the route of one computation is kept: Level 1, then Level 2, then leaked down, and among these the lowest algorithm. |
| `Recompute.ExportsAre` | pkg/server/rib.go:241-266 | Exported is, on a router at both levels, exactly what its Level-1 table itself reaches in the standard topology, at that metric, without defaults and own prefixes. |
| `Recompute.LeaksAre` | pkg/server/rib.go:286-330 | Leaked is, on a router at both levels with a policy, exactly what its Level-2 table reaches and the policy takes, at the Level-2 metric, unless Level 1 reaches it itself, without defaults and own prefixes. |
| `Recompute.ParticipationIs` | pkg/server/rib.go:76-137 | Announced and computed are at each level exactly the configured algorithms whose elected definition uses the default metric and only constraints that are supported. |
| `Recompute.TablesMean` | pkg/server/rib.go:114-147 | Each table is the routes over its own graph, with a default only from Level 1 of a router at that level alone. |
| `Recompute.SameDistances` | pkg/server/rib.go:49-236 | Two topologies that differ only in own prefixes settle the same nodes at the same distances. |
| `Recompute.TablesAlike` | pkg/server/spf.go:410-413 | A computation returns the same table, next hops aside, whatever this node itself advertises and however ties are broken, when ties do not decide whether a pseudonode with a prefix in reach has a first hop. |
| `Recompute.CostlyIsFirm` | pkg/server/spf.go:410-413 | That is so where every edge into a pseudonode costs something, and where no pseudonode has a prefix. |
| `Recompute.UndecidedMoves` | pkg/server/spf.go:410-413 | Where ties do decide it, two computations over one topology return tables of which one routes a prefix only that pseudonode offers and the other does not. |
| `TiedLan.TableMoves` | pkg/server/spf.go:375-413 | Three nodes on which that happens. |
| `Recompute.ComputationsStay` | pkg/server/rib.go:76-137 | The algorithms computed do not depend on the order of the database entries or on the participation this node announces, when the unbeaten definitions are of one mind. |
| `Recompute.Rib.Announceable` | pkg/server/rib.go:76-137 | The loop over levels and algorithms finds exactly the algorithms whose elected definition can be evaluated. |
| `Election.RepeatedConstraint` | pkg/server/flexalgo.go:129-138 | Decides whether a kind of constraint appears twice. |
| `Election.FlexAlgoState` | pkg/server/flexalgo.go:47-122 | One scan of live first fragments lists each algorithm elected or announced. The definition elected has the highest priority, and of those the highest system identifier, among the first definitions fragments carry, those with a repeated kind of constraint left aside. Systems that announce it are listed in ascending order, one for each entry. |
| `Election.ElectedIsHighest` | pkg/server/flexalgo.go:142-150 | That in every order of the entries, and nothing is elected if and only if there is no such definition. |
| `Election.AnnouncersAre` | pkg/server/flexalgo.go:62-115 | A system is listed if and only if a live first fragment of it takes part, once for each that does. |
| `Election.UsableIs` | pkg/server/flexalgo.go:196-245 | A definition can be evaluated if and only if its metric is the default and each constraint is a whole number of colour words or flags with nothing set but the first bit. |
| `Election.WordsAre` | pkg/server/tlvsummary.go:293-302 | Each colour word is four octets, the first the most significant. |
| `Election.AffinityOf` | pkg/server/flexalgo.go:196-245 | Link rules are returned if and only if every constraint is supported, each as its constraint says. |
| `Election.ElectedIsUnbeaten` | pkg/server/flexalgo.go:142-150 | Whatever the order, what is elected is beaten by no candidate, and nothing is elected only if there is none. |
| `Election.UnbeatenCanWin` | pkg/server/flexalgo.go:62-115 | Every unbeaten candidate is elected in some order of the entries. |
| `Election.OrderDecides` | pkg/server/flexalgo.go:62-115 | Whether the elected definition can be evaluated is the same in every order if and only if it is the same for all unbeaten candidates. |
| `Election.EvaluableStays` | pkg/server/flexalgo.go:47-150 | It then stays the same when the entries change in nothing but announced participation. |
| `Election.RoutersAreSettled` | pkg/server/flexalgo.go:47-150 | When no pseudonode carries a definition, one definition is unbeaten. |
| `Election.TieIsDecidedByOrder` | pkg/server/flexalgo.go:142-150 | A router and its pseudonode that define an algorithm differently at one priority: the order decides. |
| `Recompute.CascadeStops` | pkg/server/rib.go:49-236 | A pass after which only own prefixes and announced participation changed is followed by one with equal export, leak and computed-algorithm sets, in any order of entries and ties, when these decide nothing. |
| `Recompute.Rib.UpdateRib` | pkg/server/rib.go:49-236 | The pass computes that outcome and asks for a regeneration if and only if it differs from what was held. |
| `Recompute.Rib.Settle` | pkg/server/rib.go:49-236 | A pass, its regeneration and the pass that causes leave nothing pending. |
| `Grounding.RecomputeIsJustified` | pkg/server/rib.go:241-330 | A recomputation advertises only what it owns or has read, with the up/down bit where it must be. |
| `Grounding.EveryAdvertIsGrounded` | pkg/server/origination.go:280-341 | Over any run of any number of routers reading possibly stale databases, every Level-1 advertisement without the up/down bit was made by an owner and every Level-2 export traces to one in its area. |
| `Grounding.NothingRevives` | pkg/server/rib.go:286-330 | Without an owner no recomputation exports the prefix, and without Level-2 copies none leaks it. |
| `Grounding.CopiesDieOut` | pkg/server/rib.go:241-330 | Leaked copies cannot sustain each other: two rounds remove them everywhere. |
| `Fib.AgreesUnlessWithdrawFails` | pkg/server/rib.go:526-581 | A prefix not pending agrees with its filtered route if and only if no withdrawal due on it failed. |
| `Fib.AgreesUnlessLeft` | pkg/server/rib.go:526-581 | Whatever was left over before, it agrees if and only if nothing unwanted stays in the plane: left before with no withdrawal due, or left now by one that failed. |
| `Fib.RejectedWithdrawalStays` | pkg/server/rib.go:526-581 | A route whose withdrawal was rejected, which no later call removes. |
| `Fib.RetrySettles` | pkg/server/rib.go:526-581 | Programming the same table over a working plane leaves nothing pending, and agreement exactly where nothing was left over. |
| `Fib.ForwardingTable.ProgramFib` | pkg/server/rib.go:526-607 | New table adopted, every prefix programmed as specified; the emitted events replayed by a subscriber rebuild the table up to level and preference, and each of them is news about a prefix no other one is about. |
| `Fib.ProgrammedIs` | pkg/server/rib.go:526-581 | A write is made if and only if the accepted route is not already carried alike; it is pending afterwards if and only if that write failed; what is withdrawn and what stays follows. |
| `Fib.ForwardingTable.Install` | pkg/server/rib.go:526-581 | On each prefix not pending the plane carries what the policy lets through and nothing else, if and only if nothing was left there before and no withdrawal due was rejected. |
| `Fib.ForwardingTable.Retry` | pkg/server/server.go:568-577 | The periodic retry leaves nothing pending and announces nothing, and agreement is back on exactly the prefixes of which no failed withdrawal left anything. |
| `Packing.TlvChunks` | pkg/server/origination.go:167-190 | The step-back loop terminates; chunks concatenate to the entries, each fits one TLV or is a lone item, and none could have taken the next item. |
| `Packing.ChunksAreFewest` | pkg/server/origination.go:167-190 | No in-order split into TLVs has fewer chunks. |
| `Packing.GreedyIsFewest` | pkg/server/origination.go:167-190 | A greedy split stays ahead of any other split of the same or a longer list. |
| `Packing.AppendIsReach` | pkg/server/origination.go:121-142 | Sub-TLVs spread over entries in order, attributes on each, a new entry opened only when the last is full. |
| `Packing.EntryFitsTlv` | pkg/server/origination.go:85-104 | With attributes in half the area and no sub-TLV over the other half, every entry goes into a TLV. |
| `Packing.PackFragments` | pkg/server/origination.go:428-443 | Fragments concatenate to fixed and then variable TLVs, the fixed ones in fragment 0, each within the budget where that is possible, none opened early. |
| `Packing.LspBufferSize` | pkg/server/server.go:227-237 | The largest size no circuit, cap or standard forbids. |
| `Packing.FragmentsFitCircuits` | pkg/server/origination.go:399-443 | Given fixed TLVs that fit and variable ones that serialize, every fragment with header and digest fits every circuit. |
| `Origination.IssuedIff` | pkg/server/origination.go:483-555 | A fragment ends live with its contents if and only if it is not held down and is unchanged or can be numbered and fits. |
| `Origination.IssueAllAt` | pkg/server/origination.go:399-416 | In a whole origination each fragment is issued as if alone and no other identifier is touched. |
| `Origination.ExactlyTheFragments` | pkg/server/origination.go:399-422 | Afterwards the live own fragments are exactly 0 to n-1, each with its contents. |
| `Origination.OnlyTheFirst` | pkg/server/origination.go:399-416 | Of more than 256 fragments the first 256 are issued. |
| `Origination.NoneAbove` | pkg/server/origination.go:464-478 | Nothing at or above the count survives, whatever the fragments were. |
| `Origination.OthersUntouched` | pkg/server/origination.go:464-478 | Identifiers of other nodes and pseudonodes stay as they were. |
| `Origination.RepeatIsIdle` | pkg/server/origination.go:503-512 | Repeating the origination, then or later, changes nothing: no number moves, nothing is flooded. |
| `Origination.PurgeStaleFragments` | pkg/server/origination.go:464-478 | The loop over the database purges exactly the stale fragments, in any order. |
| `Origination.OriginateAll` | pkg/server/origination.go:399-422 | The imperative form equals the specified origination, truncated at 256 fragments. |
| `Origination.FragmentedKeeps` | pkg/server/origination.go:399-422 | Being a sequence of steps, it keeps flooding coverage, numbers and hold-downs. |
| `Coverage.AllocOctet` | pkg/server/circuit_events.go:298-314 | The sweep returns the next free octet in the cycle 1 to 255 with the cursor on it, fails if and only if all are taken, and then leaves the cursor where it was. |
| `Coverage.ReceiveOwnsNothingNew` | pkg/server/flooding.go:69-293 | No received LSP, whatever it claims, brings a new own LSP to life. |
| `Coverage.PlainCovers` | pkg/server/lifetime.go:102-144 | Receiving, ageing, sending, synchronizing and electing keep every live own LSP one that regeneration visits. |
| `Refresh.RegenerateCovers` | pkg/server/origination.go:30-38 | So does regeneration. |
| `Refresh.RegenerateIssues` | pkg/server/origination.go:30-38 | A regeneration leaves for the node and for each pseudonode it visits exactly the fragments planned for it live, and none where nothing is planned. |
| `Refresh.ForcedIsFresh` | pkg/server/origination.go:399-422 | After a forced origination every live fragment has its deadline still to come. |
| `Refresh.ForcedLeavesNoneOverdue` | pkg/server/lifetime.go:157-179 | A forced regeneration of a level leaves no own LSP past its deadline, given fragments that fit. |
| `Router.OpKeeps` | pkg/server/circuit_events.go:159-226 | Adding or deleting a circuit, regenerating and every protocol step keep octets unique in 1 to 255, circuits consistent across levels, and every own LSP covered. |
| `Router.DeleteOk` | pkg/server/circuit_events.go:341-452 | Deleting a circuit withdraws its pseudonode, and the node LSP of a level it was the last circuit of, so nothing uncovered is left. |
| `Router.FarewellIsLocal` | pkg/server/circuit_events.go:380-402 | The flush and the teardown on the departing circuit change nothing else of the node. |
| `Router.FarewellIsDue` | pkg/server/circuit_events.go:349-396 | Every LSP the deletion withdraws is a purge by then and due on the circuit that goes. |
| `Router.FarewellIsSent` | pkg/server/circuit_events.go:380-396 | Drained with every write successful, a LAN is sent each such purge, and so is a point-to-point circuit with at most 100 due. |
| `Router.EveryStateIsCovered` | pkg/server/circuit_events.go:341-452 | All of this in every state of every run of a router with two levels. |
| `Router.RefreshReachesAll` | pkg/server/lifetime.go:157-179 | At any such state a forced regeneration leaves no own LSP of either level overdue. |
| `Router.IdleLevelOwnsNothing` | pkg/server/circuit_events.go:360-388 | A level no circuit is at holds no live own LSP. |
| `SyncBudget.Adjacency.OpenSyncWindow` | pkg/server/lsdb.go:201-226 | Refill, charge what reopening adds, and open the window if the budget allows. |
| `SyncBudget.Adjacency.RefillSyncBudget` | pkg/server/lsdb.go:175-185 | Charges leak back at a tenth of elapsed time, never below zero. |
| `SyncBudget.ExchangeReopens` | pkg/server/lsdb.go:95-226 | In numbers: an exchange opens the window again if and only if less than 300 seconds are owed, is charged at most 60, and a lifetime of 1 to 59 is reported from 60 seconds after the window opened. |
| `SyncBudget.Accounting` | pkg/server/lsdb.go:131-226 | For any cap the charges stay within: suppressed time so far, time the open window still holds and charges outstanding never exceed the cap plus one window plus a tenth of elapsed time. |
| `SyncBudget.SuppressionIsBounded` | pkg/server/lsdb.go:95-100 | Over any interval and any calls the report is suppressed for at most a tenth of it plus 300 seconds plus two windows; plus one, if no charge takes the budget past its limit. |
| `SyncBudget.UpIsBounded` | pkg/server/lsdb.go:167-226 | That bound over any interval of an episode that began with the adjacency coming Up. |
| `SyncBudget.OneWindowIsNotEnough` | pkg/server/lsdb.go:143-146 | A run that exceeds the same bound with one window. |
| `SyncBudget.RunIsSound` | pkg/server/lsdb.go:167-226 | The bound holds from any point of an Up episode. |
| `Restart.P2PCircuit.ProcessHello` | pkg/server/hello.go:445-608 | Drops, handshake, area match, teardown, replacement and restart for one hello: the new adjacency with state, levels and expiry as the handshake says; a level is handed the database if and only if it carries traffic now and did not before to this neighbour, or the request is covered; a regeneration is asked for if and only if the neighbour, the state, or while Up the levels, suppression or addresses changed; the acknowledgement carries the time left. |
| `Restart.HeardShakes` | pkg/server/hello.go:445-608 | The adjacency after any hello: untouched by a useless one, ended by one that hears somebody else, else at exactly the shared levels, Up if it echoes us or a restart is covered and in Init otherwise, expiring as agreed. |
| `Restart.UpWasEchoed` | pkg/server/hello.go:524-545 | Over every run, an adjacency is Up only to a system one of whose hellos in it echoed us, unless it was Up to that system from the start. |
| `Restart.HeardLasts` | pkg/server/hello.go:698-702 | After a hello that covers no restart the adjacency has expired if and only if the holding time of that hello is over. |
| `Restart.AckIsTimeLeft` | pkg/server/restart.go:184-196 | An acknowledgement promises the whole seconds left until expiry. |
| `Restart.HoldIsBounded` | pkg/server/restart.go:71-96 | Through any run of restart requests the adjacency stays Up and its expiry moves at most once, to the first request plus the holding time agreed before. |
| `Restart.PromiseIsKept` | pkg/server/restart.go:184-196 | A promised remaining time never reaches past expiry. |
| `Restart.AcksNeverIncrease` | pkg/server/restart.go:158-169 | Acknowledged times never increase along the run and none promises past that expiry. |
| `Fletcher.Sums` | pkg/packet/checksum.go:8-31 | With a reduction every 4096 octets the running sums stay congruent to the true ones and below 2^31. |
| `Fletcher.CrestFits` | pkg/packet/checksum.go:8-31 | The largest sum between two reductions is below 2^31. |
| `Fletcher.Checksum` | pkg/packet/checksum.go:8-31 | Check octets lie in 1 to 255 and make the data valid. |
| `Fletcher.IsValid` | pkg/packet/checksum.go:35-46 | Decides validity by the defining sums. |
| `Fletcher.CheckOctetsAreUnique` | pkg/packet/checksum.go:8-31 | Only one pair of check octets in 1 to 255 is right. |
| `Fletcher.FillIsValid` | pkg/packet/checksum.go:35-46 | Filling zeros in valid data keeps it valid if and only if what is filled in is itself valid. |
| `Fletcher.OneOctetCorruption` | pkg/packet/checksum.go:35-46 | A single changed octet goes unnoticed if and only if it changed between 0 and 255. |
| `Authentication.DigestRange` | pkg/packet/auth.go:112-143 | The scan finds the digest if and only if there is exactly one Authentication TLV and it matches. |
| `Authentication.PatchAuth` | pkg/packet/auth.go:165-176 | Fills in the digest in place so that it verifies, changing no other octet, or refuses untouched; what is hashed is the PDU with the digest, and of an LSP the lifetime and checksum, as zeros (`HashedOctets`). |
| `Authentication.VerifyAuth` | pkg/packet/auth.go:180-191 | Accepts exactly what the digest says over the octets with the digest, and of an LSP lifetime and checksum, as zeros and every other octet as it is. |
| `Authentication.HashedOctets` | pkg/packet/auth.go:147-161 | The hashed octets one by one: zero in the digest, and for an LSP at 10, 11, 24 and 25, and the octet of the PDU everywhere else. |
| `Authentication.DigestCovers` | pkg/packet/auth.go:165-191 | Two PDUs that carry the same digest in the same place and both verify under one key agree in every octet it covers, or their texts are a collision of the hash. |
| `Authentication.DigestPlace` | pkg/packet/auth.go:112-143 | Where the digest stands for each algorithm, in numbers, behind type and key identifier. |
| `Authentication.AuthTlvsAreItems` | pkg/packet/auth.go:112-143 | The scan sees as many Authentication TLVs as the area splits into, wherever it starts. |
| `Authentication.FinalizeLspAuth` | pkg/packet/auth.go:196-206 | A finalized LSP verifies and has a valid checksum. |
| `Authentication.SerializeLsp` | pkg/server/auth.go:90-101 | The stored checksum is that of the octets before the digest; without a key those octets are sent, with one they are signed and checked again. |
| `Echo.SentChecksum` | pkg/packet/lsp.go:77-98 | The checksum sent is the stored one without a key, and with one if and only if the digest is itself valid. |
| `Echo.EchoOfOwn` | pkg/server/flooding.go:90-121 | So the echo of an own LSP leaves the database alone without a key, and with one exactly then. |
| `Echo.KeyedEchoReissues` | pkg/server/flooding.go:90-121 | A node, a hash and an LSP whose echo is answered with a new number. |
| `Authentication.DigestIsNotFraming` | pkg/packet/auth.go:112-143 | Rewriting the digest does not move the TLV boundaries the scan sees. |
| `Authentication.WireOctets` | pkg/server/lsdb.go:268-275 | What is sent is what is stored but for octets 10 and 11, which spell the lifetime. |
| `Authentication.SurvivesAgeing` | pkg/server/lsdb.go:268-275 | Sent later with any remaining lifetime, a finalized LSP still verifies and its raw checksum still holds. |
| `Wire.SplitOfJoin` | pkg/packet/tlv.go:109-129 | Splitting joined items gives the items back. |
| `Wire.JoinOfSplit` | pkg/packet/tlv.go:78-102 | Joining split items gives the octets back. |
| `Wire.SplitArea` | pkg/packet/tlv.go:78-102 | The consuming loop frames an area or fails exactly when a length runs past the end. |
| `SubTlv.AttrIsFixed` | pkg/packet/tlv_asla.go:141-168 | Admin groups of either width re-encode to what decodes to the same. |
| `SubTlv.PartsAreFixed` | pkg/packet/tlv_srv6.go:57-100 | Moving the SID Structure to the front is stable and keeps the size. |
| `SubTlv.EndXIsFixed` | pkg/packet/tlv_srv6_endx.go:55-116 | Adjacency SIDs are a fixed point, trailing octets dropped. |
| `SubTlv.AslaIsFixed` | pkg/packet/tlv_asla.go:61-116 | An application-specific set is a fixed point through its nested area, the reserved bit normalized. |
| `SubTlv.LinkSubIsFixed` | pkg/packet/subtlv.go:109-136 | Every neighbour sub-TLV, decoded or opaque, is a fixed point in no more octets. |
| `SubTlv.RefusedIsExact` | pkg/packet/subtlv.go:128-136 | What a decoder refuses goes back out octet for octet. |
| `SubTlv.AreaIsFixed` | pkg/packet/subtlv.go:109-124 | A sub-TLV area re-encodes within its size; nothing inside a sub-TLV can fail it. |
| `SubTlv.DecodeSubTlvs` | pkg/packet/subtlv.go:109-124 | The loop equals the specified decoding. |
| `SubTlv.DecodeSidParts` | pkg/packet/tlv_srv6.go:76-100 | The loop keeps the first well-sized structure and everything else in order. |
| `SubTlv.DecodeWords` | pkg/packet/tlv_asla.go:159-168 | The loop over 4-octet units. |
| `Reachability.NeighborIsFixed` | pkg/packet/tlv_neighbor_reach.go:45-92 | A neighbour entry is a fixed point in front of any further octets. |
| `Reachability.ReachIsFixed` | pkg/packet/tlv_ip.go:151-370 | A prefix entry of either family is a fixed point, flags, host bits and an empty sub-TLV block included. |
| `Reachability.EndSidIsFixed` | pkg/packet/tlv_srv6.go:102-139 | An End SID is a fixed point. |
| `Reachability.LocatorSubsAreFixed` | pkg/packet/tlv_srv6.go:242-264 | Putting End SIDs first is stable and no longer than before. |
| `Reachability.MaskedTwice` | pkg/packet/tlv_srv6.go:229-236 | Masking a locator is idempotent. |
| `Reachability.LocatorIsFixed` | pkg/packet/tlv_srv6.go:165-268 | A locator entry is a fixed point. |
| `Reachability.EntriesAreFixed` | pkg/packet/tlv_ip.go:317-370 | So is a whole list of any of the four kinds, in no more octets. |
| `PlainTlv.PlainIsFixed` | pkg/packet/tlv_misc.go:26-153 | Every TLV without reachability (area addresses, neighbours, padding, LSP entries, authentication, protocols, interface addresses, hostname, restart, three-way, topologies, capabilities, unknown) is a fixed point of its own type in no more octets, and all but padding, restart and topologies go back out octet for octet. |
| `PlainTlv.AreasAreExact` | pkg/packet/tlv_area_addresses.go:40-66 | Area addresses that decode go back out octet for octet. |
| `PlainTlv.TopologiesAreFixed` | pkg/packet/tlv_mt.go:162-191 | Topology lists are a fixed point, reserved bits dropped. |
| `PlainTlv.RestartIsFixed` | pkg/packet/tlv_restart.go:45-90 | A restart TLV of any of its three lengths is a fixed point, unknown flags dropped. |
| `PlainTlv.CapIsExact` | pkg/packet/tlv_router_capability.go:79-95 | Every capability sub-TLV, decoded, refused or unknown, goes back out octet for octet. |
| `Reachability.TlvIsFixed` | pkg/packet/tlv.go:78-129 | So is a TLV of any type, in no more octets. |
| `Reachability.AreaIsFixedPoint` | pkg/packet/tlv.go:78-129 | Every area that decodes serializes again, in no more octets, and decodes to the same value. |
| `Layout.ItemsMean` | pkg/packet/tlv.go:78-102 | An area splits into items if and only if the octets spell them: type, length, value. |
| `Layout.NeighborMeans` | pkg/packet/tlv_neighbor_reach.go:67-92 | A neighbour entry is read if and only if the octets spell it: seven of identifier, three of metric most significant first, a counted area. |
| `Layout.ReachMeans` | pkg/packet/tlv_ip.go:317-370 | So are prefixes of both families, field by field and bit by bit. |
| `Layout.LocatorMeans` | pkg/packet/tlv_srv6.go:208-268 | So is a locator, the bits past its length cleared. |
| `Layout.SidsMean` | pkg/packet/tlv_srv6.go:242-264 | The sub-TLVs of a locator are its End SIDs in order and the rest in order, if and only if every End SID is well spelled. |
| `Layout.PartsMean` | pkg/packet/tlv_srv6.go:76-100 | Of the sub-sub-TLVs of a SID the first structure of four octets is taken out and the rest kept in place. |
| `Layout.TlvMeans` | pkg/packet/tlv_mt.go:34-145 | A list TLV is read if and only if its type, topology and entries are spelled by the octets. |
| `Layout.SubMeans` | pkg/packet/subtlv.go:109-136 | A neighbour sub-TLV is read as its octets spell it, and is kept as refused if and only if its type is known and they spell nothing. |
| `Layout.ReservedBits` | pkg/packet/tlv_mt.go:42-175 | Reserved bits of prefixes, topologies, restarts and masks, and padding, go out as zero, and a topology number as its low twelve bits. |
| `Layout.PlainMeans` | pkg/packet/tlv_misc.go:26-153 | Every TLV without reachability is read if and only if its octets spell it, field by field. |
| `Codec.ReadEntries` | pkg/packet/tlv_neighbor_reach.go:67-92 | The consuming loop over entries equals the specified decoding. |
| `Codec.ReadAreaAddresses` | pkg/packet/tlv_area_addresses.go:52-66 | The consuming loop over area addresses, with its failures. |
| `Codec.ReadTopologyList` | pkg/packet/tlv_mt.go:177-191 | The consuming loop over topologies. |
| `Codec.ReadLocatorSubs` | pkg/packet/tlv_srv6.go:242-264 | The loop tells End SIDs and other sub-TLVs apart, and fails if and only if one End SID is bad. |
| `Codec.ReadTlvs` | pkg/packet/tlv.go:78-102 | The loop over TLVs equals the specified decoding, a bad known TLV failing the whole. |
| `Codec.WriteTlvs` | pkg/packet/tlv.go:109-119 | The serializing loop. |
| `Reload.ReloadAdopts` | pkg/config/reload.go:120-214 | For valid files, a node exactly at the old one ends exactly at the new one and every call of the batch acts, in any order within each kind. |
| `Reload.CallMeans` | pkg/server/mutate.go:53-207 | Each of the six calls is refused exactly when it is forbidden, answered as already met when it is, and otherwise acts so that it is met, changing no other entry. |
| `Reload.ReissueSettles` | pkg/config/reload.go:441-476 | Issued again at the new file the batch ends there again, and reports nothing if and only if no redefined algorithm has a new locator and no dropped prefix is connected. |
| `Reload.SecondSignalCanReport` | pkg/config/reload.go:441-476 | Two valid files whose second signal does report a refusal. |
| `Reload.SecondSignalReportsConnected` | pkg/config/reload.go:441-476 | Two valid files whose second signal reports a connected prefix. |
| `Reload.PrefixReported` | pkg/server/mutate.go:192-207 | A withdrawal is reported if and only if the prefix is absent and connected on a circuit. |
| `Reload.BoundByNew` | pkg/server/mutate.go:131-157 | After the locator deletions an algorithm to be re-added is still bound exactly by a locator new in the file. |
| `Reloading.Diff` | pkg/config/reload.go:120-214 | The loops over both files list exactly what differs, each key once, locators of moving algorithms included. |
| `Reloading.RunningNode.BindLocator` | pkg/server/mutate.go:53-76 | Adds, or answers already there, or refuses, as the state calls for. |
| `Reloading.RunningNode.UnbindLocator` | pkg/server/mutate.go:80-99 | Removes exactly the locator of that prefix. |
| `Reloading.RunningNode.BeginAlgo` | pkg/server/mutate.go:105-125 | Adds a definition, or refuses one that differs. |
| `Reloading.RunningNode.EndAlgo` | pkg/server/mutate.go:131-157 | Refuses while a locator is bound. |
| `Reloading.RunningNode.Advertise` | pkg/server/mutate.go:165-181 | Adds a routable prefix below the ceiling. |
| `Reloading.RunningNode.Withdraw` | pkg/server/mutate.go:192-207 | Withdraws, or tells connected from absent. |
| `Reloading.RunningNode.Apply` | pkg/config/reload.go:441-476 | Issues every call whatever is refused, and returns the refusals worth reporting. |
| `Reloading.AdoptFile` | pkg/config/reload.go:441-476 | Difference and application together: the node is at the new file with nothing to report. |

## Left out

- `buildTopology` (pkg/server/spf.go:86-278): the graph is the input of the decision process; edge pruning, colours and merging of parallel entries are not modelled.
- Adding and deleting circuits, and regenerating both levels, are steps on values in `Router`; update in place and the order of the circuit list are not captured there. Adding a circuit and the regeneration that follows are two steps, so runs with steps in between are included.
- Serialization of a purge is taken to succeed. In `Lsdb` an own LSP's checksum is a function of identifier, number and contents; `Echo` says how it relates to the octets sent.
- LSP contents are compared as a whole value; overload and attached bits are part of that value.
- Recompute.CascadeStops: is stated where neither the order of ties nor the order of database entries decides anything that matters; `Ties.DecidedIsAgreed` and `Election.OrderDecides` say exactly when they do. Next hops, which can follow the order of ties, are not part of what it compares.
- Flooding.StepKeepsCover: by number only, because by rank a purge can be lost; `Flooding.StepKeepsRanks` and `Flooding.PduLoses` state the rest.
- HMAC is an uninterpreted function with a fixed output length per algorithm.
- DIS election, LAN hellos and hello authentication: election enters as a step that may set either outcome. Neighbour addresses enter `Restart.P2PCircuit.ProcessHello` as whether they changed.
- Fields inside fixed-size units (LSP entries, three-way and restart TLVs) are kept as octets in `PlainTlv`, because their big-endian forms lose nothing.
- Circuit changes, YAML, and the sorting of each list in Diff: any order within a kind of call is covered by the theorems. A file that lists one locator prefix twice is outside the model.
- Pruning links by Flexible Algorithm colours, prefix policy, next-hop resolution, logging, metrics, RPC, netlink and sockets.
