# GHEX in Dafny

GHEX exchanges halo data between the subdomains of a distributed grid. This project models its
structured-grid core and proves what the code is for:

- **Halo exchange** (`Pattern`, `Tags`, `SendHalos`, `Wire`, `Connect`, `ConnectPhase`, `Duality`,
  `MakePattern`, `CommObject`, `ExchangeCycle`, `Matching`, `Delivery`, `Cells`, `EndToEnd`,
  `HaloExchange`, `FieldMemory`, `Rounds`). Pattern construction intersects halos with the domains
  of all ranks, numbers tags by rewriting map keys in place, derives send halos and ships nested
  maps over ordered channels, in any interleaving of the ranks and without deadlock. The
  communication object lays out fields of mixed types in shared padded buffers. The main theorem,
  `HaloExchange.ExchangeFillsHalos`, spans ranks that never see each other's state;
  `FieldMemory.FillHalos` brings it down to the strided memory of the fields, and
  `Rounds.EveryRoundFillsHalos` extends it to exchanges that follow each other.
- **Bulk exchange over RMA** (`AccessGuard`, `RmaProtocol`, `BulkRanges`, `BulkExchange`,
  `BulkStores`, `BulkFields`, `BulkPut`). Any number of participants run the handshake and then
  rounds of exchange and wait, step by step and interleaved arbitrarily: freshness, mutual
  exclusion, progress and termination. The halos are split into local and remote ones, the ranges
  of the local ones pair up on their channels and so make up the protocol's configuration, and
  `BulkFields.BulkFillsHalos` says what the cells of the fields hold after any number of rounds.
- **Indexing and iteration** (`MixedRadix`, `LoopNest`, `RmaRange`, `Copying`, `PackKernels`,
  `FieldPack`), for every dimension count and every layout permutation: strides and decoding are a
  bijection, the loop nests visit each cell once, the range iterator's carry chain agrees with
  direct decoding, and the batched and thread-per-element kernels do what the plain loop does.
- **Stateful kernels below the transport** (`CallbackQueue`, `AwaitFutures`, `Allocators`,
  `Accumulator`).

`OrderedMap` is the ordered map: a strictly sorted sequence of entries, so that rewriting keys in
place is a statement that needs a proof. Loops and objects that change state are methods and
classes; each is tied to a function or predicate of the old state, about which the laws are
lemmas. What several ranks do is stated over sequences of rank states and of messages.

## Assumptions

- The halo generator yields non-empty boxes of equal size in local and global coordinates
  (`Pattern.ValidHalo`). For the main theorem they are also disjoint in local coordinates
  (`EndToEnd.HalosApart`), domains do not overlap in global coordinates (`EndToEnd.DomainsApart`),
  and domain ids are unique (`Pattern.ValidWorld`). For the bulk exchange, whose puts reach into
  fields that are in use, halos also lie outside of their own domain (`BulkFields.HalosOutside`).
- Messages with the same source and tag do not overtake each other (section 3.5 of MPI 3.1); the
  code relies on this at `include/ghex/bulk_communication_object.hpp:404`.
- Every rank has at least one domain, as `include/ghex/structured/pattern.hpp:274-275` needs. Every
  domain passes the same list of fields, in the same order; the calls of different domains of one
  rank may be interleaved (`Matching.InSlotOrder`).
- The access guards of all localities behave as documented at
  `include/ghex/rma/access_guard.hpp:31-35` and `:96-100`: one mode per range, which the two ends
  of an epoch set and the two starts test.
- A blocking send of the connection phase returns when its message is buffered or received, and a
  broadcast no earlier than its root has entered it; nothing more is used of MPI there.
- Participants of a bulk exchange call exchange and wait equally often. The application writes
  cells of its own domains only, not halo cells, and none between the call and the return of
  exchange (`RmaProtocol.Enabled`, `BulkFields.OwnWrites`).
- The base allocator returns pointer-aligned blocks that do not overlap outstanding ones
  (`Allocators.NewBlock`), and the element type of an over-aligned allocator is written only
  inside its own allocation.

## What the code does not promise

Some properties that one might expect are false of the code. Each has its exact condition here.

- A field with components and a layout in which the components are not outermost:
  `make_buffer_desc` (`include/ghex/structured/regular/field_descriptor.hpp:118-134`) computes the
  component extent one too large, because the inclusive `+1` is applied to a count. The cells of a
  slice stay inside the space reserved for it if and only if the dimensions outside the components
  have one coordinate each (`FieldPack.SliceFits`; `FieldPack.InnermostComponentOverruns` is a
  concrete case). The main theorems therefore ask for this condition (`Cells.Dense`) on the spaces
  that are exchanged (`EndToEnd.GridOk`); layouts with outermost components always meet it
  (`EndToEnd.OutermostIsDense`).
- `+= n` on a range iterator: the index is a 32-bit unsigned sum. The step is clamped to the range
  if and only if index + n does not reach 2 to the 32nd (`RmaRange.StepIsClamped`;
  `RmaRange.StepWraps` is a concrete range and step). A range for which it can wrap has more than
  2 to the 31st chunks. In the constructor of such a range the last product
  (`include/ghex/structured/rma_range.hpp:139-145`), which nothing uses, overflows if coordinates
  are `int`, as they are in the repository's own domain descriptors. Likewise `++` at the end stays
  there if and only if the range has fewer than 2 to the 32nd minus 1 chunks (`RmaRange.Inc`).
- Cancelling a receive request that has completed but has not been tested: the index stored in the
  shared state may by then belong to another receive, or lie past the end of the queue
  (`CallbackQueue.StaleCancel`, `CallbackQueue.StaleIndex`). The index leads to the request's own
  entry if and only if that entry was neither called nor cancelled (`CallbackQueue.CancelHitsOwn`).
  An owner cannot see whether somebody else's stale cancel has removed his entry, so what callers
  can rely on is a rule for all of them: as long as every cancel of a request that still holds on to
  its queue is made when test would return false, cancelling reaches the request's own entry if and
  only if test would return false (`CallbackQueue.CancelRule`); if all keep to it, no cancel ever
  removes another entry (`CallbackQueue.CarefulCancels`, `CallbackQueue.Request.CancelIfPending`).
- Cancelling a receive whose message has just arrived: the cancel is refused, but only after it has
  waited for the receive (`include/ghex/transport_layer/mpi/future.hpp:183-190`), so no test finds
  the entry again and its callback never runs (`CallbackQueue.LostUncalled`;
  `CallbackQueue.LateCancel` is a concrete case). An entry that tests can find is still found
  after a refused cancel if and only if it is a send (`CallbackQueue.Queue.Cancel`).

## Model

| member | source | states |
|---|---|---|
| `HaloExchange.ExchangeFillsHalos` | include/ghex/communication_object_2.hpp:467-549 | The theorem of a halo exchange, on any rank, for any patterns made by pattern construction, any number of fields of mixed sizes, layouts and component counts, provided that every exchanged space is dense (each dimension that lies outside the components in the layout has one coordinate, which is when the code stays within the slice), any order in which the posted receives complete and any padding bytes: every halo cell whose global coordinate belongs to some domain ends with that domain's value from before the exchange, and every other cell of every field is unchanged |
| `FieldMemory.FillHalos` | include/ghex/communication_object_2.hpp:467-549 | The same theorem on memory: after the strided kernels have unpacked all messages of an exchange, in any order of completion, each element of each field of the rank is, at the address of a halo cell with an owner, the owner's element of the same global coordinate before the exchange, and at every other address what it was |
| `Rounds.EveryRoundFillsHalos` | include/ghex/communication_object_2.hpp:389-601 | Any number of exchanges one after the other, with fields and patterns that may differ from one to the next, over channels that keep the order of messages of one source and tag: whatever round the other ranks are in, the halo cells of a rank after its t-th wait hold what their owners held at their t-th exchange |
| `EndToEnd.OwnerUnique` | include/ghex/structured/pattern.hpp:288-329 | A halo cell has at most one owner, so the value promised for it is well defined |
| `EndToEnd.ReceivedIffOwned` | include/ghex/structured/pattern.hpp:305-326 | Every cell of a received iteration space lies in a generated halo and its global coordinate lies in the sending domain; the space and the halo lead to the same source cell |
| `EndToEnd.OwnedIsReceived` | include/ghex/structured/pattern.hpp:305-326 | Conversely every halo cell owned by a domain lies in a space received from that domain |
| `FieldMemory.PackBuffer` | include/ghex/packer.hpp:36-41 | On the memory of the fields, packing a send buffer slice by slice yields the message in which each slice that no later one overlaps holds its field's cells in order, as bytes, and every byte outside of the slices is as it was |
| `HaloExchange.MessageBytes` | include/ghex/packer.hpp:29-43 | Every byte of a message: each slice that no later one overlaps holds what its field packed, and every byte outside of the slices is the buffer's own |
| `FieldMemory.UnpackBuffer` | include/ghex/packer.hpp:48-52 | On the memory of the fields, unpacking a message applies its slices in the order of the field list: afterwards the memories hold the contents that this gives |
| `HaloExchange.InfoCounts` | include/ghex/packer.hpp:47-52 | Each slice of a message is unpacked on top of those before it: the cells it lists hold what it carries, all others what they held |
| `HaloExchange.MessageSpares` | include/ghex/packer.hpp:54-64 | Each message is unpacked on top of those that completed before it and leaves alone the cells it does not list |
| `HaloExchange.ArrivalIsChannel` | include/ghex/communication_object_2.hpp:495-511 | Whatever completes a posted receive is the message packed by the one send buffer of the same pair of domains, with the same size |
| `HaloExchange.ArrivalGood` | include/ghex/packer.hpp:54-64 | An arriving message writes a cell only with the value the exchange promises for it, and never a cell that has no owner |
| `HaloExchange.ReceivedSoFar` | include/ghex/common/await_futures.hpp:24-42 | After any prefix of any completion order a cell holds the promised value if some arrived message writes it and its old value otherwise |
| `HaloExchange.OwnedIsWritten` | include/ghex/communication_object_2.hpp:646-690 | Every halo cell with an owner is written by one of the posted receives |
| `EndToEnd.OutermostIsDense` | include/ghex/structured/regular/field_descriptor.hpp:118-134 | Fields whose components are outermost in memory meet the condition of the theorem on any grid |
| `HaloExchange.SlotFits` | include/ghex/structured/regular/field_descriptor.hpp:118-134 | What is dense at the receiver is dense at the sender, so both ends stay within their slices |
| `FieldMemory.PackSlice` | include/ghex/structured/regular/field_descriptor.hpp:83-92 | The strided pack of a field's spaces gives the bytes of the cells' elements, one after the other |
| `Cells.PackedAt` | include/ghex/structured/regular/field_descriptor.hpp:83-92 | Element m of a packed slice is the value of the m-th cell |
| `FieldMemory.UnpackSlice` | include/ghex/structured/regular/field_descriptor.hpp:94-103 | The strided unpack leaves a memory that holds the contents with the listed cells replaced by the slice's elements |
| `Cells.LastElementStays` | include/ghex/structured/regular/field_descriptor.hpp:94-103 | Of several elements of a slice for one cell the last one stays |
| `FieldMemory.UnpackAll` | include/ghex/common/await_futures.hpp:24-42 | Unpacking any list of completed messages keeps memories and contents in step |
| `Rounds.OneRound` | include/ghex/communication_object_2.hpp:495-522 | In one exchange a channel (source, destination, tag) carries at most one message and has exactly as many receives, and they match |
| `Rounds.InOrder` | include/ghex/communication_object_2.hpp:495-522 | Over any number of exchanges the p-th receive posted on a channel and the p-th message sent on it belong to the same exchange and match |
| `Rounds.OwnRound` | include/ghex/communication_object_2.hpp:495-522 | So a receive is completed by the message of its own exchange |
| `RmaProtocol.Freshness` | include/ghex/bulk_communication_object.hpp:572-589 | In every interleaving of any number of participants: when a halo has been opened and waited for k times, k positive, then its source has begun a k-th exchange, and the halo holds exactly what the source's field held at that beginning |
| `RmaProtocol.HaloOfExchange` | include/ghex/bulk_communication_object.hpp:572-589 | If the source begins its k-th exchange with some step, a halo that was opened and waited for k times holds what the source held at that step |
| `RmaProtocol.BeganRound` | include/ghex/bulk_communication_object.hpp:572-582 | A participant that has begun more than k exchanges has a step with which it began exchange k |
| `RmaProtocol.ReadyOwnsHalos` | include/ghex/bulk_communication_object.hpp:585-589 | Outside exchange and wait an owner has waited as often as it has opened, once per round, so the freshness theorem applies to each of its halos |
| `RmaProtocol.MutualExclusion` | include/ghex/structured/rma_range_generator.hpp:76-173 | In every reachable state a put is in progress only in remote mode, while the source is putting and the owner is between open and successful wait, and it is the put that pairs with that open; no put precedes the first open or the handshake, and nothing is in progress once the owner has waited |
| `RmaProtocol.Progress` | include/ghex/bulk_communication_object.hpp:465-589 | Every reachable state that is not the final one has an enabled step of the protocol itself, not merely a write to a field |
| `RmaProtocol.RunsComplete` | include/ghex/bulk_communication_object.hpp:465-589 | Every run has at most as many protocol steps as the initial work measure, and a run that can make no further protocol step has completed all rounds of all participants with exactly that many steps |
| `RmaProtocol.StepWorks` | include/ghex/bulk_communication_object.hpp:521-582 | Each successful step of the protocol lowers the global measure by one; writes to fields leave it alone |
| `RmaProtocol.InitialInv` | include/ghex/structured/rma_range_generator.hpp:59-71 | The initial state, every guard in remote mode, satisfies the invariant |
| `RmaProtocol.StepInv` | include/ghex/bulk_communication_object.hpp:465-589 | Every enabled step of every participant keeps the invariant |
| `RmaProtocol.RunInv` | include/ghex/bulk_communication_object.hpp:465-589 | The invariant holds in every state of every run |
| `RmaProtocol.HistoryGrows` | include/ghex/bulk_communication_object.hpp:572-582 | What a source recorded at its earlier exchanges is never changed later |
| `RmaProtocol.HandshakeGoesOn` | include/ghex/bulk_communication_object.hpp:484-511 | While some participant is still in add_field or init, some step of the handshake is enabled |
| `RmaProtocol.LastRoundGoesOn` | include/ghex/bulk_communication_object.hpp:572-589 | When all participants are in the last round or done, and not all are done, some step is enabled |
| `AccessGuard.Guard.TryStartTargetEpoch` | include/ghex/rma/access_guard.hpp:72-92 | Towards a remote node the owner may always start; within a rank or a node exactly when the mode is local |
| `AccessGuard.Guard.EndTargetEpoch` | include/ghex/rma/access_guard.hpp:72-92 | Within a rank or a node, ending the owner's epoch sets the mode to remote; towards a remote node nothing changes |
| `AccessGuard.Guard.TryStartSourceEpoch` | include/ghex/rma/access_guard.hpp:96-138 | From a remote node the source may always start; within a rank or a node exactly when the mode is remote |
| `AccessGuard.Guard.EndSourceEpoch` | include/ghex/rma/access_guard.hpp:96-138 | Within a rank or a node, ending the source's epoch sets the mode to local; from a remote node nothing changes |
| `AccessGuard.NeverBoth` | include/ghex/rma/access_guard.hpp:31-35 | In each mode exactly one of the two sides may start, the owner in local mode, and ending an epoch admits the other side |
| `AccessGuard.GuardIsProtocol` | include/ghex/rma/access_guard.hpp:72-138 | Used by two participants of one rank or node, the four operations test and set the mode exactly as the steps of the protocol do |
| `MakePattern.MakePatterns` | include/ghex/structured/pattern.hpp:288-577 | Running all phases on all ranks and passing their messages yields patterns with everything the exchange relies on: receive halos as intersections, tags, and send halos that mirror the receive halos; the connection phase is run rank after rank here, and in any interleaving in ConnectPhase; tags count the receives of a rank from another, and the common largest tag is attained |
| `MakePattern.RecvHalosOfRank` | include/ghex/structured/pattern.hpp:288-329 | All receive maps of a rank are the intersections of its halos with all domains |
| `MakePattern.LocalHalos` | include/ghex/structured/pattern.hpp:288-411 | The phases a rank runs alone leave receive maps whose tags count the receives from each rank, the largest of these tags, and the map to be sent |
| `MakePattern.SendAll` | include/ghex/structured/pattern.hpp:439-505 | Every rank has announced its destinations and put its encoded part on each channel |
| `MakePattern.ConnectAll` | include/ghex/structured/pattern.hpp:439-574 | Every rank ends with the send halos addressed to it, from all ranks |
| `ConnectPhase.ConnectConcurrently` | include/ghex/structured/pattern.hpp:439-574 | Whatever the interleaving of the ranks' broadcasts, sends and receives, once all are through every rank ends with the send halos addressed to it, from all ranks |
| `ConnectPhase.EveryRunConnects` | include/ghex/structured/pattern.hpp:439-574 | In every complete run each rank has received from each other rank the encoding of its own part |
| `ConnectPhase.AllDelivered` | include/ghex/structured/pattern.hpp:439-574 | When all ranks are through, every message has been received, in the order of sending, and none is under way |
| `ConnectPhase.Progress` | include/ghex/structured/pattern.hpp:439-574 | No deadlock: in every reachable state in which a rank is not through some rank can go on, even if no send is buffered and no rank leaves a broadcast before all have entered it |
| `ConnectPhase.RunsEnd` | include/ghex/structured/pattern.hpp:439-574 | Every run has at most as many steps as the ranks have actions |
| `ConnectPhase.ConnectCompletes` | include/ghex/structured/pattern.hpp:439-574 | What pattern construction sends never gets stuck: whatever the ranks have done so far, they can go on until each has received its part from each other |
| `ConnectPhase.ConnectStarts` | include/ghex/structured/pattern.hpp:439-574 | What pattern construction sends is addressed to other ranks only, so the phase can start; in its turn a rank broadcasts once if it has nothing for others and twice otherwise |
| `ConnectPhase.StepInv` | include/ghex/structured/pattern.hpp:439-574 | Every step keeps the invariant: what was taken from a channel and what is under way is what was sent so far, and each rank has taken as many messages as its place says |
| `ConnectPhase.ScriptToRank` | include/ghex/structured/pattern.hpp:457-503 | Although the counts for all ranks are sent before anything else, the messages for one rank are, in order, the encoding of its part |
| `ConnectPhase.CountsFirst` | include/ghex/structured/pattern.hpp:451-505 | In its turn a rank sends every other rank the number of its domains, in rank order, and only then all the rest, one rank after the other |
| `Pattern.MakeRecvHalos` | include/ghex/structured/pattern.hpp:288-329 | The four nested loops build a map, ordered by domain, with one entry per domain that meets some halo, holding all non-empty intersections with that domain in halo order |
| `Pattern.IntersectionsInOrder` | include/ghex/structured/pattern.hpp:296-326 | The spaces received from a domain are its intersections with precisely those halos that it meets, in the order of the halos |
| `Pattern.IntersectCells` | include/ghex/structured/regular/halo_generator.hpp:144-157 | A local cell is in an intersection exactly when it is in the halo and its global coordinate is in the domain, and the intersection keeps the halo's coordinate map |
| `Pattern.IntersectValid` | include/ghex/structured/regular/halo_generator.hpp:144-157 | A non-empty intersection is a halo again, inside the domain, of equal size in both coordinate systems |
| `Tags.AssignTags` | include/ghex/structured/pattern.hpp:331-361 | Rewriting the keys in place numbers the receives from each rank 0, 1, 2, ... in the order of domains and entries, changes nothing else, and returns the largest number used |
| `Tags.GlobalMaxTag` | include/ghex/structured/pattern.hpp:363-368 | The result is an upper bound of all maxima and one of them |
| `Tags.TagsDistinct` | include/ghex/structured/pattern.hpp:331-361 | Two receives of one rank from the same rank, in whichever domains, have different tags, increasing in visiting order |
| `Tags.NoTagSkipped` | include/ghex/structured/pattern.hpp:331-361 | A receive with a positive tag comes after one from the same rank with the tag before, so the n receives from a rank have the tags 0 to n - 1 |
| `Tags.TaggingKeepsOrder` | include/ghex/structured/pattern.hpp:331-361 | Although keys are rewritten in place the maps stay strictly ordered |
| `SendHalos.RebaseSpaces` | include/ghex/structured/pattern.hpp:393-409 | Each space starts and ends, in local coordinates, at its global coordinate minus the first coordinate of the sending domain; global boxes unchanged, order kept |
| `SendHalos.AddSendExtends` | include/ghex/structured/pattern.hpp:383-391 | Spaces for a leaf that is there already go behind those it has; all other leaves are untouched |
| `SendHalos.MakeSendMap` | include/ghex/structured/pattern.hpp:370-411 | The nested map has exactly one leaf per receive entry, under its rank, its source domain and its own domain with the receive's tag, holding the re-based spaces in order; all three levels are strictly ordered |
| `Duality.SendsMirrorReceives` | include/ghex/structured/pattern.hpp:288-574 | For all domains: an entry is among a domain's send halos if and only if it is the mirror of a receive entry of some domain: same tag, same spaces in global coordinates, element for element and in order; and the map is ordered |
| `Duality.SendIsMirror` | include/ghex/structured/pattern.hpp:439-574 | Every send halo mirrors a receive halo |
| `Duality.MirrorIsSent` | include/ghex/structured/pattern.hpp:439-574 | Every receive halo is mirrored by a send halo of its source domain |
| `Duality.RebasedInside` | include/ghex/structured/pattern.hpp:393-409 | Re-based local boxes lie inside the sender's own extent and keep their sizes |
| `Wire.SendPairs` | include/ghex/structured/pattern.hpp:484-500 | For each pair of a domain, in order, one message with the number of boxes and one with the boxes |
| `Wire.SendDomains` | include/ghex/structured/pattern.hpp:466-503 | One rank's part is sent as three messages, the number of domains, their ids and their numbers of pairs, and then for each domain one message with the ids, tags and ranks of its pairs followed by the pairs |
| `Wire.AppendExtends` | include/ghex/structured/pattern.hpp:559-563 | Receiving spaces for a key that is already known puts them behind the known ones and keeps the rank of the key; other keys are untouched |
| `Wire.ConnectAsSender` | include/ghex/structured/pattern.hpp:442-505 | Announced ranks and channel contents are exactly the encodings of the parts of the map |
| `Wire.ReceivePairs` | include/ghex/structured/pattern.hpp:558-567 | Decoding a channel that starts with the encoding of some pairs yields exactly those pairs and stops right behind them |
| `Wire.ReceiveDomains` | include/ghex/structured/pattern.hpp:530-569 | Round trip: decoding an encoded part yields exactly that part and consumes every message |
| `Connect.InsertPairs` | include/ghex/structured/pattern.hpp:431-433 | insert, which keeps existing entries, adds all pairs because the keys are new |
| `Connect.KeepOwn` | include/ghex/structured/pattern.hpp:415-437 | A rank's own part is filed under its domains as if it had been received |
| `Connect.SenderTurn` | include/ghex/structured/pattern.hpp:442-505 | After its turn every other rank finds the announcement and the part addressed to it |
| `Connect.ConnectRank` | include/ghex/structured/pattern.hpp:439-574 | Once all ranks have had their turn a rank holds exactly the parts addressed to it by all ranks |
| `CommObject.TagOffsets` | include/ghex/communication_object_2.hpp:397-420 | Arguments of one pattern container get one offset; the first container's is 0 and every next one's begins right behind the tags of the container met before it, with no gap |
| `CommObject.NoGaps` | include/ghex/communication_object_2.hpp:397-420 | The offsets that the bookkeeping defines put the tag ranges of the containers end to end in the order in which they are met |
| `CommObject.TagRangesDisjoint` | include/ghex/communication_object_2.hpp:397-420 | The tag ranges of different patterns in one exchange do not overlap |
| `CommObject.SpaceSize` | include/ghex/structured/pattern.hpp:57-63 | The number of cells of a box is the product of its extents |
| `CommObject.CountElements` | include/ghex/structured/pattern.hpp:152-158 | num_elements is the sum over the boxes |
| `CommObject.Allocate` | include/ghex/communication_object_2.hpp:643-691 | One call adds one slice per non-empty halo to the buffer of its pair of domains, and touches no other buffer |
| `CommObject.FindBuffer` | include/ghex/communication_object_2.hpp:665-684 | A buffer that holds something is used as it is; a new or emptied one gets the halo's rank and its tag plus the offset of the pattern |
| `CommObject.AddSlice` | include/ghex/communication_object_2.hpp:685-689 | A slice goes at the first multiple of its alignment behind the contents, and the size becomes the end of the slice; earlier slices, address and tag stay |
| `CommObject.ArgsLookup` | include/ghex/communication_object_2.hpp:409-421 | After any list of fields each buffer is what its own slices, in argument order, make of it |
| `CommObject.FillLaidOut` | include/ghex/communication_object_2.hpp:685-689 | For any sequence of mixed sizes and alignments: the first slice is at 0, every other one at the first multiple of its alignment behind the one before, and the buffer ends with the last |
| `CommObject.LayoutAgrees` | include/ghex/communication_object_2.hpp:643-691 | Slices of equal shapes give equal offsets, sizes and tags, whatever else differs between the two ends |
| `ExchangeCycle.CommunicationObject.Exchange` | include/ghex/communication_object_2.hpp:389-422 | An exchange is rejected, changing nothing, exactly if one is pending; otherwise it posts what a fresh object would post |
| `ExchangeCycle.CommunicationObject.Wait` | include/ghex/communication_object_2.hpp:525-601 | Without a pending exchange nothing happens; otherwise all buffers are emptied but kept |
| `ExchangeCycle.CommunicationObject.constructor` | include/ghex/communication_object_2.hpp:221-221 | A new object has no buffers and nothing pending |
| `ExchangeCycle.SetUpBuffers` | include/ghex/communication_object_2.hpp:409-421 | Receive and send buffers after all fields have been allocated |
| `ExchangeCycle.PostAll` | include/ghex/communication_object_2.hpp:495-511 | Exactly the buffers of positive size are posted, in increasing order of the receiving and then the sending domain |
| `ExchangeCycle.PostedSlices` | include/ghex/communication_object_2.hpp:643-691 | The slices of a posted buffer are, in argument and map order, exactly the halos with elements between the two domains of its key, laid out without needless gaps; address and tag are those of the first of them |
| `ExchangeCycle.HaloPosted` | include/ghex/communication_object_2.hpp:643-691 | Every halo with elements is in a buffer that is posted |
| `ExchangeCycle.ClearAll` | include/ghex/communication_object_2.hpp:586-599 | All buffers stay, with their address and tag, with size zero and no slices |
| `ExchangeCycle.LeftoversInert` | include/ghex/communication_object_2.hpp:665-684 | Entries left from earlier exchanges do not influence what is posted |
| `ExchangeCycle.RunConsistent` | include/ghex/communication_object_2.hpp:389-601 | After any sequence of calls the object is consistent, and pending if and only if the last call that counts was an exchange |
| `ExchangeCycle.HistoryIndependent` | include/ghex/communication_object_2.hpp:389-601 | After any run of exchange and wait with varying fields an exchange is rejected if one is pending and otherwise posts the same messages, tags, sizes and offsets as a fresh object |
| `Matching.PairHalo` | include/ghex/structured/pattern.hpp:288-574 | Two domains either have one receive entry and one mirrored send entry for each other, unique in their maps, or neither and no intersection |
| `Matching.SlotAgreement` | include/ghex/communication_object_2.hpp:643-691 | For each field slot the two ends compute matching slices: equal count, size, alignment and tag, spaces mirrored |
| `Matching.TagOffsetsAgree` | include/ghex/communication_object_2.hpp:397-420 | A rank's tag offsets do not depend on how its calls for different domains are interleaved, only on the order of the slots |
| `Delivery.EndsAgree` | include/ghex/communication_object_2.hpp:643-691 | Sender and receiver, which never see each other's state, compute the same tag, size and offsets for a pair of domains |
| `Delivery.ReceiveTagsUnique` | include/ghex/communication_object_2.hpp:664-684 | In one exchange over any list of patterns two different posted receives from the same rank have different tags |
| `Delivery.ReceiveMatchesOneSend` | include/ghex/communication_object_2.hpp:495-522 | Every posted receive matches exactly one message, of the same size and layout |
| `Cells.CellCount` | include/ghex/structured/pattern.hpp:152-158 | A halo's spaces list as many cells as num_elements times the components |
| `Cells.CellsCorrespond` | include/ghex/structured/regular/field_descriptor.hpp:83-103 | The m-th cell listed by the receiver and the m-th listed by the sender have the same global coordinate and component |
| `Cells.UnpackedEffect` | include/ghex/structured/regular/field_descriptor.hpp:94-103 | Unpacking writes exactly the listed cells, each with one of its elements of the slice |
| `Cells.SliceRestored` | include/ghex/packer.hpp:36-52 | After all slices are packed each can be read back unchanged |
| `MixedRadix.ComputeStridesImpl` | include/ghex/structured/field_utils.hpp:70-91 | The recursion fills the strides of the outer ranks as products of the inner extents, starting from any unit and padding |
| `MixedRadix.ComputeStrides` | include/ghex/structured/field_utils.hpp:92-129 | Strides are the products of the extents of the inner ranks, for every layout and dimension count: the innermost is 1, and each spans the whole extent of the next inner dimension |
| `MixedRadix.ComputeByteStrides` | include/ghex/structured/field_utils.hpp:103-128 | The innermost stride is the element size, the next one the innermost line with its padding, and every further one spans the extent of the next inner dimension |
| `MixedRadix.Dot` | include/ghex/structured/field_utils.hpp:48-55 | dot is the weighted sum |
| `MixedRadix.ComputeCoordinate` | include/ghex/structured/field_utils.hpp:131-163 | The division loop yields the mixed-radix digits of the index |
| `MixedRadix.DecodeDotInverse` | include/ghex/structured/field_utils.hpp:48-163 | Every index below the number of cells decodes to a coordinate in the box whose dot with the strides is the index |
| `MixedRadix.DotDecodeInverse` | include/ghex/structured/field_utils.hpp:48-163 | Every coordinate of the box has an index in range that decodes to it: with the converse, a bijection |
| `MixedRadix.ElementsDisjoint` | include/ghex/structured/field_utils.hpp:103-128 | With padded byte strides different coordinates have non-overlapping elements inside the memory of the field |
| `LoopNest.ForLoopLevel` | include/ghex/common/utils.hpp:122-184 | The recursive nest visits, for any number of skipped inner loops, the coordinates of the remaining ranks in row order |
| `LoopNest.ForLoop` | include/ghex/common/utils.hpp:122-184 | The n-th visit is the coordinate that decodes n over the box |
| `LoopNest.ForLoopPointer` | include/ghex/common/utils.hpp:200-274 | The n-th call gets the address of the n-th coordinate plus offset under the strides, and the n-th consecutive buffer position |
| `LoopNest.VisitedOnce` | include/ghex/common/utils.hpp:122-184 | Every coordinate of the box is visited, at its own index |
| `LoopNest.VisitInBox` | include/ghex/common/utils.hpp:122-184 | Every visit lies in the box and no coordinate is visited twice |
| `RmaRange.IncIsPlusOne` | include/ghex/structured/rma_range.hpp:26-68 | The carry chain adds one to the flat index, and overflows exactly at the last coordinate |
| `RmaRange.SetEnd` | include/ghex/structured/rma_range.hpp:57-68 | The end coordinate: the extent in the innermost dimension, the last coordinate in all others |
| `RmaRange.IncCoord3` | include/ghex/structured/rma_range.hpp:43-56 | The three-dimensional special case does what the carry chain does |
| `RmaRange.IncCoord` | include/ghex/structured/rma_range.hpp:26-68 | The recursive carry chain over the layout increments the outer digits, or sets the end coordinate when all are at their maximum |
| `RmaRange.RangeVectors` | include/ghex/structured/rma_range.hpp:104-133 | Offset, extent, end and size, with the component dimension covered whole |
| `RmaRange.ReducedStrides` | include/ghex/structured/rma_range.hpp:138-145 | Reduced strides count chunks, not elements |
| `RmaRange.MakeRange` | include/ghex/structured/rma_range.hpp:99-146 | The constructor establishes the invariant of a range |
| `RmaRange.IncBy` | include/ghex/structured/rma_range.hpp:179-205 | Stepping by n goes to the clamped 32-bit index and to the coordinate that decodes it |
| `RmaRange.DecodeInto` | include/ghex/structured/rma_range.hpp:195-204 | The division loop yields the coordinate of a chunk |
| `RmaRange.NextChunk` | include/ghex/structured/rma_range.hpp:207-221 | The carry chain applied to the coordinate of one chunk is the coordinate of the next |
| `RmaRange.Inc` | include/ghex/structured/rma_range.hpp:207-221 | ++ reaches the next chunk, the same coordinate as direct decoding, or the end; at the end it stays, except that the 32-bit index of a range of 4294967295 chunks wraps to 0 |
| `RmaRange.RangeIterator.Begin` | include/ghex/structured/rma_range.hpp:152-152 | begin is chunk 0 |
| `RmaRange.RangeIterator.End` | include/ghex/structured/rma_range.hpp:154-154 | end is one past the last chunk |
| `RmaRange.RangeIterator.Next` | include/ghex/structured/rma_range_iterator.hpp:60-60 | ++ keeps index and coordinate in step, and stays at the end |
| `RmaRange.RangeIterator.Advance` | include/ghex/structured/rma_range_iterator.hpp:64-64 | += keeps index and coordinate in step |
| `RmaRange.RangeIterator.Prev` | include/ghex/structured/rma_range_iterator.hpp:62-62 | -- goes one back and stays at the beginning |
| `RmaRange.StepIsClamped` | include/ghex/structured/rma_range.hpp:180-192 | += n clamps to [0, size] if and only if the sum does not wrap in 32 bits; where it wraps, to the sum minus 2 to the 32nd, the range has more than 2147483648 chunks |
| `RmaRange.StepWraps` | include/ghex/structured/rma_range.hpp:180-192 | A range of 49152 by 65536 by 1 elements, in chunks of one, in which the step from chunk 2415919104 by 2147483647 wraps and does not clamp |
| `RmaRange.StepBack` | include/ghex/structured/rma_range.hpp:180-192 | += n then += -n is the identity if and only if the first step was not clamped, apart from overshooting an end one already stands on |
| `RmaRange.Traverse` | include/ghex/structured/rma_range_iterator.hpp:57-70 | From begin to end the iterator gives every chunk once, in order |
| `RmaRange.ChunkOf` | include/ghex/structured/rma_range.hpp:174-177 | Every element of the range lies in a chunk |
| `RmaRange.ChunksTile` | include/ghex/structured/rma_range.hpp:174-177 | ... and in exactly one, at one position |
| `RmaRange.PutCoordinates` | include/ghex/structured/rma_put.hpp:58-71 | The loop nest with the innermost loop skipped visits the chunk coordinates |
| `RmaRange.Put` | include/ghex/structured/rma_put.hpp:48-72 | The chunked put is the elementwise copy in visiting order |
| `RmaRange.PutResult` | include/ghex/structured/rma_put.hpp:48-72 | After a put every element of the target range holds the source element of the same coordinate and all other memory is unchanged |
| `RmaRange.SplitThread` | include/ghex/structured/rma_put.hpp:206-211 | A thread's index splits into line and position of its element |
| `RmaRange.LinePtr` | include/ghex/structured/rma_put.hpp:212-217 | begin() += line points at the beginning of the line |
| `RmaRange.PutThread` | include/ghex/structured/rma_put.hpp:203-222 | A thread copies its own element, or nothing beyond the last |
| `RmaRange.PutKernel` | include/ghex/structured/rma_put.hpp:203-239 | All threads, in any order, do what the chunked put does |
| `Copying.CopiedAt` | include/ghex/structured/pack_kernels.hpp:36-59 | Copies to distinct places deliver each source element and nothing else changes |
| `Copying.OrderFree` | include/ghex/structured/pack_kernels.hpp:130-149 | Distinct copies give the same result in any order |
| `Copying.AnyThreadOrder` | include/ghex/structured/pack_kernels.hpp:130-149 | Running each copy once in any thread order is running them in sequence |
| `Copying.CopyRun` | include/ghex/structured/pack_kernels.hpp:87-89 | A copy of consecutive elements is the copy element by element |
| `Copying.CopyChunk` | include/ghex/structured/pack_kernels.hpp:87-89 | A contiguous line continues the elementwise copy by exactly its own elements |
| `Copying.BoxMovesOk` | include/ghex/structured/pack_kernels.hpp:36-47 | A box's copies stay in both memories and go to distinct places |
| `Copying.BoxCopied` | include/ghex/structured/pack_kernels.hpp:36-59 | Copying a box delivers every cell to the same coordinate and leaves the rest |
| `Copying.DecodeSnoc` | include/ghex/structured/field_utils.hpp:131-163 | Splitting off the innermost digit of an index |
| `Copying.ChunkElement` | include/ghex/structured/pack_kernels.hpp:61-93 | Element k of line n is the line's first coordinate moved by k along the contiguous dimension |
| `Copying.ChunkContiguous` | include/ghex/structured/pack_kernels.hpp:61-93 | With unit innermost stride a line occupies consecutive addresses |
| `PackKernels.CopyLoop` | include/ghex/structured/pack_kernels.hpp:36-59 | The elementwise kernel copies the box in visiting order |
| `PackKernels.LineCoordinate` | include/ghex/structured/pack_kernels.hpp:23-93 | The n-th visit over the reduced layout, with the contiguous dimension put back, is the beginning of line n |
| `PackKernels.CopyBatch` | include/ghex/structured/pack_kernels.hpp:61-127 | The batched kernel writes exactly what the elementwise kernel writes, for every layout |
| `PackKernels.ElementsIn` | include/ghex/structured/pack_kernels.hpp:131-149 | Which elements a set of threads handles |
| `PackKernels.ElementsOnce` | include/ghex/structured/pack_kernels.hpp:178-186 | No element is handled twice |
| `PackKernels.CopyElement` | include/ghex/structured/pack_kernels.hpp:138-147 | One kernel step copies the element of its index, or nothing past the end |
| `PackKernels.CopyThread` | include/ghex/structured/pack_kernels.hpp:131-149 | A thread adds its own elements to what has been copied |
| `PackKernels.CopyThreads` | include/ghex/structured/pack_kernels.hpp:131-186 | All threads, in any order and with any number of elements each, write exactly what the elementwise kernel writes |
| `FieldPack.MakeBufferStrides` | include/ghex/structured/regular/field_descriptor.hpp:118-134 | Each stride of the buffer spans the global box's extent of the next inner dimension, and for the components one more than the field has |
| `FieldPack.DensePosition` | include/ghex/structured/regular/field_descriptor.hpp:118-134 | On a dense box cell n of the slice is at position n |
| `FieldPack.SliceFits` | include/ghex/structured/regular/field_descriptor.hpp:118-134 | All cells of a slice lie in the space reserved for it if and only if the dimensions outside the components have one coordinate each |
| `FieldPack.InnermostComponentOverruns` | include/ghex/structured/regular/field_descriptor.hpp:129-129 | A concrete layout with innermost component and two cells overruns its slice |
| `FieldPack.KernelMoves` | include/ghex/structured/regular/field_descriptor.hpp:105-153 | A kernel call on a dense space moves the space's cells to consecutive positions |
| `FieldPack.PackSpace` | include/ghex/structured/regular/field_descriptor.hpp:86-91 | One round of pack, for any space, dense or not: the buffer is that after the kernel's moves |
| `FieldPack.UnpackSpace` | include/ghex/structured/regular/field_descriptor.hpp:97-102 | One round of unpack, for any space, dense or not: the same moves backwards |
| `FieldPack.PackField` | include/ghex/structured/regular/field_descriptor.hpp:83-92 | pack puts the cells of all spaces, which are dense, one after the other into the slice |
| `FieldPack.UnpackField` | include/ghex/structured/regular/field_descriptor.hpp:94-103 | unpack runs the same copies backwards |
| `FieldPack.PackThenUnpack` | include/ghex/structured/regular/field_descriptor.hpp:83-103 | What was packed from one field reaches the corresponding cells of the other |
| `BulkRanges.LocalityMutual` | include/ghex/rma/locality.hpp:36-51 | Two ranks agree on whether they are local to each other |
| `BulkRanges.LocalityIs` | include/ghex/rma/locality.hpp:36-51 | A neighbour is local within the rank, and within a node if memory is mapped across processes, provided RMA is built in; otherwise remote |
| `BulkRanges.EraseOthers` | include/ghex/bulk_communication_object.hpp:246-280 | The erase-while-iterating loop keeps an entry for the own rank in the local copy exactly if RMA is built in, one for another rank exactly if in addition memory is mapped across processes and both ranks are on one node, and all others in the remote copy; order kept |
| `BulkRanges.KeptIn` | include/ghex/bulk_communication_object.hpp:246-280 | Which entries stay |
| `BulkRanges.KeptSorted` | include/ghex/bulk_communication_object.hpp:246-280 | The copies stay ordered |
| `BulkRanges.KeptTwice` | include/ghex/bulk_communication_object.hpp:227-282 | Erasing again, for a second field of the pattern, changes nothing |
| `BulkRanges.CopiesPartition` | include/ghex/bulk_communication_object.hpp:227-282 | Every halo of a pattern is in exactly one of the local and the remote copy |
| `BulkRanges.EndsSplitAlike` | include/ghex/bulk_communication_object.hpp:227-282 | A receive halo is in the local copy if and only if the mirrored send halo is in the sender's local copy |
| `BulkRanges.PostHalos` | include/ghex/bulk_communication_object.hpp:393-430 | One range per box on the channel of its halo, halo after halo, the boxes of each from last to first |
| `BulkRanges.AddField` | include/ghex/bulk_communication_object.hpp:384-435 | A field posts the ranges of its own domain and no other |
| `BulkRanges.AddFields` | include/ghex/bulk_communication_object.hpp:384-435 | A rank posts the ranges of its fields in the order they are added, each on its own domain, numbered by the fields added to that domain before |
| `BulkRanges.OneTarget` | include/ghex/bulk_communication_object.hpp:412-430 | A (rank, tag) channel belongs to one halo of one domain on the receiving side |
| `BulkRanges.OneSource` | include/ghex/bulk_communication_object.hpp:393-410 | ... and on the sending side |
| `BulkRanges.RangesPair` | include/ghex/bulk_communication_object.hpp:384-435 | For fields added in the same order the k-th source range on a (rank, tag) channel and the k-th target range are for the same field and the same global box, and the source's local box is the target's re-based to the source's domain |
| `BulkFields.BulkFillsHalos` | include/ghex/bulk_communication_object.hpp:465-589 | The theorem of a bulk exchange, in every interleaving of all participants and of writes of the application to its own domains: once a participant has completed k rounds, k positive, every halo cell owned by a rank with which it shares memory holds what the owner's field held, at the same global coordinate and component, when the owner began its k-th exchange |
| `BulkFields.RangesFresh` | include/ghex/bulk_communication_object.hpp:465-589 | The same for the cells of each registered target range and the source range that serves it |
| `BulkFields.RunIsStoreRun` | include/ghex/bulk_communication_object.hpp:465-589 | In every run all ranges lie in the memory of their fields, puts and writes disturb no other range, and the protocol's data is that of the fields |
| `BulkFields.TransfersApart` | include/ghex/bulk_communication_object.hpp:384-435 | No two target ranges of a field overlap, and no target range overlaps a source range |
| `BulkFields.OwnedTarget` | include/ghex/bulk_communication_object.hpp:411-430 | Every owned halo cell of every field lies in a registered target range, which is served by a range of the owner's field |
| `BulkExchange.ProtocolOk` | include/ghex/bulk_communication_object.hpp:465-554 | Target and source ranges that meet one to one on each (rank, tag) channel make up a proper configuration of the access protocol: each channel has one source and one target and is listed once by either |
| `BulkExchange.PatternPostsOk` | include/ghex/bulk_communication_object.hpp:384-435 | The ranges that fields of one pattern register meet one to one on each channel |
| `BulkStores.FieldsFresh` | include/ghex/bulk_communication_object.hpp:572-589 | Freshness cell by cell: a halo that was opened and waited for k times agrees with the source's field at the beginning of its k-th exchange |
| `BulkStores.StepShown` | include/ghex/structured/rma_range_generator.hpp:141-173 | Every step keeps the protocol's data and the fields in agreement |
| `BulkStores.SameData` | include/ghex/structured/rma_put.hpp:48-72 | A target range and a source range show the same data if and only if they agree cell by cell |
| `BulkPut.PutFields` | include/ghex/structured/rma_put.hpp:48-72 | A put on the memory of two fields leaves the target's memory with the source's cells in the target range and all other cells as they were |
| `BulkPut.PutMovesCells` | include/ghex/structured/rma_put.hpp:48-72 | The chunked copy through range and field offsets reads and writes the cells that the two boxes name |
| `CallbackQueue.Queue.Enqueue` | include/ghex/transport_layer/callback_utils.hpp:192-197 | The entry goes to the end and its request points there |
| `CallbackQueue.Queue.RunCallback` | include/ghex/transport_layer/callback_utils.hpp:212-212 | The callback runs while the entry is still queued |
| `CallbackQueue.Queue.SwapOut` | include/ghex/transport_layer/callback_utils.hpp:215-219 | The last entry takes the free place, all others stay where they are, and only the index of the moved entry's request changes |
| `CallbackQueue.Queue.Finish` | include/ghex/transport_layer/callback_utils.hpp:214-219 | The request is marked ready and the entry leaves the queue |
| `CallbackQueue.Queue.Cancel` | include/ghex/transport_layer/callback_utils.hpp:231-245 | A receive that is cancelled in time leaves the queue uncalled and is counted; one that comes too late stays in the queue, but no later test finds it; the futures of sends refuse, and that changes nothing |
| `CallbackQueue.Queue.PostAll` | include/ghex/transport_layer/callback_utils.hpp:212-212 | What is posted while a callback runs is accepted in order, with new requests; what is complete at once has been called and the rest is queued |
| `CallbackQueue.Queue.Complete` | include/ghex/transport_layer/callback_utils.hpp:206-220 | One round: the entry's callback is the first to run, what it posts is accepted in order, and then the entry is marked ready, swapped and popped |
| `CallbackQueue.Queue.Progress` | include/ghex/transport_layer/callback_utils.hpp:204-225 | Any order of completions is a chain of such rounds, as many as are counted, up to the first pick that no test can find, and the consistency of queue, requests and books is kept |
| `CallbackQueue.Queue.AddCounter` | include/ghex/transport_layer/communicator.hpp:179-179 | A new countdown starts at the number of destinations |
| `CallbackQueue.Queue.CallAtOnce` | include/ghex/transport_layer/mpi/communicator.hpp:122-173 | A send or receive that is complete when issued is called at once and never queued; its request is ready |
| `CallbackQueue.Queue.Issue` | include/ghex/transport_layer/mpi/communicator.hpp:122-173 | A send or receive with a callback is called at once if it is complete and queued otherwise, on a countdown or not |
| `CallbackQueue.Queue.SendPart` | include/ghex/transport_layer/mpi/communicator.hpp:122-137 | One part is accepted once, queued or called |
| `CallbackQueue.Queue.SendMulti` | include/ghex/transport_layer/communicator.hpp:173-223 | One part per destination, in order, all on one countdown; no destinations leave a countdown that never fires |
| `CallbackQueue.RequestFindsEntry` | include/ghex/transport_layer/callback_utils.hpp:39-58 | Every accepted entry is queued, called or cancelled, exactly once; accepted = called + cancelled + queued; while queued its request leads to it, once called it is ready |
| `CallbackQueue.OnePlace` | include/ghex/transport_layer/callback_utils.hpp:192-244 | The books alone imply that no entry is called twice or both called and cancelled |
| `CallbackQueue.FiresOnce` | include/ghex/transport_layer/communicator.hpp:173-223 | The user's callback of a send to several destinations has run once if there are destinations and all parts have completed, and not at all if there are none, while a part is queued or after one was cancelled |
| `CallbackQueue.CancelHitsOwn` | include/ghex/transport_layer/mpi/request_cb.hpp:50-60 | The index that cancel uses leads to the request's own entry if and only if that entry was neither called nor cancelled before; if nobody has cancelled the entry, the request's own caller or another one, that is if and only if the request is not ready. Any state of the queue, the empty one included |
| `CallbackQueue.CancelRule` | include/ghex/transport_layer/mpi/request_cb.hpp:38-60 | In every run in which each earlier cancel of a request that still held on to its queue was made when test would have returned false, the index of such a request leads to its own entry if and only if test would return false now |
| `CallbackQueue.CarefulCancels` | include/ghex/transport_layer/mpi/request_cb.hpp:38-60 | So in every run in which all cancels are made like that, each cancels the entry of its own request or nothing |
| `CallbackQueue.HoldsOn` | include/ghex/transport_layer/mpi/request_cb.hpp:38-60 | Which requests hold on to the queue after each action, and which receives are lost |
| `CallbackQueue.StepRespected` | include/ghex/transport_layer/mpi/request_cb.hpp:38-60 | Every send, receive, completion, test and every such cancel keeps it that no entry is cancelled while its request holds on to the queue |
| `CallbackQueue.Request.Test` | include/ghex/transport_layer/mpi/request_cb.hpp:38-48 | True if the request has let go of its queue or is ready, and then it lets go |
| `CallbackQueue.Request.Cancel` | include/ghex/transport_layer/mpi/request_cb.hpp:50-60 | A request that has let go does nothing; otherwise the queue cancels at the stored index, and on success the request lets go |
| `CallbackQueue.Request.CancelIfPending` | include/ghex/transport_layer/mpi/request_cb.hpp:38-60 | Testing before cancelling needs no assumption on the index and cancels the request's own entry or nothing |
| `CallbackQueue.StaleCancel` | include/ghex/transport_layer/mpi/request_cb.hpp:50-60 | Two receives, of which the first completes and is then cancelled untested: the second receive is cancelled |
| `CallbackQueue.StaleIndex` | include/ghex/transport_layer/callback_utils.hpp:231-245 | One receive that completes: the queue is empty and cancelling the request would read past its end |
| `CallbackQueue.LateCancel` | include/ghex/transport_layer/callback_utils.hpp:231-245 | One receive that completes unseen and is cancelled: it stays in the queue, uncalled, and no test finds it |
| `CallbackQueue.LostUncalled` | include/ghex/transport_layer/mpi/future.hpp:180-193 | In every run a receive that was cancelled too late is never called afterwards |
| `AwaitFutures.Sweep` | include/ghex/common/await_futures.hpp:33-40 | remove_if keeps the indices that are not ready, in order, and runs the continuations of the others, in order |
| `AwaitFutures.Await` | include/ghex/common/await_futures.hpp:23-59 | The continuations run are exactly those of futures found ready in some sweep, in the order of the sweeps and within a sweep of the indices, each once; the loop ends when none is left |
| `AwaitFutures.CallsInOrder` | include/ghex/common/await_futures.hpp:23-42 | A future that is first ready in an earlier sweep, or in the same sweep with a smaller index, is continued earlier |
| `AwaitFutures.EachContinuationOnce` | include/ghex/common/await_futures.hpp:23-59 | A continuation runs once if its future was ever found ready and never otherwise; called plus left is all |
| `AwaitFutures.SweepsInOrder` | include/ghex/common/await_futures.hpp:33-40 | Within a sweep indices stay in increasing order |
| `Allocators.AlignedInside` | include/ghex/allocator/aligned_allocator_adaptor.hpp:89-105 | The address is aligned and leaves room for the back pointer and, with the extra bytes, for the elements |
| `Allocators.PayloadIsProduct` | include/ghex/allocator/aligned_allocator_adaptor.hpp:91-91 | The bytes of n elements are n times the element size |
| `Allocators.BlocksApart` | include/ghex/allocator/aligned_allocator_adaptor.hpp:89-105 | Live blocks are aligned, lie with their back pointers inside their base blocks and never overlap |
| `Allocators.BaseIsLivePlusFree` | include/ghex/allocator/pool_allocator_adaptor.hpp:52-74 | Per size, base blocks are those in use and those in the free list, and no block is both |
| `Allocators.TakeKeeps` | include/ghex/allocator/pool_allocator_adaptor.hpp:59-68 | What the pool hands out is a base block of the right size that nobody uses |
| `Allocators.AllocateKeeps` | include/ghex/allocator/aligned_allocator_adaptor.hpp:89-105 | Allocation keeps the invariant and adds one new live block, in a base block of n times the element size plus the alignment |
| `Allocators.DeallocateKeeps` | include/ghex/allocator/aligned_allocator_adaptor.hpp:107-112 | The pointer and byte count that go back to the pool are those that came from it |
| `Allocators.GiveThenTake` | include/ghex/allocator/pool_allocator_adaptor.hpp:59-74 | The block given back last is handed out next for its size, without asking the base allocator |
| `Allocators.WriteKeeps` | include/ghex/allocator/aligned_allocator_adaptor.hpp:89-105 | Writing the elements of a block destroys no back pointer |
| `Allocators.Buffers.constructor` | include/ghex/allocator/pool_allocator_adaptor.hpp:42-44 | An empty pool without buffers |
| `Allocators.Buffers.Construct` | include/ghex/transport_layer/message_buffer.hpp:81-95 | A buffer of n bytes holds an allocation of that size, or none for 0 |
| `Allocators.Buffers.TakeFor` | include/ghex/allocator/allocation.hpp:51-55 | An allocation belongs to the buffer it was made for |
| `Allocators.Buffers.Take` | include/ghex/allocator/aligned_allocator_adaptor.hpp:89-96 | The allocation the stack makes, in a base block of n times the element size plus the alignment |
| `Allocators.Buffers.Give` | include/ghex/allocator/aligned_allocator_adaptor.hpp:107-112 | The allocation goes back to the pool |
| `Allocators.Buffers.Destroy` | include/ghex/allocator/allocation.hpp:40-45 | A destroyed buffer gives back what it holds |
| `Allocators.Buffers.Reserve` | include/ghex/transport_layer/message_buffer.hpp:150-157 | Nothing happens within the capacity; beyond it the buffer gets a block of precisely n elements before the old one is given back; its size and all other buffers stay |
| `Allocators.Buffers.Replace` | include/ghex/transport_layer/message_buffer.hpp:153-156 | The buffer owns the new block and nobody the old one |
| `Allocators.Buffers.Resize` | include/ghex/transport_layer/message_buffer.hpp:160-164 | reserve, then the new size |
| `Allocators.Buffers.Write` | include/ghex/transport_layer/message_buffer.hpp:124-140 | Writing into a buffer's memory keeps the whole stack consistent |
| `Allocators.Buffers.Clear` | include/ghex/transport_layer/message_buffer.hpp:167-167 | Size 0, memory kept |
| `Allocators.Buffers.MoveConstruct` | include/ghex/transport_layer/message_buffer.hpp:97-102 | Memory and size change owner, the other buffer is empty |
| `Allocators.Buffers.MoveAssign` | include/ghex/transport_layer/message_buffer.hpp:104-110 | The old memory goes back first, then as above |
| `Allocators.AllReturned` | include/ghex/allocator/pool_allocator_adaptor.hpp:52-57 | When all buffers are gone every base block is in the free list of its own size exactly, so the destructor gives each back once with its byte count |
| `Accumulator.StatisticsAreTrue` | include/ghex/common/accumulator.hpp:79-87 | After any samples the stored mean and second moment are the true mean and sum of squared deviations |
| `Accumulator.MergeIsConcatenation` | include/ghex/common/accumulator.hpp:92-112 | Merging two accumulators is accumulating the concatenation, empty ones included |
| `Accumulator.SpreadDoesNotMatter` | include/ghex/common/accumulator.hpp:141-163 | The result depends only on the multiset of samples |
| `Accumulator.Collector.Sample` | include/ghex/common/accumulator.hpp:79-87 | The update of one sample |
| `Accumulator.Collector.Samples` | include/ghex/common/accumulator.hpp:68-74 | A range of samples continues the accumulation |
| `Accumulator.Collector.Merge` | include/ghex/common/accumulator.hpp:92-112 | The in-place merge |
| `Accumulator.Reduce` | include/ghex/common/accumulator.hpp:153-160 | The fold over the ranks equals accumulating all samples of all ranks |

## Left out

- The halo generator and domain decomposition (`include/ghex/structured/regular/halo_generator.hpp`): their results are assumed as stated above; only `intersect` is modelled. Halos that are empty are rejected by the iteration space constructor and excluded by `Pattern.ValidHalo`.
- MPI, UCX, CUDA, XPMEM and shared-memory calls, streams, events and memory handles, Fortran bindings, timers, printing: input and output or foreign code. The messages, the channel order and the kernels' index arithmetic are modelled.
- Integer widths, except in the range iterator: ranks, tags, sizes and offsets are unbounded, so tags beyond the transport's limit and sizes beyond `int` are not seen.
- Ranks and transport addresses are the same number.
- Several devices in one exchange: buffers of one device only, so tags are shown distinct per device.
- The compile-time-argument form of `exchange` and the callback-based receives: same layout code; only the iterator form and the future-based receives are modelled.
- Gathering domains and the largest tag before the connection phase are collective calls and taken as done; `ConnectPhase` starts behind them. How many messages a receiver takes is its part's number of messages, as `Wire.ReceiveDomains` proves of the decoding loop.
- GPU packers: the kernels of `pack_kernels.hpp` are modelled as threads in any order; the fused kernels of `packer.hpp` are not.
- `FieldPack.PackField`: for dense spaces only; for others the code writes past the slice, `FieldPack.PackSpace` still says what one kernel call does.
- `FieldPack.UnpackField`: for dense spaces only; for others the code reads past the slice.
- `FieldMemory.PackSlice`: for dense spaces only, as above.
- `FieldMemory.UnpackSlice`: for dense spaces only, as above.
- Elements in `FieldMemory` are values of the field's size in bytes at element addresses, not single bytes at byte addresses. The batched kernel needs a unit innermost stride, so descriptors with user-given strides are out.
- Fields with fused components in RMA puts (`include/ghex/structured/rma_put.hpp:74-101`): the copy length counts the components twice. Only the form for other layouts is proved.
- Copies between host and device in RMA puts: same index arithmetic.
- The variant of the bulk exchange with unique tags per range (`GHEX_BULK_UNIQUE_TAGS`): the default relies on message order, which is the harder case.
- `RmaProtocol` is a step system instead of classes: what matters is the interleaving of participants. Waiting inside `recv` and `send` of the handshake is a step that is not enabled. A put is two steps during which the halo is undefined in the protocol; in `BulkFields` the fields change at its second step. The order of ranges in a participant's list is that in which they were added, while the code goes field type by field type; the results hold for any order. The remote part of a bulk exchange is the communication object's and is not interleaved with it.
- Bulk exchanges over several patterns at once, or in which the domains add different numbers of fields: `BulkFields` takes the fields of one pattern, and every domain adds all of them.
- Serialization of ranges and guards into archives, type-erased range factories: only easy members.
- The older communication object: its order of buffers is not a strict order, so no map argument can rest on it.
- Reallocation of the callback queue while a callback runs, calls to progress from a callback, and nested waiting on the shared index list: excluded.
- `CallbackQueue.Queue.Progress`: the entries that a test finds ready are a parameter; which futures are ready when is up to the network. The same holds for `AwaitFutures.Await`, which is cut off after the given tests because the code waits for ever if a future never becomes ready.
- `CallbackQueue.Queue.Cancel`: cancelling a receive once more after it came too late is an error of MPI; the model lets the transport answer anything.
- `CallbackQueue.Request`: one handle for each request; a copied handle would not see that the other has let go. The requests of the UCX backend are not modelled.
- `CallbackQueue.Queue.SendMulti`: that nobody frees the counter when there are no destinations is not modelled.
- `Allocators.Buffers.MoveAssign`: assignment of a buffer to itself, after which its size is 0 and its memory whatever the standard library's self-move leaves.
- Copying and swapping allocations, assignment to itself, allocators that compare unequal, and exceptions thrown by the base allocator; message contents are not copied by `reserve` in the code either.
- Addresses in `Allocators` are numbers, a stored pointer is eight bytes, and the alignment is any multiple of eight rather than a power of two.
- The accumulator's minimum and maximum, of which the maximum starts from the smallest positive number, and floating-point rounding: mean and second moment are exact reals.
- `RmaRange.MakeRange`: ranges with 2 to the 32nd elements or more are excluded, because the code's size would wrap before the iterator is used.
- `RmaRange.IncBy`: the smallest `int` is excluded as a step, because the code negates it.
- `RmaRange.RangeIterator.Advance`: the smallest `int` is excluded as a step, because the code negates it.
- `RmaRange.LinePtr`: lines are counted in an `int` by `+=`, so at most 2147483647 lines.
- `RmaRange.PutThread`: at most 2147483647 lines, as above.
- `RmaRange.PutKernel`: at most 2147483647 lines, as above.
