# Manual sidelink scheduler and V2X headers, in Dafny

This project models two parts of a CARLA–ns-3 co-simulation for vehicular networks.

**The manual NR sidelink scheduler** (`NrSlUeMacSchedulerManual`). An external controller
pushes `CarlaTxCommand`s into one FIFO queue per destination L2 id. At each scheduling instant
`LogicalChannelPrioritization`:

1. picks a destination. It is drawn uniformly among the destinations whose requested logical
   channels reach the largest priority value.
2. groups that destination's channels by priority and chooses dynamic-grant or SPS scheduling
   from the top group.
3. drops the channels of the other scheduling type, walking the groups from the top. For SPS it
   also drops the channels whose RRI differs from the reference channel's, walking from the
   bottom.
4. tries the groups from the top down. Each try uses the buffered bytes of every group tried so
   far, and the trying stops at the first group for which no resource is found. A command at
   the front of the destination's queue that names this UE as source fixes the number of
   sub-channels and the sub-channel window.
5. shares the transport block among the queued groups and charges the allocated bytes to the
   command in force. The command is dropped once its budget is used up.

**The GeoNetworking and CAM headers** (`GeoNetHeader`, `CamHeader`). These are fixed-layout
big-endian records of 27 and 44 bytes.

## Modules

| module | file | what it holds |
|---|---|---|
| `Ints`, `Wrappers` | ints.dfy | u8/u16/u32/u64, uint32 wrap-around (`AddU32`, `SubU32`), `Option` |
| `Seqs` | seqs.dfy | two sequence identities |
| `ByteOrder` | byte_order.dfy | `WriteHtonU*` / `ReadNtohU*` as big-endian encodings of naturals |
| `GeoNetworking` | geo_networking.dfy | both headers as classes, their encoders and decoders, round trips |
| `SchedulerTypes` | scheduler_types.dfy | `CarlaTxCommand`, channel attributes, resources, `AllocationInfo`, collaborators |
| `LcSelection` | lc_selection.dfy | destination choice, grouping by priority, scheduling type |
| `LcFiltering` | lc_filtering.dfy | the type filter and the RRI filter, with their iterator behaviour |
| `ResourceFit` | resource_fit.dfy | sub-channel search and the group loop |
| `LcAllocation` | lc_allocation.dfy | sharing the transport block among the queued groups |
| `SchedulerManual` | scheduler_manual.dfy | the command store and the scheduler class |

## How the model is built

- **Loops become methods.** Each loop of the source is a `method` with a `while` loop. Its
  `ensures` ties the result to a specification function: `TypeWalk`, `RriWalk`, `FitWalk`,
  `AllocWalk`, `FirstFit`, `Candidates`. Lemmas then state what those functions guarantee.
- **The scheduler is a class.** `NrSlUeMacSchedulerManual` holds the command store
  (`map<u32, seq<CarlaTxCommand>>`, front first) and the inherited fields it writes.
  `LogicalChannelPrioritization` also returns a ghost trace, `LcpTrace`, that names the values
  computed on the way (destination, groups, scheduling type, filter outcomes, command in force,
  fit, allocation). Its contract relates the new state, the returned `AllocationInfo` and the
  candidate resources to that trace. The predicates `SelectionSteps` and `Served` tie each
  recorded value to the specification function that defines it. The class invariant `Valid()`
  (`Keyed`) says that every queued command sits in the queue of its own destination, as
  `m_carlaTxCommandsByDst[cmd.dstL2Id]` builds the store. Every method keeps it.
- **Maps are ordered sequences.** Each `std::map` is a sequence with strictly ascending keys.
  The request map is `seq<DstRequest>`. `LogicalChannelPrioritization` requires its
  destinations to be strictly ascending (`WellFormedRequests`), as the `std::map` guarantees.
  The priority maps are built sorted by `GroupByPriority`, which proves it.
- **Integer arithmetic follows the source.** Buffer sums, `bufferSize + 5`,
  `candResoTbSize - allocatedSize - 5` and `allocatedSize + share` wrap modulo 2^32, as
  `uint32_t` does. `int(allocatedSize)` is read as a signed 32-bit value.
- **Iterator behaviour is reproduced.** When a filter empties a group, the source erases it and
  then advances the iterator again. So the next group is skipped unfiltered
  (`TypeWalkSkipsBelowErased`, `RriWalkSkipsAboveErased`). Erasing the last group visited
  advances past the end, which is undefined behaviour in C++. The model reports it as
  `IteratorPastEnd` (type filter) or `None` (RRI filter), and `LogicalChannelPrioritization`
  as the outcome `UndefinedBehaviour`.
- **Resources carried in by the caller.** `candResources` comes in from the caller and is only
  replaced when a group fits. If the caller passes a non-empty list and no group fits, the
  allocation still runs. It runs with a transport block of 0 bytes, so the room wraps to
  2^32 - 5 and every channel of the first queued group gets its smallest buffer
  (`EmptyBlockGrantsBuffer` shows one instance). This matches the code as written.
- **Priorities.** The source serves the largest priority value first (`rbegin()` of the
  priority maps). The model does the same.

## Model

| member | source | states |
|---|---|---|
| GeoNetworking.GeoNetMessageType.Code | ns3/vanet/geo-networking.h:13-19 | every message type goes on the wire as a value in 1..5 |
| GeoNetworking.MessageTypeOf | ns3/vanet/geo-networking.h:13-19 | a byte names a message type exactly when it is 1..5, and then that type's code is the byte |
| GeoNetworking.MessageTypeCodes | ns3/vanet/geo-networking.h:13-19 | distinct types have distinct codes, and a code reads back as its type |
| GeoNetworking.GeoNetSerializedSize | ns3/vanet/geo-networking.cc:27-30 | every encoded GeoNetworking header is exactly this many (27) bytes |
| GeoNetworking.GeoNetLayout | ns3/vanet/geo-networking.cc:32-48 | version, next header and type sit at bytes 0..2; positions, source id, radius and lifetime follow big-endian at 3, 11, 19, 23, 25 |
| GeoNetworking.GeoNetRoundTrip | ns3/vanet/geo-networking.cc:50-66 | reading back a written header gives every field unchanged |
| GeoNetworking.GeoNetBytesRoundTrip | ns3/vanet/geo-networking.cc:32-48 | writing back a read header reproduces the 27 bytes read |
| GeoNetworking.GeoNetHeader.constructor | ns3/vanet/geo-networking.cc:6-14 | version 1, next header CAM, GeoBroadcast, position 0.0, source 0, radius 1000, lifetime 60 |
| GeoNetworking.GeoNetHeader.Serialize | ns3/vanet/geo-networking.cc:32-48 | writes the header's encoding, of the advertised size |
| GeoNetworking.GeoNetHeader.Deserialize | ns3/vanet/geo-networking.cc:50-66 | the fields become the decoding of the buffer's first 27 bytes; returns the size |
| GeoNetworking.GeoNetHeader.SetVersion | ns3/vanet/geo-networking.cc:77 | only the version changes |
| GeoNetworking.GeoNetHeader.SetNextHeader | ns3/vanet/geo-networking.cc:81-83 | only the next header changes |
| GeoNetworking.GeoNetHeader.SetMessageType | ns3/vanet/geo-networking.cc:87-89 | only the type changes, and the stored byte reads back as the type set |
| GeoNetworking.GeoNetHeader.SetSourcePosition | ns3/vanet/geo-networking.cc:95-98 | only the two position words change |
| GeoNetworking.GeoNetHeader.SetSourceId | ns3/vanet/geo-networking.cc:108 | only the source id changes |
| GeoNetworking.GeoNetHeader.SetRadius | ns3/vanet/geo-networking.cc:112 | only the radius changes |
| GeoNetworking.GeoNetHeader.SetLifetime | ns3/vanet/geo-networking.cc:116 | only the lifetime changes |
| GeoNetworking.CamSerializedSize | ns3/vanet/geo-networking.cc:138-141 | every encoded CAM header is exactly this many (44) bytes |
| GeoNetworking.CamLayout | ns3/vanet/geo-networking.cc:143-162 | vehicle id at 0..3, then position x, y, speed, heading and timestamp as big-endian 8-byte words |
| GeoNetworking.CamRoundTrip | ns3/vanet/geo-networking.cc:164-180 | reading back a written CAM header gives every field unchanged |
| GeoNetworking.CamBytesRoundTrip | ns3/vanet/geo-networking.cc:143-162 | writing back a read CAM header reproduces the 44 bytes read |
| GeoNetworking.CamHeader.constructor | ns3/vanet/geo-networking.cc:120-126 | every field starts at zero |
| GeoNetworking.CamHeader.Serialize | ns3/vanet/geo-networking.cc:143-162 | writes the header's encoding, of the advertised size |
| GeoNetworking.CamHeader.Deserialize | ns3/vanet/geo-networking.cc:164-180 | the fields become the decoding of the buffer's first 44 bytes; returns the size |
| GeoNetworking.CamHeader.SetVehicleId | ns3/vanet/geo-networking.cc:188 | only the vehicle id changes |
| GeoNetworking.CamHeader.SetPositionX | ns3/vanet/geo-networking.cc:192 | only position x changes |
| GeoNetworking.CamHeader.SetPositionY | ns3/vanet/geo-networking.cc:196 | only position y changes |
| GeoNetworking.CamHeader.SetSpeed | ns3/vanet/geo-networking.cc:200 | only the speed changes |
| GeoNetworking.CamHeader.SetHeading | ns3/vanet/geo-networking.cc:204 | only the heading changes |
| GeoNetworking.CamHeader.SetTimestamp | ns3/vanet/geo-networking.cc:208 | only the timestamp changes |
| ByteOrder.FromToBigEndian | ns3/vanet/geo-networking.cc:42-47 | reading big-endian bytes written for a value below 256^n gives the value back |
| ByteOrder.ToFromBigEndian | ns3/vanet/geo-networking.cc:55-63 | writing the value read from n bytes gives those bytes back |
| ByteOrder.RoundTripU64 | ns3/vanet/geo-networking.cc:42-43 | `ReadNtohU64` undoes `WriteHtonU64` |
| ByteOrder.RoundTripU32 | ns3/vanet/geo-networking.cc:45 | `ReadNtohU32` undoes `WriteHtonU32` |
| ByteOrder.RoundTripU16 | ns3/vanet/geo-networking.cc:46-47 | `ReadNtohU16` undoes `WriteHtonU16` |
| ByteOrder.BytesU64 | ns3/vanet/geo-networking.cc:55-56 | `WriteHtonU64` undoes `ReadNtohU64` on 8 bytes |
| ByteOrder.BytesU32 | ns3/vanet/geo-networking.cc:61 | `WriteHtonU32` undoes `ReadNtohU32` on 4 bytes |
| ByteOrder.BytesU16 | ns3/vanet/geo-networking.cc:62-63 | `WriteHtonU16` undoes `ReadNtohU16` on 2 bytes |
| SchedulerTypes.NewCarlaTxCommand | ns3/src/nr-sl-ue-mac-scheduler-manual.h:19-32 | a command carries the given ids, window and budget, and is dynamic by default |
| LcSelection.HighestLcPriorityIsMax | ns3/src/nr-sl-ue-mac-scheduler-manual.cc:71-87 | a destination's highest priority bounds every requested channel's priority and is reached by one of them |
| LcSelection.TopPriorityIsMax | ns3/src/nr-sl-ue-mac-scheduler-manual.cc:88-100 | the top priority bounds every destination's highest priority and is reached by one; it is -1 exactly when nothing is requested |
| LcSelection.CandidatesMembers | ns3/src/nr-sl-ue-mac-scheduler-manual.cc:88-99 | a destination is listed under priority p exactly when it is requested with highest priority p |
| LcSelection.NoCandidatesAboveTop | ns3/src/nr-sl-ue-mac-scheduler-manual.cc:100 | no destination is listed above the top priority |
| LcSelection.EveryTopDestinationSelectable | ns3/src/nr-sl-ue-mac-scheduler-manual.cc:100-104 | every destination with the top priority is chosen by some random draw |
| LcSelection.SelectDestination | ns3/src/nr-sl-ue-mac-scheduler-manual.cc:67-104 | the chosen destination is the drawn entry of the top-priority list; its priority is the top one and bounds all others |
| LcSelection.WithPriority | ns3/src/nr-sl-ue-mac-scheduler-manual.cc:114-129 | the channels of a priority are exactly the requested channels with that priority |
| LcSelection.InsertLc | ns3/src/nr-sl-ue-mac-scheduler-manual.cc:118-128 | inserting into the priority map keeps it sorted by priority |
| LcSelection.InsertLcLookup | ns3/src/nr-sl-ue-mac-scheduler-manual.cc:118-128 | inserting appends the channel to its priority's group and leaves every other group unchanged |
| LcSelection.GroupByPriority | ns3/src/nr-sl-ue-mac-scheduler-manual.cc:114-129 | the map is sorted with non-empty groups, each priority's group holds that priority's channels in request order, and some channel gives some group |
| LcSelection.CountDynamic | ns3/src/nr-sl-ue-mac-scheduler-manual.cc:135-145 | the dynamic count is positive exactly when the group has a dynamic channel |
| LcSelection.CountSps | ns3/src/nr-sl-ue-mac-scheduler-manual.cc:135-145 | SPS and dynamic counts add up to the group size; the SPS count is positive exactly when there is an SPS channel |
| LcSelection.ChooseSchedulingType | ns3/src/nr-sl-ue-mac-scheduler-manual.cc:130-154 | with several top channels SPS exactly when the prioToSps rule says so; with one, that channel's type |
| LcSelection.ChosenTypePresent | ns3/src/nr-sl-ue-mac-scheduler-manual.cc:130-154 | the chosen type is the type of some channel of the top group |
| LcFiltering.KeepWhereMembers | ns3/src/nr-sl-ue-mac-scheduler-manual.cc:177-193 | a channel survives a filter exactly when it was there and matches |
| LcFiltering.LowestIdIsMinimum | ns3/src/nr-sl-ue-mac-scheduler-manual.cc:176-189 | `lowestLcId` is at most every kept id, and is 255 or one of them |
| LcFiltering.EraseOtherType | ns3/src/nr-sl-ue-mac-scheduler-manual.cc:176-193 | the erase loop leaves exactly the channels of the chosen type, in order, and finds their lowest id |
| LcFiltering.VisitTypeGroup | ns3/src/nr-sl-ue-mac-scheduler-manual.cc:175-202 | one pass filters the visited group, erases it when emptied, skipping the group below, and sets `lcIdOfRef` once; erasing the bottom group steps past `rend()` |
| LcFiltering.FilterByType | ns3/src/nr-sl-ue-mac-scheduler-manual.cc:169-203 | the top-down walk with erase-and-skip, ending in the filtered map and `lcIdOfRef`, or past `rend()` |
| LcFiltering.TypeWalkNoErase | ns3/src/nr-sl-ue-mac-scheduler-manual.cc:173-203 | when no group empties, every group is filtered and nothing is skipped |
| LcFiltering.TypeWalkKeepsRef | ns3/src/nr-sl-ue-mac-scheduler-manual.cc:199-202 | once set, `lcIdOfRef` never changes |
| LcFiltering.TypeWalkTopGroup | ns3/src/nr-sl-ue-mac-scheduler-manual.cc:173-202 | a top group that keeps channels is filtered, and its lowest kept id (when a real id) becomes the reference |
| LcFiltering.TypeWalkSuffix | ns3/src/nr-sl-ue-mac-scheduler-manual.cc:173-197 | the groups above the iterator are never altered again |
| LcFiltering.TypeWalkGroups | ns3/src/nr-sl-ue-mac-scheduler-manual.cc:173-203 | every group the type filter leaves is either an original group filtered to a non-empty list, or an original group left unfiltered whose upper neighbour was emptied |
| LcFiltering.TypeWalkBottomEmptied | ns3/src/nr-sl-ue-mac-scheduler-manual.cc:194-197 | emptying the bottom group, with none emptied before it, steps past `rend()` |
| LcFiltering.TypeWalkSkipsBelowErased | ns3/src/nr-sl-ue-mac-scheduler-manual.cc:194-197 | the group below an erased one survives unfiltered, channel of the other type included |
| LcFiltering.EraseOtherRri | ns3/src/nr-sl-ue-mac-scheduler-manual.cc:209-221 | the erase loop leaves exactly the channels with the reference RRI, in order |
| LcFiltering.FilterByRri | ns3/src/nr-sl-ue-mac-scheduler-manual.cc:204-227 | the bottom-up walk with erase-and-skip, ending in the filtered map or past `end()` |
| LcFiltering.RriWalkNoErase | ns3/src/nr-sl-ue-mac-scheduler-manual.cc:206-226 | when no group empties, every group is filtered and nothing is skipped |
| LcFiltering.RriWalkGroups | ns3/src/nr-sl-ue-mac-scheduler-manual.cc:204-227 | every group the RRI filter leaves is either an original group filtered to a non-empty list, or an original group left unfiltered whose lower neighbour was emptied |
| LcFiltering.RriWalkTopEmptied | ns3/src/nr-sl-ue-mac-scheduler-manual.cc:222-225 | emptying the top group, with none emptied before it, steps past `end()` |
| LcFiltering.RriWalkSkipsAboveErased | ns3/src/nr-sl-ue-mac-scheduler-manual.cc:222-225 | the group above an erased one survives unfiltered, channel of another RRI included |
| ResourceFit.FirstFitIsTheFit | ns3/src/nr-sl-ue-mac-scheduler-manual.cc:297-300 | the search settles on the least count whose TB holds buffer + 5 bytes, or on the total; that count is the only one with this property |
| ResourceFit.SearchSubchannels | ns3/src/nr-sl-ue-mac-scheduler-manual.cc:296-300 | the do-while returns that count and its TB size |
| ResourceFit.TryFit | ns3/src/nr-sl-ue-mac-scheduler-manual.cc:309-342 | a pass fits exactly when the filtered candidates are non-empty and, under a command, the command's window ends within the carrier; a fitting pass has the TB size of its sub-channel count; automatically it keeps the filtered list itself; manually it keeps one resource: the first filtered candidate with only its sub-channel start and length replaced by the command's |
| ResourceFit.AutomaticFitSize | ns3/src/nr-sl-ue-mac-scheduler-manual.cc:296-300 | without a command a fitting pass uses the least count of sub-channels that holds buffer + 5 bytes |
| ResourceFit.GroupBufferSize | ns3/src/nr-sl-ue-mac-scheduler-manual.cc:276-282 | `currBufferSize` is the group's buffered bytes modulo 2^32 |
| ResourceFit.FitResources | ns3/src/nr-sl-ue-mac-scheduler-manual.cc:273-352 | the group loop ends as the top-down walk over the filtered groups |
| ResourceFit.FitWalkResult | ns3/src/nr-sl-ue-mac-scheduler-manual.cc:273-352 | the queue holds the groups from the top, one more than accepted unless all were; every accepted prefix fits and the next does not; TB size and resources are the last accepted pass's, or untouched when none |
| LcAllocation.MinBufferIsMinimum | ns3/src/nr-sl-ue-mac-scheduler-manual.cc:369-377 | `minBufferSize` is at most every channel's buffer and equals one of them |
| LcAllocation.ShareBounds | ns3/src/nr-sl-ue-mac-scheduler-manual.cc:378-384 | the share is at most the smallest buffer, all shares of a group fit in the room, and the share is the smallest buffer whenever those fit |
| LcAllocation.Grants | ns3/src/nr-sl-ue-mac-scheduler-manual.cc:387-394 | one grant of the share per channel, in queue order |
| LcAllocation.GroupMinBuffer | ns3/src/nr-sl-ue-mac-scheduler-manual.cc:369-377 | the inner loop finds the group's smallest buffer |
| LcAllocation.GrantGroup | ns3/src/nr-sl-ue-mac-scheduler-manual.cc:387-394 | appends one grant per channel and adds the share per channel in uint32 |
| LcAllocation.AddSharesNoWrap | ns3/src/nr-sl-ue-mac-scheduler-manual.cc:393 | the running total is the exact sum while it stays below 2^32 |
| LcAllocation.AllocateToGroups | ns3/src/nr-sl-ue-mac-scheduler-manual.cc:366-402 | the allocation loop ends as the front-to-back walk over the queue |
| LcAllocation.AllocWalkGrantsFitBuffers | ns3/src/nr-sl-ue-mac-scheduler-manual.cc:366-402 | every grant is positive, goes to a queued channel and is at most that channel's buffer |
| LcAllocation.GroupWithinBlock | ns3/src/nr-sl-ue-mac-scheduler-manual.cc:379-394 | with room for the margin, one group's grants raise the total by exactly their sum and still leave 5 bytes free |
| LcAllocation.AllocWalkWithinBlock | ns3/src/nr-sl-ue-mac-scheduler-manual.cc:366-402 | when the block holds the margin, the total is the sum of the grants and leaves at least 5 bytes free |
| LcAllocation.EmptyBlockGrantsBuffer | ns3/src/nr-sl-ue-mac-scheduler-manual.cc:379-384 | a 0-byte block still grants a channel its 100 buffered bytes, because the room wraps |
| SchedulerManual.EnqueueKeepsCommandInForce | ns3/src/nr-sl-ue-mac-scheduler-manual.cc:38 | adding a command leaves every command in force in place; it is in force itself only on an empty queue and for this UE |
| SchedulerManual.EnqueueIsFifo | ns3/src/nr-sl-ue-mac-scheduler-manual.cc:38 | two commands added one after the other for a destination join the back of its queue, behind the commands already there, in the order added |
| SchedulerManual.EnqueueKeepsKeyed | ns3/src/nr-sl-ue-mac-scheduler-manual.cc:38 | pushing a command onto `m_carlaTxCommandsByDst[cmd.dstL2Id]` keeps every queued command in the queue of its own destination |
| SchedulerManual.ConsumeKeepsKeyed | ns3/src/nr-sl-ue-mac-scheduler-manual.cc:407-421 | charging or popping the front command keeps every queued command in the queue of its own destination |
| SchedulerManual.ManualCommandForDestination | ns3/src/nr-sl-ue-mac-scheduler-manual.cc:253-272 | in such a store the command in force for the selected destination is addressed to that destination and names this UE as source |
| SchedulerManual.ToInt32 | ns3/src/nr-sl-ue-mac-scheduler-manual.cc:414 | `int(allocatedSize)` is a 32-bit signed value congruent to the unsigned one |
| SchedulerManual.ConsumeFrontEffect | ns3/src/nr-sl-ue-mac-scheduler-manual.cc:407-421 | the front command is popped exactly when its budget is used up; otherwise only its budget shrinks, by the bytes allocated |
| SchedulerManual.ReturnValue | ns3/src/nr-sl-ue-mac-scheduler-manual.cc:355-422 | a scheduled call returns its destination; nothing to schedule and no resources return 0; so a non-zero return is always the scheduled destination |
| SchedulerManual.LcsOfFinds | ns3/src/nr-sl-ue-mac-scheduler-manual.cc:113 | in a request map with ascending destinations, a requested destination is found with its own channels |
| SchedulerManual.LcsOfMissing | ns3/src/nr-sl-ue-mac-scheduler-manual.cc:113 | a destination that was not requested is not found |
| SchedulerManual.ManualCommand | ns3/src/nr-sl-ue-mac-scheduler-manual.cc:253-272 | a command is in force exactly when the destination's queue exists, is non-empty and its front names this UE as source; the command in force is that front command |
| SchedulerManual.SelectionInfo | ns3/src/nr-sl-ue-mac-scheduler-manual.cc:155-235 | the selection records the scheduling type, HARQ of the top group's first channel, the RRI of the reference channel for SPS (kept for dynamic grants), and the reference channel's priority and cast type; the TB size and grants are left as they were |
| SchedulerManual.SelectTransmission | ns3/src/nr-sl-ue-mac-scheduler-manual.cc:67-227 | destination, grouping, scheduling type and both filters as their specifications define them |
| SchedulerManual.ServeSelection | ns3/src/nr-sl-ue-mac-scheduler-manual.cc:239-421 | resource fit under the command in force, which is addressed to the selected destination and this UE; no resources gives 0 and no change; otherwise TB size recorded, grants appended, command charged; every queued command stays in its own destination's queue |
| SchedulerManual.NrSlUeMacSchedulerManual.constructor | ns3/src/nr-sl-ue-mac-scheduler-manual.h:58 | the command store starts empty, so every queued command is trivially in its own destination's queue |
| SchedulerManual.NrSlUeMacSchedulerManual.AddCarlaTxCommand | ns3/src/nr-sl-ue-mac-scheduler-manual.cc:32-39 | the command joins the back of its destination's queue; nothing else changes; every queued command stays in its own destination's queue |
| SchedulerManual.NrSlUeMacSchedulerManual.ClearCompletedCommands | ns3/src/nr-sl-ue-mac-scheduler-manual.cc:42-48 | every queue is dropped, so no command is in force for any destination |
| SchedulerManual.NrSlUeMacSchedulerManual.LogicalChannelPrioritization | ns3/src/nr-sl-ue-mac-scheduler-manual.cc:51-423 | no request returns 0 and changes nothing; otherwise the selection, SPS reselection counters, fit, allocation and command update as above, or undefined behaviour exactly when a walk misuses an iterator; every queued command stays in its own destination's queue |

## Left out

- The mutex around the command store (`m_cmdMutex`). The model is sequential.
- Logging, `Print` and the `nLcs` / `nRemainingLcs` / `nLcsInQueue` counters. These are only
  logged.
- `GetTypeId` and `GetInstanceTypeId`: ns-3 type registration.
- Randomness. The destination draw is the parameter `tieBreak`, taken modulo the number of
  candidates. `GetRandomReselectionCounter` is the parameter `reselDraw`.
- The MAC, the AMC, `GetCandidateResources`, `FilterTxOpportunities`, `GetTotalSubCh`,
  `GetSrcL2Id` and the destination's logical-channel group. They are function-valued fields of
  `Collaborators`, fixed for one instant. The base class `NrSlUeMacSchedulerFixedMcs` and the
  other schedulers in the repository are not part of this model.
- `m_dstMap.find` is taken to succeed: a destination's channel attributes are `lcInfo(dst, l)`.
  With `lcIdOfRef` still 0, the attributes read are those of channel 0.
- The `double` header fields are modelled as their 64-bit patterns. No floating point is modelled.
- ResourceFit.SearchSubchannels: `lSubch` is `uint16_t` in the source. The model counts
  sub-channels as unbounded naturals, so a search past 65535 sub-channels does not wrap.
- SchedulerManual.ConsumeFrontEffect: `maxDataSize - int(allocatedSize)` is computed on
  unbounded integers. A signed 32-bit overflow there (undefined in C++) is not modelled.
- SchedulerManual.NrSlUeMacSchedulerManual.LogicalChannelPrioritization: in the undefined
  behaviour cases (an iterator stepped past the end, or a selected destination without
  channels), nothing is stated about the returned values or the new state.
- LcAllocation.AllocWalkWithinBlock: the wrapped `allocatedSize` is related to the grants only
  when the block holds the 5-byte margin. With a smaller block the room wraps, and only
  `EmptyBlockGrantsBuffer` shows the outcome, for one instance.
- The getters of both header classes are plain field reads and carry no contract.
