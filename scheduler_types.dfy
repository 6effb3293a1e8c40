/**
 * The records the manual sidelink scheduler reads and writes: the CARLA transmission
 * command, the logical-channel attributes it reads from a destination's logical-channel
 * group, candidate resources, and the per-instant allocation result. The scheduler's
 * collaborators (the MAC, the AMC, the resource filter) are bundled in `Collaborators`
 * as functions fixed for one scheduling instant.
 */
module SchedulerTypes {
  import opened Ints
  import opened Wrappers

  /** `CarlaTxCommand`: "source `srcL2Id` may send up to `maxDataSize` bytes to `dstL2Id` on
      sub-channels [slSubchannelStart, slSubchannelStart + slSubchannelSize)". `maxDataSize`
      is a signed budget that may go negative once decremented. The fields from `isDynamic`
      on are carried but never read by the scheduler; `isDynamic` defaults to true. */
  datatype CarlaTxCommand = CarlaTxCommand(
    srcL2Id: u32,
    dstL2Id: u32,
    slSubchannelStart: u8,
    slSubchannelSize: u8,
    maxDataSize: int,
    isDynamic: bool,
    lcid: u8,
    mcs: u8,
    tbSize: u32,
    sfn: nat,
    rriMs: int)

  /** A command as the controller fills it in: the unused fields keep their defaults. */
  function NewCarlaTxCommand(src: u32, dst: u32, start: u8, size: u8, maxDataSize: int): (c: CarlaTxCommand)
    ensures c.srcL2Id == src && c.dstL2Id == dst
    ensures c.slSubchannelStart == start && c.slSubchannelSize == size && c.maxDataSize == maxDataSize
    ensures c.isDynamic
  {
    CarlaTxCommand(src, dst, start, size, maxDataSize, true, 0, 0, 0, 0, 0)
  }

  datatype CastType = Unicast | Groupcast | Broadcast

  /** What the logical-channel group reports about one logical channel. */
  datatype LcInfo = LcInfo(
    priority: u8,
    isDynamic: bool,
    rriMs: nat,
    bufferSize: u32,
    harqEnabled: bool,
    castType: CastType,
    pdbMs: nat)

  /** `SlResourceInfo`: a candidate single-slot resource. Only the sub-channel window is read
      or written by the scheduler; the slot and symbol layout are copied as they are. */
  datatype SlResource = SlResource(
    slSubchannelStart: nat,
    slSubchannelLength: nat,
    sfn: nat,
    slPsschSymStart: nat,
    slPsschSymLength: nat,
    slPscchSymStart: nat,
    slPscchSymLength: nat)

  /** `NrSlUeMac::NrSlTransmissionParams` */
  datatype TxParams = TxParams(priority: u8, pdbMs: nat, lSubch: nat, rriMs: nat, cResel: nat)

  /** `SlRlcPduInfo`: bytes granted to one logical channel. */
  datatype SlRlcPduInfo = SlRlcPduInfo(lcid: u8, size: u32)

  /** `AllocationInfo`, as far as this scheduler fills it in. */
  datatype AllocationInfo = AllocationInfo(
    isDynamic: bool,
    harqEnabled: bool,
    priority: u8,
    castType: CastType,
    rriMs: nat,
    tbSize: u32,
    allocatedRlcPdus: seq<SlRlcPduInfo>)

  /** The collaborators of one scheduling instant. `lcInfo(d, l)` is the logical-channel group of
      destination d asked about channel l; `calculateTbSize(mcs, symbols, lSubch, subChSize)` is
      the AMC's transport-block size; `getCandidateResources` and `filterTxOpportunities` are the
      MAC's sensing and the scheduler base class's filter for the instant's slot. */
  datatype Collaborators = Collaborators(
    lcInfo: (u32, u8) -> LcInfo,
    dstMcs: u32 -> u8,
    calculateTbSize: (nat, nat, nat, nat) -> u32,
    subChannelSize: nat,
    totalSubCh: u32,
    srcL2Id: u32,
    getCandidateResources: TxParams -> seq<SlResource>,
    filterTxOpportunities: (seq<SlResource>, nat, nat) -> seq<SlResource>)

  /** Symbols per slot the scheduler assumes when sizing a transport block. */
  const SYMBOLS_PER_SLOT: nat := 9

  /** Bytes kept free in every transport block on top of the buffered data. */
  const TB_MARGIN: u32 := 5

  /** One entry of `std::map<uint8_t, std::vector<uint8_t>>`: the requested logical channels
      sharing one priority, in request order. */
  datatype LcGroup = LcGroup(priority: u8, lcs: seq<u8>)

  /** One entry of the `dstsAndLcsToSched` map: a destination and its requested channels. */
  datatype DstRequest = DstRequest(dst: u32, lcs: seq<u8>)

  /** A `std::map` keyed by priority: entries in strictly ascending key order. */
  ghost predicate SortedGroups(gs: seq<LcGroup>)
  {
    forall i, j :: 0 <= i < j < |gs| ==> gs[i].priority < gs[j].priority
  }

  /** The request map as the scheduler receives it, a `std::map`: destinations in strictly
      ascending order, so each destination has one entry. */
  ghost predicate WellFormedRequests(reqs: seq<DstRequest>)
  {
    forall i, j :: 0 <= i < j < |reqs| ==> reqs[i].dst < reqs[j].dst
  }
}
