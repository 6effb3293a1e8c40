/**
 * `NrSlUeMacSchedulerManual`: a sidelink MAC scheduler whose transmissions can be steered by
 * commands from an external controller. Commands wait in one FIFO queue per destination; the
 * command at the front of the selected destination's queue, if it names this UE as source,
 * fixes the sub-channel window of every transmission to that destination until the bytes
 * allocated under it use up its budget.
 */
module SchedulerManual {
  import opened Ints
  import opened Wrappers
  import opened SchedulerTypes
  import opened LcSelection
  import opened LcFiltering
  import opened ResourceFit
  import opened LcAllocation

  // ---------------------------------------------------------------------------------
  // The command store
  // ---------------------------------------------------------------------------------

  /** The command store: destination → FIFO queue of commands, front first. */
  type CommandStore = map<u32, seq<CarlaTxCommand>>

  /** `m_carlaTxCommandsByDst[cmd.dstL2Id].push(cmd)`: the command joins the back of its
      destination's queue, which is created empty when missing. */
  function Enqueue(store: CommandStore, cmd: CarlaTxCommand): (r: CommandStore)
  {
    var q := if cmd.dstL2Id in store then store[cmd.dstL2Id] else [];
    store[cmd.dstL2Id := q + [cmd]]
  }

  /** The command in force for a destination: the front of its queue when that names this UE
      as source. */
  function ManualCommand(store: CommandStore, dst: u32, srcL2Id: u32): (r: Option<CarlaTxCommand>)
    ensures r.Some? <==> dst in store && store[dst] != [] && store[dst][0].srcL2Id == srcL2Id
    ensures r.Some? ==> r.value == store[dst][0] && r.value.srcL2Id == srcL2Id
  {
    if dst in store && store[dst] != [] && store[dst][0].srcL2Id == srcL2Id then Some(store[dst][0])
    else None
  }

  /** A queued command never displaces the one in force: only a destination without commands
      gets the new command in force, and only when it names this UE as source. */
  lemma EnqueueKeepsCommandInForce(store: CommandStore, cmd: CarlaTxCommand, dst: u32, srcL2Id: u32)
    ensures ManualCommand(Enqueue(store, cmd), dst, srcL2Id)
         == if dst == cmd.dstL2Id && (dst !in store || store[dst] == []) then
              (if cmd.srcL2Id == srcL2Id then Some(cmd) else None)
            else ManualCommand(store, dst, srcL2Id)
  {
    if dst == cmd.dstL2Id && dst in store && store[dst] != [] {
      assert Enqueue(store, cmd)[dst][0] == store[dst][0];
    }
  }

  /** Commands queue in the order they were added: enqueuing a, then b for the same
      destination, appends both, in that order, behind the commands already queued there. */
  lemma EnqueueIsFifo(store: CommandStore, a: CarlaTxCommand, b: CarlaTxCommand)
    requires a.dstL2Id == b.dstL2Id
    ensures Enqueue(Enqueue(store, a), b)[a.dstL2Id]
         == (if a.dstL2Id in store then store[a.dstL2Id] else []) + [a, b]
  {
    var q := if a.dstL2Id in store then store[a.dstL2Id] else [];
    assert (q + [a]) + [b] == q + [a, b];
  }

  /** `int(allocatedSize)`: the uint32 read as a 32-bit signed int. */
  function ToInt32(a: u32): (r: int)
    ensures -0x8000_0000 <= r < 0x8000_0000
    ensures r % TWO_TO_THE_32 == a % TWO_TO_THE_32
  {
    if a < 0x8000_0000 then a else a - TWO_TO_THE_32
  }

  /** The update after an allocation under a command: the front command's budget shrinks by the
      allocated bytes and the command leaves the queue once the budget is not positive. */
  function ConsumeFront(queue: seq<CarlaTxCommand>, allocatedSize: u32): (r: seq<CarlaTxCommand>)
    requires queue != []
  {
    var remaining := queue[0].maxDataSize - ToInt32(allocatedSize);
    if remaining <= 0 then queue[1..]
    else [queue[0].(maxDataSize := remaining)] + queue[1..]
  }

  /** Consuming touches only the front command: it is dropped exactly when its budget is used up,
      and otherwise only its budget changes, by the allocated bytes when they are below 2^31. */
  lemma ConsumeFrontEffect(queue: seq<CarlaTxCommand>, allocatedSize: u32)
    requires queue != []
    ensures var r := ConsumeFront(queue, allocatedSize);
      && (|r| == |queue| - 1 <==> queue[0].maxDataSize <= ToInt32(allocatedSize))
      && (|r| == |queue| - 1 ==> r == queue[1..])
      && (|r| == |queue| ==>
            && r[1..] == queue[1..]
            && r[0].maxDataSize > 0
            && r[0] == queue[0].(maxDataSize := r[0].maxDataSize)
            && (allocatedSize < 0x8000_0000 ==> r[0].maxDataSize == queue[0].maxDataSize - allocatedSize))
  {
  }

  /** The store as `m_carlaTxCommandsByDst[cmd.dstL2Id]` builds it: every command sits in the
      queue of its own destination. */
  ghost predicate Keyed(store: CommandStore)
  {
    forall d :: d in store ==> forall i :: 0 <= i < |store[d]| ==> store[d][i].dstL2Id == d
  }

  /** Adding a command keeps every command in its destination's queue. */
  lemma EnqueueKeepsKeyed(store: CommandStore, cmd: CarlaTxCommand)
    requires Keyed(store)
    ensures Keyed(Enqueue(store, cmd))
  {
  }

  /** Charging the front command keeps every command in its destination's queue. */
  lemma ConsumeKeepsKeyed(store: CommandStore, d: u32, allocatedSize: u32)
    requires Keyed(store) && d in store && store[d] != []
    ensures Keyed(store[d := ConsumeFront(store[d], allocatedSize)])
  {
  }

  /** In a keyed store the command in force for a destination is addressed to it. */
  lemma ManualCommandForDestination(store: CommandStore, dst: u32, srcL2Id: u32)
    requires Keyed(store)
    ensures ManualCommand(store, dst, srcL2Id).Some? ==>
      && ManualCommand(store, dst, srcL2Id).value.dstL2Id == dst
      && ManualCommand(store, dst, srcL2Id).value.srcL2Id == srcL2Id
  {
  }

  // ---------------------------------------------------------------------------------
  // What `LogicalChannelPrioritization` decides
  // ---------------------------------------------------------------------------------

  /** How a call ends: nothing requested (0 returned), no resources (0 returned), a scheduled
      destination (its id returned), or an iterator misused on the way. */
  datatype Lcp = NothingToSchedule | NoResourcesFor(dst: u32) | Scheduled(dst: u32) | UndefinedBehaviour

  /** The value the method returns. */
  function ReturnValue(o: Lcp): (r: u32)
    requires !o.UndefinedBehaviour?
    ensures o.Scheduled? ==> r == o.dst
    ensures !o.Scheduled? ==> r == 0
    ensures r != 0 ==> o.Scheduled? && r == o.dst
  {
    match o
    case Scheduled(d) => d
    case _ => 0
  }

  /** `dstsAndLcsToSched.find(d)`: the channels requested for d. */
  function LcsOf(reqs: seq<DstRequest>, d: u32): (r: Option<seq<u8>>)
  {
    if reqs == [] then None
    else if reqs[0].dst == d then Some(reqs[0].lcs)
    else LcsOf(reqs[1..], d)
  }

  /** `find` on the request map: a requested destination is found with its own channels, and
      a destination not requested is not found. */
  lemma {:induction false} LcsOfFinds(reqs: seq<DstRequest>, i: nat)
    requires WellFormedRequests(reqs) && i < |reqs|
    ensures LcsOf(reqs, reqs[i].dst) == Some(reqs[i].lcs)
  {
    if i > 0 {
      assert reqs[0].dst < reqs[i].dst;
      assert reqs[1..][i - 1] == reqs[i];
      LcsOfFinds(reqs[1..], i - 1);
    }
  }

  lemma {:induction false} LcsOfMissing(reqs: seq<DstRequest>, d: u32)
    requires forall i :: 0 <= i < |reqs| ==> reqs[i].dst != d
    ensures LcsOf(reqs, d) == None
  {
    if reqs != [] {
      assert forall i :: 0 <= i < |reqs| - 1 ==> reqs[1..][i] == reqs[i + 1];
      LcsOfMissing(reqs[1..], d);
    }
  }

  /** The grouping the scheduler builds: `lcIdsbyPrio` for the channels. */
  ghost predicate IsLcGrouping(lcInfo: (u32, u8) -> LcInfo, dst: u32, lcs: seq<u8>, gs: seq<LcGroup>)
  {
    && SortedGroups(gs) && NonEmptyGroups(gs)
    && forall p :: Lookup(gs, p) == WithPriority(lcInfo, dst, lcs, p)
  }

  /** The transmission parameters the reference channel fixes. */
  function RefContext(env: Collaborators, dst: u32, lcIdOfRef: u8, cResel: nat): (r: FitContext)
  {
    var ref := env.lcInfo(dst, lcIdOfRef);
    FitContext(env.dstMcs(dst), ref.priority, ref.pdbMs, ref.rriMs, cResel)
  }

  /** The allocation information as the selection leaves it: the scheduling type, HARQ from the
      first channel of the top group, the RRI (SPS only), and the reference channel's priority and
      cast type. */
  function SelectionInfo(info: AllocationInfo, lcInfo: (u32, u8) -> LcInfo, dst: u32, top: seq<u8>,
                         dynamicGrant: bool, lcIdOfRef: u8): (r: AllocationInfo)
    requires top != []
    ensures r.isDynamic == dynamicGrant
    ensures r.harqEnabled == lcInfo(dst, top[0]).harqEnabled
    ensures r.rriMs == (if dynamicGrant then info.rriMs else lcInfo(dst, lcIdOfRef).rriMs)
    ensures r.priority == lcInfo(dst, lcIdOfRef).priority && r.castType == lcInfo(dst, lcIdOfRef).castType
    ensures r.tbSize == info.tbSize && r.allocatedRlcPdus == info.allocatedRlcPdus
  {
    var ref := lcInfo(dst, lcIdOfRef);
    info.(isDynamic := dynamicGrant,
          harqEnabled := lcInfo(dst, top[0]).harqEnabled,
          rriMs := if dynamicGrant then info.rriMs else ref.rriMs,
          priority := ref.priority,
          castType := ref.castType)
  }

  /** The values one call computes on its way, in order. */
  datatype LcpTrace = LcpTrace(
    dst: u32,
    lcs: seq<u8>,
    groups: seq<LcGroup>,
    dynamicGrant: bool,
    typeWalk: Walk,
    filtered: Option<seq<LcGroup>>,
    manual: Option<CarlaTxCommand>,
    fit: FitOutcome,
    alloc: Allocation)

  /** Step 1.1: the destination drawn among those with the highest channel priority, and the
      channels requested for it. */
  ghost predicate DestinationChosen(lcInfo: (u32, u8) -> LcInfo, reqs: seq<DstRequest>, tieBreak: nat, dst: u32, lcs: seq<u8>)
  {
    var ds := Candidates(lcInfo, reqs, TopPriority(lcInfo, reqs));
    && |ds| > 0 && dst == ds[tieBreak % |ds|]
    && LcsOf(reqs, dst) == Some(lcs)
  }

  /** Step 1.2: the channels grouped by priority, the scheduling type chosen from the top group,
      the type filter, and for SPS the RRI filter against the reference channel. */
  ghost predicate ChannelsFiltered(lcInfo: (u32, u8) -> LcInfo, prioToSps: bool, dst: u32, lcs: seq<u8>,
                                   groups: seq<LcGroup>, dynamicGrant: bool, typeWalk: Walk, filtered: Option<seq<LcGroup>>)
  {
    && IsLcGrouping(lcInfo, dst, lcs, groups) && groups != []
    && IsSchedulingTypeChoice(lcInfo, dst, groups[|groups| - 1].lcs, prioToSps, dynamicGrant)
    && typeWalk == TypeWalk(OfType(lcInfo, dst, dynamicGrant), groups, [], 0)
    && (typeWalk.Walked? ==>
          filtered == if dynamicGrant then Some(typeWalk.groups)
                      else RriWalk(WithRri(lcInfo, dst, lcInfo(dst, typeWalk.refLc).rriMs), typeWalk.groups, []))
  }

  /** Step 1, as recorded in a trace. */
  ghost predicate SelectionSteps(lcInfo: (u32, u8) -> LcInfo, prioToSps: bool, reqs: seq<DstRequest>, tieBreak: nat, t: LcpTrace)
  {
    && DestinationChosen(lcInfo, reqs, tieBreak, t.dst, t.lcs)
    && (t.lcs != [] ==> ChannelsFiltered(lcInfo, prioToSps, t.dst, t.lcs, t.groups, t.dynamicGrant, t.typeWalk, t.filtered))
  }

  /** The selection ran into an iterator misuse (or an empty channel list). */
  predicate SelectionUndefined(t: LcpTrace)
  {
    t.lcs == [] || t.typeWalk.IteratorPastEnd? || t.filtered.None?
  }

  /** Step 2: the resource fit under the command in force; without resources 0 is returned and
      nothing else changes; otherwise the TB size is recorded, the grants are appended, and the
      command in force, if any, is charged with the allocated bytes. */
  ghost predicate Served(env: Collaborators, store: CommandStore, candResources: seq<SlResource>, cResel: nat,
                         selInfo: AllocationInfo, outcome: Lcp, info': AllocationInfo, cands': seq<SlResource>,
                         store': CommandStore, t: LcpTrace)
    requires !SelectionUndefined(t)
  {
    && t.manual == ManualCommand(store, t.dst, env.srcL2Id)
    && t.fit == FitWalk(env, RefContext(env, t.dst, t.typeWalk.refLc, cResel), t.dst, t.manual,
                        t.filtered.value, 0, FitOutcome([], 0, 0, candResources))
    && cands' == t.fit.resources
    && (cands' == [] ==> outcome == NoResourcesFor(t.dst) && info' == selInfo && store' == store)
    && (cands' != [] ==>
          && outcome == Scheduled(t.dst)
          && t.alloc == AllocWalk(env.lcInfo, t.dst, t.fit.allocQueue, t.fit.candResoTbSize, 0)
          && info' == selInfo.(tbSize := t.fit.candResoTbSize, allocatedRlcPdus := selInfo.allocatedRlcPdus + t.alloc.pdus)
          && store' == if t.manual.Some? then store[t.dst := ConsumeFront(store[t.dst], t.alloc.allocatedSize)] else store)
  }

  /** Step 1 as the scheduler carries it out. */
  method SelectTransmission(lcInfo: (u32, u8) -> LcInfo, prioToSps: bool, reqs: seq<DstRequest>, tieBreak: nat)
    returns (t: LcpTrace)
    requires reqs != [] && WellFormedRequests(reqs)
    ensures SelectionSteps(lcInfo, prioToSps, reqs, tieBreak, t)
  {
    var dst := SelectDestination(lcInfo, reqs, tieBreak);
    ghost var i :| 0 <= i < |reqs| && reqs[i].dst == dst;
    LcsOfFinds(reqs, i);
    assert LcsOf(reqs, dst) == Some(reqs[i].lcs);
    var lcs := LcsOf(reqs, dst).value;
    assert DestinationChosen(lcInfo, reqs, tieBreak, dst, lcs);
    if lcs == [] {
      return LcpTrace(dst, lcs, [], true, IteratorPastEnd, None, None, FitOutcome([], 0, 0, []), Allocation([], 0));
    }
    var groups := GroupByPriority(lcInfo, dst, lcs);
    var dynamicGrant := ChooseSchedulingType(lcInfo, dst, groups[|groups| - 1].lcs, prioToSps);
    var w := FilterByType(lcInfo, dst, groups, dynamicGrant);
    var filtered: Option<seq<LcGroup>> := None;
    if w.Walked? {
      if dynamicGrant {
        filtered := Some(w.groups);
      } else {
        filtered := FilterByRri(lcInfo, dst, w.groups, lcInfo(dst, w.refLc).rriMs);
      }
    }
    assert ChannelsFiltered(lcInfo, prioToSps, dst, lcs, groups, dynamicGrant, w, filtered);
    t := LcpTrace(dst, lcs, groups, dynamicGrant, w, filtered, None, FitOutcome([], 0, 0, []), Allocation([], 0));
  }

  /** Step 2 as the scheduler carries it out. */
  method ServeSelection(env: Collaborators, store: CommandStore, candResources: seq<SlResource>, cResel: nat,
                        selInfo: AllocationInfo, sel: LcpTrace)
    returns (outcome: Lcp, info': AllocationInfo, cands': seq<SlResource>, store': CommandStore, t: LcpTrace)
    requires !SelectionUndefined(sel) && Keyed(store)
    ensures Keyed(store')
    ensures t.manual.Some? ==> t.manual.value.dstL2Id == sel.dst && t.manual.value.srcL2Id == env.srcL2Id
    ensures t == sel.(manual := t.manual, fit := t.fit, alloc := t.alloc)
    ensures Served(env, store, candResources, cResel, selInfo, outcome, info', cands', store', t)
  {
    var dst := sel.dst;
    var manual := ManualCommand(store, dst, env.srcL2Id);
    ManualCommandForDestination(store, dst, env.srcL2Id);
    var allocQueue, accepted, candResoTbSize, resources :=
      FitResources(env, RefContext(env, dst, sel.typeWalk.refLc, cResel), dst, manual, sel.filtered.value, candResources);
    cands' := resources;
    var fit := FitOutcome(allocQueue, accepted, candResoTbSize, resources);
    if resources == [] {
      return NoResourcesFor(dst), selInfo, cands', store, sel.(manual := manual, fit := fit);
    }
    var pdus, allocatedSize := AllocateToGroups(env.lcInfo, dst, allocQueue, candResoTbSize);
    info' := selInfo.(tbSize := candResoTbSize, allocatedRlcPdus := selInfo.allocatedRlcPdus + pdus);
    t := sel.(manual := manual, fit := fit, alloc := Allocation(pdus, allocatedSize));
    store' := store;
    if manual.Some? {
      ConsumeKeepsKeyed(store, dst, allocatedSize);
      store' := store[dst := ConsumeFront(store[dst], allocatedSize)];
    }
    outcome := Scheduled(dst);
  }

  // ---------------------------------------------------------------------------------
  // The scheduler
  // ---------------------------------------------------------------------------------

  class NrSlUeMacSchedulerManual {
    /** `m_carlaTxCommandsByDst` */
    var carlaTxCommandsByDst: CommandStore
    /** `m_prioToSps` (inherited configuration) */
    var prioToSps: bool
    /** `m_reselCounter` (inherited) */
    var reselCounter: u8
    /** `m_cResel` (inherited) */
    var cResel: nat

    /** Every queued command sits in its own destination's queue. */
    ghost predicate Valid()
      reads this
    {
      Keyed(carlaTxCommandsByDst)
    }

    constructor (prioToSps: bool)
      ensures Valid()
      ensures carlaTxCommandsByDst == map[] && this.prioToSps == prioToSps
      ensures reselCounter == 0 && cResel == 0
    {
      carlaTxCommandsByDst := map[];
      this.prioToSps := prioToSps;
      reselCounter := 0;
      cResel := 0;
    }

    /** A controller adds a command for its destination. */
    method AddCarlaTxCommand(cmd: CarlaTxCommand)
      requires Valid()
      modifies this
      ensures Valid()
      ensures carlaTxCommandsByDst == Enqueue(old(carlaTxCommandsByDst), cmd)
      ensures prioToSps == old(prioToSps) && reselCounter == old(reselCounter) && cResel == old(cResel)
    {
      var q := if cmd.dstL2Id in carlaTxCommandsByDst then carlaTxCommandsByDst[cmd.dstL2Id] else [];
      EnqueueKeepsKeyed(carlaTxCommandsByDst, cmd);
      carlaTxCommandsByDst := carlaTxCommandsByDst[cmd.dstL2Id := q + [cmd]];
    }

    /** Every pending command is dropped. */
    method ClearCompletedCommands()
      modifies this
      ensures Valid()
      ensures carlaTxCommandsByDst == map[]
      ensures forall d, s :: ManualCommand(carlaTxCommandsByDst, d, s).None?
      ensures prioToSps == old(prioToSps) && reselCounter == old(reselCounter) && cResel == old(cResel)
    {
      carlaTxCommandsByDst := map[];
    }

    /** One scheduling instant for the requested destinations and channels. `tieBreak` is the
        uniform draw among the top destinations and `reselDraw` the reselection counter the base
        class draws for an SPS grant. The ghost `trace` names the values computed on the way. */
    method LogicalChannelPrioritization(env: Collaborators, reqs: seq<DstRequest>, info: AllocationInfo,
                                        candResources: seq<SlResource>, tieBreak: nat, reselDraw: u8)
      returns (outcome: Lcp, info': AllocationInfo, cands': seq<SlResource>, ghost t: LcpTrace)
      requires WellFormedRequests(reqs) && Valid()
      modifies this
      ensures Valid()
      ensures prioToSps == old(prioToSps)
      ensures reqs == [] ==>
        outcome == NothingToSchedule && info' == info && cands' == candResources && unchanged(this)
      ensures reqs != [] ==>
        && SelectionSteps(env.lcInfo, prioToSps, reqs, tieBreak, t)
        && (outcome == UndefinedBehaviour <==> SelectionUndefined(t))
      ensures reqs != [] && !SelectionUndefined(t) ==>
        && reselCounter == (if t.dynamicGrant then 0 else reselDraw)
        && cResel == (if t.dynamicGrant then 0 else reselDraw as nat * 10)
        && Served(env, old(carlaTxCommandsByDst), candResources, cResel,
                  SelectionInfo(info, env.lcInfo, t.dst, t.groups[|t.groups| - 1].lcs, t.dynamicGrant, t.typeWalk.refLc),
                  outcome, info', cands', carlaTxCommandsByDst, t)
    {
      if reqs == [] {
        return NothingToSchedule, info, candResources,
               LcpTrace(0, [], [], true, IteratorPastEnd, None, None, FitOutcome([], 0, 0, []), Allocation([], 0));
      }
      reselCounter := 0;
      cResel := 0;

      // 1. the destination and its channels
      var sel := SelectTransmission(env.lcInfo, prioToSps, reqs, tieBreak);
      t := sel;
      if SelectionUndefined(sel) {
        return UndefinedBehaviour, info, candResources, t;
      }
      if !sel.dynamicGrant {
        reselCounter := reselDraw;
        cResel := reselCounter as nat * 10;
      }
      info' := SelectionInfo(info, env.lcInfo, sel.dst, sel.groups[|sel.groups| - 1].lcs, sel.dynamicGrant, sel.typeWalk.refLc);

      // 2. the resources and their allocation
      var store';
      outcome, info', cands', store', t := ServeSelection(env, carlaTxCommandsByDst, candResources, cResel, info', sel);
      carlaTxCommandsByDst := store';
    }
  }
}
