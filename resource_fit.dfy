/**
 * Step 2.1 of `LogicalChannelPrioritization`: trying the priority groups from the top down,
 * each time with the buffered bytes of every group tried so far, until no resource is found
 * for the transport block that would carry them. With a manual command the number of
 * sub-channels is the command's, and the first filtered resource is used as a template for
 * the command's sub-channel window.
 */
module ResourceFit {
  import opened Ints
  import opened Wrappers
  import opened SchedulerTypes

  // ---------------------------------------------------------------------------------
  // Buffered bytes
  // ---------------------------------------------------------------------------------

  /** Bytes buffered in the channels, as an unbounded sum. */
  function BufferBytes(lcInfo: (u32, u8) -> LcInfo, dst: u32, lcs: seq<u8>): (r: nat)
  {
    if lcs == [] then 0
    else BufferBytes(lcInfo, dst, lcs[..|lcs| - 1]) + lcInfo(dst, lcs[|lcs| - 1]).bufferSize
  }

  /** Bytes buffered in the groups, as an unbounded sum. */
  function GroupsBytes(lcInfo: (u32, u8) -> LcInfo, dst: u32, gs: seq<LcGroup>): (r: nat)
  {
    if gs == [] then 0
    else BufferBytes(lcInfo, dst, gs[0].lcs) + GroupsBytes(lcInfo, dst, gs[1..])
  }

  /** `bufferSize` once the top n groups have been tried: their bytes, in uint32. */
  function CumBuffer(lcInfo: (u32, u8) -> LcInfo, dst: u32, groups: seq<LcGroup>, n: nat): (r: u32)
    requires n <= |groups|
  {
    GroupsBytes(lcInfo, dst, groups[|groups| - n..]) % TWO_TO_THE_32
  }

  // ---------------------------------------------------------------------------------
  // Number of sub-channels
  // ---------------------------------------------------------------------------------

  /** `CalculateTbSize` for l sub-channels at the destination's MCS. */
  function TbSize(env: Collaborators, mcs: u8, l: nat): (r: u32)
  {
    env.calculateTbSize(mcs, SYMBOLS_PER_SLOT, l, env.subChannelSize)
  }

  /** The do-while's answer from l on: the first count whose TB holds `need` bytes, or the
      total number of sub-channels, or l itself when it is already past the total. */
  function FirstFit(env: Collaborators, mcs: u8, need: u32, l: nat): (r: nat)
    requires l >= 1
    decreases env.totalSubCh - l
  {
    if TbSize(env, mcs, l) >= need || l >= env.totalSubCh then l
    else FirstFit(env, mcs, need, l + 1)
  }

  /** l is what the search settles on: at least one sub-channel, no more than the total (or
      one), every smaller count too small, and l large enough unless it is the total. */
  ghost predicate IsSubchannelFit(env: Collaborators, mcs: u8, need: u32, l: nat)
  {
    && 1 <= l <= Max(1, env.totalSubCh)
    && (l < env.totalSubCh ==> TbSize(env, mcs, l) >= need)
    && (forall k :: 1 <= k < l ==> TbSize(env, mcs, k) < need)
  }

  lemma {:induction false} FirstFitFrom(env: Collaborators, mcs: u8, need: u32, l: nat)
    requires 1 <= l <= Max(1, env.totalSubCh)
    requires forall k :: 1 <= k < l ==> TbSize(env, mcs, k) < need
    ensures IsSubchannelFit(env, mcs, need, FirstFit(env, mcs, need, l))
    decreases env.totalSubCh - l
  {
    if !(TbSize(env, mcs, l) >= need || l >= env.totalSubCh) {
      FirstFitFrom(env, mcs, need, l + 1);
    }
  }

  /** The search's answer meets the fit conditions, and it is the only count that does. */
  lemma FirstFitIsTheFit(env: Collaborators, mcs: u8, need: u32, l: nat)
    ensures IsSubchannelFit(env, mcs, need, FirstFit(env, mcs, need, 1))
    ensures IsSubchannelFit(env, mcs, need, l) ==> l == FirstFit(env, mcs, need, 1)
  {
    FirstFitFrom(env, mcs, need, 1);
    var f := FirstFit(env, mcs, need, 1);
  }

  /** The do-while loop: one more sub-channel at a time until the TB holds the buffered bytes
      plus the margin (`bufferSize + 5`, in uint32) or every sub-channel is used. */
  method SearchSubchannels(env: Collaborators, mcs: u8, bufferSize: u32) returns (lSubch: nat, tbSize: u32)
    ensures lSubch == FirstFit(env, mcs, AddU32(bufferSize, TB_MARGIN), 1)
    ensures tbSize == TbSize(env, mcs, lSubch)
  {
    var need := AddU32(bufferSize, TB_MARGIN);
    lSubch := 1;
    tbSize := TbSize(env, mcs, lSubch);
    while tbSize < need && lSubch < env.totalSubCh
      invariant lSubch >= 1
      invariant tbSize == TbSize(env, mcs, lSubch)
      invariant FirstFit(env, mcs, need, lSubch) == FirstFit(env, mcs, need, 1)
      decreases env.totalSubCh - lSubch
    {
      lSubch := lSubch + 1;
      tbSize := TbSize(env, mcs, lSubch);
    }
  }

  // ---------------------------------------------------------------------------------
  // One group's attempt
  // ---------------------------------------------------------------------------------

  /** What the reference channel fixes for the instant: the destination's MCS and the
      transmission parameters other than the number of sub-channels. */
  datatype FitContext = FitContext(mcs: u8, priority: u8, pdbMs: nat, rriMs: nat, cResel: nat)

  /** The outcome of one pass of the group loop. */
  datatype Attempt = Fits(tbSize: u32, resources: seq<SlResource>) | NoResources | ManualOutOfRange

  /** The number of sub-channels a pass asks for. */
  function Subchannels(env: Collaborators, ctx: FitContext, manual: Option<CarlaTxCommand>, bufferSize: u32): (r: nat)
  {
    if manual.Some? then manual.value.slSubchannelSize
    else FirstFit(env, ctx.mcs, AddU32(bufferSize, TB_MARGIN), 1)
  }

  /** The MAC's candidates for a pass, after the base class's filter. */
  function Filtered(env: Collaborators, ctx: FitContext, manual: Option<CarlaTxCommand>, bufferSize: u32): (r: seq<SlResource>)
  {
    var params := TxParams(ctx.priority, ctx.pdbMs, Subchannels(env, ctx, manual, bufferSize), ctx.rriMs, ctx.cResel);
    env.filterTxOpportunities(env.getCandidateResources(params), ctx.rriMs, ctx.cResel)
  }

  /** One pass for a cumulative buffer size: size the TB, ask the MAC for candidates and filter
      them; without candidates the loop stops; with a manual command whose window ends past the
      last sub-channel it stops too; otherwise it keeps the filtered list, or, manually, one copy
      of its first resource moved to the command's window. */
  function TryFit(env: Collaborators, ctx: FitContext, manual: Option<CarlaTxCommand>, bufferSize: u32): (a: Attempt)
    ensures var f := Filtered(env, ctx, manual, bufferSize);
      && (a.Fits? <==> f != [] && (manual.None? || manual.value.slSubchannelStart + manual.value.slSubchannelSize <= env.totalSubCh))
      && (a.Fits? ==> a.tbSize == TbSize(env, ctx.mcs, Subchannels(env, ctx, manual, bufferSize)))
      && (a.Fits? && manual.None? ==> a.resources == f && a.resources != [])
      && (a.Fits? && manual.Some? ==>
            && a.resources == [f[0].(slSubchannelStart := manual.value.slSubchannelStart,
                                     slSubchannelLength := manual.value.slSubchannelSize)]
            && a.resources[0].slSubchannelStart == manual.value.slSubchannelStart
            && a.resources[0].slSubchannelLength == manual.value.slSubchannelSize)
  {
    var tbSize := TbSize(env, ctx.mcs, Subchannels(env, ctx, manual, bufferSize));
    var filtered := Filtered(env, ctx, manual, bufferSize);
    if filtered == [] then NoResources
    else if manual.None? then Fits(tbSize, filtered)
    else
      var cmd := manual.value;
      if cmd.slSubchannelStart + cmd.slSubchannelSize > env.totalSubCh then ManualOutOfRange
      else Fits(tbSize, [filtered[0].(slSubchannelStart := cmd.slSubchannelStart, slSubchannelLength := cmd.slSubchannelSize)])
  }

  /** Without a manual command a fitting pass keeps the first count of sub-channels whose TB
      holds the buffered bytes plus the margin. */
  lemma AutomaticFitSize(env: Collaborators, ctx: FitContext, bufferSize: u32)
    requires TryFit(env, ctx, None, bufferSize).Fits?
    ensures IsSubchannelFit(env, ctx.mcs, AddU32(bufferSize, TB_MARGIN), Subchannels(env, ctx, None, bufferSize))
  {
    FirstFitIsTheFit(env, ctx.mcs, AddU32(bufferSize, TB_MARGIN), 1);
  }

  // ---------------------------------------------------------------------------------
  // The group loop
  // ---------------------------------------------------------------------------------

  /** Where the group loop ends: the allocation queue, the number of groups erased from
      `selectedLcs` (accepted), and the last accepted TB size and resources. */
  datatype FitOutcome = FitOutcome(allocQueue: seq<seq<u8>>, accepted: nat, candResoTbSize: u32, resources: seq<SlResource>)

  /** The loop over `selectedLcs` from its top entry: `sel` is what is left of the map. Every
      pass queues the top group before trying it, so the first group that does not fit is
      queued as well. */
  function FitWalk(env: Collaborators, ctx: FitContext, dst: u32, manual: Option<CarlaTxCommand>,
                   sel: seq<LcGroup>, bufferSize: u32, out: FitOutcome): (r: FitOutcome)
    decreases |sel|
  {
    if sel == [] then out
    else
      var top := sel[|sel| - 1];
      var bufferSize' := AddU32(bufferSize, BufferBytes(env.lcInfo, dst, top.lcs) % TWO_TO_THE_32);
      var queued := out.(allocQueue := out.allocQueue + [top.lcs]);
      match TryFit(env, ctx, manual, bufferSize')
      case Fits(tb, res) =>
        FitWalk(env, ctx, dst, manual, sel[..|sel| - 1], bufferSize',
                queued.(accepted := out.accepted + 1, candResoTbSize := tb, resources := res))
      case _ => queued
  }

  /** The inner loop: `currBufferSize`, the group's buffered bytes in uint32. */
  method GroupBufferSize(lcInfo: (u32, u8) -> LcInfo, dst: u32, lcs: seq<u8>) returns (currBufferSize: u32)
    ensures currBufferSize == BufferBytes(lcInfo, dst, lcs) % TWO_TO_THE_32
  {
    currBufferSize := 0;
    var k := 0;
    while k < |lcs|
      invariant 0 <= k <= |lcs|
      invariant currBufferSize == BufferBytes(lcInfo, dst, lcs[..k]) % TWO_TO_THE_32
    {
      assert lcs[..k + 1][..k] == lcs[..k];
      AddU32OfMods(BufferBytes(lcInfo, dst, lcs[..k]), lcInfo(dst, lcs[k]).bufferSize);
      currBufferSize := AddU32(currBufferSize, lcInfo(dst, lcs[k]).bufferSize);
      k := k + 1;
    }
    assert lcs[..k] == lcs;
  }

  /** The group loop, with the sub-channel search or the manual command's count. */
  method FitResources(env: Collaborators, ctx: FitContext, dst: u32, manual: Option<CarlaTxCommand>,
                      groups: seq<LcGroup>, candResources: seq<SlResource>)
    returns (allocQueue: seq<seq<u8>>, accepted: nat, candResoTbSize: u32, resources: seq<SlResource>)
    ensures FitOutcome(allocQueue, accepted, candResoTbSize, resources)
         == FitWalk(env, ctx, dst, manual, groups, 0, FitOutcome([], 0, 0, candResources))
  {
    var selectedLcs := groups;
    var bufferSize: u32 := 0;
    allocQueue, accepted, candResoTbSize, resources := [], 0, 0, candResources;
    while |selectedLcs| > 0
      invariant FitWalk(env, ctx, dst, manual, groups, 0, FitOutcome([], 0, 0, candResources))
             == FitWalk(env, ctx, dst, manual, selectedLcs, bufferSize, FitOutcome(allocQueue, accepted, candResoTbSize, resources))
      decreases |selectedLcs|
    {
      var top := selectedLcs[|selectedLcs| - 1];
      allocQueue := allocQueue + [top.lcs];
      var currBufferSize := GroupBufferSize(env.lcInfo, dst, top.lcs);
      bufferSize := AddU32(bufferSize, currBufferSize);
      var lSubch: nat, tbSize: u32;
      if manual.Some? {
        lSubch := manual.value.slSubchannelSize;
        tbSize := TbSize(env, ctx.mcs, lSubch);
      } else {
        lSubch, tbSize := SearchSubchannels(env, ctx.mcs, bufferSize);
      }
      var params := TxParams(ctx.priority, ctx.pdbMs, lSubch, ctx.rriMs, ctx.cResel);
      var filteredReso := env.filterTxOpportunities(env.getCandidateResources(params), ctx.rriMs, ctx.cResel);
      if filteredReso == [] {
        break;
      }
      if manual.Some? {
        var cmd := manual.value;
        if cmd.slSubchannelStart + cmd.slSubchannelSize > env.totalSubCh {
          break;
        }
        var manualRes := filteredReso[0].(slSubchannelStart := cmd.slSubchannelStart, slSubchannelLength := cmd.slSubchannelSize);
        filteredReso := [manualRes];
      }
      candResoTbSize := tbSize;
      resources := filteredReso;
      accepted := accepted + 1;
      selectedLcs := selectedLcs[..|selectedLcs| - 1];
    }
  }

  // ---------------------------------------------------------------------------------
  // What the group loop achieves
  // ---------------------------------------------------------------------------------

  /** The first n groups from the top, as queued. */
  ghost predicate QueuedTopDown(queue: seq<seq<u8>>, groups: seq<LcGroup>)
  {
    && |queue| <= |groups|
    && forall j :: 0 <= j < |queue| ==> queue[j] == groups[|groups| - 1 - j].lcs
  }

  /** After n accepted groups, the walk's accumulators as the loop has them. */
  ghost predicate FitState(env: Collaborators, ctx: FitContext, dst: u32, manual: Option<CarlaTxCommand>,
                           groups: seq<LcGroup>, candResources: seq<SlResource>, n: nat, bufferSize: u32, out: FitOutcome)
  {
    && n <= |groups|
    && out.accepted == n
    && bufferSize == CumBuffer(env.lcInfo, dst, groups, n)
    && |out.allocQueue| == n && QueuedTopDown(out.allocQueue, groups)
    && (forall k :: 1 <= k <= n ==> TryFit(env, ctx, manual, CumBuffer(env.lcInfo, dst, groups, k)).Fits?)
    && (n == 0 ==> out.candResoTbSize == 0 && out.resources == candResources)
    && (n > 0 ==> TryFit(env, ctx, manual, CumBuffer(env.lcInfo, dst, groups, n)) == Fits(out.candResoTbSize, out.resources))
  }

  /** The properties of the group loop's outcome: the queue holds the groups from the top down,
      one more than were accepted unless all were; every accepted prefix of groups fits and the
      next one does not; the TB size and resources are those of the last accepted pass, or
      untouched when none was accepted. */
  ghost predicate FitResult(env: Collaborators, ctx: FitContext, dst: u32, manual: Option<CarlaTxCommand>,
                            groups: seq<LcGroup>, candResources: seq<SlResource>, o: FitOutcome)
  {
    && o.accepted <= |groups|
    && |o.allocQueue| == Min(o.accepted + 1, |groups|)
    && QueuedTopDown(o.allocQueue, groups)
    && (forall k :: 1 <= k <= o.accepted ==> TryFit(env, ctx, manual, CumBuffer(env.lcInfo, dst, groups, k)).Fits?)
    && (o.accepted < |groups| ==> !TryFit(env, ctx, manual, CumBuffer(env.lcInfo, dst, groups, o.accepted + 1)).Fits?)
    && (o.accepted == 0 ==> o.candResoTbSize == 0 && o.resources == candResources)
    && (o.accepted > 0 ==> TryFit(env, ctx, manual, CumBuffer(env.lcInfo, dst, groups, o.accepted)) == Fits(o.candResoTbSize, o.resources))
  }

  /** The cumulative buffer grows by the next group down. */
  lemma CumBufferStep(lcInfo: (u32, u8) -> LcInfo, dst: u32, groups: seq<LcGroup>, n: nat)
    requires n < |groups|
    ensures CumBuffer(lcInfo, dst, groups, n + 1)
         == AddU32(CumBuffer(lcInfo, dst, groups, n), BufferBytes(lcInfo, dst, groups[|groups| - 1 - n].lcs) % TWO_TO_THE_32)
  {
    var suffix := groups[|groups| - 1 - n..];
    assert suffix[0] == groups[|groups| - 1 - n];
    assert suffix[1..] == groups[|groups| - n..];
    AddU32OfMods(GroupsBytes(lcInfo, dst, groups[|groups| - n..]), BufferBytes(lcInfo, dst, groups[|groups| - 1 - n].lcs));
  }

  /** A pass that fits moves the walk's accumulators on by one accepted group. */
  lemma FitAcceptStep(env: Collaborators, ctx: FitContext, dst: u32, manual: Option<CarlaTxCommand>,
                      groups: seq<LcGroup>, candResources: seq<SlResource>, n: nat, bufferSize: u32, out: FitOutcome)
    requires FitState(env, ctx, dst, manual, groups, candResources, n, bufferSize, out)
    requires n < |groups|
    requires TryFit(env, ctx, manual, CumBuffer(env.lcInfo, dst, groups, n + 1)).Fits?
    ensures
      var a := TryFit(env, ctx, manual, CumBuffer(env.lcInfo, dst, groups, n + 1));
      FitState(env, ctx, dst, manual, groups, candResources, n + 1, CumBuffer(env.lcInfo, dst, groups, n + 1),
               out.(allocQueue := out.allocQueue + [groups[|groups| - 1 - n].lcs], accepted := n + 1,
                    candResoTbSize := a.tbSize, resources := a.resources))
  {
    var q := out.allocQueue + [groups[|groups| - 1 - n].lcs];
    assert forall j :: 0 <= j < |out.allocQueue| ==> q[j] == out.allocQueue[j];
  }

  /** A pass that does not fit ends the walk with a `FitResult`. */
  lemma FitStopResult(env: Collaborators, ctx: FitContext, dst: u32, manual: Option<CarlaTxCommand>,
                      groups: seq<LcGroup>, candResources: seq<SlResource>, n: nat, bufferSize: u32, out: FitOutcome)
    requires FitState(env, ctx, dst, manual, groups, candResources, n, bufferSize, out)
    requires n < |groups|
    requires !TryFit(env, ctx, manual, CumBuffer(env.lcInfo, dst, groups, n + 1)).Fits?
    ensures FitResult(env, ctx, dst, manual, groups, candResources,
                      out.(allocQueue := out.allocQueue + [groups[|groups| - 1 - n].lcs]))
  {
    var q := out.allocQueue + [groups[|groups| - 1 - n].lcs];
    assert forall j :: 0 <= j < |out.allocQueue| ==> q[j] == out.allocQueue[j];
  }

  /** One pass of the walk, unfolded. */
  lemma FitWalkPass(env: Collaborators, ctx: FitContext, dst: u32, manual: Option<CarlaTxCommand>,
                    sel: seq<LcGroup>, bufferSize: u32, bufferSize': u32, out: FitOutcome)
    requires sel != []
    requires bufferSize' == AddU32(bufferSize, BufferBytes(env.lcInfo, dst, sel[|sel| - 1].lcs) % TWO_TO_THE_32)
    ensures
      var queued := out.(allocQueue := out.allocQueue + [sel[|sel| - 1].lcs]);
      var a := TryFit(env, ctx, manual, bufferSize');
      FitWalk(env, ctx, dst, manual, sel, bufferSize, out)
        == if a.Fits? then FitWalk(env, ctx, dst, manual, sel[..|sel| - 1], bufferSize',
                                   queued.(accepted := out.accepted + 1, candResoTbSize := a.tbSize, resources := a.resources))
           else queued
  {
  }

  /** Every group accepted: the walk's accumulators are a `FitResult`. */
  lemma FitDoneResult(env: Collaborators, ctx: FitContext, dst: u32, manual: Option<CarlaTxCommand>,
                      groups: seq<LcGroup>, candResources: seq<SlResource>, bufferSize: u32, out: FitOutcome)
    requires FitState(env, ctx, dst, manual, groups, candResources, |groups|, bufferSize, out)
    ensures FitResult(env, ctx, dst, manual, groups, candResources, out)
  {
  }

  lemma {:induction false} FitWalkFrom(env: Collaborators, ctx: FitContext, dst: u32, manual: Option<CarlaTxCommand>,
                                       groups: seq<LcGroup>, candResources: seq<SlResource>, n: nat, bufferSize: u32, out: FitOutcome)
    requires FitState(env, ctx, dst, manual, groups, candResources, n, bufferSize, out)
    ensures FitResult(env, ctx, dst, manual, groups, candResources, FitWalk(env, ctx, dst, manual, groups[..|groups| - n], bufferSize, out))
    decreases |groups| - n, 1
  {
    if n == |groups| {
      assert groups[..|groups| - n] == [];
      FitDoneResult(env, ctx, dst, manual, groups, candResources, bufferSize, out);
    } else {
      FitWalkPassFrom(env, ctx, dst, manual, groups, candResources, n, bufferSize, out);
    }
  }

  lemma {:induction false} FitWalkPassFrom(env: Collaborators, ctx: FitContext, dst: u32, manual: Option<CarlaTxCommand>,
                                           groups: seq<LcGroup>, candResources: seq<SlResource>, n: nat, bufferSize: u32, out: FitOutcome)
    requires FitState(env, ctx, dst, manual, groups, candResources, n, bufferSize, out)
    requires n < |groups|
    ensures FitResult(env, ctx, dst, manual, groups, candResources, FitWalk(env, ctx, dst, manual, groups[..|groups| - n], bufferSize, out))
    decreases |groups| - n, 0
  {
    var sel := groups[..|groups| - n];
    var top := groups[|groups| - 1 - n];
    assert sel[|sel| - 1] == top;
    assert sel[..|sel| - 1] == groups[..|groups| - (n + 1)];
    CumBufferStep(env.lcInfo, dst, groups, n);
    var bufferSize' := CumBuffer(env.lcInfo, dst, groups, n + 1);
    var queued := out.(allocQueue := out.allocQueue + [top.lcs]);
    var a := TryFit(env, ctx, manual, bufferSize');
    FitWalkPass(env, ctx, dst, manual, sel, bufferSize, bufferSize', out);
    if a.Fits? {
      var out' := queued.(accepted := out.accepted + 1, candResoTbSize := a.tbSize, resources := a.resources);
      FitAcceptStep(env, ctx, dst, manual, groups, candResources, n, bufferSize, out);
      FitWalkFrom(env, ctx, dst, manual, groups, candResources, n + 1, bufferSize', out');
    } else {
      FitStopResult(env, ctx, dst, manual, groups, candResources, n, bufferSize, out);
    }
  }

  /** The group loop started as the scheduler starts it ends in a `FitResult`. */
  lemma FitWalkResult(env: Collaborators, ctx: FitContext, dst: u32, manual: Option<CarlaTxCommand>,
                      groups: seq<LcGroup>, candResources: seq<SlResource>)
    ensures FitResult(env, ctx, dst, manual, groups, candResources,
                      FitWalk(env, ctx, dst, manual, groups, 0, FitOutcome([], 0, 0, candResources)))
  {
    assert groups[|groups|..] == [];
    assert CumBuffer(env.lcInfo, dst, groups, 0) == 0;
    assert groups[..|groups| - 0] == groups;
    FitWalkFrom(env, ctx, dst, manual, groups, candResources, 0, 0, FitOutcome([], 0, 0, candResources));
  }
}
