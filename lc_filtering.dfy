/**
 * Step 1.3 of `LogicalChannelPrioritization`: removing the channels that do not match the chosen
 * scheduling type (walking the priority map from the top down) and, for SPS, the channels whose
 * RRI differs from the reference channel's (walking bottom up). Both walks erase an emptied
 * group and then advance the iterator once more, so the group next to an erased one is skipped,
 * and erasing the last group visited advances an iterator past the end of the map. The walks
 * below reproduce that behaviour; `IteratorPastEnd` is the undefined outcome.
 */
module LcFiltering {
  import opened Ints
  import opened Wrappers
  import opened SchedulerTypes
  import opened Seqs

  /** What a filter keeps: channels of one grant type, or channels of one RRI. */
  datatype Criterion = SameType(dynamicGrant: bool) | SameRri(rriMs: nat)

  /** A filter over the channels of destination dst. */
  datatype Sieve = Sieve(lcInfo: (u32, u8) -> LcInfo, dst: u32, criterion: Criterion)

  predicate Keeps(keep: Sieve, l: u8)
  {
    match keep.criterion
    case SameType(dynamicGrant) => keep.lcInfo(keep.dst, l).isDynamic == dynamicGrant
    case SameRri(rriMs) => keep.lcInfo(keep.dst, l).rriMs == rriMs
  }

  /** The channels of lcs that the filter keeps, in their original order. */
  function KeepWhere(lcs: seq<u8>, keep: Sieve): (r: seq<u8>)
    ensures |r| <= |lcs|
  {
    if lcs == [] then []
    else
      var l := lcs[|lcs| - 1];
      var r' := KeepWhere(lcs[..|lcs| - 1], keep);
      if Keeps(keep, l) then r' + [l] else r'
  }

  /** A channel survives the filter exactly when it was requested and the filter keeps it. */
  lemma {:induction false} KeepWhereMembers(lcs: seq<u8>, keep: Sieve)
    ensures forall l :: l in KeepWhere(lcs, keep) <==> l in lcs && Keeps(keep, l)
  {
    if lcs != [] {
      var front := lcs[..|lcs| - 1];
      KeepWhereMembers(front, keep);
      assert lcs == front + [lcs[|lcs| - 1]];
    }
  }

  lemma KeepWhereStep(lcs: seq<u8>, i: nat, keep: Sieve)
    requires i < |lcs|
    ensures KeepWhere(lcs[..i + 1], keep) == KeepWhere(lcs[..i], keep) + if Keeps(keep, lcs[i]) then [lcs[i]] else []
  {
    assert lcs[..i + 1][..i] == lcs[..i];
  }

  function OfType(lcInfo: (u32, u8) -> LcInfo, dst: u32, dynamicGrant: bool): (r: Sieve)
  {
    Sieve(lcInfo, dst, SameType(dynamicGrant))
  }

  function WithRri(lcInfo: (u32, u8) -> LcInfo, dst: u32, rriMs: nat): (r: Sieve)
  {
    Sieve(lcInfo, dst, SameRri(rriMs))
  }

  /** The smallest channel id, or `U8_MAX` for none (the loop's starting value). */
  function LowestId(lcs: seq<u8>): (r: u8)
  {
    if lcs == [] then U8_MAX
    else
      var r' := LowestId(lcs[..|lcs| - 1]);
      var l := lcs[|lcs| - 1];
      if l < r' then l else r'
  }

  /** LowestId is a lower bound that is attained, unless it is the sentinel. */
  lemma {:induction false} LowestIdIsMinimum(lcs: seq<u8>)
    ensures forall i :: 0 <= i < |lcs| ==> LowestId(lcs) <= lcs[i]
    ensures LowestId(lcs) == U8_MAX || LowestId(lcs) in lcs
  {
    if lcs != [] {
      var front := lcs[..|lcs| - 1];
      LowestIdIsMinimum(front);
      assert forall i :: 0 <= i < |lcs| - 1 ==> front[i] == lcs[i];
    }
  }

  lemma LowestIdStep(lcs: seq<u8>, k: nat)
    requires k < |lcs|
    ensures LowestId(lcs[..k + 1]) == if lcs[k] < LowestId(lcs[..k]) then lcs[k] else LowestId(lcs[..k])
  {
    assert lcs[..k + 1][..k] == lcs[..k];
  }

  /** Every group filtered by keep, none removed. */
  function FilterAll(gs: seq<LcGroup>, keep: Sieve): (r: seq<LcGroup>)
    ensures |r| == |gs|
    ensures forall i :: 0 <= i < |gs| ==> r[i] == LcGroup(gs[i].priority, KeepWhere(gs[i].lcs, keep))
  {
    if gs == [] then []
    else [LcGroup(gs[0].priority, KeepWhere(gs[0].lcs, keep))] + FilterAll(gs[1..], keep)
  }

  // ---------------------------------------------------------------------------------
  // Scheduling-type filter
  // ---------------------------------------------------------------------------------

  /** The state of an erase loop: `kept[..k]` holds what was kept of `lcs[..i]` and `kept[k..]`
      is the part of lcs not yet visited. */
  ghost predicate EraseLoop(keep: Sieve, lcs: seq<u8>, i: nat, kept: seq<u8>, k: nat)
  {
    && k <= |kept| && i <= |lcs|
    && kept[..k] == KeepWhere(lcs[..i], keep)
    && kept[k..] == lcs[i..]
  }

  /** `itLcs = erase(itLcs)` on a channel the filter rejects. */
  lemma EraseStep(keep: Sieve, lcs: seq<u8>, i: nat, kept: seq<u8>, k: nat)
    requires EraseLoop(keep, lcs, i, kept, k) && k < |kept| && !Keeps(keep, kept[k])
    ensures EraseLoop(keep, lcs, i + 1, kept[..k] + kept[k + 1..], k)
    ensures (kept[..k] + kept[k + 1..])[..k] == kept[..k]
  {
    KeepWhereStep(lcs, i, keep);
    assert kept[k] == kept[k..][0] == lcs[i];
    var kept' := kept[..k] + kept[k + 1..];
    assert kept'[..k] == kept[..k];
    assert kept'[k..] == kept[k + 1..] == kept[k..][1..] == lcs[i..][1..] == lcs[i + 1..];
  }

  /** `++itLcs` past a channel the filter keeps. */
  lemma KeepStep(keep: Sieve, lcs: seq<u8>, i: nat, kept: seq<u8>, k: nat)
    requires EraseLoop(keep, lcs, i, kept, k) && k < |kept| && Keeps(keep, kept[k])
    ensures EraseLoop(keep, lcs, i + 1, kept, k + 1)
  {
    KeepWhereStep(lcs, i, keep);
    assert kept[k] == kept[k..][0] == lcs[i];
    assert kept[..k + 1] == kept[..k] + [kept[k]];
    assert kept[k + 1..] == kept[k..][1..] == lcs[i..][1..] == lcs[i + 1..];
  }

  /** The inner loop: erases the channels of another type and tracks the lowest id kept. */
  method EraseOtherType(lcInfo: (u32, u8) -> LcInfo, dst: u32, lcs: seq<u8>, dynamicGrant: bool)
    returns (kept: seq<u8>, lowestLcId: u8)
    ensures kept == KeepWhere(lcs, OfType(lcInfo, dst, dynamicGrant))
    ensures lowestLcId == LowestId(kept)
  {
    ghost var keep := OfType(lcInfo, dst, dynamicGrant);
    kept := lcs;
    lowestLcId := U8_MAX;
    var k := 0;
    ghost var i := 0;
    while k < |kept|
      invariant EraseLoop(keep, lcs, i, kept, k)
      invariant lowestLcId == LowestId(kept[..k])
      decreases |lcs| - i
    {
      if lcInfo(dst, kept[k]).isDynamic != dynamicGrant {
        EraseStep(keep, lcs, i, kept, k);
        kept := kept[..k] + kept[k + 1..];
      } else {
        KeepStep(keep, lcs, i, kept, k);
        LowestIdStep(kept, k);
        if kept[k] < lowestLcId {
          lowestLcId := kept[k];
        }
        k := k + 1;
      }
      i := i + 1;
    }
    assert lcs[..i] == lcs;
    assert kept[..k] == kept;
  }

  /** The outcome of a walk over the priority map. */
  datatype Walk = Walked(groups: seq<LcGroup>, refLc: u8) | IteratorPastEnd

  /** The top-down type walk: `lower` is still to visit (its last group next), `done` is the
      part of the map above the iterator, `ref` is `lcIdOfRef` so far. A group left empty is
      erased and the group below it is then skipped unfiltered; erasing the bottom group
      advances the iterator past `rend()`. */
  function TypeWalk(keep: Sieve, lower: seq<LcGroup>, done: seq<LcGroup>, ref: u8): (r: Walk)
    decreases |lower|
  {
    if lower == [] then Walked(done, ref)
    else
      var g := lower[|lower| - 1];
      var kept := KeepWhere(g.lcs, keep);
      var ref' := NextRef(LowestId(kept), ref);
      if kept != [] then TypeWalk(keep, lower[..|lower| - 1], [LcGroup(g.priority, kept)] + done, ref')
      else if |lower| == 1 then IteratorPastEnd
      else TypeWalk(keep, lower[..|lower| - 2], [lower[|lower| - 2]] + done, ref')
  }

  /** `lcIdOfRef` after visiting a group whose lowest kept id is low: set once, when still 0. */
  function NextRef(low: u8, ref: u8): (r: u8)
  {
    if low != U8_MAX && ref == 0 then low else ref
  }

  /** The state of the reverse loop: walking on from the iterator's base ends as the walk over
      the whole map does. */
  ghost predicate TypeLoop(keep: Sieve, groups: seq<LcGroup>, m: seq<LcGroup>, b: nat, ref: u8)
  {
    && b <= |m|
    && TypeWalk(keep, groups, [], 0) == TypeWalk(keep, m[..b], m[b..], ref)
  }

  /** A visited group that keeps a channel: the iterator moves to the group below. */
  lemma TypeKeepStep(keep: Sieve, groups: seq<LcGroup>, m: seq<LcGroup>, b: nat, ref: u8, kept: seq<u8>)
    requires TypeLoop(keep, groups, m, b, ref) && b > 0
    requires kept == KeepWhere(m[b - 1].lcs, keep) && kept != []
    ensures TypeLoop(keep, groups, m[b - 1 := LcGroup(m[b - 1].priority, kept)], b - 1, NextRef(LowestId(kept), ref))
  {
    var top := LcGroup(m[b - 1].priority, kept);
    UpdateSlices(m, b, top);
    TypeWalkKeepUnfold(keep, m[..b], m[b..], ref);
  }

  lemma TypeWalkKeepUnfold(keep: Sieve, lower: seq<LcGroup>, done: seq<LcGroup>, ref: u8)
    requires lower != [] && KeepWhere(lower[|lower| - 1].lcs, keep) != []
    ensures var g := lower[|lower| - 1];
      var kept := KeepWhere(g.lcs, keep);
      TypeWalk(keep, lower, done, ref) == TypeWalk(keep, lower[..|lower| - 1], [LcGroup(g.priority, kept)] + done, NextRef(LowestId(kept), ref))
  {
  }

  /** A visited group left empty is erased and the loop's ++ skips the group below it. */
  lemma TypeEraseStep(keep: Sieve, groups: seq<LcGroup>, m: seq<LcGroup>, b: nat, ref: u8)
    requires TypeLoop(keep, groups, m, b, ref) && b > 1
    requires KeepWhere(m[b - 1].lcs, keep) == []
    ensures var m' := m[b - 1 := LcGroup(m[b - 1].priority, [])];
      TypeLoop(keep, groups, m'[..b - 1] + m'[b..], b - 2, ref)
  {
    var m' := m[b - 1 := LcGroup(m[b - 1].priority, [])];
    var m'' := m'[..b - 1] + m'[b..];
    assert m[..b][..b - 2] == m[..b - 2] == m''[..b - 2];
    assert m[..b][b - 2] == m[b - 2];
    assert m''[b - 2..] == [m[b - 2]] + m[b..];
  }

  /** Erasing the bottom group leaves the iterator at `rend()`, which the loop's ++ passes. */
  lemma TypeEraseBottom(keep: Sieve, groups: seq<LcGroup>, m: seq<LcGroup>, ref: u8)
    requires TypeLoop(keep, groups, m, 1, ref)
    requires KeepWhere(m[0].lcs, keep) == []
    ensures TypeWalk(keep, groups, [], 0) == IteratorPastEnd
  {
    assert m[..1] == [m[0]];
  }

  /** What one pass leaves: the visited group filtered, or erased with the group below it
      skipped, and `lcIdOfRef` moved on; the walk from there ends as the whole walk does. */
  lemma TypeVisitStep(keep: Sieve, groups: seq<LcGroup>, m: seq<LcGroup>, b: nat, ref: u8,
                      kept: seq<u8>, m': seq<LcGroup>, b': nat, ref': u8)
    requires TypeLoop(keep, groups, m, b, ref) && b > 0
    requires kept == KeepWhere(m[b - 1].lcs, keep) && (kept == [] ==> b > 1)
    requires var m1 := m[b - 1 := LcGroup(m[b - 1].priority, kept)];
      m' == (if kept == [] then m1[..b - 1] + m1[b..] else m1)
    requires b' == (if kept == [] then b - 2 else b - 1)
    requires ref' == NextRef(LowestId(kept), ref)
    ensures TypeLoop(keep, groups, m', b', ref') && b' < b
  {
    if kept == [] {
      TypeEraseStep(keep, groups, m, b, ref);
    } else {
      TypeKeepStep(keep, groups, m, b, ref, kept);
    }
  }

  /** One pass of the outer loop over `lcIdsbyPrio` in reverse order. `b` is the reverse
      iterator's base: the group visited is `m[b - 1]`. Reports `pastEnd` when the pass erases
      the bottom group, after which the loop's ++ steps past `rend()`. */
  method VisitTypeGroup(lcInfo: (u32, u8) -> LcInfo, dst: u32, dynamicGrant: bool, ghost groups: seq<LcGroup>,
                        m: seq<LcGroup>, b: nat, lcIdOfRef: u8)
    returns (m': seq<LcGroup>, b': nat, lcIdOfRef': u8, pastEnd: bool)
    requires TypeLoop(OfType(lcInfo, dst, dynamicGrant), groups, m, b, lcIdOfRef) && b > 0
    ensures pastEnd ==> TypeWalk(OfType(lcInfo, dst, dynamicGrant), groups, [], 0) == IteratorPastEnd
    ensures !pastEnd ==> TypeLoop(OfType(lcInfo, dst, dynamicGrant), groups, m', b', lcIdOfRef') && b' < b
  {
    ghost var keep := OfType(lcInfo, dst, dynamicGrant);
    var g := m[b - 1];
    var kept, lowestLcId := EraseOtherType(lcInfo, dst, g.lcs, dynamicGrant);
    if |kept| == 0 && b == 1 {
      TypeEraseBottom(keep, groups, m, lcIdOfRef);
      return m, b, lcIdOfRef, true;
    }
    m' := m[b - 1 := LcGroup(g.priority, kept)];
    if |kept| == 0 {
      m' := m'[..b - 1] + m'[b..];
      b' := b - 2;
    } else {
      b' := b - 1;
    }
    lcIdOfRef' := lcIdOfRef;
    if lowestLcId != U8_MAX && lcIdOfRef == 0 {
      lcIdOfRef' := lowestLcId;
    }
    pastEnd := false;
    TypeVisitStep(keep, groups, m, b, lcIdOfRef, kept, m', b', lcIdOfRef');
  }

  /** The outer loop over `lcIdsbyPrio` in reverse order. */
  method FilterByType(lcInfo: (u32, u8) -> LcInfo, dst: u32, groups: seq<LcGroup>, dynamicGrant: bool)
    returns (w: Walk)
    ensures w == TypeWalk(OfType(lcInfo, dst, dynamicGrant), groups, [], 0)
  {
    var m := groups;
    var b: nat := |m|;
    var lcIdOfRef: u8 := 0;
    assert m[..b] == groups && m[b..] == [];
    while b > 0
      invariant TypeLoop(OfType(lcInfo, dst, dynamicGrant), groups, m, b, lcIdOfRef)
      decreases b
    {
      var pastEnd;
      m, b, lcIdOfRef, pastEnd := VisitTypeGroup(lcInfo, dst, dynamicGrant, groups, m, b, lcIdOfRef);
      if pastEnd {
        return IteratorPastEnd;
      }
    }
    assert b == 0 && m[..0] == [] && m[0..] == m;
    w := Walked(m, lcIdOfRef);
  }

  /** Without an emptied group, every group is filtered and none is skipped or removed. */
  lemma {:induction false} TypeWalkNoErase(keep: Sieve, lower: seq<LcGroup>, done: seq<LcGroup>, ref: u8)
    requires forall i :: 0 <= i < |lower| ==> KeepWhere(lower[i].lcs, keep) != []
    ensures TypeWalk(keep, lower, done, ref).Walked?
    ensures TypeWalk(keep, lower, done, ref).groups == FilterAll(lower, keep) + done
    decreases |lower|
  {
    if lower != [] {
      var g := lower[|lower| - 1];
      var front := lower[..|lower| - 1];
      var x := LcGroup(g.priority, KeepWhere(g.lcs, keep));
      TypeWalkKeepUnfold(keep, lower, done, ref);
      assert forall i :: 0 <= i < |front| ==> front[i] == lower[i];
      TypeWalkNoErase(keep, front, [x] + done, NextRef(LowestId(x.lcs), ref));
      FilterAllSnoc(lower, keep);
      ConcatAssoc(FilterAll(front, keep), [x], done);
    }
  }

  lemma {:induction false} FilterAllSnoc(gs: seq<LcGroup>, keep: Sieve)
    requires gs != []
    ensures var g := gs[|gs| - 1];
      FilterAll(gs, keep) == FilterAll(gs[..|gs| - 1], keep) + [LcGroup(g.priority, KeepWhere(g.lcs, keep))]
  {
    var g := gs[|gs| - 1];
    var x := LcGroup(g.priority, KeepWhere(g.lcs, keep));
    if |gs| == 1 {
      assert gs[..0] == [];
    } else {
      var y := LcGroup(gs[0].priority, KeepWhere(gs[0].lcs, keep));
      FilterAllSnoc(gs[1..], keep);
      assert gs[1..][..|gs| - 2] == gs[..|gs| - 1][1..];
      assert gs[..|gs| - 1][0] == gs[0];
      ConcatAssoc([y], FilterAll(gs[..|gs| - 1][1..], keep), [x]);
    }
  }

  /** Once the reference channel is set to a non-zero id it stays. */
  lemma {:induction false} TypeWalkKeepsRef(keep: Sieve, lower: seq<LcGroup>, done: seq<LcGroup>, ref: u8)
    requires ref != 0
    ensures TypeWalk(keep, lower, done, ref).Walked? ==> TypeWalk(keep, lower, done, ref).refLc == ref
    decreases |lower|
  {
    if lower != [] {
      var g := lower[|lower| - 1];
      var kept := KeepWhere(g.lcs, keep);
      if kept != [] {
        TypeWalkKeepsRef(keep, lower[..|lower| - 1], [LcGroup(g.priority, kept)] + done, ref);
      } else if |lower| > 1 {
        TypeWalkKeepsRef(keep, lower[..|lower| - 2], [lower[|lower| - 2]] + done, ref);
      }
    }
  }

  /** The top group keeps its channels of the chosen type; when its lowest such id is in
      1..254 that channel is the reference channel. */
  lemma TypeWalkTopGroup(keep: Sieve, groups: seq<LcGroup>)
    requires groups != []
    requires KeepWhere(groups[|groups| - 1].lcs, keep) != []
    ensures var w := TypeWalk(keep, groups, [], 0);
      var top := groups[|groups| - 1];
      var low := LowestId(KeepWhere(top.lcs, keep));
      w.Walked? ==>
        && |w.groups| > 0
        && w.groups[|w.groups| - 1] == LcGroup(top.priority, KeepWhere(top.lcs, keep))
        && (0 < low < U8_MAX ==> w.refLc == low)
  {
    var top := groups[|groups| - 1];
    var kept := KeepWhere(top.lcs, keep);
    var ref' := NextRef(LowestId(kept), 0);
    var x := LcGroup(top.priority, kept);
    TypeWalkKeepUnfold(keep, groups, [], 0);
    assert [x] + [] == [x];
    TypeWalkSuffix(keep, groups[..|groups| - 1], [x], ref');
    var w := TypeWalk(keep, groups, [], 0);
    if w.Walked? {
      assert w.groups[|w.groups| - 1..] == [x];
      assert w.groups[|w.groups| - 1] == [x][0];
    }
    if 0 < LowestId(kept) < U8_MAX {
      TypeWalkKeepsRef(keep, groups[..|groups| - 1], [x], ref');
    }
  }

  /** A walk only ever prepends to the part already visited. */
  lemma {:induction false} TypeWalkSuffix(keep: Sieve, lower: seq<LcGroup>, done: seq<LcGroup>, ref: u8)
    ensures var w := TypeWalk(keep, lower, done, ref);
      w.Walked? ==> |w.groups| >= |done| && w.groups[|w.groups| - |done|..] == done
    decreases |lower|
  {
    if lower != [] {
      var g := lower[|lower| - 1];
      var kept := KeepWhere(g.lcs, keep);
      var ref' := NextRef(LowestId(kept), ref);
      if kept != [] {
        var done' := [LcGroup(g.priority, kept)] + done;
        TypeWalkSuffix(keep, lower[..|lower| - 1], done', ref');
        assert done'[1..] == done;
      } else if |lower| > 1 {
        var done' := [lower[|lower| - 2]] + done;
        TypeWalkSuffix(keep, lower[..|lower| - 2], done', ref');
        assert done'[1..] == done;
      }
    }
  }

  /** If every group above the bottom one keeps a channel but the bottom one keeps none, the
      walk ends past `rend()`. */
  lemma {:induction false} TypeWalkBottomEmptied(keep: Sieve, lower: seq<LcGroup>, done: seq<LcGroup>, ref: u8)
    requires lower != [] && KeepWhere(lower[0].lcs, keep) == []
    requires forall i :: 0 < i < |lower| ==> KeepWhere(lower[i].lcs, keep) != []
    ensures TypeWalk(keep, lower, done, ref) == IteratorPastEnd
    decreases |lower|
  {
    if |lower| > 1 {
      var g := lower[|lower| - 1];
      var kept := KeepWhere(g.lcs, keep);
      var ref' := NextRef(LowestId(kept), ref);
      TypeWalkBottomEmptied(keep, lower[..|lower| - 1], [LcGroup(g.priority, kept)] + done, ref');
    }
  }

  /** Where a group left by the type walk comes from: an original group filtered and not
      emptied, or an original group left unfiltered because the group above it was emptied. */
  ghost predicate FromTypeWalk(keep: Sieve, groups: seq<LcGroup>, g: LcGroup)
  {
    exists i :: 0 <= i < |groups| &&
      ((g.lcs != [] && g == LcGroup(groups[i].priority, KeepWhere(groups[i].lcs, keep)))
       || (g == groups[i] && i + 1 < |groups| && KeepWhere(groups[i + 1].lcs, keep) == []))
  }

  lemma {:induction false} TypeWalkGroupsFrom(keep: Sieve, groups: seq<LcGroup>, lower: seq<LcGroup>, done: seq<LcGroup>, ref: u8)
    requires |lower| <= |groups| && lower == groups[..|lower|]
    requires forall g :: g in done ==> FromTypeWalk(keep, groups, g)
    ensures var w := TypeWalk(keep, lower, done, ref);
      w.Walked? ==> forall g :: g in w.groups ==> FromTypeWalk(keep, groups, g)
    decreases |lower|
  {
    if lower != [] {
      var n := |lower|;
      var g := lower[n - 1];
      assert g == groups[n - 1];
      var kept := KeepWhere(g.lcs, keep);
      var ref' := NextRef(LowestId(kept), ref);
      if kept != [] {
        var x := LcGroup(g.priority, kept);
        assert FromTypeWalk(keep, groups, x);
        assert lower[..n - 1] == groups[..n - 1];
        TypeWalkGroupsFrom(keep, groups, lower[..n - 1], [x] + done, ref');
      } else if n > 1 {
        var y := lower[n - 2];
        assert y == groups[n - 2];
        assert FromTypeWalk(keep, groups, y);
        assert lower[..n - 2] == groups[..n - 2];
        TypeWalkGroupsFrom(keep, groups, lower[..n - 2], [y] + done, ref');
      }
    }
  }

  /** Every group the type walk leaves is either an original group filtered to a non-empty
      list, or an original group skipped unfiltered below an emptied one. */
  lemma TypeWalkGroups(keep: Sieve, groups: seq<LcGroup>)
    ensures var w := TypeWalk(keep, groups, [], 0);
      w.Walked? ==> forall g :: g in w.groups ==> FromTypeWalk(keep, groups, g)
  {
    assert groups[..|groups|] == groups;
    TypeWalkGroupsFrom(keep, groups, groups, [], 0);
  }

  /** Channel l has priority l and a 100 ms RRI; only channel 3 is configured for dynamic grants. */
  function OnlyThreeDynamic(d: u32, l: u8): (r: LcInfo)
  {
    LcInfo(l, l == 3, 100, 10, false, Unicast, 20)
  }

  /** A group skipped after an erase keeps a channel of the other type: with dynamic grants
      chosen, the middle group (channel 2, SPS) is erased and the bottom group (channel 1, SPS)
      is skipped and survives unfiltered. */
  lemma TypeWalkSkipsBelowErased()
    ensures TypeWalk(OfType(OnlyThreeDynamic, 7, true), [LcGroup(1, [1]), LcGroup(2, [2]), LcGroup(3, [3])], [], 0)
         == Walked([LcGroup(1, [1]), LcGroup(3, [3])], 3)
  {
    var keep := OfType(OnlyThreeDynamic, 7, true);
    assert KeepWhere([3], keep) == [3];
    assert KeepWhere([2], keep) == [];
    assert LowestId([3]) == 3;
  }

  // ---------------------------------------------------------------------------------
  // RRI filter (SPS only)
  // ---------------------------------------------------------------------------------

  /** The inner loop: erases the channels whose RRI differs. */
  method EraseOtherRri(lcInfo: (u32, u8) -> LcInfo, dst: u32, lcs: seq<u8>, rriMs: nat) returns (kept: seq<u8>)
    ensures kept == KeepWhere(lcs, WithRri(lcInfo, dst, rriMs))
  {
    ghost var keep := WithRri(lcInfo, dst, rriMs);
    kept := lcs;
    var k := 0;
    ghost var i := 0;
    while k < |kept|
      invariant EraseLoop(keep, lcs, i, kept, k)
      decreases |lcs| - i
    {
      if lcInfo(dst, kept[k]).rriMs != rriMs {
        EraseStep(keep, lcs, i, kept, k);
        kept := kept[..k] + kept[k + 1..];
      } else {
        KeepStep(keep, lcs, i, kept, k);
        k := k + 1;
      }
      i := i + 1;
    }
    assert lcs[..i] == lcs;
    assert kept[..k] == kept;
  }

  /** The bottom-up RRI walk: `upper` is still to visit (its first group next), `done` the
      groups below the iterator. An emptied group is erased and the group above it is then
      skipped unfiltered; erasing the top group advances past `end()` (None). */
  function RriWalk(keep: Sieve, upper: seq<LcGroup>, done: seq<LcGroup>): (r: Option<seq<LcGroup>>)
    decreases |upper|
  {
    if upper == [] then Some(done)
    else
      var kept := KeepWhere(upper[0].lcs, keep);
      if kept != [] then RriWalk(keep, upper[1..], done + [LcGroup(upper[0].priority, kept)])
      else if |upper| == 1 then None
      else RriWalk(keep, upper[2..], done + [upper[1]])
  }

  /** The state of the ascending loop: walking on from position j ends as the walk over the
      whole map does. */
  ghost predicate RriLoop(keep: Sieve, groups: seq<LcGroup>, m: seq<LcGroup>, j: nat)
  {
    && j <= |m|
    && RriWalk(keep, groups, []) == RriWalk(keep, m[j..], m[..j])
  }

  /** A visited group that keeps a channel: the iterator moves to the group above. */
  lemma RriKeepStep(keep: Sieve, groups: seq<LcGroup>, m: seq<LcGroup>, j: nat, kept: seq<u8>)
    requires RriLoop(keep, groups, m, j) && j < |m|
    requires kept == KeepWhere(m[j].lcs, keep) && kept != []
    ensures RriLoop(keep, groups, m[j := LcGroup(m[j].priority, kept)], j + 1)
  {
    var g := LcGroup(m[j].priority, kept);
    var m' := m[j := g];
    assert m[j..][0] == m[j];
    assert m'[j + 1..] == m[j..][1..];
    assert m'[..j + 1] == m[..j] + [g];
  }

  /** A visited group left empty is erased and the loop's ++ skips the group above it. */
  lemma RriEraseStep(keep: Sieve, groups: seq<LcGroup>, m: seq<LcGroup>, j: nat)
    requires RriLoop(keep, groups, m, j) && j + 1 < |m|
    requires KeepWhere(m[j].lcs, keep) == []
    ensures var m' := m[j := LcGroup(m[j].priority, [])];
      RriLoop(keep, groups, m'[..j] + m'[j + 1..], j + 1)
  {
    var m' := m[j := LcGroup(m[j].priority, [])];
    var m'' := m'[..j] + m'[j + 1..];
    assert m[j..][0] == m[j] && m[j..][1] == m[j + 1];
    assert m''[j + 1..] == m[j..][2..];
    assert m''[..j + 1] == m[..j] + [m[j + 1]];
  }

  /** Erasing the top group leaves the iterator at `end()`, which the loop's ++ passes. */
  lemma RriEraseTop(keep: Sieve, groups: seq<LcGroup>, m: seq<LcGroup>, j: nat)
    requires RriLoop(keep, groups, m, j) && j + 1 == |m|
    requires KeepWhere(m[j].lcs, keep) == []
    ensures RriWalk(keep, groups, []) == None
  {
    assert m[j..] == [m[j]];
  }

  /** The loop over `lcIdsbyPrio` in ascending order; `j` is the iterator's position. */
  method FilterByRri(lcInfo: (u32, u8) -> LcInfo, dst: u32, groups: seq<LcGroup>, rriMs: nat)
    returns (r: Option<seq<LcGroup>>)
    ensures r == RriWalk(WithRri(lcInfo, dst, rriMs), groups, [])
  {
    ghost var keep := WithRri(lcInfo, dst, rriMs);
    var m := groups;
    var j := 0;
    assert m[j..] == groups && m[..j] == [];
    while j < |m|
      invariant RriLoop(keep, groups, m, j)
      decreases |m| - j
    {
      var g := m[j];
      var kept := EraseOtherRri(lcInfo, dst, g.lcs, rriMs);
      if |kept| == 0 {
        if j + 1 == |m| {
          // the erase returns end(); the loop's ++ advances past it
          RriEraseTop(keep, groups, m, j);
          return None;
        }
        RriEraseStep(keep, groups, m, j);
        m := m[j := LcGroup(g.priority, kept)];
        m := m[..j] + m[j + 1..];
      } else {
        RriKeepStep(keep, groups, m, j, kept);
        m := m[j := LcGroup(g.priority, kept)];
      }
      j := j + 1;
    }
    r := Some(m);
    assert m[j..] == [] && m[..j] == m;
  }

  /** Without an emptied group, every group is filtered and none is skipped or removed. */
  lemma {:induction false} RriWalkNoErase(keep: Sieve, upper: seq<LcGroup>, done: seq<LcGroup>)
    requires forall i :: 0 <= i < |upper| ==> KeepWhere(upper[i].lcs, keep) != []
    ensures RriWalk(keep, upper, done) == Some(done + FilterAll(upper, keep))
    decreases |upper|
  {
    if upper == [] {
      assert done + FilterAll(upper, keep) == done;
    } else {
      var g := upper[0];
      var x := LcGroup(g.priority, KeepWhere(g.lcs, keep));
      assert forall i :: 0 <= i < |upper| - 1 ==> upper[1..][i] == upper[i + 1];
      assert RriWalk(keep, upper, done) == RriWalk(keep, upper[1..], done + [x]);
      RriWalkNoErase(keep, upper[1..], done + [x]);
      assert FilterAll(upper, keep) == [x] + FilterAll(upper[1..], keep);
      ConcatAssoc(done, [x], FilterAll(upper[1..], keep));
    }
  }

  /** If every group below the top one keeps a channel but the top one keeps none, the walk
      ends past `end()`. */
  lemma {:induction false} RriWalkTopEmptied(keep: Sieve, upper: seq<LcGroup>, done: seq<LcGroup>)
    requires upper != [] && KeepWhere(upper[|upper| - 1].lcs, keep) == []
    requires forall i :: 0 <= i < |upper| - 1 ==> KeepWhere(upper[i].lcs, keep) != []
    ensures RriWalk(keep, upper, done) == None
    decreases |upper|
  {
    if |upper| > 1 {
      var g := upper[0];
      RriWalkTopEmptied(keep, upper[1..], done + [LcGroup(g.priority, KeepWhere(g.lcs, keep))]);
    }
  }

  /** Where a group left by the RRI walk comes from: an original group filtered and not
      emptied, or an original group left unfiltered because the group below it was emptied. */
  ghost predicate FromRriWalk(keep: Sieve, groups: seq<LcGroup>, g: LcGroup)
  {
    exists i :: 0 <= i < |groups| &&
      ((g.lcs != [] && g == LcGroup(groups[i].priority, KeepWhere(groups[i].lcs, keep)))
       || (i + 1 < |groups| && g == groups[i + 1] && KeepWhere(groups[i].lcs, keep) == []))
  }

  lemma {:induction false} RriWalkGroupsFrom(keep: Sieve, groups: seq<LcGroup>, upper: seq<LcGroup>, done: seq<LcGroup>)
    requires |upper| <= |groups| && upper == groups[|groups| - |upper|..]
    requires forall g :: g in done ==> FromRriWalk(keep, groups, g)
    ensures var r := RriWalk(keep, upper, done);
      r.Some? ==> forall g :: g in r.value ==> FromRriWalk(keep, groups, g)
    decreases |upper|
  {
    if upper != [] {
      var k := |groups| - |upper|;
      assert upper[0] == groups[k];
      var kept := KeepWhere(upper[0].lcs, keep);
      if kept != [] {
        var x := LcGroup(upper[0].priority, kept);
        assert FromRriWalk(keep, groups, x);
        assert upper[1..] == groups[k + 1..];
        RriWalkGroupsFrom(keep, groups, upper[1..], done + [x]);
      } else if |upper| > 1 {
        assert upper[1] == groups[k + 1];
        assert FromRriWalk(keep, groups, upper[1]);
        assert upper[2..] == groups[k + 2..];
        RriWalkGroupsFrom(keep, groups, upper[2..], done + [upper[1]]);
      }
    }
  }

  /** Every group the RRI walk leaves is either an original group filtered to a non-empty
      list, or an original group skipped unfiltered above an emptied one. */
  lemma RriWalkGroups(keep: Sieve, groups: seq<LcGroup>)
    ensures var r := RriWalk(keep, groups, []);
      r.Some? ==> forall g :: g in r.value ==> FromRriWalk(keep, groups, g)
  {
    assert groups[|groups| - |groups|..] == groups;
    RriWalkGroupsFrom(keep, groups, groups, []);
  }

  /** Channel l has priority l and is SPS; channel 1 has a 50 ms RRI, channel 2 a 20 ms RRI,
      every other channel 100 ms. */
  function MixedRris(d: u32, l: u8): (r: LcInfo)
  {
    LcInfo(l, false, if l == 1 then 50 else if l == 2 then 20 else 100, 10, false, Unicast, 20)
  }

  /** A group skipped after an erase keeps a channel of another RRI: with reference RRI 100 ms,
      the lowest group (channel 1) is erased and the next one (channel 2, 20 ms) survives. */
  lemma RriWalkSkipsAboveErased()
    ensures RriWalk(WithRri(MixedRris, 7, 100), [LcGroup(1, [1]), LcGroup(2, [2]), LcGroup(3, [3])], [])
         == Some([LcGroup(2, [2]), LcGroup(3, [3])])
  {
    var keep := WithRri(MixedRris, 7, 100);
    assert !Keeps(keep, 1) && Keeps(keep, 3);
    assert KeepWhere([1], keep) == [];
    assert KeepWhere([3], keep) == [3];
    var groups := [LcGroup(1, [1]), LcGroup(2, [2]), LcGroup(3, [3])];
    assert groups[2..] == [LcGroup(3, [3])];
    assert [] + [groups[1]] == [LcGroup(2, [2])];
    assert RriWalk(keep, groups, []) == RriWalk(keep, [LcGroup(3, [3])], [LcGroup(2, [2])]);
    assert [LcGroup(3, [3])][1..] == [];
    assert [LcGroup(2, [2])] + [LcGroup(3, KeepWhere([3], keep))] == [LcGroup(2, [2]), LcGroup(3, [3])];
    assert RriWalk(keep, [LcGroup(3, [3])], [LcGroup(2, [2])]) == RriWalk(keep, [], [LcGroup(2, [2]), LcGroup(3, [3])]);
  }
}
