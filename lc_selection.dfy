/**
 * Step 1 of `NrSlUeMacSchedulerManual::LogicalChannelPrioritization`: choosing the destination
 * whose requested logical channels carry the largest priority value, grouping that
 * destination's channels by priority, and choosing dynamic or SPS scheduling from the
 * top-priority group.
 */
module LcSelection {
  import opened Ints
  import opened SchedulerTypes

  // ---------------------------------------------------------------------------------
  // Destination selection
  // ---------------------------------------------------------------------------------

  /** `lcHighestPrio`: the largest priority value among the channels, starting from 0. */
  function HighestLcPriority(lcInfo: (u32, u8) -> LcInfo, dst: u32, lcs: seq<u8>): (r: u8)
  {
    if lcs == [] then 0
    else
      var p' := HighestLcPriority(lcInfo, dst, lcs[..|lcs| - 1]);
      var q := lcInfo(dst, lcs[|lcs| - 1]).priority;
      if q > p' then q else p'
  }

  /** No requested channel has a larger priority value, and a requested channel has that one. */
  lemma {:induction false} HighestLcPriorityIsMax(lcInfo: (u32, u8) -> LcInfo, dst: u32, lcs: seq<u8>)
    ensures forall i :: 0 <= i < |lcs| ==> lcInfo(dst, lcs[i]).priority <= HighestLcPriority(lcInfo, dst, lcs)
    ensures lcs != [] ==> exists i :: 0 <= i < |lcs| && lcInfo(dst, lcs[i]).priority == HighestLcPriority(lcInfo, dst, lcs)
  {
    if lcs != [] {
      var front := lcs[..|lcs| - 1];
      HighestLcPriorityIsMax(lcInfo, dst, front);
      assert forall i :: 0 <= i < |front| ==> front[i] == lcs[i];
      var last := |lcs| - 1;
      if front == [] || lcInfo(dst, lcs[last]).priority > HighestLcPriority(lcInfo, dst, front) {
        assert lcInfo(dst, lcs[last]).priority == HighestLcPriority(lcInfo, dst, lcs);
      } else {
        var i :| 0 <= i < |front| && lcInfo(dst, front[i]).priority == HighestLcPriority(lcInfo, dst, front);
        assert front[i] == lcs[i];
        assert lcInfo(dst, lcs[i]).priority == HighestLcPriority(lcInfo, dst, lcs);
      }
    }
  }

  function HighestOf(lcInfo: (u32, u8) -> LcInfo, r: DstRequest): (h: u8)
  {
    HighestLcPriority(lcInfo, r.dst, r.lcs)
  }

  /** The largest `HighestOf` over the requests; -1 when there are none. */
  function TopPriority(lcInfo: (u32, u8) -> LcInfo, reqs: seq<DstRequest>): (r: int)
  {
    if reqs == [] then -1
    else
      var t' := TopPriority(lcInfo, reqs[..|reqs| - 1]);
      var h := HighestOf(lcInfo, reqs[|reqs| - 1]);
      if h > t' then h else t'
  }

  /** No destination has a larger highest priority, and some destination has that one. */
  lemma {:induction false} TopPriorityIsMax(lcInfo: (u32, u8) -> LcInfo, reqs: seq<DstRequest>)
    ensures forall i :: 0 <= i < |reqs| ==> HighestOf(lcInfo, reqs[i]) <= TopPriority(lcInfo, reqs)
    ensures reqs != [] ==> exists i :: 0 <= i < |reqs| && HighestOf(lcInfo, reqs[i]) == TopPriority(lcInfo, reqs)
    ensures reqs == [] <==> TopPriority(lcInfo, reqs) == -1
  {
    if reqs != [] {
      var front := reqs[..|reqs| - 1];
      TopPriorityIsMax(lcInfo, front);
      assert forall i :: 0 <= i < |front| ==> front[i] == reqs[i];
      if front != [] && TopPriority(lcInfo, reqs) == TopPriority(lcInfo, front) {
        var i :| 0 <= i < |front| && HighestOf(lcInfo, front[i]) == TopPriority(lcInfo, front);
        assert HighestOf(lcInfo, reqs[i]) == TopPriority(lcInfo, reqs);
      }
    }
  }

  /** Destination d is requested and its highest requested priority is p. */
  ghost predicate RequestedAt(lcInfo: (u32, u8) -> LcInfo, reqs: seq<DstRequest>, d: u32, p: int)
  {
    exists i :: 0 <= i < |reqs| && reqs[i].dst == d && HighestOf(lcInfo, reqs[i]) == p
  }

  /** `dstL2IdsbyPrio[p]`: the destinations whose highest priority is p, in ascending id order. */
  function Candidates(lcInfo: (u32, u8) -> LcInfo, reqs: seq<DstRequest>, p: int): (r: seq<u32>)
  {
    if reqs == [] then []
    else
      var r := reqs[|reqs| - 1];
      var ds' := Candidates(lcInfo, reqs[..|reqs| - 1], p);
      if HighestOf(lcInfo, r) == p then ds' + [r.dst] else ds'
  }

  /** The candidates are exactly the destinations whose highest priority is p. */
  lemma {:induction false} CandidatesMembers(lcInfo: (u32, u8) -> LcInfo, reqs: seq<DstRequest>, p: int)
    ensures forall d :: d in Candidates(lcInfo, reqs, p) <==> RequestedAt(lcInfo, reqs, d, p)
  {
    if reqs != [] {
      var r := reqs[|reqs| - 1];
      var front := reqs[..|reqs| - 1];
      CandidatesMembers(lcInfo, front, p);
      forall d ensures RequestedAt(lcInfo, reqs, d, p) <==> RequestedAt(lcInfo, front, d, p) || (r.dst == d && HighestOf(lcInfo, r) == p) {
        if RequestedAt(lcInfo, front, d, p) {
          var i :| 0 <= i < |front| && front[i].dst == d && HighestOf(lcInfo, front[i]) == p;
          assert reqs[i] == front[i];
        }
        if RequestedAt(lcInfo, reqs, d, p) && !(r.dst == d && HighestOf(lcInfo, r) == p) {
          var i :| 0 <= i < |reqs| && reqs[i].dst == d && HighestOf(lcInfo, reqs[i]) == p;
          assert front[i] == reqs[i];
        }
      }
    }
  }

  lemma NoCandidatesAboveTop(lcInfo: (u32, u8) -> LcInfo, reqs: seq<DstRequest>, p: int)
    requires p > TopPriority(lcInfo, reqs)
    ensures Candidates(lcInfo, reqs, p) == []
  {
    TopPriorityIsMax(lcInfo, reqs);
    CandidatesMembers(lcInfo, reqs, p);
  }

  /** Every top-priority destination is the one selected for some draw of the uniform variable. */
  lemma EveryTopDestinationSelectable(lcInfo: (u32, u8) -> LcInfo, reqs: seq<DstRequest>, i: nat)
    requires i < |reqs| && HighestOf(lcInfo, reqs[i]) == TopPriority(lcInfo, reqs)
    ensures exists tieBreak: nat ::
      var ds := Candidates(lcInfo, reqs, TopPriority(lcInfo, reqs));
      |ds| > 0 && ds[tieBreak % |ds|] == reqs[i].dst
  {
    var top := TopPriority(lcInfo, reqs);
    CandidatesMembers(lcInfo, reqs, top);
    assert RequestedAt(lcInfo, reqs, reqs[i].dst, top);
    var ds := Candidates(lcInfo, reqs, top);
    var k :| 0 <= k < |ds| && ds[k] == reqs[i].dst;
    SmallMod(k, |ds|);
  }

  lemma SmallMod(k: nat, n: nat)
    requires k < n
    ensures k % n == k
  {
  }

  /** Picks the destination to serve: the destinations are grouped by their highest requested
      priority and one of the group with the largest priority is drawn uniformly; the draw is
      `tieBreak % count` (any index in [0, count) is reached by some tieBreak). */
  method SelectDestination(lcInfo: (u32, u8) -> LcInfo, reqs: seq<DstRequest>, tieBreak: nat) returns (dst: u32)
    requires reqs != []
    ensures var ds := Candidates(lcInfo, reqs, TopPriority(lcInfo, reqs));
      |ds| > 0 && dst == ds[tieBreak % |ds|]
    ensures exists i :: 0 <= i < |reqs| && reqs[i].dst == dst && HighestOf(lcInfo, reqs[i]) == TopPriority(lcInfo, reqs)
    ensures forall j :: 0 <= j < |reqs| ==> HighestOf(lcInfo, reqs[j]) <= TopPriority(lcInfo, reqs)
  {
    var best: int := -1;
    var cands: seq<u32> := [];
    var i := 0;
    while i < |reqs|
      invariant 0 <= i <= |reqs|
      invariant best == TopPriority(lcInfo, reqs[..i])
      invariant cands == Candidates(lcInfo, reqs[..i], best)
    {
      var r := reqs[i];
      var lcHighestPrio: u8 := 0;
      var k := 0;
      while k < |r.lcs|
        invariant 0 <= k <= |r.lcs|
        invariant lcHighestPrio == HighestLcPriority(lcInfo, r.dst, r.lcs[..k])
      {
        assert r.lcs[..k + 1][..k] == r.lcs[..k];
        var lcPriority := lcInfo(r.dst, r.lcs[k]).priority;
        if lcPriority > lcHighestPrio {
          lcHighestPrio := lcPriority;
        }
        k := k + 1;
      }
      assert r.lcs[..k] == r.lcs;
      SelectStep(lcInfo, reqs, i, best, cands);
      if lcHighestPrio > best {
        cands := [r.dst];
        best := lcHighestPrio;
      } else if lcHighestPrio == best {
        cands := cands + [r.dst];
      }
      i := i + 1;
    }
    assert reqs[..i] == reqs;
    TopPriorityIsMax(lcInfo, reqs);
    CandidatesMembers(lcInfo, reqs, best);
    var j :| 0 <= j < |reqs| && HighestOf(lcInfo, reqs[j]) == best;
    assert RequestedAt(lcInfo, reqs, reqs[j].dst, best);
    assert reqs[j].dst in cands;
    var randomIndex := tieBreak % |cands|;
    dst := cands[randomIndex];
    assert RequestedAt(lcInfo, reqs, dst, best);
  }

  /** The loop body keeps the top priority and its candidates up to date. */
  lemma SelectStep(lcInfo: (u32, u8) -> LcInfo, reqs: seq<DstRequest>, i: nat, best: int, cands: seq<u32>)
    requires i < |reqs|
    requires best == TopPriority(lcInfo, reqs[..i]) && cands == Candidates(lcInfo, reqs[..i], best)
    ensures var h := HighestOf(lcInfo, reqs[i]);
      && (h > best ==> TopPriority(lcInfo, reqs[..i + 1]) == h && Candidates(lcInfo, reqs[..i + 1], h) == [reqs[i].dst])
      && (h == best ==> TopPriority(lcInfo, reqs[..i + 1]) == best && Candidates(lcInfo, reqs[..i + 1], best) == cands + [reqs[i].dst])
      && (h < best ==> TopPriority(lcInfo, reqs[..i + 1]) == best && Candidates(lcInfo, reqs[..i + 1], best) == cands)
  {
    PrefixStep(lcInfo, reqs, i);
    var h := HighestOf(lcInfo, reqs[i]);
    if h > best {
      NoCandidatesAboveTop(lcInfo, reqs[..i], h);
    }
  }

  /** One more request extends the top priority and the candidate list as the loop does. */
  lemma PrefixStep(lcInfo: (u32, u8) -> LcInfo, reqs: seq<DstRequest>, i: nat)
    requires i < |reqs|
    ensures var t, h := TopPriority(lcInfo, reqs[..i]), HighestOf(lcInfo, reqs[i]);
      TopPriority(lcInfo, reqs[..i + 1]) == if h > t then h else t
    ensures forall p :: Candidates(lcInfo, reqs[..i + 1], p) ==
                       Candidates(lcInfo, reqs[..i], p) + (if HighestOf(lcInfo, reqs[i]) == p then [reqs[i].dst] else [])
  {
    assert reqs[..i + 1][..i] == reqs[..i];
  }

  // ---------------------------------------------------------------------------------
  // Grouping the destination's channels by priority
  // ---------------------------------------------------------------------------------

  /** The channels of lcs with priority p, in request order. */
  function WithPriority(lcInfo: (u32, u8) -> LcInfo, dst: u32, lcs: seq<u8>, p: u8): (r: seq<u8>)
    ensures forall l :: l in r <==> l in lcs && lcInfo(dst, l).priority == p
  {
    if lcs == [] then []
    else
      var l := lcs[|lcs| - 1];
      var r' := WithPriority(lcInfo, dst, lcs[..|lcs| - 1], p);
      assert lcs == lcs[..|lcs| - 1] + [l];
      if lcInfo(dst, l).priority == p then r' + [l] else r'
  }

  /** `lcIdsbyPrio.find(p)`: the channels stored under key p, or none. */
  function Lookup(gs: seq<LcGroup>, p: u8): (r: seq<u8>)
  {
    if gs == [] then []
    else if gs[0].priority == p then gs[0].lcs
    else Lookup(gs[1..], p)
  }

  ghost predicate NonEmptyGroups(gs: seq<LcGroup>)
  {
    forall i :: 0 <= i < |gs| ==> gs[i].lcs != []
  }

  lemma {:induction false} LookupAbsent(gs: seq<LcGroup>, p: u8)
    requires SortedGroups(gs) && (gs == [] || p < gs[0].priority)
    ensures Lookup(gs, p) == []
  {
    if gs != [] {
      assert gs[1..] == [] || p < gs[1..][0].priority;
      LookupAbsent(gs[1..], p);
    }
  }

  /** `find` + `emplace_back` / `emplace`: appends lc to the group of priority p, creating it at
      its ordered position when absent. */
  function InsertLc(gs: seq<LcGroup>, p: u8, lc: u8): (r: seq<LcGroup>)
    requires SortedGroups(gs)
    ensures SortedGroups(r)
    ensures r != [] && (r[0].priority == p || (gs != [] && r[0].priority == gs[0].priority))
  {
    if gs == [] then [LcGroup(p, [lc])]
    else if gs[0].priority == p then [LcGroup(p, gs[0].lcs + [lc])] + gs[1..]
    else if p < gs[0].priority then [LcGroup(p, [lc])] + gs
    else
      var rest := InsertLc(gs[1..], p, lc);
      assert forall j :: 0 <= j < |rest| ==> gs[0].priority < rest[j].priority by {
        assert rest[0].priority == p || rest[0].priority == gs[1..][0].priority;
      }
      [gs[0]] + rest
  }

  /** Inserting adds lc at the end of priority p's channels and changes no other priority. */
  lemma {:induction false} InsertLcLookup(gs: seq<LcGroup>, p: u8, lc: u8)
    requires SortedGroups(gs)
    ensures forall q :: Lookup(InsertLc(gs, p, lc), q) == if q == p then Lookup(gs, p) + [lc] else Lookup(gs, q)
  {
    if gs != [] && gs[0].priority != p {
      if p < gs[0].priority {
        LookupAbsent(gs, p);
      } else {
        InsertLcLookup(gs[1..], p, lc);
        var r := InsertLc(gs, p, lc);
        assert r[1..] == InsertLc(gs[1..], p, lc);
      }
    }
  }

  /** Inserting never creates an empty group. */
  lemma {:induction false} InsertLcNonEmpty(gs: seq<LcGroup>, p: u8, lc: u8)
    requires SortedGroups(gs) && NonEmptyGroups(gs)
    ensures NonEmptyGroups(InsertLc(gs, p, lc))
  {
    if gs != [] && gs[0].priority != p && p >= gs[0].priority {
      InsertLcNonEmpty(gs[1..], p, lc);
      var r := InsertLc(gs, p, lc);
      assert r[1..] == InsertLc(gs[1..], p, lc);
    }
  }

  /** `lcIdsbyPrio`: the destination's requested channels keyed by priority, ascending. */
  method GroupByPriority(lcInfo: (u32, u8) -> LcInfo, dst: u32, lcs: seq<u8>) returns (gs: seq<LcGroup>)
    ensures SortedGroups(gs) && NonEmptyGroups(gs)
    ensures forall p :: Lookup(gs, p) == WithPriority(lcInfo, dst, lcs, p)
    ensures lcs != [] ==> gs != []
  {
    gs := [];
    var i := 0;
    while i < |lcs|
      invariant 0 <= i <= |lcs|
      invariant SortedGroups(gs) && NonEmptyGroups(gs)
      invariant forall p :: Lookup(gs, p) == WithPriority(lcInfo, dst, lcs[..i], p)
    {
      assert lcs[..i + 1][..i] == lcs[..i];
      InsertLcLookup(gs, lcInfo(dst, lcs[i]).priority, lcs[i]);
      InsertLcNonEmpty(gs, lcInfo(dst, lcs[i]).priority, lcs[i]);
      gs := InsertLc(gs, lcInfo(dst, lcs[i]).priority, lcs[i]);
      i := i + 1;
    }
    assert lcs[..i] == lcs;
    if lcs != [] {
      assert lcs[0] in WithPriority(lcInfo, dst, lcs, lcInfo(dst, lcs[0]).priority);
    }
  }

  // ---------------------------------------------------------------------------------
  // Scheduling type
  // ---------------------------------------------------------------------------------

  /** Number of channels configured for dynamic grants. */
  function CountDynamic(lcInfo: (u32, u8) -> LcInfo, dst: u32, lcs: seq<u8>): (n: nat)
    ensures n <= |lcs|
    ensures n > 0 <==> exists i :: 0 <= i < |lcs| && lcInfo(dst, lcs[i]).isDynamic
  {
    if lcs == [] then 0
    else
      var n' := CountDynamic(lcInfo, dst, lcs[..|lcs| - 1]);
      assert forall i :: 0 <= i < |lcs| - 1 ==> lcs[..|lcs| - 1][i] == lcs[i];
      n' + (if lcInfo(dst, lcs[|lcs| - 1]).isDynamic then 1 else 0)
  }

  /** Number of channels configured for SPS. */
  function CountSps(lcInfo: (u32, u8) -> LcInfo, dst: u32, lcs: seq<u8>): (n: nat)
    ensures n + CountDynamic(lcInfo, dst, lcs) == |lcs|
    ensures n > 0 <==> exists i :: 0 <= i < |lcs| && !lcInfo(dst, lcs[i]).isDynamic
  {
    if lcs == [] then 0
    else
      var n' := CountSps(lcInfo, dst, lcs[..|lcs| - 1]);
      assert forall i :: 0 <= i < |lcs| - 1 ==> lcs[..|lcs| - 1][i] == lcs[i];
      n' + (if lcInfo(dst, lcs[|lcs| - 1]).isDynamic then 0 else 1)
  }

  /** The rule deciding the grant type from the top-priority group: with several channels,
      SPS when `(prioToSps && nSps > 0) || (!prioToSps && nDyn == 0 && nSps > 0)`;
      with one channel, that channel's own type. */
  ghost predicate IsSchedulingTypeChoice(lcInfo: (u32, u8) -> LcInfo, dst: u32, top: seq<u8>, prioToSps: bool, dynamicGrant: bool)
    requires top != []
  {
    var nDyn, nSps := CountDynamic(lcInfo, dst, top), CountSps(lcInfo, dst, top);
    if |top| > 1 then
      !dynamicGrant <==> (prioToSps && nSps > 0) || (!prioToSps && nDyn == 0 && nSps > 0)
    else
      dynamicGrant == lcInfo(dst, top[0]).isDynamic
  }

  method ChooseSchedulingType(lcInfo: (u32, u8) -> LcInfo, dst: u32, top: seq<u8>, prioToSps: bool)
    returns (dynamicGrant: bool)
    requires top != []
    ensures IsSchedulingTypeChoice(lcInfo, dst, top, prioToSps, dynamicGrant)
  {
    dynamicGrant := true;
    if |top| > 1 {
      var nDynLcs, nSpsLcs := 0, 0;
      var i := 0;
      while i < |top|
        invariant 0 <= i <= |top|
        invariant nDynLcs == CountDynamic(lcInfo, dst, top[..i])
        invariant nSpsLcs == CountSps(lcInfo, dst, top[..i])
      {
        assert top[..i + 1][..i] == top[..i];
        if lcInfo(dst, top[i]).isDynamic {
          nDynLcs := nDynLcs + 1;
        } else {
          nSpsLcs := nSpsLcs + 1;
        }
        i := i + 1;
      }
      assert top[..i] == top;
      if (prioToSps && nSpsLcs > 0) || (!prioToSps && nDynLcs == 0 && nSpsLcs > 0) {
        dynamicGrant := false;
      }
    } else {
      dynamicGrant := lcInfo(dst, top[0]).isDynamic;
    }
  }

  /** Whatever the rule chooses, the top-priority group holds a channel of that type, so the
      type filter never empties the top group. */
  lemma ChosenTypePresent(lcInfo: (u32, u8) -> LcInfo, dst: u32, top: seq<u8>, prioToSps: bool, dynamicGrant: bool)
    requires top != [] && IsSchedulingTypeChoice(lcInfo, dst, top, prioToSps, dynamicGrant)
    ensures exists i :: 0 <= i < |top| && lcInfo(dst, top[i]).isDynamic == dynamicGrant
  {
    var nDyn, nSps := CountDynamic(lcInfo, dst, top), CountSps(lcInfo, dst, top);
    if |top| == 1 {
      assert lcInfo(dst, top[0]).isDynamic == dynamicGrant;
    } else if dynamicGrant {
      assert nDyn > 0;
    } else {
      assert nSps > 0;
    }
  }
}
