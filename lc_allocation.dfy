/**
 * Step 2.2 of `LogicalChannelPrioritization`: sharing the transport block among the queued
 * groups of logical channels, front to back. Every channel of a group is granted the same
 * number of bytes: the group's smallest buffer, or an equal part of the room left in the
 * block (less a five-byte margin) when the smallest buffers do not all fit. A group whose
 * share comes to zero ends the allocation. The room left and the running total are uint32.
 */
module LcAllocation {
  import opened Ints
  import opened SchedulerTypes
  import opened Seqs

  /** The smallest buffer among the channels; `U32_MAX` for none. */
  function MinBuffer(lcInfo: (u32, u8) -> LcInfo, dst: u32, lcs: seq<u8>): (r: u32)
  {
    if lcs == [] then U32_MAX
    else
      var m := MinBuffer(lcInfo, dst, lcs[..|lcs| - 1]);
      var b := lcInfo(dst, lcs[|lcs| - 1]).bufferSize;
      if b < m then b else m
  }

  /** `MinBuffer` is the least buffer among the channels, and no more than `U32_MAX`. */
  lemma {:induction false} MinBufferIsMinimum(lcInfo: (u32, u8) -> LcInfo, dst: u32, lcs: seq<u8>)
    ensures forall l :: l in lcs ==> MinBuffer(lcInfo, dst, lcs) <= lcInfo(dst, l).bufferSize
    ensures lcs != [] ==> exists l :: l in lcs && MinBuffer(lcInfo, dst, lcs) == lcInfo(dst, l).bufferSize
  {
    if lcs != [] {
      var init := lcs[..|lcs| - 1];
      MinBufferIsMinimum(lcInfo, dst, init);
      var last := lcs[|lcs| - 1];
      assert lcs == init + [last];
      if init == [] || lcInfo(dst, last).bufferSize < MinBuffer(lcInfo, dst, init) {
        assert last in lcs;
        assert MinBuffer(lcInfo, dst, lcs) == lcInfo(dst, last).bufferSize;
      } else {
        var l :| l in init && MinBuffer(lcInfo, dst, init) == lcInfo(dst, l).bufferSize;
        assert l in lcs;
        assert MinBuffer(lcInfo, dst, lcs) == lcInfo(dst, l).bufferSize;
      }
    }
  }

  /** The room the block has left for data: `candResoTbSize - allocatedSize - 5`, in uint32. */
  function Room(tbSize: u32, used: u32): (r: u32)
  {
    SubU32(SubU32(tbSize, used), TB_MARGIN)
  }

  /** `toServeBufferSize`: the bytes each channel of the group is granted. */
  function Share(lcInfo: (u32, u8) -> LcInfo, dst: u32, lcs: seq<u8>, tbSize: u32, used: u32): (r: u32)
  {
    var m := MinBuffer(lcInfo, dst, lcs);
    var room := Room(tbSize, used);
    if lcs != [] && |lcs| * m > room then room / |lcs| else m
  }

  /** A share is no more than the group's smallest buffer, and the whole group's grant fits the
      room left; it is the smallest buffer itself whenever that fits. */
  lemma ShareBounds(lcInfo: (u32, u8) -> LcInfo, dst: u32, lcs: seq<u8>, tbSize: u32, used: u32)
    ensures Share(lcInfo, dst, lcs, tbSize, used) <= MinBuffer(lcInfo, dst, lcs)
    ensures lcs != [] ==> |lcs| * Share(lcInfo, dst, lcs, tbSize, used) <= Room(tbSize, used)
    ensures |lcs| * MinBuffer(lcInfo, dst, lcs) <= Room(tbSize, used) ==>
              Share(lcInfo, dst, lcs, tbSize, used) == MinBuffer(lcInfo, dst, lcs)
  {
    var m := MinBuffer(lcInfo, dst, lcs);
    var room := Room(tbSize, used);
    if |lcs| * m > room {
      var n := |lcs|;
      assert n * (room / n) <= room;
      if room / n > m {
        MulMonotone(n, m, room / n);
      }
    }
  }

  lemma MulSucc(n: nat, a: nat)
    ensures (n + 1) * a == n * a + a
  {
  }

  lemma MulMonotone(n: nat, a: nat, b: nat)
    requires a <= b
    ensures n * a <= n * b
  {
  }

  /** The grants of one group: each channel, in queue order, with the same share. */
  function Grants(lcs: seq<u8>, share: u32): (r: seq<SlRlcPduInfo>)
    ensures |r| == |lcs|
    ensures forall i :: 0 <= i < |r| ==> r[i] == SlRlcPduInfo(lcs[i], share)
  {
    if lcs == [] then [] else Grants(lcs[..|lcs| - 1], share) + [SlRlcPduInfo(lcs[|lcs| - 1], share)]
  }

  /** The allocation's result: the grants and `allocatedSize`. */
  datatype Allocation = Allocation(pdus: seq<SlRlcPduInfo>, allocatedSize: u32)

  /** `allocatedSize` after adding the share once per channel of the group, in uint32. */
  function AddShares(used: u32, count: nat, share: u32): (r: u32)
  {
    if count == 0 then used else AddU32(AddShares(used, count - 1, share), share)
  }

  /** Shares that fit in uint32 add up without wrapping. */
  lemma {:induction false} AddSharesNoWrap(used: u32, count: nat, share: u32)
    requires used + count * share < TWO_TO_THE_32
    ensures AddShares(used, count, share) == used + count * share
  {
    if count > 0 {
      MulSucc(count - 1, share);
      AddSharesNoWrap(used, count - 1, share);
    }
  }

  /** The allocation loop over what is left of the queue. */
  function AllocWalk(lcInfo: (u32, u8) -> LcInfo, dst: u32, queue: seq<seq<u8>>, tbSize: u32, used: u32): (r: Allocation)
    decreases |queue|
  {
    if queue == [] then Allocation([], used)
    else
      var share := Share(lcInfo, dst, queue[0], tbSize, used);
      if share == 0 then Allocation([], used)
      else
        var rest := AllocWalk(lcInfo, dst, queue[1..], tbSize, AddShares(used, |queue[0]|, share));
        Allocation(Grants(queue[0], share) + rest.pdus, rest.allocatedSize)
  }

  /** The first inner loop: the group's smallest buffer. */
  method GroupMinBuffer(lcInfo: (u32, u8) -> LcInfo, dst: u32, lcs: seq<u8>) returns (minBufferSize: u32)
    ensures minBufferSize == MinBuffer(lcInfo, dst, lcs)
  {
    minBufferSize := U32_MAX;
    var k := 0;
    while k < |lcs|
      invariant 0 <= k <= |lcs|
      invariant minBufferSize == MinBuffer(lcInfo, dst, lcs[..k])
    {
      assert lcs[..k + 1][..k] == lcs[..k];
      if lcInfo(dst, lcs[k]).bufferSize < minBufferSize {
        minBufferSize := lcInfo(dst, lcs[k]).bufferSize;
      }
      k := k + 1;
    }
    assert lcs[..k] == lcs;
  }

  /** The second inner loop: one grant per channel of the group, each adding the share to
      `allocatedSize` in uint32. */
  method GrantGroup(lcs: seq<u8>, share: u32, pdus0: seq<SlRlcPduInfo>, used: u32)
    returns (pdus: seq<SlRlcPduInfo>, allocatedSize: u32)
    ensures pdus == pdus0 + Grants(lcs, share)
    ensures allocatedSize == AddShares(used, |lcs|, share)
  {
    pdus, allocatedSize := pdus0, used;
    var k := 0;
    while k < |lcs|
      invariant 0 <= k <= |lcs|
      invariant pdus == pdus0 + Grants(lcs[..k], share)
      invariant allocatedSize == AddShares(used, k, share)
    {
      assert lcs[..k + 1][..k] == lcs[..k];
      pdus := pdus + [SlRlcPduInfo(lcs[k], share)];
      allocatedSize := AddU32(allocatedSize, share);
      k := k + 1;
    }
    assert lcs[..k] == lcs;
  }

  /** The allocation loop: the grants are appended to `allocatedRlcPdus`. */
  method AllocateToGroups(lcInfo: (u32, u8) -> LcInfo, dst: u32, allocQueue: seq<seq<u8>>, candResoTbSize: u32)
    returns (pdus: seq<SlRlcPduInfo>, allocatedSize: u32)
    ensures Allocation(pdus, allocatedSize) == AllocWalk(lcInfo, dst, allocQueue, candResoTbSize, 0)
  {
    var queue := allocQueue;
    pdus, allocatedSize := [], 0;
    while |queue| > 0
      invariant AllocWalk(lcInfo, dst, allocQueue, candResoTbSize, 0).pdus
             == pdus + AllocWalk(lcInfo, dst, queue, candResoTbSize, allocatedSize).pdus
      invariant AllocWalk(lcInfo, dst, allocQueue, candResoTbSize, 0).allocatedSize
             == AllocWalk(lcInfo, dst, queue, candResoTbSize, allocatedSize).allocatedSize
      decreases |queue|
    {
      var front := queue[0];
      var minBufferSize := GroupMinBuffer(lcInfo, dst, front);
      var toServeBufferSize := minBufferSize;
      var room := Room(candResoTbSize, allocatedSize);
      if |front| * toServeBufferSize > room {
        toServeBufferSize := room / |front|;
      }
      assert toServeBufferSize == Share(lcInfo, dst, front, candResoTbSize, allocatedSize);
      if toServeBufferSize == 0 {
        break;
      }
      ghost var rest := AllocWalk(lcInfo, dst, queue[1..], candResoTbSize, AddShares(allocatedSize, |front|, toServeBufferSize));
      ghost var before := pdus;
      pdus, allocatedSize := GrantGroup(front, toServeBufferSize, pdus, allocatedSize);
      ConcatAssoc(before, Grants(front, toServeBufferSize), rest.pdus);
      queue := queue[1..];
    }
  }

  // ---------------------------------------------------------------------------------
  // What the allocation achieves
  // ---------------------------------------------------------------------------------

  /** Total bytes granted. */
  function Granted(pdus: seq<SlRlcPduInfo>): (r: nat)
  {
    if pdus == [] then 0 else Granted(pdus[..|pdus| - 1]) + pdus[|pdus| - 1].size
  }

  lemma {:induction false} GrantedAppend(a: seq<SlRlcPduInfo>, b: seq<SlRlcPduInfo>)
    ensures Granted(a + b) == Granted(a) + Granted(b)
    decreases |b|
  {
    if b != [] {
      var b' := b[..|b| - 1];
      assert (a + b)[..|a + b| - 1] == a + b';
      assert (a + b)[|a + b| - 1] == b[|b| - 1];
      GrantedAppend(a, b');
      assert Granted(a + b) == Granted(a + b') + b[|b| - 1].size;
    } else {
      assert a + b == a;
    }
  }

  lemma {:induction false} GrantedGrants(lcs: seq<u8>, share: u32)
    ensures Granted(Grants(lcs, share)) == |lcs| * share
    decreases |lcs|
  {
    if lcs != [] {
      var init := lcs[..|lcs| - 1];
      GrantedGrants(init, share);
      var g := Grants(lcs, share);
      assert g[..|lcs| - 1] == Grants(init, share);
      assert Granted(g) == Granted(Grants(init, share)) + share;
      MulSucc(|init|, share);
    }
  }

  /** l is one of the queued channels. */
  ghost predicate Queued(queue: seq<seq<u8>>, l: u8)
  {
    exists j :: 0 <= j < |queue| && l in queue[j]
  }

  /** Every grant is positive, no more than the buffer of the channel it goes to, and goes to a
      queued channel. */
  ghost predicate GrantsFitBuffers(lcInfo: (u32, u8) -> LcInfo, dst: u32, queue: seq<seq<u8>>, pdus: seq<SlRlcPduInfo>)
  {
    forall i :: 0 <= i < |pdus| ==>
      0 < pdus[i].size <= lcInfo(dst, pdus[i].lcid).bufferSize && Queued(queue, pdus[i].lcid)
  }

  /** The front group's grants fit their channels' buffers. */
  lemma FrontGrantsFit(lcInfo: (u32, u8) -> LcInfo, dst: u32, queue: seq<seq<u8>>, share: u32)
    requires queue != [] && 0 < share <= MinBuffer(lcInfo, dst, queue[0])
    ensures GrantsFitBuffers(lcInfo, dst, queue, Grants(queue[0], share))
  {
    MinBufferIsMinimum(lcInfo, dst, queue[0]);
    var g := Grants(queue[0], share);
    forall i | 0 <= i < |g|
      ensures 0 < g[i].size <= lcInfo(dst, g[i].lcid).bufferSize && Queued(queue, g[i].lcid)
    {
      assert queue[0][i] in queue[0];
    }
  }

  /** Grants that fit the rest of the queue fit the whole queue, and fitting grants concatenate. */
  lemma GrantsFitAppend(lcInfo: (u32, u8) -> LcInfo, dst: u32, queue: seq<seq<u8>>, g: seq<SlRlcPduInfo>, rest: seq<SlRlcPduInfo>)
    requires queue != []
    requires GrantsFitBuffers(lcInfo, dst, queue, g)
    requires GrantsFitBuffers(lcInfo, dst, queue[1..], rest)
    ensures GrantsFitBuffers(lcInfo, dst, queue, g + rest)
  {
    forall r | 0 <= r < |rest|
      ensures Queued(queue, rest[r].lcid)
    {
      var j :| 0 <= j < |queue[1..]| && rest[r].lcid in queue[1..][j];
      assert queue[1..][j] == queue[j + 1];
    }
    var pdus := g + rest;
    forall i | 0 <= i < |pdus|
      ensures 0 < pdus[i].size <= lcInfo(dst, pdus[i].lcid).bufferSize && Queued(queue, pdus[i].lcid)
    {
      if i >= |g| {
        assert pdus[i] == rest[i - |g|];
      }
    }
  }

  /** No grant exceeds the buffer of the channel it goes to, none is zero, and every granted
      channel comes from the queue. */
  lemma {:induction false} AllocWalkGrantsFitBuffers(lcInfo: (u32, u8) -> LcInfo, dst: u32, queue: seq<seq<u8>>, tbSize: u32, used: u32)
    ensures GrantsFitBuffers(lcInfo, dst, queue, AllocWalk(lcInfo, dst, queue, tbSize, used).pdus)
    decreases |queue|
  {
    if queue != [] {
      var share := Share(lcInfo, dst, queue[0], tbSize, used);
      if share != 0 {
        var next := AddShares(used, |queue[0]|, share);
        AllocWalkGrantsFitBuffers(lcInfo, dst, queue[1..], tbSize, next);
        ShareBounds(lcInfo, dst, queue[0], tbSize, used);
        FrontGrantsFit(lcInfo, dst, queue, share);
        GrantsFitAppend(lcInfo, dst, queue, Grants(queue[0], share), AllocWalk(lcInfo, dst, queue[1..], tbSize, next).pdus);
      }
    }
  }

  /** One group's step with room for the margin: the running total grows by exactly the
      group's grants and still leaves the margin free. */
  lemma GroupWithinBlock(lcInfo: (u32, u8) -> LcInfo, dst: u32, lcs: seq<u8>, tbSize: u32, used: u32)
    requires used as int + TB_MARGIN as int <= tbSize as int
    ensures var share := Share(lcInfo, dst, lcs, tbSize, used);
      var next := AddShares(used, |lcs|, share);
      && next == used + Granted(Grants(lcs, share))
      && next + TB_MARGIN <= tbSize
  {
    var share := Share(lcInfo, dst, lcs, tbSize, used);
    var product := |lcs| * share;
    ShareBounds(lcInfo, dst, lcs, tbSize, used);
    assert Room(tbSize, used) == tbSize - used - TB_MARGIN;
    assert used + product + TB_MARGIN <= tbSize;
    AddSharesNoWrap(used, |lcs|, share);
    GrantedGrants(lcs, share);
  }

  /** With room for the margin, the bytes granted fit the transport block less the margin, and
      the running total does not wrap: it is the number of bytes granted. */
  lemma {:induction false} AllocWalkWithinBlock(lcInfo: (u32, u8) -> LcInfo, dst: u32, queue: seq<seq<u8>>, tbSize: u32, used: u32)
    requires used as int + TB_MARGIN as int <= tbSize as int
    ensures var a := AllocWalk(lcInfo, dst, queue, tbSize, used);
      && a.allocatedSize == used + Granted(a.pdus)
      && a.allocatedSize + TB_MARGIN <= tbSize
    decreases |queue|
  {
    if queue != [] {
      var share := Share(lcInfo, dst, queue[0], tbSize, used);
      if share != 0 {
        var g := Grants(queue[0], share);
        var next := AddShares(used, |queue[0]|, share);
        GroupWithinBlock(lcInfo, dst, queue[0], tbSize, used);
        AllocWalkWithinBlock(lcInfo, dst, queue[1..], tbSize, next);
        var rest := AllocWalk(lcInfo, dst, queue[1..], tbSize, next);
        assert AllocWalk(lcInfo, dst, queue, tbSize, used) == Allocation(g + rest.pdus, rest.allocatedSize);
        GrantedAppend(g, rest.pdus);
      }
    }
  }

  /** A block smaller than the margin: a transport block of zero bytes and one channel with 100
      bytes buffered. The room `0 - 0 - 5` wraps to 2^32 - 5, so the channel is granted all of
      its 100 bytes. */
  function HundredBytes(d: u32, l: u8): (r: LcInfo)
  {
    LcInfo(0, true, 0, 100, false, Unicast, 0)
  }

  lemma EmptyBlockGrantsBuffer()
    ensures AllocWalk(HundredBytes, 7, [[3]], 0, 0) == Allocation([SlRlcPduInfo(3, 100)], 100)
  {
    assert MinBuffer(HundredBytes, 7, [3]) == 100 by {
      assert [3][..0] == [];
    }
    assert Room(0, 0) == TWO_TO_THE_32 - 5;
    assert Share(HundredBytes, 7, [3], 0, 0) == 100;
    assert [[3]][1..] == [];
    assert Grants([3], 100) == [SlRlcPduInfo(3, 100)];
  }
}
