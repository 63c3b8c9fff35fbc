/**
  The code of kernel/virtio_disk.c that runs with vdisk_lock held, and the device as an environment that finishes
  the requests it has taken in any order.
 */
module VirtioDisk {
  import opened DiskQueue

  type uint16 = x: int | 0 <= x < 0x1_0000

  class Driver {
    var free: seq<bool>
    var desc: seq<Desc>
    var ops: seq<Op>
    var info: seq<Info>
    var busy: set<nat>        // buffers whose disk flag is set
    var avail: seq<nat>
    var availIdx: uint16
    var used: seq<nat>
    var deviceIdx: uint16     // used->idx, written by the device
    var usedIdx: uint16       // disk.used_idx
    var fetchIdx: uint16      // how far the device has read the avail ring
    ghost var q: Q

    ghost predicate Valid()
      reads this
    {
      && Wf(q) && q.free == free && q.desc == desc && q.ops == ops && q.info == info && q.busy == busy
         && q.avail == avail && q.used == used
      && availIdx == q.availCount % 0x1_0000 && deviceIdx == q.usedCount % 0x1_0000 && usedIdx == q.seenCount % 0x1_0000
      && fetchIdx == q.fetchedCount % 0x1_0000
    }

    constructor ()
      ensures Valid() && q.chains == map[] && forall d :: 0 <= d < NUM ==> free[d]
    {
      free, desc, ops := seq(NUM, _ => true), seq(NUM, _ => ZeroDesc), seq(NUM, _ => Op(false, 0));
      info, busy, avail, used := seq(NUM, _ => Info(0, 0)), {}, seq(NUM, _ => 0), seq(NUM, _ => 0);
      availIdx, deviceIdx, usedIdx, fetchIdx := 0, 0, 0, 0;
      q := Q(seq(NUM, _ => true), seq(NUM, _ => ZeroDesc), seq(NUM, _ => Op(false, 0)), seq(NUM, _ => Info(0, 0)), {},
             seq(NUM, _ => 0), seq(NUM, _ => 0),
             0, 0, 0, 0, map[], map[], [], []);
    }

    /** alloc_desc: the first free descriptor, no longer free; -1 exactly when there is none. */
    method AllocDesc() returns (i: int)
      requires |free| == NUM
      modifies `free
      ensures -1 <= i < NUM && |free| == NUM
      ensures i == -1 ==> free == old(free) && forall d :: 0 <= d < NUM ==> !free[d]
      ensures i >= 0 ==> old(free)[i] && free == old(free)[i := false] && forall d :: 0 <= d < i ==> !old(free)[d]
    {
      i := 0;
      while i < NUM
        invariant 0 <= i <= NUM && forall d :: 0 <= d < i ==> !free[d]
        modifies {}
      {
        if free[i] {
          break;
        }
        i := i + 1;
      }
      if i < NUM {
        free := free[i := false];
      } else {
        i := -1;
      }
    }

    /** free_desc, where neither of its panics can happen. */
    method FreeDesc(i: nat)
      requires |free| == |desc| == NUM && i < NUM && !free[i]
      modifies `free, `desc
      ensures free == old(free)[i := true] && desc == old(desc)[i := ZeroDesc]
    {
      desc := desc[i := ZeroDesc];
      free := free[i := true];
    }

    /** alloc3_desc: three different descriptors, or everything as it was because fewer than three were free. */
    method Alloc3Desc() returns (ok: bool, idx: seq<nat>)
      requires |free| == |desc| == NUM && forall d :: 0 <= d < NUM && free[d] ==> desc[d] == ZeroDesc
      modifies `free, `desc
      ensures desc == old(desc) && |free| == NUM && |idx| == 3
      ensures !ok ==> free == old(free) && forall a, b, c :: 0 <= a < b < c < NUM ==> !(free[a] && free[b] && free[c])
      ensures ok ==>
                idx[0] < NUM && idx[1] < NUM && idx[2] < NUM && idx[0] != idx[1] && idx[0] != idx[2] && idx[1] != idx[2]
                     && old(free)[idx[0]] && old(free)[idx[1]] && old(free)[idx[2]]
                     && free == old(free)[idx[0] := false][idx[1] := false][idx[2] := false]
    {
      idx := [0, 0, 0];
      var i := 0;
      while i < 3
        invariant i <= 3 && |idx| == 3 && |free| == NUM && desc == old(desc)
        invariant forall j :: 0 <= j < i ==> idx[j] < NUM && old(free)[idx[j]]
        invariant forall j, k :: 0 <= j < k < i ==> idx[j] < idx[k]
        invariant forall d ::
                    0 <= d < NUM ==>
                      (free[d] <==>
                         old(free)[d] && !(i > 0 && d == idx[0]) && !(i > 1 && d == idx[1]) && !(i > 2 && d == idx[2]))
        invariant i > 0 ==> forall d :: 0 <= d < idx[i - 1] ==> !free[d]
        modifies `free, `desc
      {
        var d := AllocDesc();
        if d < 0 {
          var j := 0;
          while j < i
            invariant j <= i && |free| == |desc| == NUM && desc == old(desc)
            invariant forall d :: 0 <= d < NUM ==>
                        (free[d] <==>
                           old(free)[d] && !(i > 0 && j <= 0 && d == idx[0]) && !(i > 1 && j <= 1 && d == idx[1]))
            modifies `free, `desc
          {
            FreeDesc(idx[j]);
            assert desc == old(desc);
            j := j + 1;
          }
          assert free == old(free);
          return false, idx;
        }
        idx := idx[i := d];
        i := i + 1;
      }
      assert free == old(free)[idx[0] := false][idx[1] := false][idx[2] := false];
      ok := true;
    }

    /** free_chain on a chain of three: all three are freed, none twice, and nothing else is touched. */
    method FreeChain(i: nat, ghost i1: nat, ghost i2: nat)
      requires |free| == |desc| == NUM && i < NUM && i1 < NUM && i2 < NUM && i != i1 && i != i2 && i1 != i2
      requires !free[i] && !free[i1] && !free[i2]
      requires desc[i].flags & F_NEXT != 0 && desc[i].next == i1 && desc[i1].flags & F_NEXT != 0 && desc[i1].next == i2
               && desc[i2].flags & F_NEXT == 0
      modifies `free, `desc
      ensures free == old(free)[i := true][i1 := true][i2 := true]
      ensures desc == old(desc)[i := ZeroDesc][i1 := ZeroDesc][i2 := ZeroDesc]
    {
      var at := i;
      ghost var n := 0;
      while true
        invariant 0 <= n <= 2 && at == (if n == 0 then i else if n == 1 then i1 else i2)
        invariant free ==
                    (if n == 0 then old(free)
                     else if n == 1 then old(free)[i := true] else old(free)[i := true][i1 := true])
        invariant desc ==
                    (if n == 0 then old(desc)
                     else if n == 1 then old(desc)[i := ZeroDesc] else old(desc)[i := ZeroDesc][i1 := ZeroDesc])
        decreases 3 - n
      {
        var flag, nxt := desc[at].flags, desc[at].next;
        FreeDesc(at);
        if flag & F_NEXT == 0 {
          break;
        }
        at := nxt;
        n := n + 1;
      }
    }

    /**
      virtio_disk_rw up to its wait: the request is in the avail ring with three descriptors of its own, or, if there
      were not enough, nothing has changed and the thread sleeps.
     */
    method Start(b: nat, write: bool, blockno: nat) returns (ok: bool, i0: nat, ghost i1: nat, ghost i2: nat)
      requires Valid() && Unused(q, b)
      modifies this
      ensures Valid() && Shape(old(q))
      ensures !ok ==> q == old(q) && forall x, y, z :: 0 <= x < y < z < NUM ==> !(free[x] && free[y] && free[z])
      ensures ok ==> ThreeFree(old(q), i0, i1, i2) && q == Submitted(old(q), i0, i1, i2, b, write, blockno)
      ensures ok ==> free == old(free)[i0 := false][i1 := false][i2 := false] && busy == old(busy) + {b}
      ensures ok ==> i0 !in old(q).chains && q.chains == old(q).chains[i0 := Chain(i1, i2, b, write, blockno, Waiting)]
      ensures ok ==> |avail| == |desc| == |ops| == NUM && AsksFor(q, i0, b, write, blockno)
      ensures ok ==> avail[old(availIdx) % NUM] == i0 && availIdx == (old(availIdx) + 1) % 0x1_0000
      ensures ok ==> q.waiting == old(q).waiting + [i0] && q.done == old(q).done
    {
      hide Wf, Submitted, AsksFor;
      ShapeOf(q);
      FreeZero(q);
      var idx;
      ok, idx := Alloc3Desc();
      i0, i1, i2 := idx[0], idx[1], idx[2];
      if ok {
        SubmittedKeeps(q, i0, i1, i2, b, write, blockno);
        SubmittedFields(q, i0, i1, i2, b, write, blockno);
        Format(idx, b, write, blockno);
        WrapHarmless(q.availCount);
        avail := avail[availIdx % NUM := idx[0]];
        NextCount(q.availCount);
        availIdx := (availIdx + 1) % 0x1_0000;
        FreeIsUnowned(q, i0);
        q := Submitted(q, i0, i1, i2, b, write, blockno);
        DeviceReads(q, i0);
      }
    }

    /** The three descriptors, the command header and the bookkeeping of one request. */
    method Format(idx: seq<nat>, b: nat, write: bool, blockno: nat)
      requires |desc| == |ops| == |info| == NUM && |idx| == 3 && idx[0] < NUM && idx[1] < NUM && idx[2] < NUM
               && idx[0] != idx[1]
      modifies `desc, `ops, `info, `busy
      ensures ops == old(ops)[idx[0] := Op(write, blockno * 2)] && info == old(info)[idx[0] := Info(b, 0xff)]
              && busy == old(busy) + {b}
      ensures desc == old(desc)[idx[0] := Desc(OpPtr(idx[0]), 16, F_NEXT, idx[1])]
                        [idx[1] := Desc(DataPtr(b), 1024, if write then F_NEXT else F_WRITE | F_NEXT, idx[2])]
                        [idx[2] := Desc(StatusPtr(idx[0]), 1, F_WRITE, 0)]
    {
      ops := ops[idx[0] := Op(write, blockno * 2)];
      desc := desc[idx[0] := Desc(OpPtr(idx[0]), 16, F_NEXT, idx[1])];
      var flags: bv2 := if write then 0 else F_WRITE;
      flags := flags | F_NEXT;
      OrNext();
      desc := desc[idx[1] := Desc(DataPtr(b), 1024, flags, idx[2])];
      info := info[idx[0] := Info(info[idx[0]].b, 0xff)];
      desc := desc[idx[2] := Desc(StatusPtr(idx[0]), 1, F_WRITE, 0)];
      busy := busy + {b};
      info := info[idx[0] := Info(b, info[idx[0]].status)];
    }

    /** virtio_disk_intr: every completion in the used ring clears the flag of its own buffer, and of no other. */
    method Intr()
      requires Valid()
      modifies this
      ensures Valid() && q.done == [] && q.chains.Keys == old(q).chains.Keys
      ensures forall h :: h in q.chains ==> q.chains[h].b == old(q).chains[h].b
      ensures forall h ::
                h in q.chains ==>
                  q.chains[h].phase == if old(q).chains[h].phase == Done then Seen else old(q).chains[h].phase
      ensures forall h ::
                h in q.chains ==>
                  (q.chains[h].b in busy <==> old(q).chains[h].phase != Done && old(q).chains[h].b in old(busy))
    {
      hide Wf, InRing, ChainOk, InPhase, Completed, Progress;
      ghost var q0 := q;
      ProgressStart(q);
      UsedClose(q);
      while usedIdx != deviceIdx
        invariant Valid() && Progress(q0, q) && (usedIdx != deviceIdx <==> |q.done| > 0)
        decreases |q.done|
      {
        ghost var was := q;
        ShapeOf(q);
        CompletedKeeps(q);
        WrapHarmless(q.seenCount);
        var id := used[usedIdx % NUM];
        assert info[id].status == 0;   // "virtio_disk_intr status" is unreachable
        var b := info[id].b;
        busy := busy - {b};
        usedIdx := (usedIdx + 1) % 0x1_0000;
        NextCount(q.seenCount);
        CompletedFields(q);
        q := Completed(q);
        ProgressNext(q0, was);
        UsedClose(q);
      }
      ProgressDone(q0, q);
    }

    /**
      The end of virtio_disk_rw, once the handler has cleared the buffer's flag: the request is gone, its three
      descriptors are zero and free for the next one, its buffer may be used again, and nothing else has changed.
     */
    method Finish(i0: nat)
      requires Valid() && i0 in q.chains && q.chains[i0].phase == Seen
      modifies this
      ensures Valid() && i0 < NUM && old(q).chains[i0].i1 < NUM && old(q).chains[i0].i2 < NUM
              && |old(q).free| == |old(q).desc| == |old(q).info| == NUM
      ensures q == Retired(old(q), i0)
      ensures i0 !in q.chains && forall h :: h in old(q).chains && h != i0 ==> h in q.chains
      ensures forall h :: h in q.chains ==> h in old(q).chains && q.chains[h] == old(q).chains[h]
      ensures var c := old(q).chains[i0];
              && free == old(free)[i0 := true][c.i1 := true][c.i2 := true]
              && desc == old(desc)[i0 := ZeroDesc][c.i1 := ZeroDesc][c.i2 := ZeroDesc]
              && !old(free)[i0] && !old(free)[c.i1] && !old(free)[c.i2]
              && Unused(q, c.b)
      ensures |info| == NUM && info[i0].b == 0 && forall k :: 0 <= k < NUM && k != i0 ==> info[k] == old(info)[k]
      ensures busy == old(busy) && ops == old(ops) && avail == old(avail) && used == old(used)
      ensures availIdx == old(availIdx) && usedIdx == old(usedIdx)
      ensures q.waiting == old(q).waiting && q.done == old(q).done
    {
      hide Wf, InRing, InPhase;
      ShapeOf(q);
      ghost var c := q.chains[i0];
      RetiredKeeps(q, i0);
      ghost var r := Retired(q, i0);
      ChainHeld(q, i0);
      BufferLetGo(q, i0);
      FlagBits();
      info := info[i0 := Info(0, info[i0].status)];
      FreeChain(i0, c.i1, c.i2);
      q := r;
    }

    /** The device fetches the next head. */
    method DeviceTake() returns (h: nat)
      requires Valid() && |q.waiting| > 0
      modifies `q, `fetchIdx
      ensures Valid() && h == old(q).waiting[0] && h in old(q).chains && q == DeviceTook(old(q))
      ensures q.waiting == old(q).waiting[1..] && q.chains == old(q).chains[h := old(q).chains[h].(phase := Fetched)]
      ensures |ops| == |desc| == NUM
              && AsksFor(q, h, old(q).chains[h].b, old(q).chains[h].write, old(q).chains[h].blockno)
    {
      hide Wf, InRing, ChainOk, InPhase, AsksFor;
      ShapeOf(q);
      TookKeeps(q);
      WrapHarmless(q.fetchedCount);
      h := avail[fetchIdx % NUM];
      fetchIdx := (fetchIdx + 1) % 0x1_0000;
      NextCount(q.fetchedCount);
      TookFields(q);
      q := DeviceTook(q);
      DeviceReads(q, h);
    }

    /** The device finishes some request it has taken: the status byte, then the used ring, then its index. */
    method DeviceFinish(h: nat)
      requires Valid() && h in q.chains && q.chains[h].phase == Fetched
      modifies this
      ensures Valid() && h < NUM && |old(q).info| == |old(q).used| == NUM && q == DeviceFinished(old(q), h)
      ensures q.done == old(q).done + [h] && q.chains == old(q).chains[h := old(q).chains[h].(phase := Done)]
      ensures |used| == |info| == NUM && used[old(deviceIdx) % NUM] == h && deviceIdx == (old(deviceIdx) + 1) % 0x1_0000
              && info[h].status == 0
    {
      hide Wf, InRing, ChainOk, InPhase;
      ShapeOf(q);
      FinishedKeeps(q, h);
      ghost var r := DeviceFinished(q, h);
      info := info[h := Info(info[h].b, 0)];
      WrapHarmless(q.usedCount);
      used := used[deviceIdx % NUM := h];
      deviceIdx := (deviceIdx + 1) % 0x1_0000;
      NextCount(q.usedCount);
      q := r;
    }
  }

  lemma ShapeOf(q: Q)
    requires Wf(q)
    ensures Shape(q)
  {
  }

  /** The descriptors of a finished request serve the next one: a request just after it never has to wait. */
  method FinishThenStart(d: Driver, i0: nat, b: nat, write: bool, blockno: nat)
    returns (ok: bool, j0: nat, ghost j1: nat, ghost j2: nat)
    requires d.Valid() && i0 in d.q.chains && d.q.chains[i0].phase == Seen
    requires Unused(d.q, b) || b == d.q.chains[i0].b
    modifies d
    ensures ok && d.Valid() && j0 in d.q.chains && d.q.chains[j0] == Chain(j1, j2, b, write, blockno, Waiting)
    ensures j0 != i0 ==> i0 !in d.q.chains
  {
    hide Wf, Submitted, AsksFor;
    ghost var c := d.q.chains[i0];
    ThreeApart(d.q, i0);
    d.Finish(i0);
    assert d.free[i0] && d.free[c.i1] && d.free[c.i2];
    ok, j0, j1, j2 := d.Start(b, write, blockno);
  }

  lemma ThreeApart(q: Q, h: nat)
    requires Wf(q) && h in q.chains
    ensures h < NUM && q.chains[h].i1 < NUM && q.chains[h].i2 < NUM
    ensures h != q.chains[h].i1 && h != q.chains[h].i2 && q.chains[h].i1 != q.chains[h].i2
  {
    assert ChainOk(q, h);
  }

  lemma SubmittedFields(q: Q, i0: nat, i1: nat, i2: nat, b: nat, write: bool, blockno: nat)
    requires Shape(q) && i0 < NUM && i1 < NUM && i2 < NUM
    ensures var r := Submitted(q, i0, i1, i2, b, write, blockno);
            r.free == q.free[i0 := false][i1 := false][i2 := false] && r.ops == q.ops[i0 := Op(write, blockno * 2)]
            && r.info == q.info[i0 := Info(b, 0xff)] && r.busy == q.busy + {b} && r.used == q.used
               && r.avail == q.avail[q.availCount % NUM := i0]
            && r.availCount == q.availCount + 1 && r.fetchedCount == q.fetchedCount && r.usedCount == q.usedCount
               && r.seenCount == q.seenCount
            && r.chains == q.chains[i0 := Chain(i1, i2, b, write, blockno, Waiting)]
            && r.waiting == q.waiting + [i0] && r.done == q.done
            && r.desc ==
                 q.desc[i0 := Desc(OpPtr(i0), 16, F_NEXT, i1)]
                       [i1 := Desc(DataPtr(b), 1024, if write then F_NEXT else F_WRITE | F_NEXT, i2)]
                               [i2 := Desc(StatusPtr(i0), 1, F_WRITE, 0)]
  {
  }

  lemma NextCount(n: nat)
    ensures (n % 0x1_0000 + 1) % 0x1_0000 == (n + 1) % 0x1_0000
  {
  }

  lemma OrNext()
    ensures 0 as bv2 | F_NEXT == F_NEXT
  {
  }

  lemma FreeZero(q: Q)
    requires Wf(q)
    ensures Shape(q) && forall d :: 0 <= d < NUM && q.free[d] ==> q.desc[d] == ZeroDesc
  {
    forall d | 0 <= d < NUM && q.free[d] ensures q.desc[d] == ZeroDesc { assert DescOk(q, d); }
  }

  lemma ChainHeld(q: Q, h: nat)
    requires Wf(q) && h in q.chains
    ensures ChainOk(q, h) && Shape(q) && !q.free[h] && !q.free[q.chains[h].i1] && !q.free[q.chains[h].i2]
  {
    hide InRing, InPhase;
    assert ChainOk(q, h);
    assert DescOk(q, h) && DescOk(q, q.chains[h].i1) && DescOk(q, q.chains[h].i2);
  }

  /** A request that the handler has seen is the only one for its buffer, and no longer keeps it busy. */
  lemma BufferLetGo(q: Q, h: nat)
    requires Wf(q) && h in q.chains && q.chains[h].phase == Seen
    ensures q.chains[h].b != 0 && q.chains[h].b !in q.busy
    ensures forall k :: k in q.chains && k != h ==> q.chains[k].b != q.chains[h].b
  {
    hide InRing, DescOk, InPhase;
    assert ChainOk(q, h);
  }

  /** The handler's 16-bit comparison says whether completions are left. */
  lemma UsedClose(q: Q)
    requires Wf(q)
    ensures q.seenCount % 0x1_0000 != q.usedCount % 0x1_0000 <==> |q.done| > 0
    ensures Shape(q)
  {
    hide InRing, DescOk, BufsApart;
    forall k | 0 <= k < |q.done| ensures q.done[k] < NUM { assert ChainOk(q, q.done[k]); }
    AtMost(q.done, NUM);
    WrapEqual(q.seenCount, q.usedCount);
  }

  lemma CompletedFields(q: Q)
    requires |q.done| > 0 && q.done[0] in q.chains
    ensures var r := Completed(q);
            r.free == q.free && r.desc == q.desc && r.ops == q.ops && r.info == q.info && r.avail == q.avail
            && r.used == q.used
            && r.busy == q.busy - {q.chains[q.done[0]].b} && r.availCount == q.availCount && r.usedCount == q.usedCount
               && r.seenCount == q.seenCount + 1
            && r.done == q.done[1..] && r.fetchedCount == q.fetchedCount
  {
  }

  lemma TookFields(q: Q)
    requires |q.waiting| > 0 && q.waiting[0] in q.chains
    ensures q.waiting[0] in DeviceTook(q).chains && DeviceTook(q).chains[q.waiting[0]].b == q.chains[q.waiting[0]].b
    ensures DeviceTook(q).chains[q.waiting[0]].write == q.chains[q.waiting[0]].write
            && DeviceTook(q).chains[q.waiting[0]].blockno == q.chains[q.waiting[0]].blockno
  {
  }

  /** What the handler has done so far: some finished requests are seen, the rest are as they were. */
  ghost predicate Progress(q0: Q, q: Q) {
    && q.chains.Keys == q0.chains.Keys
    && (forall h :: h in q.chains ==> h in q0.chains && q.chains[h].b == q0.chains[h].b)
    && (forall h ::
          h in q.chains ==>
            q.chains[h].phase == q0.chains[h].phase || (q.chains[h].phase == Seen && q0.chains[h].phase == Done))
    && (forall h :: h in q.chains ==>
         (q.chains[h].b in q.busy <==>
            q0.chains[h].b in q0.busy && !(q.chains[h].phase == Seen && q0.chains[h].phase == Done)))
  }

  lemma ProgressStart(q: Q)
    ensures Progress(q, q)
  {
  }

  lemma ProgressNext(q0: Q, q: Q)
    requires Wf(q) && Progress(q0, q) && |q.done| > 0 && q.done[0] in q.chains
    ensures Progress(q0, Completed(q))
  {
    hide InRing, DescOk, ChainOk;
    var r, h := Completed(q), q.done[0];
    assert q.chains[h].phase == Done;
    assert r.chains.Keys == q.chains.Keys;
    assert q0.chains[h].phase == Done;
  }

  lemma ProgressDone(q0: Q, q: Q)
    requires Wf(q) && Progress(q0, q) && q.done == []
    ensures q.chains.Keys == q0.chains.Keys && forall h :: h in q.chains ==> q.chains[h].b == q0.chains[h].b
    ensures forall h ::
              h in q.chains ==> q.chains[h].phase == if q0.chains[h].phase == Done then Seen else q0.chains[h].phase
    ensures forall h ::
              h in q.chains ==> (q.chains[h].b in q.busy <==> q0.chains[h].phase != Done && q0.chains[h].b in q0.busy)
  {
    hide InRing, DescOk, ChainOk, BufsApart;
    forall h | h in q.chains ensures q.chains[h].phase != Done {}
  }
}
