/**
  The virtqueue of the disk driver (kernel/virtio_disk.c, kernel/virtio.h; virtio 1.1, sections 2.6 and 5.2) as a
  value: descriptors, rings, and for each request in flight how far it has got.
 */
module DiskQueue {
  const NUM: nat := 8

  const F_NEXT: bv2 := 1
  const F_WRITE: bv2 := 2

  /** What a descriptor points to: a command header, a buffer's data, a status byte. */
  datatype Ptr = Null | OpPtr(i: nat) | DataPtr(b: nat) | StatusPtr(i: nat)

  datatype Desc = Desc(addr: Ptr, len: nat, flags: bv2, next: nat)

  const ZeroDesc := Desc(Null, 0, 0, 0)

  datatype Op = Op(write: bool, sector: nat)

  /** info[i]: the buffer, 0 if none, and the status byte. */
  datatype Info = Info(b: nat, status: nat)

  /** Waiting in the avail ring, with the device, finished in the used ring, seen by the interrupt handler. */
  datatype Phase = Waiting | Fetched | Done | Seen

  /** A request in flight: its second and third descriptors, what was asked for, how far it is. */
  datatype Chain = Chain(i1: nat, i2: nat, b: nat, write: bool, blockno: nat, phase: Phase)

  type Chains = map<nat, Chain>

  /** The driver's and the device's shared memory, with the 16-bit indices as counts that never wrap. */
  datatype Q = Q(
    free: seq<bool>, desc: seq<Desc>, ops: seq<Op>, info: seq<Info>, busy: set<nat>,
    avail: seq<nat>, used: seq<nat>, availCount: nat, fetchedCount: nat, usedCount: nat, seenCount: nat,
    chains: Chains, owner: map<nat, nat>, waiting: seq<nat>, done: seq<nat>)

  ghost predicate Shape(q: Q) {
    && |q.free| == |q.desc| == |q.ops| == |q.info| == |q.avail| == |q.used| == NUM
    && q.availCount == q.fetchedCount + |q.waiting| && q.usedCount == q.seenCount + |q.done|
  }

  // ---------- what the device is asked ----------

  /** The chain that starts at descriptor h, as a device that follows flags and links reads it. */
  function Walk(desc: seq<Desc>, h: nat, fuel: nat): seq<Desc>
    requires |desc| == NUM
    decreases fuel
  {
    if fuel == 0 || h >= NUM then []
    else [desc[h]] + if desc[h].flags & F_NEXT != 0 then Walk(desc, desc[h].next, fuel - 1) else []
  }

  /** Header, data and status in that order; the device may write the data on a read, and the status byte. */
  predicate AsksFor(q: Q, h: nat, b: nat, write: bool, blockno: nat)
    requires |q.desc| == |q.ops| == NUM
  {
    var c := Walk(q.desc, h, NUM);
    && |c| == 3
    && c[0].addr.OpPtr? && c[0].addr.i < NUM && q.ops[c[0].addr.i] == Op(write, blockno * 2) && c[0].len == 16
       && c[0].flags & F_WRITE == 0
    && c[1].addr == DataPtr(b) && c[1].len == 1024 && (c[1].flags & F_WRITE != 0 <==> !write)
    && c[2].addr == StatusPtr(h) && c[2].len == 1 && c[2].flags & F_WRITE != 0
  }

  // ---------- the invariant ----------

  /** The three descriptors of a request are its own, and say what was asked. */
  ghost predicate ChainOk(q: Q, h: nat)
    requires Shape(q) && h in q.chains
  {
    var c := q.chains[h];
    && h < NUM && c.i1 < NUM && c.i2 < NUM && h != c.i1 && h != c.i2 && c.i1 != c.i2
    && h in q.owner && q.owner[h] == h && c.i1 in q.owner && q.owner[c.i1] == h && c.i2 in q.owner && q.owner[c.i2] == h
    && q.desc[h] == Desc(OpPtr(h), 16, F_NEXT, c.i1)
    && q.desc[c.i1] == Desc(DataPtr(c.b), 1024, if c.write then F_NEXT else F_WRITE | F_NEXT, c.i2)
    && q.desc[c.i2] == Desc(StatusPtr(h), 1, F_WRITE, 0)
    && q.ops[h] == Op(c.write, c.blockno * 2)
    && q.info[h].b == c.b && c.b != 0 && (c.phase == Done || c.phase == Seen ==> q.info[h].status == 0)
    && (c.b in q.busy <==> c.phase != Seen)
  }

  /** A descriptor is free, and then zero, or belongs to one request. */
  ghost predicate DescOk(q: Q, d: nat)
    requires Shape(q) && d < NUM
  {
    && (q.free[d] <==> d !in q.owner) && (q.free[d] ==> q.desc[d] == ZeroDesc)
    && (d in q.owner ==>
          q.owner[d] in q.chains && (d == q.owner[d] || d == q.chains[q.owner[d]].i1 || d == q.chains[q.owner[d]].i2))
  }

  ghost predicate BufsApart(q: Q) {
    forall h, k :: h in q.chains && k in q.chains && q.chains[h].b == q.chains[k].b ==> h == k
  }

  ghost predicate NoDup(s: seq<nat>) { forall i, j :: 0 <= i < j < |s| ==> s[i] != s[j] }

  ghost predicate InPhase(q: Q, s: seq<nat>, phase: Phase) {
    && NoDup(s) && (forall k :: 0 <= k < |s| ==> s[k] in q.chains && q.chains[s[k]].phase == phase)
    && (forall h :: h in q.chains && q.chains[h].phase == phase ==> h in s)
  }

  /** The entries of a ring from count on are those of s. */
  predicate InRing(ring: seq<nat>, count: nat, s: seq<nat>)
    requires |ring| == NUM
  {
    forall k :: 0 <= k < |s| ==> Entry(ring, count + k) == s[k]
  }

  function Entry(ring: seq<nat>, i: nat): nat
    requires |ring| == NUM
  {
    ring[i % NUM]
  }

  ghost predicate Wf(q: Q) {
    && Shape(q) && BufsApart(q) && 0 !in q.busy
    && (forall h {:trigger ChainOk(q, h)} :: h in q.chains ==> ChainOk(q, h))
    && (forall d :: 0 <= d < NUM ==> DescOk(q, d))
    && (forall d :: d in q.owner ==> d < NUM)
    && InPhase(q, q.waiting, Waiting) && InRing(q.avail, q.fetchedCount, q.waiting)
    && InPhase(q, q.done, Done) && InRing(q.used, q.seenCount, q.done)
    && (forall b :: b in q.busy ==> exists h :: h in q.chains && q.chains[h].b == b)
  }

  /** Requests in flight never share a descriptor, nor have one that is free. */
  lemma ChainsDisjoint(q: Q, h: nat, k: nat)
    requires Wf(q) && h in q.chains && k in q.chains && h != k
    ensures {h, q.chains[h].i1, q.chains[h].i2} !! {k, q.chains[k].i1, q.chains[k].i2}
    ensures h < NUM && q.chains[h].i1 < NUM && q.chains[h].i2 < NUM && !q.free[h] && !q.free[q.chains[h].i1]
            && !q.free[q.chains[h].i2]
  {
    assert ChainOk(q, h) && ChainOk(q, k);
    assert DescOk(q, h) && DescOk(q, q.chains[h].i1) && DescOk(q, q.chains[h].i2);
  }

  /** The device reads from a request's descriptors exactly what the driver was asked to do. */
  lemma DeviceReads(q: Q, h: nat)
    requires Wf(q) && h in q.chains
    ensures AsksFor(q, h, q.chains[h].b, q.chains[h].write, q.chains[h].blockno)
  {
    assert ChainOk(q, h);
    var c := q.chains[h];
    FlagBits();
    assert Walk(q.desc, c.i2, NUM - 2) == [q.desc[c.i2]];
    assert Walk(q.desc, c.i1, NUM - 1) == [q.desc[c.i1], q.desc[c.i2]];
    assert Walk(q.desc, h, NUM) == [q.desc[h], q.desc[c.i1], q.desc[c.i2]];
  }

  lemma FlagBits()
    ensures F_NEXT & F_NEXT != 0 && (F_WRITE | F_NEXT) & F_NEXT != 0 && F_WRITE & F_NEXT == 0
    ensures F_NEXT & F_WRITE == 0 && (F_WRITE | F_NEXT) & F_WRITE != 0 && F_WRITE & F_WRITE != 0
  {
  }

  // ---------- counting ----------

  lemma NoDupWithout(s: seq<nat>, i: nat, n: nat)
    requires i < |s| && NoDup(s) && s[i] == n && forall k :: 0 <= k < |s| ==> s[k] <= n
    ensures var t := s[..i] + s[i + 1..]; NoDup(t) && |t| == |s| - 1 && forall k :: 0 <= k < |t| ==> t[k] < n
  {
    var t := s[..i] + s[i + 1..];
    forall k | 0 <= k < |t| ensures t[k] == s[if k < i then k else k + 1] {}
  }

  /** Numbers below n that are all different are at most n. */
  lemma {:induction false} AtMost(s: seq<nat>, n: nat)
    requires NoDup(s) && forall k :: 0 <= k < |s| ==> s[k] < n
    ensures |s| <= n
    decreases n
  {
    if |s| > 0 {
      assert s[0] < n;
      if i :| 0 <= i < |s| && s[i] == n - 1 {
        NoDupWithout(s, i, n - 1);
        AtMost(s[..i] + s[i + 1..], n - 1);
      } else {
        AtMost(s, n - 1);
      }
    }
  }

  /** A ring of eight entries addressed by a 16-bit counter: wrapping at 2^16 does not move the place. */
  lemma WrapHarmless(count: nat)
    ensures count % 0x1_0000 % NUM == count % NUM
  {
    var q := count / 0x1_0000;
    assert count == 8 * (8192 * q) + count % 0x1_0000;
  }

  /** Two 16-bit counters are equal exactly when the counts are, as long as the counts are close. */
  lemma WrapEqual(a: nat, b: nat)
    requires a <= b < a + 0x1_0000
    ensures a % 0x1_0000 == b % 0x1_0000 <==> a == b
  {
    var q, r := a / 0x1_0000, b / 0x1_0000;
    assert a == 0x1_0000 * q + a % 0x1_0000 && b == 0x1_0000 * r + b % 0x1_0000;
    assert b - a == 0x1_0000 * (r - q) + (b % 0x1_0000 - a % 0x1_0000);
  }

  lemma NextEntry(ring: seq<nat>, count: nat, s: seq<nat>, x: nat)
    requires |ring| == NUM && InRing(ring, count, s) && |s| < NUM
    ensures InRing(ring[(count + |s|) % NUM := x], count, s + [x])
  {
    var r := ring[(count + |s|) % NUM := x];
    forall k | 0 <= k < |s + [x]| ensures Entry(r, count + k) == (s + [x])[k] {
      if k < |s| {
        assert Entry(ring, count + k) == s[k];
        Close(count + k, count + |s|);
      }
    }
  }

  lemma Close(a: nat, b: nat)
    requires a < b < a + NUM
    ensures a % NUM != b % NUM
  {
  }

  lemma RestOfRing(ring: seq<nat>, count: nat, s: seq<nat>)
    requires |ring| == NUM && InRing(ring, count, s) && |s| > 0
    ensures Entry(ring, count) == s[0] && InRing(ring, count + 1, s[1..])
  {
    assert Entry(ring, count + 0) == s[0];
    forall k | 0 <= k < |s[1..]| ensures Entry(ring, count + 1 + k) == s[1..][k] {
      assert Entry(ring, count + (k + 1)) == s[k + 1];
    }
  }

  // ---------- the steps ----------

  /** What virtio_disk_rw does up to the notification, with three descriptors it has found free. */
  function Submitted(q: Q, i0: nat, i1: nat, i2: nat, b: nat, write: bool, blockno: nat): Q
    requires |q.free| == |q.desc| == |q.ops| == |q.info| == |q.avail| == NUM && i0 < NUM && i1 < NUM && i2 < NUM
  {
    Q(q.free[i0 := false][i1 := false][i2 := false],
      q.desc[i0 := Desc(OpPtr(i0), 16, F_NEXT, i1)]
            [i1 := Desc(DataPtr(b), 1024, if write then F_NEXT else F_WRITE | F_NEXT, i2)]
            [i2 := Desc(StatusPtr(i0), 1, F_WRITE, 0)],
      q.ops[i0 := Op(write, blockno * 2)], q.info[i0 := Info(b, 0xff)], q.busy + {b},
      q.avail[q.availCount % NUM := i0], q.used, q.availCount + 1, q.fetchedCount, q.usedCount, q.seenCount,
      q.chains[i0 := Chain(i1, i2, b, write, blockno, Waiting)],
      q.owner[i0 := i0][i1 := i0][i2 := i0], q.waiting + [i0], q.done)
  }

  ghost predicate ThreeFree(q: Q, i0: nat, i1: nat, i2: nat)
    requires Shape(q)
  {
    i0 < NUM && i1 < NUM && i2 < NUM && i0 != i1 && i0 != i2 && i1 != i2 && q.free[i0] && q.free[i1] && q.free[i2]
  }

  ghost predicate Unused(q: Q, b: nat) { b != 0 && b !in q.busy && forall h :: h in q.chains ==> q.chains[h].b != b }

  lemma FreeIsUnowned(q: Q, d: nat)
    requires Wf(q) && d < NUM && q.free[d]
    ensures d !in q.owner && d !in q.chains && d !in q.waiting && d !in q.done
    ensures forall h :: h in q.chains ==> q.chains[h].i1 != d && q.chains[h].i2 != d
  {
    assert DescOk(q, d);
    forall h | h in q.chains ensures h != d && q.chains[h].i1 != d && q.chains[h].i2 != d { assert ChainOk(q, h); }
  }

  lemma WaitingFits(q: Q, i0: nat)
    requires Wf(q) && i0 < NUM && i0 !in q.waiting
    ensures |q.waiting| < NUM
  {
    forall k | 0 <= k < |q.waiting| ensures q.waiting[k] < NUM { assert ChainOk(q, q.waiting[k]); }
    AtMost(q.waiting + [i0], NUM);
  }

  lemma SubmittedKeeps(q: Q, i0: nat, i1: nat, i2: nat, b: nat, write: bool, blockno: nat)
    requires Wf(q) && ThreeFree(q, i0, i1, i2) && Unused(q, b)
    ensures Wf(Submitted(q, i0, i1, i2, b, write, blockno))
  {
    hide InRing, ChainOk, DescOk;
    var r := Submitted(q, i0, i1, i2, b, write, blockno);
    FreeIsUnowned(q, i0);
    FreeIsUnowned(q, i1);
    FreeIsUnowned(q, i2);
    WaitingFits(q, i0);
    NextEntry(q.avail, q.fetchedCount, q.waiting, i0);
    forall h | h in r.chains ensures ChainOk(r, h) { SubmittedChain(q, i0, i1, i2, b, write, blockno, h); }
    forall d | 0 <= d < NUM ensures DescOk(r, d) { SubmittedDesc(q, i0, i1, i2, b, write, blockno, d); }
    forall x | x in r.busy ensures exists h :: h in r.chains && r.chains[h].b == x {
      if x == b { assert r.chains[i0].b == x; } else {
        var h :| h in q.chains && q.chains[h].b == x;
        assert r.chains[h].b == x;
      }
    }
    assert forall k :: 0 <= k < |q.waiting| ==> q.waiting[k] in q.chains;
    assert NoDup(r.waiting);
  }

  lemma SubmittedChain(q: Q, i0: nat, i1: nat, i2: nat, b: nat, write: bool, blockno: nat, h: nat)
    requires Wf(q) && ThreeFree(q, i0, i1, i2) && Unused(q, b)
             && h in Submitted(q, i0, i1, i2, b, write, blockno).chains
    ensures Shape(Submitted(q, i0, i1, i2, b, write, blockno))
            && ChainOk(Submitted(q, i0, i1, i2, b, write, blockno), h)
  {
    hide InRing, DescOk, InPhase;
    FreeIsUnowned(q, i0);
    FreeIsUnowned(q, i1);
    FreeIsUnowned(q, i2);
    if h != i0 { assert ChainOk(q, h); }
  }

  lemma SubmittedDesc(q: Q, i0: nat, i1: nat, i2: nat, b: nat, write: bool, blockno: nat, d: nat)
    requires Wf(q) && ThreeFree(q, i0, i1, i2) && Unused(q, b) && d < NUM
    ensures Shape(Submitted(q, i0, i1, i2, b, write, blockno)) && DescOk(Submitted(q, i0, i1, i2, b, write, blockno), d)
  {
    hide InRing, ChainOk, InPhase;
    FreeIsUnowned(q, i0);
    assert DescOk(q, d);
  }

  function WithPhase(q: Q, h: nat, phase: Phase): Chains
    requires h in q.chains
  {
    var c := q.chains[h];
    q.chains[h := Chain(c.i1, c.i2, c.b, c.write, c.blockno, phase)]
  }

  /** The device takes the next head from the avail ring. */
  function DeviceTook(q: Q): Q
    requires |q.waiting| > 0 && q.waiting[0] in q.chains
  {
    Q(q.free, q.desc, q.ops, q.info, q.busy, q.avail, q.used,
      q.availCount, q.fetchedCount + 1, q.usedCount, q.seenCount,
      WithPhase(q, q.waiting[0], Fetched), q.owner, q.waiting[1..], q.done)
  }

  /** The device finishes any request it has taken, with status 0, and says so in the used ring. */
  function DeviceFinished(q: Q, h: nat): Q
    requires |q.info| == |q.used| == NUM && h < NUM && h in q.chains
  {
    Q(q.free, q.desc, q.ops, q.info[h := Info(q.info[h].b, 0)], q.busy, q.avail, q.used[q.usedCount % NUM := h],
      q.availCount, q.fetchedCount, q.usedCount + 1, q.seenCount,
      WithPhase(q, h, Done), q.owner, q.waiting, q.done + [h])
  }

  /** The interrupt handler sees the oldest entry of the used ring. */
  function Completed(q: Q): Q
    requires |q.done| > 0 && q.done[0] in q.chains
  {
    Q(q.free, q.desc, q.ops, q.info, q.busy - {q.chains[q.done[0]].b}, q.avail, q.used,
      q.availCount, q.fetchedCount, q.usedCount, q.seenCount + 1,
      WithPhase(q, q.done[0], Seen), q.owner, q.waiting, q.done[1..])
  }

  /** The thread that asked frees the chain. */
  ghost function Retired(q: Q, h: nat): Q
    requires |q.free| == |q.desc| == |q.info| == NUM && h < NUM && h in q.chains && q.chains[h].i1 < NUM
             && q.chains[h].i2 < NUM
  {
    var c := q.chains[h];
    Q(q.free[h := true][c.i1 := true][c.i2 := true], q.desc[h := ZeroDesc][c.i1 := ZeroDesc][c.i2 := ZeroDesc], q.ops,
      q.info[h := Info(0, q.info[h].status)], q.busy, q.avail, q.used,
      q.availCount, q.fetchedCount, q.usedCount, q.seenCount,
      q.chains - {h}, q.owner - {h, c.i1, c.i2}, q.waiting, q.done)
  }

  // ---------- a request goes from one phase to the next ----------

  /** Request h has moved on to a phase; its status byte may have been set to 0, its buffer let go. */
  ghost predicate MovesOn(q: Q, r: Q, h: nat, phase: Phase)
    requires Shape(q) && Shape(r) && h in q.chains && h < NUM
  {
    && r.chains == WithPhase(q, h, phase) && r.desc == q.desc && r.ops == q.ops && r.owner == q.owner
       && r.free == q.free
    && (r.info == q.info || r.info == q.info[h := Info(q.info[h].b, 0)])
       && (phase == Done || phase == Seen ==> r.info[h].status == 0)
    && r.busy == (if phase == Seen then q.busy - {q.chains[h].b} else q.busy)
       && (phase != Seen ==> q.chains[h].phase != Seen)
  }

  lemma MovedChain(q: Q, r: Q, h: nat, phase: Phase, k: nat)
    requires Shape(q) && Shape(r) && BufsApart(q) && h in q.chains && ChainOk(q, h) && MovesOn(q, r, h, phase)
             && k in q.chains && ChainOk(q, k)
    ensures k in r.chains && ChainOk(r, k) && r.chains[k].b == q.chains[k].b
  {
  }

  lemma MovedOn(q: Q, r: Q, h: nat, phase: Phase)
    requires Wf(q) && Shape(r) && h in q.chains && h < NUM && MovesOn(q, r, h, phase)
    ensures BufsApart(r) && (forall k :: k in r.chains ==> ChainOk(r, k)) && (forall d :: 0 <= d < NUM ==> DescOk(r, d))
    ensures 0 !in r.busy && forall b :: b in r.busy ==> exists k :: k in r.chains && r.chains[k].b == b
  {
    hide InRing, InPhase, ChainOk;
    forall k | k in r.chains ensures ChainOk(r, k) && r.chains[k].b == q.chains[k].b { MovedChain(q, r, h, phase, k); }
    forall d | 0 <= d < NUM ensures DescOk(r, d) { assert DescOk(q, d); }
    forall b | b in r.busy ensures exists k :: k in r.chains && r.chains[k].b == b {
      var k :| k in q.chains && q.chains[k].b == b;
      assert r.chains[k].b == b;
    }
  }

  lemma PhaseKept(q: Q, r: Q, h: nat, to: Phase, s: seq<nat>, phase: Phase)
    requires h in q.chains && r.chains == WithPhase(q, h, to) && InPhase(q, s, phase) && q.chains[h].phase != phase
    ensures to != phase ==> InPhase(r, s, phase)
    ensures to == phase ==> InPhase(r, s + [h], phase) && h !in s
  {
    assert h !in s;
  }

  lemma PhaseLeft(q: Q, r: Q, to: Phase, s: seq<nat>, phase: Phase)
    requires |s| > 0 && InPhase(q, s, phase) && s[0] in q.chains && r.chains == WithPhase(q, s[0], to) && to != phase
    ensures InPhase(r, s[1..], phase)
  {
    forall h | h in r.chains && r.chains[h].phase == phase ensures h in s[1..] {
      assert h in s && h != s[0];
      var k :| 0 <= k < |s| && s[k] == h;
      assert s[1..][k - 1] == h;
    }
  }

  lemma TookKeeps(q: Q)
    requires Wf(q) && |q.waiting| > 0
    ensures q.waiting[0] in q.chains && q.waiting[0] == Entry(q.avail, q.fetchedCount) && Wf(DeviceTook(q))
  {
    hide InRing, ChainOk, DescOk, InPhase, BufsApart, Entry;
    var h := q.waiting[0];
    FirstIn(q, q.waiting, Waiting);
    RestOfRing(q.avail, q.fetchedCount, q.waiting);
    var r := DeviceTook(q);
    MovedOn(q, r, h, Fetched);
    PhaseLeft(q, r, Fetched, q.waiting, Waiting);
    PhaseKept(q, r, h, Fetched, q.done, Done);
  }

  lemma FirstIn(q: Q, s: seq<nat>, phase: Phase)
    requires Wf(q) && InPhase(q, s, phase) && |s| > 0
    ensures s[0] in q.chains && q.chains[s[0]].phase == phase && s[0] < NUM && ChainOk(q, s[0])
    ensures phase == Done ==> q.info[s[0]].status == 0
    ensures q.info[s[0]].b == q.chains[s[0]].b
  {
    hide InRing, DescOk, BufsApart;
    assert s[0] in q.chains;
    assert ChainOk(q, s[0]);
  }

  lemma FinishedKeeps(q: Q, h: nat)
    requires Wf(q) && h in q.chains && q.chains[h].phase == Fetched
    ensures h < NUM && Wf(DeviceFinished(q, h))
  {
    hide InRing, DescOk, InPhase, BufsApart, Entry;
    assert ChainOk(q, h);
    var r := DeviceFinished(q, h);
    PhaseKept(q, r, h, Done, q.waiting, Waiting);
    PhaseKept(q, r, h, Done, q.done, Done);
    DoneFits(q, h);
    NextEntry(q.used, q.seenCount, q.done, h);
    MovedOn(q, r, h, Done);
  }

  lemma DoneFits(q: Q, h: nat)
    requires Wf(q) && h < NUM && h !in q.done
    ensures |q.done| < NUM
  {
    hide InRing, DescOk, BufsApart;
    forall k | 0 <= k < |q.done| ensures q.done[k] < NUM { assert ChainOk(q, q.done[k]); }
    AtMost(q.done + [h], NUM);
  }

  /** A completion clears its own buffer and no other. */
  lemma CompletedKeeps(q: Q)
    requires Wf(q) && |q.done| > 0
    ensures q.done[0] in q.chains && q.done[0] == Entry(q.used, q.seenCount) && q.done[0] < NUM
            && q.info[q.done[0]].status == 0
    ensures Wf(Completed(q)) && q.info[q.done[0]].b == q.chains[q.done[0]].b
    ensures forall h ::
              h in q.chains && h != q.done[0] ==> (q.chains[h].b in Completed(q).busy <==> q.chains[h].b in q.busy)
  {
    hide InRing, ChainOk, DescOk, InPhase, BufsApart, Entry;
    var h := q.done[0];
    FirstIn(q, q.done, Done);
    RestOfRing(q.used, q.seenCount, q.done);
    var r := Completed(q);
    MovedOn(q, r, h, Seen);
    PhaseLeft(q, r, Seen, q.done, Done);
    PhaseKept(q, r, h, Seen, q.waiting, Waiting);
    OthersBusy(q, h);
  }

  lemma OthersBusy(q: Q, h: nat)
    requires BufsApart(q) && h in q.chains
    ensures forall k :: k in q.chains && k != h ==> q.chains[k].b != q.chains[h].b
  {
  }

  lemma RetiredKeeps(q: Q, h: nat)
    requires Wf(q) && h in q.chains && q.chains[h].phase == Seen
    ensures h < NUM && q.chains[h].i1 < NUM && q.chains[h].i2 < NUM && Wf(Retired(q, h))
  {
    hide InRing, DescOk, InPhase;
    assert ChainOk(q, h);
    var r := Retired(q, h);
    forall k | k in r.chains ensures ChainOk(r, k) { RetiredChain(q, h, k); }
    forall d | 0 <= d < NUM ensures DescOk(r, d) { RetiredDesc(q, h, d); }
    PhaseGone(q, r, h, q.waiting, Waiting);
    PhaseGone(q, r, h, q.done, Done);
    forall x | x in r.busy ensures exists k :: k in r.chains && r.chains[k].b == x {
      var k :| k in q.chains && q.chains[k].b == x;
      assert k != h;
      assert r.chains[k].b == x;
    }
  }

  lemma PhaseGone(q: Q, r: Q, h: nat, s: seq<nat>, phase: Phase)
    requires h in q.chains && q.chains[h].phase != phase && r.chains == q.chains - {h} && InPhase(q, s, phase)
    ensures InPhase(r, s, phase)
  {
  }

  lemma RetiredChain(q: Q, h: nat, k: nat)
    requires Wf(q) && h in q.chains && ChainOk(q, h) && k in q.chains && k != h
    ensures Shape(Retired(q, h)) && ChainOk(Retired(q, h), k)
  {
    hide InRing, DescOk, InPhase, BufsApart;
    assert ChainOk(q, k);
  }

  lemma RetiredDesc(q: Q, h: nat, d: nat)
    requires Wf(q) && h in q.chains && ChainOk(q, h) && d < NUM
    ensures Shape(Retired(q, h)) && DescOk(Retired(q, h), d)
  {
    hide InRing, InPhase, BufsApart;
    assert DescOk(q, d);
  }
}
