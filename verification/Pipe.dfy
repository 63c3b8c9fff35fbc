/**
  The pipe ring of kernel/pipe.c. Each method is one stretch of code that runs with the pipe's lock held, from
  taking it, or waking with it, to giving it up; readers and writers interleave between them.
 */
module Pipe {
  const PIPESIZE: nat := 512

  type byte = x: int | 0 <= x < 0x100
  type uint32 = x: int | 0 <= x < 0x1_0000_0000

  datatype Outcome = Sleeps | Returns(n: int)

  /** The bytes still in the pipe, by their places in the ring. */
  ghost predicate Holds(data: seq<byte>, accepted: seq<byte>, taken: seq<byte>)
    requires |data| == PIPESIZE
  {
    && taken <= accepted && |accepted| - |taken| <= PIPESIZE
    && forall k :: |taken| <= k < |accepted| ==> Slot(data, k) == accepted[k]
  }

  function Slot(data: seq<byte>, k: nat): byte
    requires |data| == PIPESIZE
  {
    data[k % PIPESIZE]
  }

  class Pipe {
    var data: seq<byte>
    var nread: uint32
    var nwrite: uint32
    var readopen: bool
    var writeopen: bool
    ghost var accepted: seq<byte>    // every byte ever put in
    ghost var taken: seq<byte>       // every byte ever taken out
    ghost var writers: set<nat>      // processes asleep on &nwrite
    ghost var readers: set<nat>      // processes asleep on &nread

    ghost predicate Valid()
      reads this
    {
      && |data| == PIPESIZE && Holds(data, accepted, taken)
      && nread == |taken| % 0x1_0000_0000 && nwrite == |accepted| % 0x1_0000_0000
      && (!readopen ==> readers == {}) && (!writeopen ==> writers == {})   // who sleeps has its end open
    }

    /** Nobody sleeps for something that has already come. */
    ghost predicate NoLostWakeup()
      reads this
    {
      && (writers != {} ==> |accepted| - |taken| == PIPESIZE && readopen)
      && (readers != {} ==> accepted == taken && writeopen)
    }

    constructor ()
      ensures Valid() && NoLostWakeup() && accepted == taken == [] && readopen && writeopen && readers == writers == {}
    {
      data, nread, nwrite, readopen, writeopen := seq(PIPESIZE, _ => 0), 0, 0, true, true;
      accepted, taken, writers, readers := [], [], {}, {};
    }

    /**
      pipewrite by process pr from its i-th byte on. Of the n bytes at its address only those in src can be copied in;
      it is killed, if ever, as seen by the kills-th test from here. A prefix of what was left goes in, in order.
     */
    method WriteTurn(pr: nat, src: seq<byte>, n: nat, i0: nat, kills: nat) returns (i: nat, out: Outcome)
      requires Valid() && writeopen && pr !in writers && i0 <= n && i0 <= |src|
      modifies this
      ensures Valid() && taken == old(taken) && readopen == old(readopen) && writeopen == old(writeopen)
      ensures i0 <= i <= n && i <= |src| && accepted == old(accepted) + src[i0..i]
      ensures writers == (if out.Sleeps? then old(writers) + {pr} else old(writers))
      ensures readers == if out == Returns(-1) then old(readers) else {}
      ensures i - i0 ==
                if !readopen then 0 else Min(Min(n - i0, |src| - i0), Min(kills, PIPESIZE - |old(accepted)| + |taken|))
      ensures out == if i == n then Returns(n)
                     else if !readopen || i - i0 == kills then Returns(-1)
                     else if |accepted| - |taken| == PIPESIZE then Sleeps
                     else Returns(i)
      ensures old(NoLostWakeup()) ==>
                (NoLostWakeup() <==>
                 !(old(readers) != {} && 0 < kills <= PIPESIZE && i0 + kills < n && i0 + kills <= |src|))
    {
      hide Holds, Slot;
      i := i0;
      var tests := 0;
      InRing(data, accepted, taken);
      while i < n
        invariant i0 <= i <= n && i <= |src| && Valid() && taken == old(taken) && accepted == old(accepted) + src[i0..i]
        invariant readopen == old(readopen) && writeopen == old(writeopen) && readers == old(readers)
                  && writers == old(writers)
        invariant |taken| <= |accepted| <= |taken| + PIPESIZE && tests == i - i0 <= kills && (!readopen ==> i == i0)
        decreases n - i
      {
        if !readopen || tests >= kills {
          return i, Returns(-1);
        }
        tests := tests + 1;
        FullTest(nread, nwrite, |taken|, |accepted|);
        if nwrite == (nread + PIPESIZE) % 0x1_0000_0000 {
          readers := {};
          writers := writers + {pr};
          return i, Sleeps;
        } else {
          if i >= |src| {
            break;   // copyin fails
          }
          Put(data, accepted, taken, src[i]);
          NextCount(|accepted|);
          WrapHarmless(|accepted|);
          data := data[nwrite % PIPESIZE := src[i]];
          nwrite := (nwrite + 1) % 0x1_0000_0000;
          assert src[i0..i + 1] == src[i0..i] + [src[i]];
          accepted := accepted + [src[i]];
          InRing(data, accepted, taken);
          i := i + 1;
        }
      }
      readers := {};
      out := Returns(i);
    }

    /**
      piperead by process pr of up to n bytes, of which the first room can be copied out. It sleeps on an empty pipe
      with a writer; otherwise it takes bytes in order. A byte whose copy fails is taken all the same.
     */
    method ReadTurn(pr: nat, n: nat, room: nat, killed: bool) returns (got: seq<byte>, out: Outcome)
      requires Valid() && readopen && pr !in readers
      modifies this
      ensures Valid() && accepted == old(accepted) && readopen == old(readopen) && writeopen == old(writeopen)
      ensures old(NoLostWakeup()) ==> NoLostWakeup()
      ensures readers == if out.Sleeps? then old(readers) + {pr} else old(readers)
      ensures writers == if out.Returns? && out.n != -1 then {} else old(writers)
      ensures out.Sleeps? <==> old(accepted) == old(taken) && writeopen && !killed
      ensures out.Sleeps? ==> got == [] && taken == old(taken)
      ensures out == Returns(-1) <==> old(accepted) == old(taken) && writeopen && killed
      ensures out == Returns(-1) ==> got == [] && taken == old(taken)
      ensures out.Returns? && out.n != -1 ==> out.n == |got| == Min(Min(n, room), |accepted| - |old(taken)|)
      ensures out.Returns? && out.n != -1 ==>
                && |taken| == |old(taken)| + |got| + (if room < n && room < |accepted| - |old(taken)| then 1 else 0)
                && taken <= accepted && old(taken) + got <= taken
    {
      got := [];
      EmptyTest(|taken|, |accepted|);
      if nread == nwrite && writeopen {
        if killed {
          return [], Returns(-1);
        }
        readers := readers + {pr};
        return [], Sleeps;
      }
      var i := 0;
      while i < n
        invariant i <= n && i == |got| && i <= room && Valid() && accepted == old(accepted) && taken == old(taken) + got
        invariant readopen == old(readopen) && writeopen == old(writeopen) && readers == old(readers)
                  && writers == old(writers)
      {
        EmptyTest(|taken|, |accepted|);
        if nread == nwrite {
          break;
        }
        Take(data, accepted, taken);
        NextCount(|taken|);
        WrapHarmless(|taken|);
        var ch := data[nread % PIPESIZE];
        nread := (nread + 1) % 0x1_0000_0000;
        taken := taken + [ch];
        if i >= room {
          break;   // copyout fails
        }
        got := got + [ch];
        i := i + 1;
      }
      writers := {};
      out := Returns(i);
    }

    /**
      pipeclose of one end; nobody can be asleep at that end. When both are closed the pipe is freed, with nobody in
      it.
     */
    method Close(writable: bool) returns (freed: bool)
      requires Valid() && if writable then writers == {} else readers == {}
      modifies this
      ensures Valid() && NoLostWakeup() && accepted == old(accepted) && taken == old(taken)
      ensures readers == writers == {} && writeopen == (old(writeopen) && !writable)
              && readopen == (old(readopen) && writable)
      ensures freed == !(readopen || writeopen)
    {
      if writable {
        writeopen := false;
        readers := {};
      } else {
        readopen := false;
        writers := {};
      }
      freed := !readopen && !writeopen;
    }

    /** kill of a process that is asleep here makes it runnable; it goes on with its next turn. */
    method Awaken(pr: nat)
      requires Valid()
      modifies `readers, `writers
      ensures Valid() && readers == old(readers) - {pr} && writers == old(writers) - {pr}
      ensures old(NoLostWakeup()) ==> NoLostWakeup()
    {
      readers, writers := readers - {pr}, writers - {pr};
    }

    /** Bytes come out in the order they went in: what was taken and what is in the ring make up what was accepted. */
    lemma Fifo()
      requires Valid()
      ensures accepted == taken + accepted[|taken|..] && |accepted[|taken|..]| <= PIPESIZE
      ensures forall k :: 0 <= k < |accepted[|taken|..]| ==> Slot(data, |taken| + k) == accepted[|taken|..][k]
    {
    }
  }

  lemma InRing(data: seq<byte>, accepted: seq<byte>, taken: seq<byte>)
    requires |data| == PIPESIZE && Holds(data, accepted, taken)
    ensures taken <= accepted && |accepted| <= |taken| + PIPESIZE
  {
  }

  function Min(a: int, b: int): int { if a < b then a else b }

  /** A reader sleeps on a new pipe; a writer is killed after its first byte; the reader sleeps on beside that byte. */
  method ReaderLeftAsleep(x: byte, y: byte) returns (p: Pipe)
    ensures fresh(p) && p.Valid() && !p.NoLostWakeup() && p.readers == {1} && p.writers == {}
    ensures p.accepted == [x] && p.taken == [] && p.readopen && p.writeopen
  {
    p := new Pipe();
    var got, out := p.ReadTurn(1, 1, 1, false);
    var i, r := p.WriteTurn(2, [x, y], 2, 0, 1);
    assert [x, y][0..1] == [x];
  }

  /** The next write wakes that reader, and the bytes come out in order. */
  method NextWriteWakes(x: byte, y: byte, z: byte) returns (p: Pipe, got: seq<byte>)
    ensures fresh(p) && p.Valid() && p.NoLostWakeup() && p.readers == {}
    ensures got == [x, z] && p.accepted == p.taken == [x, z]
  {
    p := ReaderLeftAsleep(x, y);
    var i, r := p.WriteTurn(3, [z], 1, 0, 1);
    assert [z][0..1] == [z] && p.accepted == [x, z] && p.readers == {};
    var out;
    got, out := p.ReadTurn(1, 2, 2, false);
  }

  // ---------- counters that wrap at 2^32 ----------

  lemma NextCount(n: nat)
    ensures (n % 0x1_0000_0000 + 1) % 0x1_0000_0000 == (n + 1) % 0x1_0000_0000
  {
  }

  lemma WrapHarmless(n: nat)
    ensures n % 0x1_0000_0000 % PIPESIZE == n % PIPESIZE
  {
    var q := n / 0x1_0000_0000;
    AddMultiple(0x80_0000 * q, n % 0x1_0000_0000);
  }

  lemma AddMultiple(m: nat, r: nat)
    ensures (512 * m + r) % 512 == r % 512
  {
  }

  /** The code's test for a full ring, on wrapped counters, is right. */
  lemma FullTest(r: uint32, w: uint32, t: nat, a: nat)
    requires r == t % 0x1_0000_0000 && w == a % 0x1_0000_0000 && t <= a <= t + PIPESIZE
    ensures w == (r + PIPESIZE) % 0x1_0000_0000 <==> a == t + PIPESIZE
  {
    var q, p := t / 0x1_0000_0000, a / 0x1_0000_0000;
    assert t == 0x1_0000_0000 * q + r && a == 0x1_0000_0000 * p + w;
    assert a - t == 0x1_0000_0000 * (p - q) + w - r;
  }

  /** And so is its test for an empty one. */
  lemma EmptyTest(t: nat, a: nat)
    requires t <= a <= t + PIPESIZE
    ensures t % 0x1_0000_0000 == a % 0x1_0000_0000 <==> a == t
  {
    var q, p := t / 0x1_0000_0000, a / 0x1_0000_0000;
    assert t == 0x1_0000_0000 * q + t % 0x1_0000_0000 && a == 0x1_0000_0000 * p + a % 0x1_0000_0000;
    assert a - t == 0x1_0000_0000 * (p - q) + (a % 0x1_0000_0000 - t % 0x1_0000_0000);
  }

  lemma Apart(j: nat, k: nat)
    requires j < k < j + PIPESIZE
    ensures j % PIPESIZE != k % PIPESIZE
  {
  }

  lemma Put(data: seq<byte>, accepted: seq<byte>, taken: seq<byte>, b: byte)
    requires |data| == PIPESIZE && Holds(data, accepted, taken) && |accepted| < |taken| + PIPESIZE
    ensures Holds(data[|accepted| % PIPESIZE := b], accepted + [b], taken)
  {
    var d := data[|accepted| % PIPESIZE := b];
    forall k | |taken| <= k < |accepted| + 1 ensures Slot(d, k) == (accepted + [b])[k] {
      if k < |accepted| {
        assert Slot(data, k) == accepted[k];
        Apart(k, |accepted|);
      }
    }
  }

  lemma Take(data: seq<byte>, accepted: seq<byte>, taken: seq<byte>)
    requires |data| == PIPESIZE && Holds(data, accepted, taken) && |taken| < |accepted|
    ensures Holds(data, accepted, taken + [Slot(data, |taken|)]) && Slot(data, |taken|) == accepted[|taken|]
  {
    assert accepted[..|taken| + 1] == taken + [accepted[|taken|]];
  }
}
