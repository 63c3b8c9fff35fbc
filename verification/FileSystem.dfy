/**
  kernel/fs.c and the write path of kernel/file.c over the logical disk that the buffer cache and the log
  provide: block allocation, block maps, truncation, and files as flat byte arrays.
 */
module FileSystem {
  import opened Blocks
  import opened Inodes
  import opened Ownership
  import opened FileChanges
  import opened FileBytes

  /** An in-memory inode, locked by the caller. */
  class Inode {
    const inum: nat
    var typ: uint16
    var major: uint16
    var minor: uint16
    var nlink: uint16
    var size: uint32
    var addrs: Addrs

    constructor (inum: nat, di: Dinode)
      ensures this.inum == inum && Di() == di
    {
      this.inum := inum;
      typ, major, minor, nlink, size, addrs := di.typ, di.major, di.minor, di.nlink, di.size, di.addrs;
    }

    function Di(): Dinode
      reads this
    {
      Dinode(typ, major, minor, nlink, size, addrs)
    }
  }

  function Max(a: nat, b: nat): nat { if a < b then b else a }

  function Min(a: nat, b: nat): nat { if a < b then a else b }

  /** How many bytes there are to read; off + n is a 32-bit sum. */
  function Readable(size: nat, off: uint32, n: uint32): nat {
    if off > size || off + n >= 0x1_0000_0000 then 0 else Min(n, size - off)
  }

  /** Where a full disk can stop a write: at a block that the file does not have yet. */
  predicate StopsAt(off: nat, tot: nat, size: nat) {
    off + tot >= size && (tot == 0 || (off + tot) % BSIZE == 0)
  }

  /** min(left, BSIZE - x%BSIZE). */
  function InThisBlock(x: nat, left: nat): (m: nat)
    ensures m <= left && x % BSIZE + m <= BSIZE && (left > 0 ==> m > 0)
  {
    if left < BSIZE - x % BSIZE then left else BSIZE - x % BSIZE
  }

  /** Of g bytes from off on, those before the last block boundary among them, if there is one. */
  function WholeBlocks(off: nat, g: nat): (r: nat)
    ensures r <= g && (r < g <==> 0 < g && (off + g) % BSIZE != 0)
  {
    if (off + g) % BSIZE <= g then g - (off + g) % BSIZE else 0
  }

  /** How a turn of writei's loop ends: the disk is full, the bytes cannot all be copied in, or they are in. */
  datatype Turn = Full | Fault | Done

  /** The first n blocks are all marked in the bitmap. */
  ghost predicate AllUsed(sb: Super, d: Image, n: nat) {
    forall x :: 0 <= x < n ==> BBlock(sb, x) < |d| && x < |d| && Allocated(sb, d, x)
  }

  /** Between two states of an operation only blocks that it has logged have changed, and those in torn. */
  ghost predicate AllLogged(d: Image, logged: set<nat>, d2: Image, logged2: set<nat>, torn: set<nat>) {
    |d2| == |d| && logged <= logged2 && forall k :: 0 <= k < |d| && d2[k] != d[k] ==> k in logged2 || k in torn
  }

  lemma NothingChanged(d: Image, l: set<nat>)
    ensures AllLogged(d, l, d, l, {})
  {
  }

  lemma BlockTorn(d: Image, l: set<nat>, a: nat, data: Block)
    requires a < |d|
    ensures AllLogged(d, l, d[a := data], l, {a})
  {
  }

  lemma AllLoggedTwice(d: Image, l: set<nat>, d2: Image, l2: set<nat>, d3: Image, l3: set<nat>, torn: set<nat>)
    requires AllLogged(d, l, d2, l2, {}) && AllLogged(d2, l2, d3, l3, torn)
    ensures AllLogged(d, l, d3, l3, torn)
  {
  }

  lemma AllLoggedLater(d: Image, l: set<nat>, d2: Image, l2: set<nat>, torn: set<nat>, d3: Image, l3: set<nat>)
    requires AllLogged(d, l, d2, l2, torn) && AllLogged(d2, l2, d3, l3, {})
    ensures AllLogged(d, l, d3, l3, torn)
  {
  }

  class FileSystem {
    const sb: Super
    var d: Image                   // the logical disk: what bread returns
    ghost var f: Fs                // the same disk read as a file system
    ghost var logged: set<nat>     // blocks this operation has logged
    ghost var worst: nat           // the most blocks logged before any of its log_writes

    ghost predicate Valid()
      reads this
    {
      f.sb == sb && f.d == d && Wf(f) && worst <= |logged|
    }

    /** ip is the in-memory copy of its inode, and all other inodes are on disk as they are in memory. */
    ghost predicate Has(ip: Inode)
      reads this, ip
    {
      Shape(f) && ip.inum < |f.inodes| && f.inodes[ip.inum] == ip.Di() && SyncedBut(f, ip.inum)
    }

    /**
      bread, an update of the buffer, log_write, brelse. log_write checks for a full log before it absorbs. Every block
      it is called on lies behind the boot block, the superblock and the log.
     */
    method LogWrite(b: nat, data: Block)
      requires sb.inodestart <= b < |d| && worst <= |logged|
      modifies `d, `logged, `worst
      ensures d == old(d)[b := data] && logged == old(logged) + {b}
      ensures worst == Max(old(worst), |old(logged)|) && worst <= |logged|
      ensures AllLogged(old(d), old(logged), d, logged, {})
    {
      d := d[b := data];
      worst := Max(worst, |logged|);
      if b in logged { assert logged + {b} == logged; }
      logged := logged + {b};
    }

    /** The search of balloc: the first block whose bit is clear, or 0. */
    method FindFree() returns (b: uint32)
      requires Valid()
      ensures b == 0 ==> AllUsed(sb, d, sb.size)
      ensures b != 0 ==> b < sb.size && BBlock(sb, b) < |d| && !Allocated(sb, d, b)
      ensures b != 0 ==> AllUsed(sb, d, b)
    {
      hide OwnedOnce, FilesWhole, FreeEmpty, BitmapExact, Bit, Allocated, AllUsed;
      assert AllUsed(sb, d, 0) by { NoneUsed(sb, d); }
      var base := 0;
      while base < sb.size
        invariant base % BPB == 0
        invariant AllUsed(sb, d, if base < sb.size then base else sb.size)
      {
        BlocksInRange(sb, base);
        var bp := d[BBlock(sb, base)];
        var bi := 0;
        while bi < BPB && base + bi < sb.size
          invariant bi <= BPB
          invariant AllUsed(sb, d, if base + bi < sb.size then base + bi else sb.size)
        {
          BitOf(sb, d, base, bi);
          if !Bit(bp[bi / 8], bi % 8) {
            FreeIsData(base + bi);
            return base + bi;
          }
          OneMoreUsed(sb, d, base + bi);
          bi := bi + 1;
        }
        base := base + BPB;
      }
      b := 0;
    }

    lemma FreeIsData(b: nat)
      requires Valid() && b < sb.size && BBlock(sb, b) < |d| && !Allocated(sb, d, b)
      ensures sb.datastart <= b
    {
      hide Slot, OwnedOnce, FilesWhole, FreeEmpty, Allocated;
    }

    /** balloc: 0 and nothing changed if the disk is full, otherwise the first free block, marked and zeroed. */
    method Balloc() returns (b: uint32)
      requires Valid()
      modifies this
      ensures Valid() && SameTree(old(f), f)
      ensures b == 0 ==> f == old(f) && logged == old(logged) && AllUsed(sb, d, sb.size)
      ensures b != 0 ==> b < sb.size && BBlock(sb, b) < sb.size && !Allocated(sb, old(d), b) && f == Taken(old(f), b)
                         && logged == old(logged) + {BBlock(sb, b), b}
      ensures b != 0 ==> AllUsed(sb, old(d), b)
      ensures b != 0 ==>
                sb.datastart <= b && b !in old(f).owner && b !in old(f).extra && d[b] == ZeroBlock() && b in f.extra
      ensures forall k :: 0 <= k < sb.bmapstart ==> d[k] == old(d)[k]
      ensures AllLogged(old(d), old(logged), d, logged, {})
    {
      hide AllLogged;
      hide Slot, View, OwnedOnce, FilesWhole, FreeEmpty, BitmapExact, Bit, SetBit;
      NothingChanged(d, logged);
      b := FindFree();
      if b != 0 {
        BlocksInRange(sb, b);
        TakenKeeps(f, b);
        TakeAndZero(b);
      }
    }

    /** The end of balloc: mark the block, then bzero it. */
    method TakeAndZero(b: nat)
      requires Valid() && sb.datastart <= b < |d| && BBlock(sb, b) < |d| && Wf(Taken(f, b))
      modifies this
      ensures Valid() && f == Taken(old(f), b) && logged == old(logged) + {BBlock(sb, b), b}
      ensures AllLogged(old(d), old(logged), d, logged, {})
    {
      hide AllLogged;
      hide Wf;
      ShapeOf(f);
      ghost var g := Taken(f, b);
      LogWrite(BBlock(sb, b), PutBit(d[BBlock(sb, b)], b % BPB, true));
      ghost var d1, l1 := d, logged;
      LogWrite(b, ZeroBlock());
      AllLoggedTwice(old(d), old(logged), d1, l1, d, logged, {});
      f := g;
    }

    /** The block in one of the thirteen addresses of the inode, allocated if there is none; 0 if the disk is full. */
    method AddrBlock(ip: Inode, s: nat) returns (addr: uint32)
      requires Valid() && Has(ip) && s <= INDIRECT && ip.typ != 0
      modifies this, ip`addrs
      ensures Valid() && Has(ip) && Extended(old(f), f, ip.inum)
      ensures addr == ip.addrs[s] && old(ip.addrs) == ip.addrs[s := old(ip.addrs[s])]
      ensures old(ip.addrs[s]) != 0 ==> addr == old(ip.addrs[s]) && f == old(f) && logged == old(logged)
      ensures addr == 0 ==> f == old(f) && logged == old(logged) && AllUsed(sb, d, sb.size)
      ensures addr != 0 ==> addr < |d| && logged <= old(logged) + {BBlock(sb, addr), addr}
      ensures AllLogged(old(d), old(logged), d, logged, {})
    {
      hide AllLogged;
      hide Slot, SameFiles, SameTree, OneMore, OwnedOnce, FilesWhole, FreeEmpty, BitmapExact, Allocated;
      NothingChanged(d, logged);
      NotExtended(f, ip.inum);
      addr := ip.addrs[s];
      SlotOnDisk(f, ip.inum, s);
      if addr == 0 {
        ghost var f0 := f;
        addr := Balloc();
        if addr == 0 {
          return;
        }
        ghost var m := f;
        LinkDirect(m, ip.inum, s, addr);
        ip.addrs := ip.addrs[s := addr];
        f := LinkedDirect(m, ip.inum, s, addr);
        TakenAndGiven(f0, m, f, ip.inum, s, addr);
        InodesElsewhere(f0, f, ip.inum);
      }
    }

    /** bmap beyond the direct blocks: the entry of the indirect block, filled in if it is empty. */
    method EntryBlock(ip: Inode, bn: nat) returns (addr: uint32)
      requires Valid() && Has(ip) && bn < NINDIRECT && ip.typ != 0 && ip.addrs[INDIRECT] != 0
      modifies this
      ensures Valid() && Has(ip) && Extended(old(f), f, ip.inum) && addr == Slot(f, ip.inum, INDIRECT + 1 + bn)
      ensures old(Slot(f, ip.inum, INDIRECT + 1 + bn)) != 0 ==> f == old(f) && logged == old(logged)
      ensures addr == 0 ==> f == old(f) && logged == old(logged) && AllUsed(sb, d, sb.size)
      ensures logged <= old(logged) + {BBlock(sb, addr), addr, ip.addrs[INDIRECT]}
      ensures AllLogged(old(d), old(logged), d, logged, {})
    {
      hide AllLogged;
      hide Slot, SameFiles, SameTree, OneMore, OwnedOnce, FilesWhole, FreeEmpty, BitmapExact, Allocated, GetWord;
      hide PutWord;
      ghost var f0 := f;
      NothingChanged(d, logged);
      NotExtended(f, ip.inum);
      SlotOnDisk(f, ip.inum, INDIRECT);
      EntryIsWord(f, ip.inum, bn);
      var bp := d[ip.addrs[INDIRECT]];
      addr := GetWord(bp, bn);
      if addr == 0 {
        addr := Balloc();
        if addr != 0 {
          LinkTaken(f0, f, ip.inum, bn, addr);
          ghost var g := LinkedEntry(f, ip.inum, bn, addr);
          ghost var d1, l1 := d, logged;
          LogWrite(ip.addrs[INDIRECT], PutWord(bp, bn, addr));
          AllLoggedTwice(old(d), old(logged), d1, l1, d, logged, {});
          f := g;
        }
      }
    }

    /** The address of block bn of the file, allocated if there is none; 0 if the disk is full. */
    method Bmap(ip: Inode, bn: nat) returns (addr: uint32, ghost marks: set<nat>)
      requires Valid() && Has(ip) && bn < MAXFILE && ip.typ != 0
      modifies this, ip`addrs
      ensures Valid() && Has(ip) && Extended(old(f), f, ip.inum) && addr == Slot(f, ip.inum, DataSlot(bn))
      ensures bn < NDIRECT ==> addr == ip.addrs[bn]
      ensures bn >= NDIRECT ==>
                if ip.addrs[INDIRECT] == 0 then addr == 0
                else ip.addrs[INDIRECT] < |d| && addr == GetWord(d[ip.addrs[INDIRECT]], bn - NDIRECT)
      ensures old(Slot(f, ip.inum, DataSlot(bn))) != 0 ==>
                f == old(f) && logged == old(logged) && ip.addrs == old(ip.addrs) && marks == {}
      ensures addr == 0 ==> AllUsed(sb, d, sb.size)
      ensures old(ip.addrs[INDIRECT]) != 0 ==> ip.addrs[INDIRECT] == old(ip.addrs[INDIRECT])
      ensures logged <= old(logged) + marks + IndirectSet(ip.addrs[INDIRECT]) + if addr == 0 then {} else {addr}
      ensures |marks| <= (if addr == 0 then 0 else 1) + Gained(old(ip.addrs[INDIRECT]), ip.addrs[INDIRECT])
      ensures AllLogged(old(d), old(logged), d, logged, {})
    {
      hide AllLogged;
      hide Wf, Slot, Extended, SyncedBut, AllUsed, GetWord;
      if bn < NDIRECT {
        addr, marks := DirectBlock(ip, bn);
        SlotOnDisk(f, ip.inum, bn);
      } else {
        addr, marks := IndirectBlock(ip, bn - NDIRECT);
        EmptyIndirect(f, ip.inum, bn - NDIRECT);
        if ip.addrs[INDIRECT] != 0 { EntryIsWord(f, ip.inum, bn - NDIRECT); }
      }
    }

    /** bmap's first branch. */
    method DirectBlock(ip: Inode, bn: nat) returns (addr: uint32, ghost marks: set<nat>)
      requires Valid() && Has(ip) && bn < NDIRECT && ip.typ != 0
      modifies this, ip`addrs
      ensures Valid() && Has(ip) && Extended(old(f), f, ip.inum) && addr == Slot(f, ip.inum, bn)
      ensures old(Slot(f, ip.inum, bn)) != 0 ==>
                f == old(f) && logged == old(logged) && ip.addrs == old(ip.addrs) && marks == {}
      ensures addr == 0 ==> AllUsed(sb, d, sb.size)
      ensures ip.addrs[INDIRECT] == old(ip.addrs[INDIRECT])
      ensures logged <= old(logged) + marks + if addr == 0 then {} else {addr}
      ensures |marks| <= if addr == 0 then 0 else 1
      ensures AllLogged(old(d), old(logged), d, logged, {})
    {
      hide AllLogged;
      hide Wf, Slot, Extended, SyncedBut, AllUsed;
      SlotOnDisk(f, ip.inum, bn);
      addr := AddrBlock(ip, bn);
      SlotOnDisk(f, ip.inum, bn);
      marks := if old(ip.addrs[bn]) == 0 && addr != 0 then {BBlock(sb, addr)} else {};
    }

    /** bmap's second branch: the indirect block, then its entry. */
    method IndirectBlock(ip: Inode, k: nat) returns (addr: uint32, ghost marks: set<nat>)
      requires Valid() && Has(ip) && k < NINDIRECT && ip.typ != 0
      modifies this, ip`addrs
      ensures Valid() && Has(ip) && Extended(old(f), f, ip.inum) && addr == Slot(f, ip.inum, INDIRECT + 1 + k)
      ensures old(Slot(f, ip.inum, INDIRECT + 1 + k)) != 0 ==>
                f == old(f) && logged == old(logged) && ip.addrs == old(ip.addrs) && marks == {}
      ensures addr == 0 ==> AllUsed(sb, d, sb.size)
      ensures old(ip.addrs[INDIRECT]) != 0 ==> ip.addrs[INDIRECT] == old(ip.addrs[INDIRECT])
      ensures logged <= old(logged) + marks + IndirectSet(ip.addrs[INDIRECT]) + if addr == 0 then {} else {addr}
      ensures |marks| <= (if addr == 0 then 0 else 1) + Gained(old(ip.addrs[INDIRECT]), ip.addrs[INDIRECT])
      ensures AllLogged(old(d), old(logged), d, logged, {})
    {
      hide AllLogged;
      hide Slot, Extended, OwnedOnce, FilesWhole, FreeEmpty, BitmapExact, Allocated, SyncedBut;
      ghost var f0 := f;
      EmptyIndirect(f, ip.inum, k);
      SlotOnDisk(f, ip.inum, INDIRECT);
      marks := {};
      addr := AddrBlock(ip, INDIRECT);
      SlotOnDisk(f, ip.inum, INDIRECT);
      if addr == 0 {
        return;
      }
      ghost var m, d1, l1 := f, d, logged;
      if old(ip.addrs[INDIRECT]) == 0 { marks := {BBlock(sb, addr)}; }
      addr := EntryBlock(ip, k);
      AllLoggedTwice(old(d), old(logged), d1, l1, d, logged, {});
      ExtendedTwice(f0, m, f, ip.inum);
      if addr != 0 && Slot(m, ip.inum, INDIRECT + 1 + k) == 0 { marks := marks + {BBlock(sb, addr)}; }
    }

    method Bfree(b: nat)
      requires Valid() && b in f.extra
      modifies this
      ensures Valid() && f == Freed(old(f), b) && SameTree(old(f), f)
      ensures |d| == |old(d)|
              && forall k :: 0 <= k < |d| && (k < sb.bmapstart || k >= sb.datastart) ==> d[k] == old(d)[k]
      ensures AllLogged(old(d), old(logged), d, logged, {})
    {
      hide AllLogged;
      hide Wf, SameTree, Bit, ClearBit;
      FreedKeeps(f, b);
      ShapeOf(f);
      BlocksInRange(sb, b);
      ghost var g := Freed(f, b);
      var bp, bi := d[BBlock(sb, b)], b % BPB;
      assert Bit(bp[bi / 8], bi % 8);   // "freeing free block" is unreachable
      LogWrite(BBlock(sb, b), bp[bi / 8 := ClearBit(bp[bi / 8], bi % 8)]);
      f := g;
    }

    /** Copies the in-memory inode to disk; afterwards every inode is on disk as it is in memory. */
    method Iupdate(ip: Inode)
      requires Valid() && Has(ip)
      modifies this
      ensures Valid() && Has(ip) && SameTree(old(f), f) && f.extra == old(f.extra)
      ensures forall j :: 0 <= j < |f.inodes| ==> OnDisk(f, j) == f.inodes[j]
      ensures logged == old(logged) + {IBlock(sb, ip.inum)} && worst <= |old(logged)|
      ensures AllLogged(old(d), old(logged), d, logged, {})
    {
      hide AllLogged;
      hide Wf, SameTree, PutDinode, GetDinode, OnDisk;
      InodeStored(f, ip.inum);
      ghost var k := IBlock(sb, ip.inum);
      var bp := d[IBlock(sb, ip.inum)];
      var data := PutDinode(bp, ip.inum % IPB, ip.Di());
      ghost var g := WithBlock(f, k, data);
      LogWrite(IBlock(sb, ip.inum), data);
      f := g;
      assert g.inodes == old(f).inodes;
    }

    /** One turn of readi's loop: m bytes of one block. */
    method ReadBlock(ip: Inode, off: nat, m: nat) returns (bytes: seq<byte>)
      requires Valid() && Has(ip) && ip.typ != 0 && ip.size <= MAXBYTES && off + m <= ip.size
               && off % BSIZE + m <= BSIZE && m > 0
      modifies this, ip`addrs
      ensures Valid() && Has(ip) && f == old(f) && logged == old(logged) && ip.addrs == old(ip.addrs)
      ensures bytes == Contents(d, ip.Di())[off..off + m]
    {
      hide Slot, View, Wf, Extended, SyncedBut, Contents;
      FilledSlot(f, ip.inum, off / BSIZE);
      var addr, _ := Bmap(ip, off / BSIZE);
      SlotHasView(f, ip.inum, off / BSIZE);
      var bp := d[addr];
      BlockOfContents(d, ip.Di(), off, m);
      bytes := bp[off % BSIZE..off % BSIZE + m];
    }

    /**
      readi: the bytes of the file from off on, at most n of them, of which the first room can be copied out. The file
      system is not changed.
     */
    method Readi(ip: Inode, off: uint32, n: uint32, room: nat) returns (dst: seq<byte>, r: int)
      requires Valid() && Has(ip) && ip.typ != 0
      modifies this, ip`addrs
      ensures Valid() && Has(ip) && f == old(f) && logged == old(logged) && ip.addrs == old(ip.addrs)
      ensures ip.size <= MAXBYTES
      ensures var len := Readable(ip.size, off, n);
              && r == (if len <= room then len else -1)
              && dst == if len == 0 then [] else Contents(d, ip.Di())[off..off + Min(len, room)]
    {
      hide Slot, View, Wf, Extended, SyncedBut, Contents;
      WholeFile(f, ip.inum);
      if off > ip.size || (off + n) % 0x1_0000_0000 < off {
        return [], 0;
      }
      dst, r := ReadBlocks(ip, off, if off + n > ip.size then ip.size - off else n, room);
    }

    /** The loop of readi. */
    method ReadBlocks(ip: Inode, off: nat, len: nat, room: nat) returns (dst: seq<byte>, r: int)
      requires Valid() && Has(ip) && ip.typ != 0 && ip.size <= MAXBYTES && off + len <= ip.size
      modifies this, ip`addrs
      ensures Valid() && Has(ip) && f == old(f) && logged == old(logged) && ip.addrs == old(ip.addrs)
      ensures r == (if len <= room then len else -1) && dst == Contents(d, ip.Di())[off..off + Min(len, room)]
    {
      hide Slot, View, Wf, Extended, SyncedBut, Contents;
      var tot := 0;
      dst := [];
      ghost var c := Contents(d, ip.Di());
      while tot < len
        invariant tot <= len && tot <= room
        invariant off + len <= |c| && dst == c[off..off + tot]
        invariant Valid() && Has(ip) && f == old(f) && logged == old(logged) && ip.addrs == old(ip.addrs)
        decreases len - tot
      {
        var m := InThisBlock(off + tot, len - tot);
        var bytes := ReadBlock(ip, off + tot, m);
        var k := Min(m, room - tot);
        NextBytes(c, off, tot, m, k);
        dst := dst + bytes[..k];
        if k < m {
          return dst, -1;   // either_copyout fails
        }
        tot := tot + m;
      }
      r := tot;
    }

    /** either_copyin into a block of the file, log_write if all m bytes came in. */
    method CopyIn(ip: Inode, addr: nat, x: nat, m: nat, bytes: seq<byte>, ghost f0: Fs, ghost off: nat,
                  ghost part: seq<byte>) returns (done: bool, ghost torn: set<nat>)
      requires Valid() && Has(ip) && ip.typ != 0 && Writing(f0, f, ip.inum, off, part)
      requires x == off + |part| && x % BSIZE + m <= BSIZE && |bytes| <= m && m > 0 && x + m <= MAXBYTES
               && (|part| == 0 || x % BSIZE == 0)
      requires x / BSIZE < MAXFILE && addr == Slot(f, ip.inum, DataSlot(x / BSIZE)) != 0
      modifies this
      ensures Valid() && Has(ip) && Writing(f0, f, ip.inum, off, part + bytes) && done == (|bytes| == m)
      ensures logged == old(logged) + (if done then {addr} else {})
      ensures torn == if done || bytes == [] then {} else {addr}
      ensures AllLogged(old(d), old(logged), d, logged, torn)
    {
      hide Slot, View, Wf, SyncedBut, Writing, AllLogged, Overlay;
      NothingChanged(d, logged);
      done, torn := false, {};
      if |bytes| == 0 {
        assert part + bytes == part;
        return;
      }
      AfterBlock(f0, f, ip.inum, off, part, bytes);
      SlotHasView(f, ip.inum, x / BSIZE);
      ShapeOf(f);
      ghost var g := WithBlock(f, addr, Overlay(f.d[addr], x % BSIZE, bytes));
      DataKeepsInodes(f, ip.inum, x / BSIZE, g.d[addr]);
      var data := Overlay(d[addr], x % BSIZE, bytes);
      if |bytes| == m {
        LogWrite(addr, data);
        done := true;
      } else {
        BlockTorn(d, logged, addr, data);
        d := d[addr := data];   // copied in before either_copyin failed
        torn := {addr};
      }
      f := g;
    }

    /** One turn of writei's loop: m bytes of one block, of which those in bytes can be copied in. */
    method WriteBlock(ip: Inode, x: nat, m: nat, bytes: seq<byte>, ghost f0: Fs, ghost off: nat, ghost part: seq<byte>)
      returns (turn: Turn, ghost marks: set<nat>, ghost data: set<nat>, ghost torn: set<nat>)
      requires Valid() && Has(ip) && ip.typ != 0 && Writing(f0, f, ip.inum, off, part)
      requires x == off + |part| && x % BSIZE + m <= BSIZE && |bytes| <= m && m > 0 && x + m <= MAXBYTES
               && (|part| == 0 || x % BSIZE == 0)
      modifies this, ip`addrs
      ensures Valid() && Has(ip) && Writing(f0, f, ip.inum, off, if turn.Full? then part else part + bytes)
      ensures if turn.Full? then AllUsed(sb, d, sb.size) else turn.Done? <==> |bytes| == m
      ensures old(ip.addrs[INDIRECT]) != 0 ==> ip.addrs[INDIRECT] == old(ip.addrs[INDIRECT])
      ensures logged <= old(logged) + marks + IndirectSet(ip.addrs[INDIRECT]) + data
              && |data| == if turn.Full? then 0 else 1
      ensures |marks| <= (if turn.Full? then 0 else 1) + Gained(old(ip.addrs[INDIRECT]), ip.addrs[INDIRECT])
      ensures old(Slot(f, ip.inum, DataSlot(x / BSIZE))) != 0 ==>
                marks == {} && !turn.Full? && ip.addrs == old(ip.addrs) && (turn.Fault? ==> logged == old(logged))
      ensures AllLogged(old(d), old(logged), d, logged, torn) && |torn| <= 1
      ensures torn != {} <==> turn.Fault? && bytes != []
    {
      hide Slot, View, Wf, Extended, SyncedBut, Writing, AllUsed, AllLogged, IndirectSet, Gained;
      ghost var f1 := f;
      data, torn := {}, {};
      var addr: uint32;
      addr, marks := Bmap(ip, x / BSIZE);
      ghost var d1, l1 := d, logged;
      AfterExtending(f0, f1, f, ip.inum, off, part);
      turn := Full;
      if addr != 0 {
        data := {addr};
        var done;
        done, torn := CopyIn(ip, addr, x, m, bytes, f0, off, part);
        AllLoggedTwice(old(d), old(logged), d1, l1, d, logged, torn);
        turn := if done then Done else Fault;
      }
    }

    /**
      writei of n bytes, of which those in src can be copied in: refused if it would leave a gap or run past the
      largest file. Otherwise all of it goes in, or the disk is full after r bytes, or the copy fails in the block that
      begins after r bytes, when those that could be copied have changed the block all the same, and nothing logs it.
     */
    method Writei(ip: Inode, src: seq<byte>, n: uint32, off: uint32)
      returns (r: int, ghost changed: nat, ghost torn: set<nat>)
      requires Valid() && Has(ip) && ip.typ != 0
      modifies this, ip
      ensures Valid() && Has(ip) && f.extra == old(f.extra) && old(ip.size) <= MAXBYTES && ip.size <= MAXBYTES
      ensures r == -1 <==> off > old(ip.size) || off + n > MAXBYTES
      ensures r == -1 ==> f == old(f) && logged == old(logged) && worst == old(worst) && ip.Di() == old(ip.Di())
      ensures r == -1 ==> changed == 0
      ensures r != -1 ==>
                || (r == changed == n <= |src|)
                || (0 <= r == changed <= Min(n, |src|) && AllUsed(sb, d, sb.size) && StopsAt(off, r, old(ip.size)))
                || (r == WholeBlocks(off, |src|) <= changed == |src| < n)
      ensures r != -1 ==> ip.size == Max(old(ip.size), off + r)
      ensures r != -1 ==> Contents(d, ip.Di()) == Spliced(old(Contents(d, ip.Di())), off, src[..changed])[..ip.size]
      ensures r != -1 ==> OthersSame(old(f), f, ip.inum) && ip.typ == old(ip.typ)
      ensures r != -1 ==> forall j :: 0 <= j < |f.inodes| ==> OnDisk(f, j) == f.inodes[j]
      ensures |logged| <= |old(logged)| + LogBound(off, n) && worst < |old(logged)| + LogBound(off, n)
      ensures AllLogged(old(d), old(logged), d, logged, torn) && |torn| <= 1 && (torn != {} <==> changed > r != -1)
      ensures torn != {} ==> 0 < |src| < n && (off + |src|) % BSIZE != 0
      ensures r != -1 && torn == {} && 0 < |src| < n && (off + |src|) % BSIZE != 0 ==>
                r < |src| && AllUsed(sb, d, sb.size)
      ensures changed > r == 0 && off < old(ip.size) ==>
                logged == old(logged) + {IBlock(sb, ip.inum)} && ip.Di() == old(ip.Di())
    {
      hide Slot, View, Wf, SyncedBut, Writing, AllUsed, Contents, OthersSame, SameTree, OnDisk, Touched, LogBound;
      hide WholeBlocks, Spliced, AllLogged;
      WholeFile(f, ip.inum);
      WorstCase(off, n, 0, 0, 0);
      changed, torn := 0, {};
      NothingChanged(d, logged);
      if off > ip.size || (off + n) % 0x1_0000_0000 < off {
        return -1, 0, {};
      }
      if off + n > MAXFILE * BSIZE {
        return -1, 0, {};
      }
      ghost var f0 := f;
      var tot;
      tot, changed, torn := WriteBlocks(ip, src, n, off);
      if off + tot > ip.size {
        ip.size := off + tot;
      }
      ghost var g := f;
      SizeSet(f0, g, ip.inum, off, src[..changed], ip.size);
      f := WithInode(f, ip.inum, Sized(f.inodes[ip.inum], ip.size));
      ghost var m, d1, l1 := f, d, logged;
      Iupdate(ip);
      UsedKept(g, m, f);
      AllLoggedLater(old(d), old(logged), d1, l1, torn, d, logged);
      WriteDone(f0, g, f, ip.inum, off, src[..changed], ip.size);
      r := tot;
    }

    /** One turn of that loop, from the first tot bytes on. */
    method NextTurn(ip: Inode, src: seq<byte>, n: nat, off: nat, tot: nat, ghost f0: Fs, ghost a: Account)
      returns (turn: Turn, m: nat, ghost changed: nat, ghost torn: set<nat>, ghost b: Account)
      requires Valid() && Has(ip) && ip.typ != 0 && off <= ip.size && off + n <= MAXBYTES && tot < n && tot <= |src|
      requires Writing(f0, f, ip.inum, off, src[..tot]) && (tot == 0 ==> f == f0)
      requires Progress(a, logged, ip.addrs[INDIRECT], off, n, tot)
      modifies this, ip`addrs
      ensures Valid() && Has(ip) && 0 < m <= n - tot && tot <= changed <= Min(n, |src|)
      ensures Writing(f0, f, ip.inum, off, src[..changed])
      ensures match turn
              case Full => changed == tot && AllUsed(sb, d, sb.size) && StopsAt(off, tot, ip.size)
              case Fault => changed == |src| < n && tot == WholeBlocks(off, |src|)
              case Done => changed == tot + m
      ensures turn.Fault? && off + tot < ip.size ==> logged == old(logged) && ip.addrs == old(ip.addrs)
      ensures AllLogged(old(d), old(logged), d, logged, torn) && |torn| <= 1
      ensures torn != {} <==> turn.Fault? && changed > tot
      ensures b.start == a.start
              && Progress(b, logged, ip.addrs[INDIRECT], off, n, if turn.Full? then tot else tot + m)
    {
      hide Slot, View, Wf, SyncedBut, Writing, AllUsed, NoHoles, LogBound, IndirectSet, Gained, Shape, Progress;
      hide WholeBlocks, AllLogged, InThisBlock;
      AtBoundary(a, logged, ip.addrs[INDIRECT], off, n, tot);
      SlotThere(f, ip.inum, off, tot);
      m := InThisBlock(off + tot, n - tot);
      var k := Min(m, |src| - tot);
      ghost var ind, before := ip.addrs[INDIRECT], logged;
      ghost var mk, data;
      turn, mk, data, torn := WriteBlock(ip, off + tot, m, src[tot..tot + k], f0, off, src[..tot]);
      b := MoreProgress(a, before, logged, mk, data, ind, ip.addrs[INDIRECT], off, n, tot, m);
      NextPart(src, tot, k);
      changed := if turn.Full? then tot else tot + k;
      if turn.Fault? { FaultAt(off, tot, m, |src|); }
    }

    /** The loop of writei. */
    method WriteBlocks(ip: Inode, src: seq<byte>, n: nat, off: nat)
      returns (tot: nat, ghost changed: nat, ghost torn: set<nat>)
      requires Valid() && Has(ip) && ip.typ != 0 && off <= ip.size && off + n <= MAXBYTES
      modifies this, ip`addrs
      ensures tot <= changed <= Min(n, |src|)
      ensures Valid() && Has(ip) && Writing(old(f), f, ip.inum, off, src[..changed])
      ensures (tot == changed == n) || (tot == changed && AllUsed(sb, d, sb.size) && StopsAt(off, tot, ip.size))
              || (changed == |src| < n && tot == WholeBlocks(off, |src|))
      ensures |logged| < |old(logged)| + LogBound(off, n)
      ensures AllLogged(old(d), old(logged), d, logged, torn)
      ensures |torn| <= 1 && (torn != {} <==> changed > tot)
      ensures changed > tot == 0 && off < ip.size ==> logged == old(logged) && ip.addrs == old(ip.addrs)
    {
      hide Slot, View, Wf, SyncedBut, Writing, AllUsed, NoHoles, LogBound, IndirectSet, Gained, Shape, Progress;
      hide WholeBlocks, AllLogged;
      tot, changed, torn := 0, 0, {};
      NothingChanged(d, logged);
      ghost var f0 := f;
      WholeFile(f, ip.inum);
      NothingWritten(f, ip.inum, off);
      assert src[..0] == [];
      ghost var a, reach := Account(logged, {}, {}, ip.addrs[INDIRECT], 0), 0;
      NoProgress(a, off, n);
      while tot < n
        invariant tot == changed == reach <= n && tot <= |src| && (tot == 0 ==> f == f0)
        invariant Valid() && Has(ip) && ip.typ != 0 && Writing(f0, f, ip.inum, off, src[..tot])
        invariant a.start == old(logged) && Progress(a, logged, ip.addrs[INDIRECT], off, n, tot)
        invariant torn == {} && AllLogged(old(d), old(logged), d, logged, torn)
        invariant tot == 0 ==> logged == old(logged) && ip.addrs == old(ip.addrs)
        decreases n - tot
      {
        var turn, m;
        ghost var d1, l1 := d, logged;
        turn, m, changed, torn, a := NextTurn(ip, src, n, off, tot, f0, a);
        AllLoggedTwice(old(d), old(logged), d1, l1, d, logged, torn);
        reach := if turn.Full? then tot else tot + m;
        if turn != Done {
          break;
        }
        tot := tot + m;
      }
      Bounded(a, logged, ip.addrs[INDIRECT], off, n, reach);
    }

    /** Frees one of the blocks itrunc goes through. */
    method TruncOne(ghost f0: Fs, ghost i: nat, ghost s: nat, b: nat)
      requires Valid() && Wf(f0) && Truncating(f0, f, i, Rank(s)) && i < |f0.inodes| && s < SLOTS && b == Slot(f0, i, s)
               && b != 0
      modifies this
      ensures Valid() && Truncating(f0, f, i, Rank(s) + 1)
      ensures AllLogged(old(d), old(logged), d, logged, {})
    {
      hide AllLogged;
      hide Slot, Wf, SameTree;
      StillToFree(f0, f, i, s);
      ghost var g := f;
      Bfree(b);
      TruncStep(f0, g, f, i, s);
    }

    /** itrunc: the file is empty, exactly its blocks are free, and nothing happened to any other file. */
    method Itrunc(ip: Inode)
      requires Valid() && Has(ip)
      modifies this, ip
      ensures Valid() && Has(ip) && ip.Di() == Emptied(old(ip.Di())) && f.extra == old(f.extra)
      ensures f.owner == old(f.owner) - BlocksFrom(old(f), ip.inum, 0) && OthersSame(old(f), f, ip.inum)
      ensures forall j :: 0 <= j < |f.inodes| ==> OnDisk(f, j) == f.inodes[j]
      ensures AllLogged(old(d), old(logged), d, logged, {})
    {
      hide AllLogged;
      hide Slot, View, Wf, SyncedBut, Truncating, OthersSame, OnDisk;
      ghost var f0, i := f, ip.inum;
      NothingChanged(d, logged);
      TruncStart(f, i);
      f := Unlinked(f, i);
      var k := 0;
      while k < NDIRECT
        invariant k <= NDIRECT && Valid() && Truncating(f0, f, i, k)
        invariant ip.Di() == ClearedTo(f0.inodes[i], k)
        invariant AllLogged(old(d), old(logged), d, logged, {})
      {
        SlotIsAddr(f0, i, k);
        if ip.addrs[k] != 0 {
          ghost var d1, l1 := d, logged;
          TruncOne(f0, i, k, ip.addrs[k]);
          AllLoggedTwice(old(d), old(logged), d1, l1, d, logged, {});
          ip.addrs := ip.addrs[k := 0];
        } else {
          TruncSkip(f0, f, i, k);
        }
        assert ip.Di() == ClearedTo(f0.inodes[i], k + 1);
        k := k + 1;
      }
      SlotIsAddr(f0, i, INDIRECT);
      if ip.addrs[INDIRECT] != 0 {
        TruncSkip(f0, f, i, INDIRECT);
        ghost var d1, l1 := d, logged;
        TruncIndirect(ip, f0);
        AllLoggedTwice(old(d), old(logged), d1, l1, d, logged, {});
        ip.addrs := ip.addrs[INDIRECT := 0];
      } else {
        NoIndirect(f0, i);
      }
      NoEntriesLeft(f0, f, i, if f0.inodes[i].addrs[INDIRECT] != 0 then SLOTS + 1 else INDIRECT);
      ip.size := 0;
      assert ip.Di() == Emptied(f0.inodes[i]);
      TruncHas(f0, f, i);
      ShapeOf(f);
      ghost var g, d1, l1 := f, d, logged;
      Iupdate(ip);
      AllLoggedTwice(old(d), old(logged), d1, l1, d, logged, {});
      TruncDone(f0, g, f, i);
    }

    /** The second half of itrunc: the entries of the indirect block, then the block. */
    method TruncIndirect(ip: Inode, ghost f0: Fs)
      requires Valid() && Wf(f0) && ip.inum < |f0.inodes| && Truncating(f0, f, ip.inum, INDIRECT + 1)
      requires ip.addrs[INDIRECT] == f0.inodes[ip.inum].addrs[INDIRECT] != 0
      modifies this
      ensures Valid() && Truncating(f0, f, ip.inum, SLOTS + 1)
      ensures AllLogged(old(d), old(logged), d, logged, {})
    {
      hide AllLogged;
      hide Slot, Wf, Truncating, GetWord;
      ghost var i := ip.inum;
      NothingChanged(d, logged);
      SameData(f0, f, i, INDIRECT + 1);
      var bp := d[ip.addrs[INDIRECT]];
      var j := 0;
      while j < NINDIRECT
        invariant j <= NINDIRECT && Valid() && Truncating(f0, f, i, INDIRECT + 1 + j)
        invariant AllLogged(old(d), old(logged), d, logged, {})
      {
        ghost var d1, l1 := d, logged;
        EntryIsWord(f0, i, j);
        if GetWord(bp, j) != 0 {
          TruncOne(f0, i, INDIRECT + 1 + j, GetWord(bp, j));
          AllLoggedTwice(old(d), old(logged), d1, l1, d, logged, {});
        } else {
          TruncSkip(f0, f, i, INDIRECT + 1 + j);
        }
        j := j + 1;
      }
      SlotIsAddr(f0, i, INDIRECT);
      ghost var d1, l1 := d, logged;
      TruncOne(f0, i, INDIRECT, ip.addrs[INDIRECT]);
      AllLoggedTwice(old(d), old(logged), d1, l1, d, logged, {});
    }

    /** The end of iput when the last reference to an unlinked inode goes: its blocks and the inode are free. */
    method FreeInode(ip: Inode)
      requires Valid() && Has(ip) && ip.nlink == 0
      modifies this, ip
      ensures Valid() && Has(ip) && f.extra == old(f.extra) && f.inodes[ip.inum].typ == 0
      ensures f.owner == old(f.owner) - BlocksFrom(old(f), ip.inum, 0) && OthersSame(old(f), f, ip.inum)
      ensures forall j :: 0 <= j < |f.inodes| ==> OnDisk(f, j) == f.inodes[j]
      ensures AllLogged(old(d), old(logged), d, logged, {})
    {
      hide AllLogged;
      hide Slot, View, Wf, SyncedBut, OthersSame, OnDisk, BlocksFrom, SameTree;
      ghost var f0, i := f, ip.inum;
      Itrunc(ip);
      ghost var f1, d1, l1 := f, d, logged;
      ip.typ := 0;
      ghost var di := ip.Di();
      Retyped(f1, i, di);
      f := WithInode(f1, i, di);
      ghost var f2 := f;
      Iupdate(ip);
      AllLoggedTwice(old(d), old(logged), d1, l1, d, logged, {});
      SameAfterStore(f0, f1, f2, f, i);
    }

    /** ialloc: the first free inode, now of the given type and empty; 0 if there is none. */
    method Ialloc(typ: uint16) returns (inum: nat)
      requires Valid() && typ != 0 && forall j :: 0 <= j < |f.inodes| ==> OnDisk(f, j) == f.inodes[j]
      modifies this
      ensures Valid() && f.owner == old(f.owner) && f.extra == old(f.extra)
      ensures forall j :: 0 <= j < |f.inodes| ==> OnDisk(f, j) == f.inodes[j]
      ensures inum == 0 ==> f == old(f) && forall j :: 1 <= j < |f.inodes| ==> f.inodes[j].typ != 0
      ensures inum != 0 ==> inum < |f.inodes| == |old(f).inodes| && OthersSame(old(f), f, inum)
                            && old(f).inodes[inum].typ == 0
                               && f.inodes[inum] == Dinode(typ, 0, 0, 0, 0, seq(13, _ => 0))
                            && forall j :: 1 <= j < inum ==> old(f).inodes[j].typ != 0
      ensures AllLogged(old(d), old(logged), d, logged, {})
    {
      hide AllLogged;
      hide Slot, View, Wf, SyncedBut, OthersSame, GetDinode, PutDinode, SameTree;
      NothingChanged(d, logged);
      ShapeOf(f);
      inum := 1;
      while inum < sb.ninodes
        invariant 1 <= inum && (inum < sb.ninodes || inum == sb.ninodes || inum == 1)
        invariant Valid() && f == old(f) && d == old(d) && logged == old(logged) && worst == old(worst)
        invariant forall j :: 1 <= j < inum && j < |f.inodes| ==> f.inodes[j].typ != 0
      {
        InRange(f, inum);
        var bp := d[IBlock(sb, inum)];
        assert GetDinode(bp, inum % IPB) == OnDisk(f, inum);
        if GetDinode(bp, inum % IPB).typ == 0 {
          var di := Dinode(typ, 0, 0, 0, 0, seq(13, _ => 0));
          ghost var f0, g := f, WithInode(f, inum, di);
          Born(f, inum, di);
          InodeStored(g, inum);
          var data := PutDinode(bp, inum % IPB, di);
          LogWrite(IBlock(sb, inum), data);
          f := WithBlock(g, IBlock(sb, inum), data);
          OthersStart(f0, inum);
          SameAfterStore(f0, f0, g, f, inum);
          return;
        }
        inum := inum + 1;
      }
      inum := 0;
    }

    // ---------- kernel/file.c: filewrite on an inode ----------

    method BeginOp()
      requires Valid()
      modifies `logged, `worst
      ensures Valid() && logged == {} && worst == 0
    {
      logged, worst := {}, 0;
    }

    /** An operation may end only if it kept to its reservation at every log_write. */
    method EndOp()
      requires Valid() && |logged| <= MAXOPBLOCKS && worst < MAXOPBLOCKS
      ensures Valid()
    {
    }

    /** The file so far: c with the first i bytes of src spliced in at off. */
    ghost predicate SplicedTo(ip: Inode, c: seq<byte>, off: nat, src: seq<byte>, i: nat)
      reads this, ip
    {
      && ip.size <= MAXBYTES && i <= |src|
      && if off > |c| then i == 0 && Contents(d, ip.Di()) == c
         else Contents(d, ip.Di()) == Spliced(c, off, src[..i]) && ip.size == Max(|c|, off + i)
    }

    /** One chunk of filewrite, n1 bytes after the first i, as one operation. */
    method WriteChunk(ip: Inode, src: seq<byte>, i: nat, n1: nat, off: nat, ghost f0: Fs, ghost c: seq<byte>)
      returns (r: int, ghost changed: nat, ghost torn: set<nat>)
      requires Valid() && Has(ip) && ip.typ != 0 && off + i < 0x1_0000_0000 && 0 < n1
      requires n1 <= (MAXOPBLOCKS - 1 - 1 - 2) / 2 * BSIZE
      requires OthersSame(f0, f, ip.inum) && SplicedTo(ip, c, off, src, i)
      modifies this, ip
      ensures Valid() && Has(ip) && f.extra == old(f.extra) && OthersSame(f0, f, ip.inum) && ip.typ == old(ip.typ)
      ensures ip.size <= MAXBYTES && i + changed <= |src|
      ensures r == -1 <==> off + i > old(ip.size) || off + i + n1 > MAXBYTES
      ensures r == -1 ==> changed == 0 && SplicedTo(ip, c, off, src, i)
      ensures r != -1 ==> 0 <= r <= changed <= n1 && off <= |c| && ip.size == Max(|c|, off + i + r)
      ensures r != -1 ==> Contents(d, ip.Di()) == Spliced(c, off, src[..i + changed])[..ip.size]
      ensures r != -1 && r < n1 ==> (r == changed && AllUsed(sb, d, sb.size)) || i + changed == |src| < i + n1
      ensures r == n1 ==> SplicedTo(ip, c, off, src, i + r)
      ensures changed > r != -1 ==> i + changed == |src| < i + n1 && changed - r <= (off + |src|) % BSIZE
      ensures AllLogged(old(d), {}, d, logged, torn) && |torn| <= 1 && (torn != {} <==> changed > r != -1)
    {
      hide Slot, View, Wf, SyncedBut, AllUsed, Contents, OthersSame, OnDisk, Touched, LogBound, Spliced, WholeBlocks;
      ChunkFits(off + i, n1);
      BeginOp();
      ghost var f1 := f;
      r, changed, torn := Writei(ip, src[i..], n1, off + i);
      EndOp();
      if r != -1 {
        OthersTwice(f0, f1, f, ip.inum);
        Appended(c, off, src, i, changed);
        PartLeft(off, i, |src|);
      }
    }

    /**
      filewrite of n bytes, of which those in src can be copied in: the file gets them spliced in at off, chunk by
      chunk, each chunk an operation within its log reservation. It returns n if all went in and -1 otherwise, when the
      bytes before done are in and those before changed may be.
     */
    method Filewrite(ip: Inode, src: seq<byte>, n: nat, off: uint32)
      returns (ret: int, newOff: uint32, ghost done: nat, ghost changed: nat)
      requires Valid() && Has(ip) && ip.typ != 0 && n < 0x8000_0000
      modifies this, ip
      ensures Valid() && Has(ip) && old(ip.size) <= MAXBYTES && ip.size <= MAXBYTES && f.extra == old(f.extra)
      ensures ret == (if done == n then n else -1) && done <= changed <= Min(n, |src|) && newOff == off + done
      ensures off > old(ip.size) ==> changed == 0 && Contents(d, ip.Di()) == old(Contents(d, ip.Di()))
      ensures off <= old(ip.size) ==>
                && ip.size == Max(old(ip.size), off + done)
                && Contents(d, ip.Di()) == Spliced(old(Contents(d, ip.Di())), off, src[..changed])[..ip.size]
      ensures OthersSame(old(f), f, ip.inum)
      ensures ret == -1 ==>
                off > old(ip.size) || off + n > MAXBYTES || AllUsed(sb, d, sb.size) || changed == |src| < n
      ensures changed > done ==> changed == |src| < n && |src| - done <= (off + |src|) % BSIZE
    {
      hide Slot, View, Wf, SyncedBut, AllUsed, Contents, OthersSame, OnDisk, Touched, LogBound, Spliced, WholeBlocks;
      var max := (MAXOPBLOCKS - 1 - 1 - 2) / 2 * BSIZE;
      var i := 0;
      newOff := off;
      done, changed := 0, 0;
      ghost var f0 := f;
      WholeFile(f, ip.inum);
      OthersStart(f, ip.inum);
      ghost var c := Contents(d, ip.Di());
      if off <= ip.size { SpliceNothing(c, off, src); }
      assert SplicedTo(ip, c, off, src, 0);
      while i < n
        invariant i == done == changed <= Min(n, |src|) && newOff == off + i
        invariant Valid() && Has(ip) && ip.typ != 0 && ip.size <= MAXBYTES && f.extra == f0.extra
        invariant OthersSame(f0, f, ip.inum) && f0.sb == sb
        invariant SplicedTo(ip, c, off, src, i)
        decreases n - i
      {
        var n1 := n - i;
        if n1 > max {
          n1 := max;
        }
        var r, ch, _ := WriteChunk(ip, src, i, n1, off, f0, c);
        if r > 0 {
          newOff := newOff + r;
          done := i + r;
        }
        changed := i + ch;
        if r != n1 {
          break;
        }
        i := i + r;
      }
      ret := if i == n then n else -1;
    }
  }

  /**
    writei of two bytes at the beginning of a file, of which only the first can be copied in: it reports that none is
    written, but the first byte of the file has changed, in a block that is not logged.
   */
  method FaultGoesUnlogged(fs: FileSystem, ip: Inode, x: byte) returns (r: int)
    requires fs.Valid() && fs.Has(ip) && ip.typ != 0 && 0 < ip.size <= MAXBYTES && Contents(fs.d, ip.Di())[0] != x
    modifies fs, ip
    ensures fs.Valid() && fs.Has(ip) && ip.size <= MAXBYTES
    ensures r == 0 && Contents(fs.d, ip.Di()) == old(Contents(fs.d, ip.Di()))[0 := x]
    ensures exists b: nat :: b < |fs.d| == |old(fs.d)| && b !in fs.logged && fs.d[b] != old(fs.d)[b]
  {
    hide Slot, View, Wf, SyncedBut, AllUsed, Contents, OthersSame, OnDisk;
    ghost var f0, c := fs.f, Contents(fs.d, ip.Di());
    fs.BeginOp();
    ghost var changed, torn;
    r, changed, torn := fs.Writei(ip, [x], 2, 0);
    assert WholeBlocks(0, 1) == 0;
    assert Spliced(c, 0, [x][..1])[..|c|] == c[0 := x];
    InodeBlock(f0, ip.inum);
    if forall b: nat :: b < |fs.d| && b !in fs.logged ==> fs.d[b] == f0.d[b] {
      ContentsFrom(f0, fs.d, ip.inum);
    }
  }

  /** The inode after itrunc's first loop has cleared k addresses. */
  function ClearedTo(di: Dinode, k: nat): Dinode
    requires k <= NDIRECT
  {
    Dinode(di.typ, di.major, di.minor, di.nlink, di.size,
        seq(13, j requires 0 <= j < 13 => if j < k then 0 else di.addrs[j]))
  }

  lemma NoIndirect(f: Fs, i: nat)
    requires i < |f.inodes| && f.inodes[i].addrs[INDIRECT] == 0
    ensures Slot(f, i, INDIRECT) == 0 && forall s :: INDIRECT < s < SLOTS ==> Slot(f, i, s) == 0
  {
  }

  lemma SameData(f: Fs, g: Fs, i: nat, r: nat)
    requires Wf(f) && Truncating(f, g, i, r) && Wf(g) && f.inodes[i].addrs[INDIRECT] != 0
    ensures f.inodes[i].addrs[INDIRECT] < |f.d| == |g.d|
            && g.d[f.inodes[i].addrs[INDIRECT]] == f.d[f.inodes[i].addrs[INDIRECT]]
  {
    hide Slot, Allocated, SameTree;
    SlotOnDisk(f, i, INDIRECT);
  }

  lemma TruncHas(f: Fs, g: Fs, i: nat)
    requires Wf(f) && Wf(g) && i < |f.inodes| && Truncating(f, g, i, SLOTS + 1) && SyncedBut(f, i)
    ensures SyncedBut(g, i) && i < |g.inodes| && g.inodes[i] == Emptied(f.inodes[i])
  {
    hide Slot, View, Allocated, GetDinode;
    InodesElsewhere(f, g, i);
  }

  lemma TruncDone(f: Fs, g: Fs, h: Fs, i: nat)
    requires Wf(f) && i < |f.inodes| && Truncating(f, g, i, SLOTS + 1) && SameTree(g, h)
    ensures OthersSame(f, h, i) && h.owner == f.owner - BlocksFrom(f, i, 0)
  {
    hide Slot, View, Wf;
    Unlink(f, i);
    forall j | 0 <= j < |f.inodes| && j != i ensures SameView(f, h, j) {
      assert SameView(f, Unlinked(f, i), j) && SameView(Unlinked(f, i), g, j) && SameView(g, h, j);
    }
  }

  lemma InRange(f: Fs, i: nat)
    requires Wf(f) && i < |f.inodes|
    ensures IBlock(f.sb, i) < |f.d| && IBlock(f.sb, i) < f.sb.bmapstart
  {
  }

  lemma Retyped(f: Fs, i: nat, di: Dinode)
    requires Wf(f) && i < |f.inodes| && SyncedBut(f, i) && di.typ == 0 && di.size == 0 && di.addrs == seq(13, _ => 0)
             && f.inodes[i].addrs == di.addrs
    ensures Wf(WithInode(f, i, di)) && SyncedBut(WithInode(f, i, di), i) && Shape(WithInode(f, i, di))
    ensures forall j :: 0 <= j < |f.inodes| ==> SameView(f, WithInode(f, i, di), j)
  {
    hide Slot, View, Allocated, GetDinode;
    InodeChanged(f, i, di);
  }

  lemma Born(f: Fs, i: nat, di: Dinode)
    requires Wf(f) && i < |f.inodes| && f.inodes[i].typ == 0 && di.typ != 0 && di.size == 0
             && di.addrs == seq(13, _ => 0)
    requires forall j :: 0 <= j < |f.inodes| ==> IBlock(f.sb, j) < |f.d| && OnDisk(f, j) == f.inodes[j]
    ensures Wf(WithInode(f, i, di)) && SyncedBut(WithInode(f, i, di), i) && Shape(WithInode(f, i, di))
    ensures forall j :: 0 <= j < |f.inodes| ==> SameView(f, WithInode(f, i, di), j)
  {
    hide Slot, View, Allocated, GetDinode;
    assert f.inodes[i].addrs == di.addrs by {
      forall s | 0 <= s <= INDIRECT ensures f.inodes[i].addrs[s] == di.addrs[s] {}
    }
    InodeChanged(f, i, di);
  }

  lemma SameAfterStore(f0: Fs, f: Fs, g: Fs, h: Fs, i: nat)
    requires OthersSame(f0, f, i) && i < |f.inodes| && |g.inodes| == |f.inodes| && g.sb == f.sb
    requires forall j :: 0 <= j < |f.inodes| ==> SameView(f, g, j) && (j != i ==> g.inodes[j] == f.inodes[j])
    requires SameTree(g, h) && g.owner == f.owner
    ensures OthersSame(f0, h, i) && h.owner == f.owner && h.inodes == g.inodes
  {
    hide Slot, View;
    forall j | 0 <= j < |f0.inodes| && j != i ensures SameView(f0, h, j) {
      assert SameView(f0, f, j) && SameView(f, g, j) && SameView(g, h, j);
    }
  }

  lemma OthersStart(f: Fs, i: nat)
    ensures OthersSame(f, f, i)
  {
    hide View;
  }

  lemma OthersTwice(f: Fs, g: Fs, h: Fs, i: nat)
    requires OthersSame(f, g, i) && OthersSame(g, h, i)
    ensures OthersSame(f, h, i)
  {
    hide View;
    forall j | 0 <= j < |f.inodes| && j != i
      ensures SameView(f, h, j)
    {
      assert SameView(f, g, j) && SameView(g, h, j);
    }
  }

  lemma InodeBlock(f: Fs, i: nat)
    requires Wf(f) && i < |f.inodes|
    ensures IBlock(f.sb, i) < f.sb.datastart && |f.d| == f.sb.size
  {
    hide OwnedOnce, BitmapExact, FilesWhole, FreeEmpty;
  }

  lemma SlotThere(f: Fs, i: nat, off: nat, tot: nat)
    requires Wf(f) && i < |f.inodes| && off <= f.inodes[i].size
    ensures off + tot < f.inodes[i].size ==>
              (off + tot) / BSIZE < MAXFILE && Slot(f, i, DataSlot((off + tot) / BSIZE)) != 0
    ensures off % BSIZE != 0 ==> off / BSIZE < MAXFILE && Slot(f, i, DataSlot(off / BSIZE)) != 0
  {
    hide Slot, Wf;
    if off + tot < f.inodes[i].size { FilledSlot(f, i, (off + tot) / BSIZE); }
    if off % BSIZE != 0 { FilledSlot(f, i, off / BSIZE); }
  }

  /** The block in which the copy fails begins after the last boundary before the first byte that is not there. */
  lemma FaultAt(off: nat, tot: nat, m: nat, g: nat)
    requires (tot == 0 || (off + tot) % BSIZE == 0) && (off + tot) % BSIZE + m <= BSIZE && tot <= g < tot + m
    ensures WholeBlocks(off, g) == tot
  {
    InBlock(off + tot, m, off + g);
    var q := (off + tot) / BSIZE;
    assert off + tot == BSIZE * q + (off + tot) % BSIZE && off + g == BSIZE * q + (off + g) % BSIZE;
  }

  lemma NextBytes(c: seq<byte>, off: nat, tot: nat, m: nat, k: nat)
    requires off + tot + m <= |c| && k <= m
    ensures c[off..off + tot] + c[off + tot..off + tot + m][..k] == c[off..off + (tot + k)]
  {
  }

  lemma NextPart(src: seq<byte>, tot: nat, m: nat)
    requires tot + m <= |src|
    ensures src[..tot] + src[tot..tot + m] == src[..tot + m]
  {
  }

  lemma SpliceNothing(c: seq<byte>, off: nat, src: seq<byte>)
    requires off <= |c|
    ensures Spliced(c, off, src[..0]) == c
  {
  }

  /** Splicing in the next part of src right after the last one. */
  lemma Appended(c: seq<byte>, off: nat, src: seq<byte>, i: nat, k: nat)
    requires i + k <= |src|
    ensures off <= |c| ==> off + i <= |Spliced(c, off, src[..i])|
    ensures off <= |c| ==>
              var s := Spliced(c, off, src[..i + k]);
              Spliced(Spliced(c, off, src[..i]), off + i, src[i..][..k]) == s == s[..Max(|c|, off + i + k)]
  {
    assert src[..i] + src[i..][..k] == src[..i + k];
    if off <= |c| { SpliceTwice(c, off, src[..i], src[i..][..k]); }
  }

  /** What a fault in one chunk leaves undone is less than a block. */
  lemma PartLeft(off: nat, i: nat, g: nat)
    requires i <= g
    ensures 0 <= g - i - WholeBlocks(off + i, g - i) <= (off + g) % BSIZE
  {
    assert off + i + (g - i) == off + g;
  }

  /** The bitmap blocks for new data blocks: one a turn, but the first block of an unaligned write exists. */
  function Fresh(turns: nat, aligned: nat): nat { if turns == 0 then 0 else if aligned == 0 then turns else turns - 1 }

  ghost function IndirectSet(ind: nat): set<nat> { if ind == 0 then {} else {ind} }

  function Gained(before: nat, after: nat): nat { if before == 0 && after != 0 then 1 else 0 }

  /** The blocks logged so far: one data block a turn, the bitmap blocks of new blocks, the indirect block. */
  ghost predicate Accounted(start: set<nat>, logged: set<nat>, data: set<nat>, marks: set<nat>, ind0: nat, ind: nat,
          turns: nat, news: nat) {
    && logged <= start + data + marks + IndirectSet(ind) && |data| <= turns
    && (ind0 != 0 ==> ind == ind0) && |marks| <= news + Gained(ind0, ind)
  }

  lemma CountNothing(start: set<nat>, ind: nat)
    ensures Accounted(start, start, {}, {}, ind, ind, 0, 0)
  {
  }

  lemma CountTurn(start: set<nat>, before: set<nat>, after: set<nat>, data: set<nat>, marks: set<nat>, mk: set<nat>,
          addr: set<nat>,
                  ind0: nat, ind: nat, ind1: nat, turns: nat, aligned: nat)
    requires Accounted(start, before, data, marks, ind0, ind, turns, Fresh(turns, aligned))
    requires after <= before + mk + IndirectSet(ind1) + addr && (ind != 0 ==> ind1 == ind) && |addr| <= 1
    requires |mk| <= |addr| + Gained(ind, ind1) && (turns == 0 && aligned != 0 ==> mk == {})
    ensures |addr| == 0 ==> Accounted(start, after, data, marks + mk, ind0, ind1, turns, Fresh(turns, aligned))
    ensures |addr| == 1 ==>
              Accounted(start, after, data + addr, marks + mk, ind0, ind1, turns + 1, Fresh(turns + 1, aligned))
  {
    SetsGrow(marks, mk);
    SetsGrow(data, addr);
    if |addr| == 0 { assert addr == {}; }
  }

  lemma SetsGrow(a: set<nat>, b: set<nat>)
    ensures |a + b| <= |a| + |b|
  {
    assert |a + b| == |a| + |b| - |a * b|;
  }

  lemma Total(a: set<nat>, b: set<nat>, c: set<nat>, e: set<nat>, all: set<nat>)
    requires all <= a + b + c + e
    ensures |all| <= |a| + |b| + |c| + |e|
  {
    SetsGrow(a, b);
    SetsGrow(a + b, c);
    SetsGrow(a + b + c, e);
    Fits(all, a + b + c + e);
  }

  lemma Fits(a: set<nat>, b: set<nat>)
    requires a <= b
    ensures |a| <= |b|
  {
    assert b == a + (b - a);
  }

  /** Every turn but the last ends at a block boundary. */
  ghost predicate Turns(off: nat, n: nat, tot: nat, turns: nat) {
    turns > 0 ==> (turns - 1) * BSIZE < off % BSIZE + tot && (tot < n ==> off % BSIZE + tot == turns * BSIZE)
  }

  lemma NoTurns(off: nat, n: nat)
    ensures Turns(off, n, 0, 0)
  {
  }

  lemma TurnStart(off: nat, n: nat, tot: nat, turns: nat)
    requires Turns(off, n, tot, turns) && tot < n
    ensures turns > 0 ==> (off + tot) % BSIZE == 0
  {
    var q := off / BSIZE;
    assert off == BSIZE * q + off % BSIZE;
    if turns > 0 { assert off + tot == BSIZE * (q + turns); }
  }

  lemma TurnEnd(off: nat, n: nat, tot: nat, m: nat, turns: nat)
    requires Turns(off, n, tot, turns) && tot < n && (turns == 0 ==> tot == 0)
    requires m == if n - tot < BSIZE - (off + tot) % BSIZE then n - tot else BSIZE - (off + tot) % BSIZE
    ensures Turns(off, n, tot + m, turns + 1)
  {
    TurnStart(off, n, tot, turns);
  }

  /** After any number of turns there is still room for the inode within the bound. */
  lemma WorstCase(off: nat, n: nat, tot: nat, turns: nat, total: nat)
    requires tot <= n && (turns == 0 <==> tot == 0)
    requires turns > 0 ==> (turns - 1) * BSIZE < off % BSIZE + tot
    requires total <= turns + Fresh(turns, if off % BSIZE == 0 then 0 else 1) + 2
    requires turns == 0 && n == 0 ==> total <= 2
    ensures total < LogBound(off, n)
  {
    if n > 0 {
      var x := off % BSIZE + n + BSIZE - 1;
      assert turns * BSIZE <= x;
      assert turns <= x / BSIZE;
      assert x / BSIZE >= 1;
    }
  }

  lemma UsedKept(f: Fs, m: Fs, g: Fs)
    requires Wf(f) && Wf(g) && m.owner == f.owner && m.extra == f.extra == g.extra && m.sb == f.sb && SameTree(m, g)
    ensures AllUsed(f.sb, f.d, f.sb.size) ==> AllUsed(g.sb, g.d, g.sb.size)
  {
    hide Slot, View, Allocated, OwnedOnce, FilesWhole, FreeEmpty;
    if AllUsed(f.sb, f.d, f.sb.size) {
      forall x | 0 <= x < g.sb.size
        ensures BBlock(g.sb, x) < |g.d| && x < |g.d| && Allocated(g.sb, g.d, x)
      {
        BlocksInRange(g.sb, x);
      }
    }
  }

  /** What the loop of writei has logged: data blocks, bitmap blocks, and the indirect block it began with. */
  datatype Account = Account(start: set<nat>, data: set<nat>, marks: set<nat>, ind: nat, turns: nat)

  ghost predicate Progress(a: Account, logged: set<nat>, ind: nat, off: nat, n: nat, tot: nat) {
    && tot <= n && (a.turns == 0 <==> tot == 0) && Turns(off, n, tot, a.turns)
    && Accounted(a.start, logged, a.data, a.marks, a.ind, ind, a.turns, Fresh(a.turns, off % BSIZE))
  }

  lemma NoProgress(a: Account, off: nat, n: nat)
    requires a.data == a.marks == {} && a.turns == 0
    ensures Progress(a, a.start, a.ind, off, n, 0)
  {
    CountNothing(a.start, a.ind);
    NoTurns(off, n);
  }

  lemma AtBoundary(a: Account, logged: set<nat>, ind: nat, off: nat, n: nat, tot: nat)
    requires Progress(a, logged, ind, off, n, tot) && tot < n
    ensures tot == 0 || (off + tot) % BSIZE == 0
  {
    TurnStart(off, n, tot, a.turns);
  }

  /** A turn that found a block counts as one that filled it. */
  ghost function MoreProgress(a: Account, before: set<nat>, after: set<nat>, mk: set<nat>, data: set<nat>, ind: nat,
                              ind1: nat, off: nat, n: nat, tot: nat, m: nat): (r: Account)
    requires Progress(a, before, ind, off, n, tot) && tot < n
    requires m == InThisBlock(off + tot, n - tot)
    requires after <= before + mk + IndirectSet(ind1) + data && (ind != 0 ==> ind1 == ind) && |data| <= 1
    requires |mk| <= |data| + Gained(ind, ind1) && (tot == 0 && off % BSIZE != 0 ==> mk == {})
    ensures r.start == a.start && Progress(r, after, ind1, off, n, if |data| == 0 then tot else tot + m)
  {
    CountTurn(a.start, before, after, a.data, a.marks, mk, data, a.ind, ind, ind1, a.turns, off % BSIZE);
    TurnEnd(off, n, tot, m, a.turns);
    if |data| == 0 then a.(marks := a.marks + mk)
    else a.(data := a.data + data, marks := a.marks + mk, turns := a.turns + 1)
  }

  lemma Bounded(a: Account, logged: set<nat>, ind: nat, off: nat, n: nat, tot: nat)
    requires Progress(a, logged, ind, off, n, tot)
    ensures |logged| < |a.start| + LogBound(off, n)
  {
    hide LogBound;
    Total(a.start, a.data, a.marks, IndirectSet(ind), logged);
    WorstCase(off, n, tot, a.turns, |a.data| + |a.marks| + |IndirectSet(ind)|);
  }

  /** Setting a size that the written bytes cover keeps everything well-formed. */
  lemma SizeSet(f: Fs, g: Fs, i: nat, off: nat, part: seq<byte>, size: uint32)
    requires Wf(g) && Writing(f, g, i, off, part) && off <= f.inodes[i].size && off + |part| <= MAXBYTES
             && g.inodes[i].typ != 0
    requires SyncedBut(g, i) && Covered(f.inodes[i].size, off + |part|, size)
    ensures var h := WithInode(g, i, Sized(g.inodes[i], size)); Wf(h) && SyncedBut(h, i)
  {
    hide Slot, View, Allocated, OwnedOnce, BitmapExact, GetDinode;
    WholeFile(g, i);
    NoNewHoles(f, g, i, off, part, size);
    InodeChanged(g, i, Sized(g.inodes[i], size));
  }

  lemma DataKeepsInodes(f: Fs, i: nat, bn: nat, data: Block)
    requires Wf(f) && i < |f.inodes| && SyncedBut(f, i) && bn < MAXFILE && Slot(f, i, DataSlot(bn)) != 0
    ensures Slot(f, i, DataSlot(bn)) < |f.d|
    ensures var g := WithBlock(f, Slot(f, i, DataSlot(bn)), data);
            Shape(g) && SyncedBut(g, i) && Slot(g, i, DataSlot(bn)) == Slot(f, i, DataSlot(bn))
  {
    hide Slot, Wf, View;
    DataWritten(f, i, bn, data);
    var g := WithBlock(f, Slot(f, i, DataSlot(bn)), data);
    assert Shape(f) && Shape(g) by { ShapeOf(f); ShapeOf(g); }
    InodesElsewhere(f, g, i);
  }

  lemma ShapeOf(f: Fs)
    requires Wf(f)
    ensures Shape(f)
  {
  }

  lemma WholeFile(f: Fs, i: nat)
    requires Wf(f) && i < |f.inodes|
    ensures NoHoles(f.d, f.inodes[i]) && f.inodes[i].size <= MAXBYTES
  {
  }

  lemma FilledSlot(f: Fs, i: nat, bn: nat)
    requires Wf(f) && i < |f.inodes| && bn * BSIZE < f.inodes[i].size
    ensures bn < MAXFILE && Slot(f, i, DataSlot(bn)) != 0
  {
    hide SlotAddr, Allocated, OwnedOnce;
    assert NoHoles(f.d, f.inodes[i]);
  }

  /** A stretch of the contents inside one block is that stretch of the block. */
  lemma BlockOfContents(d: Image, di: Dinode, off: nat, m: nat)
    requires di.size <= MAXBYTES && off + m <= di.size && off % BSIZE + m <= BSIZE && m > 0
    ensures off / BSIZE < MAXFILE
            && Contents(d, di)[off..off + m] == View(d, di, off / BSIZE)[off % BSIZE..off % BSIZE + m]
  {
    hide View;
    var c, blk := Contents(d, di), View(d, di, off / BSIZE);
    var r, s := c[off..off + m], blk[off % BSIZE..off % BSIZE + m];
    forall k | 0 <= k < m ensures r[k] == s[k] {
      InBlock(off, m, off + k);
      assert c[off + k] == ByteAt(d, di, off + k);
    }
  }

  lemma NoneUsed(sb: Super, d: Image)
    ensures AllUsed(sb, d, 0)
  {
  }

  lemma OneMoreUsed(sb: Super, d: Image, n: nat)
    requires AllUsed(sb, d, n) && n < |d| && BBlock(sb, n) < |d| && Allocated(sb, d, n)
    ensures AllUsed(sb, d, n + 1)
  {
    hide Allocated;
  }

  lemma BitOf(sb: Super, d: Image, base: nat, bi: nat)
    requires base % BPB == 0 && bi < BPB && base + bi < |d| && BBlock(sb, base) < |d|
    ensures BBlock(sb, base + bi) == BBlock(sb, base)
    ensures Allocated(sb, d, base + bi) == Bit(d[BBlock(sb, base)][bi / 8], bi % 8)
  {
    hide Bit;
    SameBitmapBlock(base, bi);
  }

  lemma SlotOnDisk(f: Fs, i: nat, s: nat)
    requires Wf(f) && i < |f.inodes| && s < SLOTS
    ensures Slot(f, i, s) == 0 || f.sb.datastart <= Slot(f, i, s) < |f.d|
    ensures s <= INDIRECT ==> Slot(f, i, s) == f.inodes[i].addrs[s]
  {
    hide GetWord, Allocated, FilesWhole;
  }

  lemma EntryIsWord(f: Fs, i: nat, k: nat)
    requires Wf(f) && i < |f.inodes| && k < NINDIRECT && f.inodes[i].addrs[INDIRECT] != 0
    ensures f.inodes[i].addrs[INDIRECT] < |f.d| && f.inodes[i].addrs[INDIRECT] >= f.sb.datastart
    ensures Slot(f, i, INDIRECT + 1 + k) == GetWord(f.d[f.inodes[i].addrs[INDIRECT]], k)
  {
    SlotOnDisk(f, i, INDIRECT);
  }

  lemma EmptyIndirect(f: Fs, i: nat, k: nat)
    requires i < |f.inodes| && k < NINDIRECT
    ensures f.inodes[i].addrs[INDIRECT] == 0 ==> Slot(f, i, INDIRECT + 1 + k) == 0
  {
  }

  /** What EntryBlock has done once its last log_write is done. */
  lemma LinkTaken(f0: Fs, m: Fs, i: nat, k: nat, b: uint32)
    requires Wf(f0) && i < |f0.inodes| && k < NINDIRECT && f0.inodes[i].addrs[INDIRECT] != 0
             && Slot(f0, i, INDIRECT + 1 + k) == 0
    requires BBlock(f0.sb, b) < |f0.d| && b < |f0.d| && !Allocated(f0.sb, f0.d, b) && m == Taken(f0, b) && Wf(m)
             && SameTree(f0, m) && b !in f0.extra && m.d[b] == ZeroBlock()
    requires f0.inodes[i].typ != 0 && SyncedBut(f0, i) && forall x :: 0 <= x < f0.sb.bmapstart ==> m.d[x] == f0.d[x]
    ensures m.inodes == f0.inodes && f0.sb.datastart <= m.inodes[i].addrs[INDIRECT] < |m.d|
    ensures m.d[m.inodes[i].addrs[INDIRECT]] == f0.d[m.inodes[i].addrs[INDIRECT]]
    ensures var g := LinkedEntry(m, i, k, b);
            Wf(g) && Extended(f0, g, i) && Slot(g, i, INDIRECT + 1 + k) == b && SyncedBut(g, i)
  {
    hide Slot, SameFiles, GetWord, PutWord, OwnedOnce, FilesWhole, FreeEmpty, BitmapExact, Allocated, OneMore, PutBit;
    EntryIsWord(f0, i, k);
    TakenLeavesIndirect(f0, i, b);
    LinkEntry(m, i, k, b);
    var g := LinkedEntry(m, i, k, b);
    TakenAndGiven(f0, m, g, i, INDIRECT + 1 + k, b);
    InodesElsewhere(f0, g, i);
  }

  lemma TakenLeavesIndirect(f: Fs, i: nat, b: nat)
    requires Wf(f) && i < |f.inodes| && f.inodes[i].addrs[INDIRECT] != 0 && b < f.sb.size
    requires BBlock(f.sb, b) < |f.d| && !Allocated(f.sb, f.d, b)
    ensures f.inodes[i].addrs[INDIRECT] < |f.d|
            && Taken(f, b).d[f.inodes[i].addrs[INDIRECT]] == f.d[f.inodes[i].addrs[INDIRECT]]
  {
    hide Slot, GetWord, FilesWhole, FreeEmpty, OwnedOnce, PutBit;
    OwnedBlock(f, i);
  }

  /** The indirect block is neither a bitmap block nor one that is free. */
  lemma OwnedBlock(f: Fs, i: nat)
    requires Wf(f) && i < |f.inodes| && f.inodes[i].addrs[INDIRECT] != 0
    ensures f.inodes[i].addrs[INDIRECT] in f.owner && f.inodes[i].addrs[INDIRECT] < f.sb.size
    ensures forall x :: 0 <= x < f.sb.size ==> BBlock(f.sb, x) != f.inodes[i].addrs[INDIRECT]
  {
    hide Allocated, FilesWhole, GetWord;
    SlotOnDisk(f, i, INDIRECT);
    forall x | 0 <= x < f.sb.size ensures BBlock(f.sb, x) != f.inodes[i].addrs[INDIRECT] { BlocksInRange(f.sb, x); }
  }

  lemma SameBitmapBlock(base: nat, bi: nat)
    requires base % BPB == 0 && bi < BPB
    ensures (base + bi) / BPB == base / BPB && (base + bi) % BPB == bi
  {
    var q := base / BPB;
    assert base + bi == BPB * q + bi;
  }
}
