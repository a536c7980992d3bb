// The SLOB heap of kern/mm/kmalloc.c: a circular free list in address order with a roving start.
module SlobHeap {
  import opened Spans
  import opened Options

  const SLOB_UNIT := 8
  const PAGE_SIZE := 4096
  const PAGE_UNITS := 512

  function SlobUnits(size: nat): nat { (size + SLOB_UNIT - 1) / SLOB_UNIT }

  // struct slob_block; addresses count units of sizeof(slob_t) = 8 bytes
  datatype Block = Block(units: int, next: Addr)

  ghost function NextOf(s: seq<Blk>, i: nat): Addr
    requires i < |s|
  {
    if i + 1 < |s| then s[i + 1].addr else s[0].addr
  }

  // The structs in memory form the circular list of these blocks.
  ghost predicate Linked(m: map<Addr, Block>, s: seq<Blk>) {
    forall i {:trigger s[i]} :: 0 <= i < |s| ==> s[i].addr in m && m[s[i].addr] == Block(s[i].units, NextOf(s, i))
  }

  // The block the search stops at: the one before position k, the last one for k = 0.
  ghost function Before(s: seq<Blk>, k: nat): nat
    requires 0 < |s| && k <= |s|
  {
    if k == 0 then |s| - 1 else k - 1
  }

  // What the insertion writes: the header of b and of the block cur before it.
  ghost predicate Inserted(m: map<Addr, Block>, m': map<Addr, Block>, s: seq<Blk>, k: nat, b: Blk)
    requires 0 < |s| && k <= |s|
  {
    var c := s[Before(s, k)];
    var g := if TouchesHigh(s, k, b) then Block(b.units + s[k].units, NextOf(s, k))
             else Block(b.units, if k < |s| then s[k].addr else s[0].addr);
    && b.addr in m' && m'[b.addr] == g
    && c.addr in m' && m'[c.addr] == (if TouchesLow(s, k, b) then Block(c.units + g.units, g.next)
         else Block(c.units, b.addr))
    && forall a :: a in m && a != b.addr && a != c.addr ==> a in m' && m'[a] == m[a]
  }

  // Memory after blocks lo..hi of a circular list are replaced by g.
  ghost predicate Spliced(m: map<Addr, Block>, m': map<Addr, Block>, s: seq<Blk>, lo: nat, hi: nat, g: Blk)
    requires 0 < |s| && lo <= hi <= |s|
  {
    && g.addr in m' && m'[g.addr] == Block(g.units, if hi < |s| then s[hi].addr else if lo > 0 then s[0].addr
         else g.addr)
    && (forall i {:trigger s[i]} :: (0 <= i < lo || hi <= i < |s|) && i != Before(s, lo) ==>
        s[i].addr in m && s[i].addr in m' && m'[s[i].addr] == m[s[i].addr])
    && (var c := Before(s, lo);
        lo > 0 || hi < |s| ==> s[c].addr in m' && m'[s[c].addr] == Block(s[c].units, g.addr))
  }

  lemma SplicedLinked(m: map<Addr, Block>, m': map<Addr, Block>, s: seq<Blk>, lo: nat, hi: nat, g: Blk)
    requires 0 < |s| && lo <= hi <= |s| && Linked(m, s)
    requires Spliced(m, m', s, lo, hi, g)
    ensures Linked(m', s[..lo] + [g] + s[hi..])
  {
    var t := s[..lo] + [g] + s[hi..];
    forall i | 0 <= i < |t| ensures t[i].addr in m' && m'[t[i].addr] == Block(t[i].units, NextOf(t, i)) {
      if i < lo {
        assert t[i] == s[i];
      } else if i > lo {
        assert t[i] == s[hi + i - lo - 1];
      }
    }
  }

  lemma AddrsDiffer(s: seq<Blk>, k: nat, b: Blk)
    requires Canonical(s) && Gap(s, k, b)
    ensures forall i {:trigger s[i]} :: 0 <= i < |s| ==> s[i].addr != b.addr
    ensures forall i, j :: 0 <= i < |s| && 0 <= j < |s| && i != j ==> s[i].addr != s[j].addr
  {
    forall i | 0 <= i < |s| ensures s[i].addr != b.addr {
      if i < k {
        assert i < k - 1 ==> s[i].addr + s[i].units < s[k - 1].addr;
      } else {
        assert i > k ==> s[k].addr + s[k].units < s[i].addr;
      }
    }
    forall i, j | 0 <= i < |s| && 0 <= j < |s| && i != j ensures s[i].addr != s[j].addr {
      assert i < j ==> s[i].addr + s[i].units < s[j].addr;
      assert j < i ==> s[j].addr + s[j].units < s[i].addr;
    }
  }

  lemma InsertedLow(m: map<Addr, Block>, m': map<Addr, Block>, s: seq<Blk>, k: nat, b: Blk)
    requires Canonical(s) && Gap(s, k, b) && Linked(m, s) && 0 < |s| && TouchesLow(s, k, b)
    requires Inserted(m, m', s, k, b)
    ensures Spliced(m, m', s, k - 1, if TouchesHigh(s, k, b) then k + 1 else k, Grown(s, k, b))
  {
    AddrsDiffer(s, k, b);
    hide Canonical;
    assert m[s[Before(s, k - 1)].addr].next == s[k - 1].addr;
  }

  lemma InsertedApart(m: map<Addr, Block>, m': map<Addr, Block>, s: seq<Blk>, k: nat, b: Blk)
    requires Canonical(s) && Gap(s, k, b) && Linked(m, s) && 0 < |s| && !TouchesLow(s, k, b)
    requires Inserted(m, m', s, k, b) && (TouchesHigh(s, k, b) ==> |s| > 1)
    ensures Spliced(m, m', s, k, if TouchesHigh(s, k, b) then k + 1 else k, Grown(s, k, b))
  {
    AddrsDiffer(s, k, b);
    hide Canonical;
  }

  lemma InsertedLinked(m: map<Addr, Block>, m': map<Addr, Block>, s: seq<Blk>, k: nat, b: Blk)
    requires Canonical(s) && Gap(s, k, b) && Linked(m, s) && 0 < |s|
    requires Inserted(m, m', s, k, b) && (TouchesHigh(s, k, b) ==> |s| > 1)
    ensures Linked(m', Freed(s, k, b))
  {
    if TouchesLow(s, k, b) { InsertedLow(m, m', s, k, b); } else { InsertedApart(m, m', s, k, b); }
    hide Canonical, Inserted, Spliced;
    var lo, hi := if TouchesLow(s, k, b) then k - 1 else k, if TouchesHigh(s, k, b) then k + 1 else k;
    SplicedLinked(m, m', s, lo, hi, Grown(s, k, b));
  }

  // Block k unlinked by the block before it.
  lemma RemovedLinked(m: map<Addr, Block>, m': map<Addr, Block>, s: seq<Blk>, k: nat)
    requires 1 < |s| && k < |s| && Linked(m, s) && Canonical(s)
    requires var c := s[Before(s, k)];
             c.addr in m' && m'[c.addr] == Block(c.units, NextOf(s, k))
             && forall a :: a in m && a != c.addr ==> a in m' && m'[a] == m[a]
    ensures Linked(m', s[..k] + s[k + 1..])
  {
    AddrsDiffer(s, |s|, Blk(s[|s| - 1].addr + s[|s| - 1].units, 1));
    var t := s[..k] + s[k + 1..];
    forall i | 0 <= i < |t| ensures t[i].addr in m' && m'[t[i].addr] == Block(t[i].units, NextOf(t, i)) {
      RemovedEntry(m, m', s, k, i);
    }
  }

  lemma RemovedEntry(m: map<Addr, Block>, m': map<Addr, Block>, s: seq<Blk>, k: nat, i: nat)
    requires 1 < |s| && k < |s| && i + 1 < |s| && Linked(m, s)
    requires forall i, j :: 0 <= i < |s| && 0 <= j < |s| && i != j ==> s[i].addr != s[j].addr
    requires var c := s[Before(s, k)];
             c.addr in m' && m'[c.addr] == Block(c.units, NextOf(s, k))
             && forall a :: a in m && a != c.addr ==> a in m' && m'[a] == m[a]
    ensures var t := s[..k] + s[k + 1..]; t[i].addr in m' && m'[t[i].addr] == Block(t[i].units, NextOf(t, i))
  {
    var t, j := s[..k] + s[k + 1..], if i < k then i else i + 1;
    RemovedNext(s, k, i);
    assert s[j].addr in m && m[s[j].addr] == Block(s[j].units, NextOf(s, j));
    assert j != Before(s, k) ==> s[j].addr != s[Before(s, k)].addr;
    hide NextOf, Linked;
  }

  lemma RemovedNext(s: seq<Blk>, k: nat, i: nat)
    requires 1 < |s| && k < |s| && i + 1 < |s|
    ensures var t, j := s[..k] + s[k + 1..], if i < k then i else i + 1;
            t[i] == s[j] && NextOf(t, i) == NextOf(s, if j == Before(s, k) then k else j)
  {
    var t := s[..k] + s[k + 1..];
    assert t[0] == s[if k == 0 then 1 else 0];
    assert i + 1 < |t| ==> t[i + 1] == s[if i + 1 < k then i + 1 else i + 2];
  }

  // Memory after the first n units of block k are cut off.
  ghost predicate CutAt(m: map<Addr, Block>, m': map<Addr, Block>, s: seq<Blk>, k: nat, n: int)
    requires 0 < |s| && k < |s|
  {
    var c, b := s[Before(s, k)], s[k];
    && c.addr in m' && m'[c.addr] == Block(c.units, b.addr + n)
    && b.addr + n in m' && m'[b.addr + n] == Block(b.units - n, NextOf(s, k))
    && forall a :: a in m && a != c.addr && a != b.addr && a != b.addr + n ==> a in m' && m'[a] == m[a]
  }

  // The first n units of block k cut off: the rest takes its place in the list.
  lemma CutLinked(m: map<Addr, Block>, m': map<Addr, Block>, s: seq<Blk>, k: nat, n: int)
    requires 1 < |s| && k < |s| && Linked(m, s) && Canonical(s) && 0 < n < s[k].units && CutAt(m, m', s, k, n)
    ensures Linked(m', s[..k] + [Blk(s[k].addr + n, s[k].units - n)] + s[k + 1..])
  {
    AddrsApart(s, k, n);
    hide *;
    CutSpliced(m, m', s, k, n);
    SplicedLinked(m, m', s, k, k + 1, Blk(s[k].addr + n, s[k].units - n));
  }

  // The addresses of a list are different, and differ from the one n units into block k.
  ghost predicate Different(s: seq<Blk>, k: nat, n: int)
    requires k < |s|
  {
    && (forall i, j :: 0 <= i < |s| && 0 <= j < |s| && i != j ==> s[i].addr != s[j].addr)
    && forall i :: 0 <= i < |s| ==> s[i].addr != s[k].addr + n
  }

  lemma AddrsApart(s: seq<Blk>, k: nat, n: int)
    requires Canonical(s) && k < |s| && 0 < n < s[k].units
    ensures Different(s, k, n)
  {
    AddrsDiffer(s, |s|, Blk(s[|s| - 1].addr + s[|s| - 1].units, 1));
    forall i | 0 <= i < |s| ensures s[i].addr != s[k].addr + n {
      assert i > k ==> s[k].addr + s[k].units < s[i].addr;
      assert i < k ==> s[i].addr + s[i].units < s[k].addr;
    }
  }

  lemma CutSpliced(m: map<Addr, Block>, m': map<Addr, Block>, s: seq<Blk>, k: nat, n: int)
    requires 1 < |s| && k < |s| && Linked(m, s) && Different(s, k, n) && CutAt(m, m', s, k, n)
    ensures Spliced(m, m', s, k, k + 1, Blk(s[k].addr + n, s[k].units - n))
  {
    hide *;
    LinkedStructs(m, s);
    CutHeads(m, m', s, k, n);
    CutKept(m, m', s, k, n);
    IsSpliced(m, m', s, k, Blk(s[k].addr + n, s[k].units - n));
  }

  lemma IsSpliced(m: map<Addr, Block>, m': map<Addr, Block>, s: seq<Blk>, k: nat, g: Blk)
    requires 1 < |s| && k < |s| && s[Before(s, k)].addr in m'
    requires g.addr in m' && m'[g.addr] == Block(g.units, if k + 1 < |s| then s[k + 1].addr else s[0].addr)
    requires m'[s[Before(s, k)].addr] == Block(s[Before(s, k)].units, g.addr)
    requires forall i :: 0 <= i < |s| && i != k && i != Before(s, k) ==>
               s[i].addr in m && s[i].addr in m' && m'[s[i].addr] == m[s[i].addr]
    ensures Spliced(m, m', s, k, k + 1, g)
  {
  }

  lemma CutHeads(m: map<Addr, Block>, m': map<Addr, Block>, s: seq<Blk>, k: nat, n: int)
    requires 1 < |s| && k < |s| && CutAt(m, m', s, k, n)
    ensures var g, c := s[k].addr + n, s[Before(s, k)];
            && g in m' && m'[g] == Block(s[k].units - n, if k + 1 < |s| then s[k + 1].addr else s[0].addr)
            && c.addr in m' && m'[c.addr] == Block(c.units, g)
  {
  }

  lemma CutKept(m: map<Addr, Block>, m': map<Addr, Block>, s: seq<Blk>, k: nat, n: int)
    requires 1 < |s| && k < |s| && Different(s, k, n) && CutAt(m, m', s, k, n)
    requires forall i :: 0 <= i < |s| ==> s[i].addr in m
    ensures forall i :: 0 <= i < |s| && i != k && i != Before(s, k) ==>
              s[i].addr in m && s[i].addr in m' && m'[s[i].addr] == m[s[i].addr]
  {
    hide NextOf;
    forall i | 0 <= i < |s| && i != k && i != Before(s, k)
      ensures s[i].addr in m && s[i].addr in m' && m'[s[i].addr] == m[s[i].addr]
    {
      assert s[i].addr != s[k].addr && s[i].addr != s[Before(s, k)].addr;
    }
  }

  lemma LinkedStructs(m: map<Addr, Block>, s: seq<Blk>)
    requires Linked(m, s)
    ensures forall i :: 0 <= i < |s| ==> s[i].addr in m
  {
    hide NextOf;
  }

  // ---- tiling ----

  // Free and live blocks together cover exactly the units owned, each unit once; nothing
  // owned touches the arena block or lies at the null address.
  ghost predicate Tiled(free: seq<Blk>, live: map<Addr, int>, owned: iset<int>, arena: Addr) {
    && Shared(free, live, owned) && arena - 1 !in owned && arena + 1 !in owned
    && forall u :: u in owned ==> u > 0
  }

  // The address of some block of the list.
  ghost predicate Entered(s: seq<Blk>, a: Addr) {
    exists r :: 0 <= r < |s| && s[r].addr == a
  }

  // The circular list in memory, entered at slobfree, with the arena block in it.
  ghost predicate ListOk(m: map<Addr, Block>, free: seq<Blk>, slobfree: Addr, arena: Addr) {
    && Canonical(free) && Linked(m, free) && Blk(arena, 1) in free
    && Entered(free, slobfree)
  }

  // Live blocks keep their size in their header.
  ghost predicate Headers(m: map<Addr, Block>, live: map<Addr, int>) {
    forall a :: a in live ==> a in m && m[a].units == live[a]
  }

  // b can be freed next to the arena block without touching it.
  ghost predicate OffArena(b: Blk, arena: Addr) {
    b.units > 0 && !Inside(arena - 1, b) && !Inside(arena + 1, b)
  }

  lemma ArenaStays(s: seq<Blk>, k: nat, b: Blk, arena: Addr)
    requires Gap(s, k, b) && OffArena(b, arena) && Blk(arena, 1) in s
    ensures Blk(arena, 1) in Freed(s, k, b) && (TouchesHigh(s, k, b) ==> |s| > 1)
  {
    var r :| 0 <= r < |s| && s[r] == Blk(arena, 1);
    assert Inside(b.addr, b) && Inside(b.addr + b.units - 1, b);
    FreedAt(s, k, b, r);
  }

  // The block the search stopped at keeps its place after the insertion.
  lemma RoverStays(s: seq<Blk>, k: nat, b: Blk)
    requires Gap(s, k, b) && |s| > 0 && (TouchesHigh(s, k, b) ==> |s| > 1)
    ensures Entered(Freed(s, k, b), s[Before(s, k)].addr)
  {
    var t, c := Freed(s, k, b), Before(s, k);
    var lo, hi := if TouchesLow(s, k, b) then k - 1 else k, if TouchesHigh(s, k, b) then k + 1 else k;
    if c < lo {
      assert t[c] == s[c];
    } else if c >= hi {
      assert t[c - hi + lo + 1] == s[c];
    } else {
      assert t[lo].addr == s[c].addr;
    }
  }

  // The arena block, too small to be taken, and the rover survive an allocation from block k.
  lemma TakenKeeps(s: seq<Blk>, k: nat, n: int, arena: Addr)
    requires Blk(arena, 1) in s && k < |s| && 0 < n <= s[k].units && s[k] != Blk(arena, 1)
    ensures |s| > 1 && Blk(arena, 1) in Taken(s, k, n)
    ensures Entered(Taken(s, k, n), s[Before(s, k)].addr)
  {
    var a :| 0 <= a < |s| && s[a] == Blk(arena, 1);
    var t := TakenAt(s, k, n, a);
    var c := TakenAt(s, k, n, Before(s, k));
  }

  lemma TiledTaken(s: seq<Blk>, s': seq<Blk>, live: map<Addr, int>, owned: iset<int>, arena: Addr, a: Addr, n: int)
    requires Tiled(s, live, owned, arena) && n > 0
    requires Space(s) == Space(s') + Units(Blk(a, n)) && Space(s') !! Units(Blk(a, n))
    ensures Tiled(s', live[a := n], owned, arena) && a !in live && a > 0
  {
    SharedTaken(s, s', live, owned, a, n);
    assert Inside(a, Blk(a, n)) && a in Units(Blk(a, n));
  }

  lemma TiledGrown(s: seq<Blk>, s': seq<Blk>, live: map<Addr, int>, owned: iset<int>, arena: Addr, b: Blk)
    requires Tiled(s, live, owned, arena) && Units(b) !! owned && OffArena(b, arena) && b.addr > 0
    requires Space(s') == Space(s) + Units(b)
    ensures Tiled(s', live, owned + Units(b), arena)
  {
  }

  // A page merged into the list leaves a block of at least its size.
  lemma GrownIsLarge(s: seq<Blk>, k: nat, b: Blk)
    requires Canonical(s) && Gap(s, k, b) && b.units >= PAGE_UNITS
    ensures HasLarge(Freed(s, k, b))
  {
    if k > 0 { Neighbours(s, k - 1); }
    if k < |s| { Neighbours(s, k); }
    var lo := if TouchesLow(s, k, b) then k - 1 else k;
    assert Freed(s, k, b)[lo] == Grown(s, k, b);
  }

  // Structs outside the free space are untouched.
  ghost predicate Kept(m: map<Addr, Block>, m': map<Addr, Block>, s: seq<Blk>) {
    forall a :: a in m && a !in Space(s) ==> a in m' && m'[a] == m[a]
  }

  ghost predicate KeptBut(m: map<Addr, Block>, m': map<Addr, Block>, s: seq<Blk>, b: Addr) {
    forall a :: a in m && a != b && a !in Space(s) ==> a in m' && m'[a] == m[a]
  }

  // Writing a header outside the free space does not touch the list.
  lemma ListKept(m: map<Addr, Block>, s: seq<Blk>, slobfree: Addr, arena: Addr, p: Addr, h: Block)
    requires ListOk(m, s, slobfree, arena) && p !in Space(s)
    ensures ListOk(m[p := h], s, slobfree, arena)
  {
    forall i | 0 <= i < |s| ensures s[i].addr != p {
      BlockInSpace(s, i);
    }
  }

  // What the list says of a block and the one before it.
  lemma Around(m: map<Addr, Block>, s: seq<Blk>, k: nat)
    requires Canonical(s) && Linked(m, s) && |s| > 1 && k < |s|
    ensures var c, b := s[Before(s, k)], s[k];
      && c.addr in m && m[c.addr] == Block(c.units, b.addr) && b.addr in m && m[b.addr] == Block(b.units, NextOf(s, k))
      && c.addr != b.addr && c.addr in Space(s) && b.addr in Space(s)
  {
    AddrsDiffer(s, |s|, Blk(s[|s| - 1].addr + s[|s| - 1].units, 1));
    BlockInSpace(s, k);
    BlockInSpace(s, Before(s, k));
  }

  lemma RestInside(s: seq<Blk>, k: nat, n: int)
    requires Canonical(s) && k < |s| && 0 < n < s[k].units
    ensures s[k].addr + n in Space(s)
    ensures s[Before(s, k)].addr != s[k].addr + n
  {
    assert Inside(s[k].addr + n, s[k]);
    var c := Before(s, k);
    assert c < k ==> s[c].addr + s[c].units < s[k].addr;
    assert k < c ==> s[k].addr + s[k].units < s[c].addr;
  }

  // prev->next = cur->next
  lemma Unlinked(m: map<Addr, Block>, m': map<Addr, Block>, s: seq<Blk>, k: nat)
    requires Canonical(s) && Linked(m, s) && |s| > 1 && k < |s|
    requires var c := s[Before(s, k)]; c.addr in m && m' == m[c.addr := m[c.addr].(next := NextOf(s, k))]
    ensures Linked(m', Taken(s, k, s[k].units)) && Kept(m, m', s)
    ensures s[k].addr in m' && m'[s[k].addr].units == s[k].units
  {
    Around(m, s, k);
    RemovedLinked(m, m', s, k);
  }

  // The rest of block k, from cur + n on, becomes a block of its own.
  lemma Fragmented(m: map<Addr, Block>, m': map<Addr, Block>, s: seq<Blk>, k: nat, n: int)
    requires Canonical(s) && Linked(m, s) && |s| > 1 && k < |s| && 0 < n < s[k].units
    requires s[Before(s, k)].addr in m && s[k].addr in m
    requires m' == m[s[Before(s, k)].addr := m[s[Before(s, k)].addr].(next := s[k].addr + n)]
                    [s[k].addr + n := Block(s[k].units - n, NextOf(s, k))]
                    [s[k].addr := m[s[k].addr].(units := n)]
    ensures Linked(m', Taken(s, k, n)) && Kept(m, m', s)
    ensures s[k].addr in m' && m'[s[k].addr].units == n
  {
    Around(m, s, k);
    RestInside(s, k, n);
    hide *;
    CutWritten(m, m', s, k, n);
    CutLinked(m, m', s, k, n);
    TakenPart(s, k, n);
  }

  lemma TakenPart(s: seq<Blk>, k: nat, n: int)
    requires k < |s| && s[k].units != n
    ensures Taken(s, k, n) == s[..k] + [Blk(s[k].addr + n, s[k].units - n)] + s[k + 1..]
  {
  }

  lemma CutWritten(m: map<Addr, Block>, m': map<Addr, Block>, s: seq<Blk>, k: nat, n: int)
    requires |s| > 1 && k < |s| && n > 0 && s[Before(s, k)].addr != s[k].addr && s[Before(s, k)].addr != s[k].addr + n
    requires s[Before(s, k)].addr in m && m[s[Before(s, k)].addr] == Block(s[Before(s, k)].units, s[k].addr)
    requires s[k].addr in m && m[s[k].addr] == Block(s[k].units, NextOf(s, k))
    requires s[Before(s, k)].addr in Space(s) && s[k].addr in Space(s) && s[k].addr + n in Space(s)
    requires m' == m[s[Before(s, k)].addr := m[s[Before(s, k)].addr].(next := s[k].addr + n)]
                    [s[k].addr + n := Block(s[k].units - n, NextOf(s, k))]
                    [s[k].addr := m[s[k].addr].(units := n)]
    ensures CutAt(m, m', s, k, n) && Kept(m, m', s)
    ensures s[k].addr in m' && m'[s[k].addr].units == n
  {
    hide Space, NextOf, Before;
  }

  ghost predicate HasLarge(s: seq<Blk>) {
    exists j :: 0 <= j < |s| && s[j].units >= PAGE_UNITS
  }

  // Positions from after r up to before i, going around the list.
  ghost predicate Passed(r: int, j: int, i: int) {
    if i > r then r < j < i else j > r || j < i
  }

  // The scan that started after block r has come to block i and found nothing large enough.
  ghost predicate Scanned(s: seq<Blk>, r: nat, i: nat, units: int) {
    r < |s| && i < |s| && forall j :: 0 <= j < |s| && Passed(r, j, i) ==> s[j].units < units
  }

  ghost function Round(s: seq<Blk>, i: nat): nat {
    if i + 1 < |s| then i + 1 else 0
  }

  lemma ScanStep(s: seq<Blk>, r: nat, i: nat, units: int)
    requires Scanned(s, r, i, units) && s[i].units < units
    ensures i == r ==> AllSmall(s, units)
    ensures i != r ==> Scanned(s, r, Round(s, i), units)
    ensures Before(s, Round(s, i)) == i && NextOf(s, i) == s[Round(s, i)].addr
  {
  }

  lemma ScanStart(s: seq<Blk>, r: nat, units: int)
    requires r < |s|
    ensures Scanned(s, r, Round(s, r), units) && Before(s, Round(s, r)) == r && NextOf(s, r) == s[Round(s, r)].addr
  {
  }

  lemma BlockAt(m: map<Addr, Block>, s: seq<Blk>, slobfree: Addr, arena: Addr, r: nat, i: nat)
    requires ListOk(m, s, slobfree, arena) && r < |s| && i < |s|
    ensures s[i].addr in m && m[s[i].addr] == Block(s[i].units, NextOf(s, i))
    ensures s[i].addr == s[r].addr <==> i == r
  {
    AddrsDiffer(s, |s|, Blk(s[|s| - 1].addr + s[|s| - 1].units, 1));
  }

  ghost predicate AllSmall(s: seq<Blk>, units: int) {
    forall b :: b in s ==> b.units < units
  }

  lemma NotAllSmall(s: seq<Blk>, units: int)
    requires HasLarge(s) && units <= PAGE_UNITS
    ensures !AllSmall(s, units)
  {
    var j :| 0 <= j < |s| && s[j].units >= PAGE_UNITS;
    assert s[j] in s;
  }

  // The scan that started after slobfree has come to cur, the block after prev.
  ghost predicate Scan(s: seq<Blk>, slobfree: Addr, r: nat, i: nat, prev: Addr, cur: Addr, units: int) {
    && Scanned(s, r, i, units) && s[r].addr == slobfree && cur == s[i].addr && prev == s[Before(s, i)].addr
  }

  // The address tests of the code, in terms of the position.
  lemma MergeFacts(m: map<Addr, Block>, s: seq<Blk>, k: nat, b: Blk)
    requires Canonical(s) && Linked(m, s) && Gap(s, k, b) && |s| > 0
    ensures var c := s[Before(s, k)];
      && c.addr in m && m[c.addr] == Block(c.units, if k < |s| then s[k].addr else s[0].addr) && c.addr != b.addr
      && (c.addr + c.units == b.addr <==> TouchesLow(s, k, b))
      && (b.addr + b.units == m[c.addr].next <==> TouchesHigh(s, k, b))
    ensures k < |s| ==> s[k].addr in m && m[s[k].addr] == Block(s[k].units, NextOf(s, k)) && s[k].addr != b.addr
  {
    AddrsDiffer(s, k, b);
    if k == |s| && k > 1 {
      assert s[0].addr + s[0].units < s[k - 1].addr;
    }
  }

  // The header of b after the first merge, and of the block before it after the second.
  ghost function HighJoined(m: map<Addr, Block>, b: Addr, cur: Addr): Block
    requires b in m && cur in m && (b + m[b].units == m[cur].next ==> m[cur].next in m)
  {
    var next := m[cur].next;
    if b + m[b].units == next then Block(m[b].units + m[next].units, m[next].next) else Block(m[b].units, next)
  }

  ghost function LowJoined(m: map<Addr, Block>, b: Addr, cur: Addr): Block
    requires b in m && cur in m
  {
    if cur + m[cur].units == b then Block(m[cur].units + m[b].units, m[b].next) else Block(m[cur].units, b)
  }

  lemma Merged(m: map<Addr, Block>, m': map<Addr, Block>, s: seq<Blk>, k: nat, b: Blk)
    requires Canonical(s) && Linked(m, s) && Gap(s, k, b) && |s| > 0
    requires b.addr in m && m[b.addr].units == b.units && s[Before(s, k)].addr in m
    requires var cur := s[Before(s, k)].addr;
      && (b.addr + m[b.addr].units == m[cur].next ==> m[cur].next in m)
      && (var m1 := m[b.addr := HighJoined(m, b.addr, cur)];
          m' == m1[cur := LowJoined(m1, b.addr, cur)])
    ensures Inserted(m, m', s, k, b)
    ensures forall a :: a in m && a != b.addr && a != s[Before(s, k)].addr ==> a in m' && m'[a] == m[a]
  {
    MergeFacts(m, s, k, b);
    hide Canonical, Linked, Gap;
  }

  // What a page obtained for the heap satisfies: it is new, and not next to the arena block.
  ghost predicate FreshPage(p: Addr, owned: iset<int>, arena: Addr) {
    Units(Blk(p, PAGE_UNITS)) !! owned && OffArena(Blk(p, PAGE_UNITS), arena) && p > 0
  }

  lemma HeaderOf(m: map<Addr, Block>, live: map<Addr, int>, b: Addr)
    requires Headers(m, live) && b in live
    ensures b in m && m[b].units == live[b]
  {
  }

  // The first block after the rover that is large enough.
  ghost predicate FirstFit(s: seq<Blk>, slobfree: Addr, k: nat, units: int) {
    k < |s| && s[k].units >= units && exists r: nat :: r < |s| && s[r].addr == slobfree && Scanned(s, r, k, units)
  }

  lemma FreshHeaders(s: seq<Blk>, live: map<Addr, int>, owned: iset<int>, arena: Addr)
    requires Tiled(s, live, owned, arena)
    ensures forall a :: a in live ==> a !in Space(s) && a in owned
  {
    forall a | a in live ensures a !in Space(s) && a in owned {
      LiveBlock(live, a);
      assert Inside(a, Blk(a, live[a])) && a in Units(Blk(a, live[a]));
    }
  }

  lemma FreeFacts(free: seq<Blk>, live: map<Addr, int>, owned: iset<int>, arena: Addr, b: Addr)
    requires Tiled(free, live, owned, arena) && b in live
    ensures OffArena(Blk(b, live[b]), arena) && Space(free) !! Units(Blk(b, live[b]))
    ensures forall a :: a in live ==> a !in Space(free)
  {
    LiveBlock(live, b);
    forall u | Inside(u, Blk(b, live[b])) ensures u in owned {
      assert u in Units(Blk(b, live[b]));
    }
    forall a | a in live ensures a !in Space(free) {
      LiveBlock(live, a);
      assert Inside(a, Blk(a, live[a])) && a in Units(Blk(a, live[a]));
    }
  }

  lemma HeadersKept(m: map<Addr, Block>, m': map<Addr, Block>, live: map<Addr, int>, live': map<Addr, int>,
                    s: seq<Blk>, b: Addr)
    requires Headers(m, live) && forall a :: a in live' ==> a in live && a != b && live'[a] == live[a] && a !in Space(s)
    requires KeptBut(m, m', s, b)
    ensures Headers(m', live')
  {
  }

  lemma GivenBack(m: map<Addr, Block>, m': map<Addr, Block>, s: seq<Blk>, s': seq<Blk>, live: map<Addr, int>,
                  owned: iset<int>, arena: Addr, b: Addr)
    requires Tiled(s, live, owned, arena) && Headers(m, live) && b in live && KeptBut(m, m', s, b)
    requires Space(s') == Space(s) + Units(Blk(b, live[b]))
    ensures Tiled(s', live - {b}, owned, arena) && Headers(m', live - {b})
  {
    SharedFreed(s, s', live, owned, b);
    FreeFacts(s, live, owned, arena, b);
    hide Space, Tiled;
    HeadersKept(m, m', live, live - {b}, s, b);
  }

  lemma ListParts(m: map<Addr, Block>, free: seq<Blk>, slobfree: Addr, arena: Addr)
    requires ListOk(m, free, slobfree, arena)
    ensures Canonical(free) && Linked(m, free) && Blk(arena, 1) in free
  {
  }

  lemma MoreThanOne(s: seq<Blk>, k: nat, n: int, arena: Addr)
    requires Blk(arena, 1) in s && k < |s| && 0 < n <= s[k].units && s[k] != Blk(arena, 1)
    ensures |s| > 1
  {
    var a :| 0 <= a < |s| && s[a] == Blk(arena, 1);
  }

  lemma ListTaken(m: map<Addr, Block>, m': map<Addr, Block>, s: seq<Blk>, slobfree: Addr, arena: Addr, k: nat, n: int)
    requires ListOk(m, s, slobfree, arena) && k < |s| && 0 < n <= s[k].units && s[k] != Blk(arena, 1)
    requires Linked(m', Taken(s, k, n))
    ensures ListOk(m', Taken(s, k, n), s[Before(s, k)].addr, arena)
  {
    TakenKeeps(s, k, n, arena);
    TakenCanonical(s, k, n);
  }

  lemma HeadersTaken(m: map<Addr, Block>, m': map<Addr, Block>, live: map<Addr, int>, b: Addr, n: int, s: seq<Blk>)
    requires Headers(m, live) && b in m' && m'[b].units == n && forall a :: a in live ==> a !in Space(s)
    requires Kept(m, m', s)
    ensures Headers(m', live[b := n])
  {
  }

  lemma KeptThrough(m: map<Addr, Block>, m': map<Addr, Block>, s: seq<Blk>, p: Addr, h: Block)
    requires KeptBut(m[p := h], m', s, p)
    ensures KeptBut(m, m', s, p)
  {
  }

  lemma PageApart(s: seq<Blk>, live: map<Addr, int>, owned: iset<int>, arena: Addr, p: Addr)
    requires Tiled(s, live, owned, arena) && FreshPage(p, owned, arena)
    ensures p !in Space(s) && OffArena(Blk(p, PAGE_UNITS), arena) && Space(s) !! Units(Blk(p, PAGE_UNITS))
  {
    assert Inside(p, Blk(p, PAGE_UNITS)) && p in Units(Blk(p, PAGE_UNITS));
  }

  lemma PageAdded(m: map<Addr, Block>, m': map<Addr, Block>, s: seq<Blk>, s': seq<Blk>, live: map<Addr, int>,
                  owned: iset<int>, arena: Addr, p: Addr)
    requires Tiled(s, live, owned, arena) && FreshPage(p, owned, arena) && Headers(m, live) && KeptBut(m, m', s, p)
    requires Space(s') == Space(s) + Units(Blk(p, PAGE_UNITS))
    ensures Tiled(s', live, owned + Units(Blk(p, PAGE_UNITS)), arena) && Headers(m', live)
  {
    FreshHeaders(s, live, owned, arena);
    assert Inside(p, Blk(p, PAGE_UNITS)) && p in Units(Blk(p, PAGE_UNITS));
    HeadersKept(m, m', live, live, s, p);
    hide Space, Units, Headers, LiveSpace, LiveApart;
    TiledGrown(s, s', live, owned, arena, Blk(p, PAGE_UNITS));
  }

  lemma SharedOfTiled(s: seq<Blk>, live: map<Addr, int>, owned: iset<int>, arena: Addr)
    requires Tiled(s, live, owned, arena)
    ensures Shared(s, live, owned)
  {
  }

  lemma LivePositive(s: seq<Blk>, live: map<Addr, int>, owned: iset<int>, arena: Addr, a: Addr)
    requires Tiled(s, live, owned, arena) && a in live
    ensures a > 0
  {
    FreshHeaders(s, live, owned, arena);
  }

  // The state of an allocator.
  datatype Heap = Heap(mem: map<Addr, Block>, slobfree: Addr, free: seq<Blk>, live: map<Addr, int>, owned: iset<int>)

  // What kmalloc comes to: an object, nothing, or a failed assertion.
  datatype KmallocResult = Object(at: Addr) | NoMemory | Panic

  lemma UnitsInPage(size: nat)
    requires 0 < size && size + SLOB_UNIT < PAGE_SIZE
    ensures 0 < SlobUnits(size) <= PAGE_UNITS && PAGE_UNITS * SLOB_UNIT == PAGE_SIZE
  {
  }

  // slob_free has put b in at position k and left the rover at the block in front of it.
  ghost predicate PutIn(s: seq<Blk>, k: nat, b: Blk, s': seq<Blk>, rover: Addr) {
    s != [] && Gap(s, k, b) && s' == Freed(s, k, b) && rover == s[Before(s, k)].addr
  }

  // slob_alloc has taken the first fitting block from the rover on and left the rover in front of it.
  ghost predicate Served(h: Heap, h': Heap, units: int, block: Addr, k: nat) {
    && FirstFit(h.free, h.slobfree, k, units) && block == h.free[k].addr
    && h'.free == Taken(h.free, k, units) && h'.slobfree == h.free[Before(h.free, k)].addr
    && block > 0 && block !in h.live && h'.live == h.live[block := units] && h'.owned == h.owned
  }

  // slob_alloc has given out the arena's own unit: it is unlinked from the free list, if it is not its
  // only block, and the rover stands in front of it.
  ghost predicate ArenaGiven(h: Heap, h': Heap, arena: Addr, units: int, k: nat) {
    && FirstFit(h.free, h.slobfree, k, units) && h.free[k] == Blk(arena, 1)
    && (var prev := h.free[Before(h.free, k)].addr;
        prev in h.mem && h' == Heap(h.mem[prev := h.mem[prev].(next := NextOf(h.free, k))], prev, h.free, h.live,
                                    h.owned))
  }

  // Then the arena is in no free list any more, or it is out and still free.
  lemma ArenaLost(h: Heap, h': Heap, arena: Addr, units: int, k: nat)
    requires ArenaGiven(h, h', arena, units, k) && Canonical(h.free)
    ensures units <= 1 && arena in Space(h'.free)
    ensures |h.free| > 1 ==> !Linked(h'.mem, h'.free)
    ensures |h.free| == 1 && Linked(h.mem, h.free) ==> h'.mem == h.mem && Linked(h'.mem, h'.free)
  {
    var s, c := h.free, Before(h.free, k);
    BlockInSpace(s, k);
    AddrsDiffer(s, |s|, Blk(s[|s| - 1].addr + s[|s| - 1].units, 1));
    assert s[c] == s[c];
    BeforeNext(s, k);
  }

  lemma ArenaFits(s: seq<Blk>, slobfree: Addr, k: nat, units: int, arena: Addr)
    requires FirstFit(s, slobfree, k, units) && s[k] == Blk(arena, 1)
    ensures units <= 1
  {
  }

  lemma Limits(size: nat)
    ensures SLOB_UNIT > 0 && (size + SLOB_UNIT + SLOB_UNIT >= PAGE_SIZE <==> PAGE_SIZE - 2 * SLOB_UNIT <= size)
    ensures size + SLOB_UNIT <= SLOB_UNIT ==> size == 0
  {
  }

  // That many units hold that many bytes, and not a whole unit more.
  predicate Holds(units: int, size: int) { size <= units * SLOB_UNIT < size + SLOB_UNIT }

  lemma UnitsHold(size: nat)
    ensures Holds(SlobUnits(size), size)
  {
  }

  lemma BehindHeader(units: int, size: int)
    requires Holds(units, size + SLOB_UNIT)
    ensures Holds(units - 1, size)
  {
  }

  lemma OneUnit(size: nat)
    requires 0 < size
    ensures SlobUnits(size) == 1 <==> size <= SLOB_UNIT
  {
  }

  lemma BeforeNext(s: seq<Blk>, k: nat)
    requires k < |s|
    ensures NextOf(s, Before(s, k)) == s[k].addr
    ensures |s| > 1 && (forall i, j :: 0 <= i < |s| && 0 <= j < |s| && i != j ==> s[i].addr != s[j].addr) ==>
              NextOf(s, k) != s[k].addr
  {
  }

  // The page p has come into the heap as slob_free puts it in.
  ghost predicate GrownBy(h: Heap, h': Heap, p: Addr) {
    && (exists g: nat :: PutIn(h.free, g, Blk(p, PAGE_UNITS), h'.free, h'.slobfree))
    && h'.owned == h.owned + Units(Blk(p, PAGE_UNITS)) && h'.live == h.live
  }

  ghost predicate HandedOut(h: Heap, h': Heap, arena: Addr, units: int, block: Addr, k: nat) {
    if block == arena then ArenaGiven(h, h', arena, units, k) else Served(h, h', units, block, k)
  }

  lemma IsHandedOut(h: Heap, h': Heap, arena: Addr, units: int, block: Addr, k: nat)
    requires if block == arena then ArenaGiven(h, h', arena, units, k) else Served(h, h', units, block, k)
    ensures HandedOut(h, h', arena, units, block, k)
  {
  }

  ghost predicate Enlarged(h: Heap, h': Heap, units: int, page: Option<Addr>) {
    page.Some? && AllSmall(h.free, units) && GrownBy(h, h', page.value) && !AllSmall(h'.free, units)
  }

  // What slob_alloc has done: it grew the heap exactly if no block was large enough and there was a
  // page, and took a block from there, or failed without a page and left everything as it was.
  ghost predicate Allocated(h: Heap, h': Heap, arena: Addr, units: int, page: Option<Addr>, block: Addr, grown: bool,
                            mid: Heap, k: nat)
  {
    && (grown <==> page.Some? && AllSmall(h.free, units))
    && (if grown then GrownBy(h, mid, page.value) else mid == h)
    && (block == 0 <==> page.None? && AllSmall(h.free, units))
    && (if block == 0 then h' == h else HandedOut(mid, h', arena, units, block, k))
  }

  lemma AllocatedFrom(h: Heap, mid: Heap, h': Heap, arena: Addr, units: int, page: Option<Addr>, block: Addr,
                      grown: bool, k: nat)
    requires if grown then Enlarged(h, mid, units, page) else mid == h
    requires !AllSmall(mid.free, units) && block > 0 && HandedOut(mid, h', arena, units, block, k)
    ensures Allocated(h, h', arena, units, page, block, grown, mid, k)
  {
  }

  lemma NotAllocated(h: Heap, mid: Heap, h': Heap, arena: Addr, units: int, page: Option<Addr>, grown: bool, k: nat)
    requires if grown then Enlarged(h, mid, units, page) else mid == h
    requires AllSmall(mid.free, units) && page.None? && h' == mid
    ensures Allocated(h, h', arena, units, page, 0, grown, mid, k)
  {
  }

  lemma UnitsGiven(h: Heap, h': Heap, arena: Addr, units: int, page: Option<Addr>, block: Addr, grown: bool,
                   mid: Heap, k: nat)
    requires Allocated(h, h', arena, units, page, block, grown, mid, k)
    ensures block != 0 && block != arena ==> block in h'.live && h'.live[block] == units
  {
  }

  lemma Enlarges(h: Heap, mid: Heap, h': Heap, units: int, page: Option<Addr>, grown: bool)
    requires page.Some? && !grown && mid == h && AllSmall(h.free, units)
    requires GrownBy(h, h', page.value) && !AllSmall(h'.free, units)
    ensures Enlarged(h, h', units, page)
  {
  }

  // A block has one place by address.
  lemma OneGap(s: seq<Blk>, k: nat, b: Blk)
    requires Canonical(s) && Gap(s, k, b)
    ensures forall j: nat :: Gap(s, j, b) ==> j == k
  {
  }

  class SlobAllocator {
    var mem: map<Addr, Block>
    var slobfree: Addr
    const arena: Addr
    ghost var free: seq<Blk>          // the free list in address order
    ghost var live: map<Addr, int>    // allocated blocks and their sizes in units
    ghost var owned: iset<int>        // the arena and the pages obtained

    constructor (arena: Addr)
      requires arena > 0
      ensures Valid() && free == [Blk(arena, 1)] && live == map[] && owned == iset{arena} && this.arena == arena
    {
      this.arena := arena;
      slobfree := arena;
      mem := map[arena := Block(1, arena)];
      free, live, owned := [Blk(arena, 1)], map[], iset{arena};
      new;
      SpaceOne(Blk(arena, 1));
      assert LiveSpace(live) == iset{};
      assert free[0] == Blk(arena, 1);
    }

    // The search loop of slob_free: the block after which b belongs.
    method FindGap(b: Addr, ghost n: int) returns (cur: Addr, ghost k: nat)
      requires Canonical(free) && Linked(mem, free) && n > 0 && Space(free) !! Units(Blk(b, n))
      requires Entered(free, slobfree)
      ensures Gap(free, k, Blk(b, n)) && |free| > 0 && cur == free[Before(free, k)].addr
      ensures forall j: nat :: Gap(free, j, Blk(b, n)) ==> cur == free[Before(free, j)].addr
    {
      k := GapExists(free, Blk(b, n));
      OneGap(free, k, Blk(b, n));
      cur := slobfree;
      ghost var i :| 0 <= i < |free| && free[i].addr == slobfree;
      ghost var t := Before(free, k);
      while !(b > cur && b < mem[cur].next)
        invariant 0 <= i < |free| && cur == free[i].addr && cur in mem && mem[cur].next == NextOf(free, i)
        decreases if i <= t then t - i else |free| - i + t
      {
        if cur >= mem[cur].next && (b > cur || b < mem[cur].next) {
          break;
        }
        cur := mem[cur].next;
        i := if i + 1 < |free| then i + 1 else 0;
      }
      assert i == t;
    }

    ghost predicate Valid()
      reads this
    {
      && ListOk(mem, free, slobfree, arena) && Tiled(free, live, owned, arena) && Headers(mem, live)
    }

    lemma Parts()
      requires Valid()
      ensures ListOk(mem, free, slobfree, arena) && Tiled(free, live, owned, arena) && Headers(mem, live)
      ensures Canonical(free)
    {
    }

    lemma Whole()
      requires ListOk(mem, free, slobfree, arena) && Tiled(free, live, owned, arena) && Headers(mem, live)
      ensures Valid()
    {
    }

    // slob_free after the size is in the header: put b in and merge it with its neighbours.
    method Insert(b: Addr, ghost n: int) returns (ghost k: nat)
      requires ListOk(mem, free, slobfree, arena)
      requires b in mem && mem[b].units == n && OffArena(Blk(b, n), arena) && Space(free) !! Units(Blk(b, n))
      modifies this`mem, this`slobfree, this`free
      ensures Gap(old(free), k, Blk(b, n)) && free == Freed(old(free), k, Blk(b, n))
      ensures ListOk(mem, free, slobfree, arena) && Space(free) == old(Space(free)) + Units(Blk(b, n))
      ensures old(free) != [] && slobfree == old(free)[Before(old(free), k)].addr
      ensures KeptBut(old(mem), mem, old(free), b)
    {
      hide Canonical, Linked, Gap, Inserted, Freed, TouchesHigh;
      var cur;
      cur, k := FindGap(b, n);
      ghost var s, m := free, mem;
      ArenaStays(s, k, Blk(b, n), arena);
      RoverStays(s, k, Blk(b, n));
      FreedCanonical(s, k, Blk(b, n));
      FreedSpace(s, k, Blk(b, n));
      Merge(b, cur, k, n);
      InsertedLinked(m, mem, s, k, Blk(b, n));
      free := Freed(s, k, Blk(b, n));
      slobfree := cur;
      BlockInSpace(s, Before(s, k));
    }

    // The two merges of slob_free.
    method Merge(b: Addr, cur: Addr, ghost k: nat, ghost n: int)
      requires Canonical(free) && Linked(mem, free) && Gap(free, k, Blk(b, n)) && |free| > 0
      requires b in mem && mem[b].units == n && cur == free[Before(free, k)].addr
      requires TouchesHigh(free, k, Blk(b, n)) ==> |free| > 1
      modifies this`mem
      ensures Inserted(old(mem), mem, free, k, Blk(b, n))
      ensures forall a :: a in old(mem) && a != b && a != cur ==> a in mem && mem[a] == old(mem)[a]
    {
      ghost var m := mem;
      MergeFacts(m, free, k, Blk(b, n));
      hide Canonical, Linked, Gap, TouchesLow, TouchesHigh, Before, NextOf;
      JoinNext(b, cur);
      JoinPrevious(b, cur);
      Merged(m, mem, free, k, Blk(b, n));
    }

    // The first merge: b with the block after it.
    method JoinNext(b: Addr, cur: Addr)
      requires b in mem && cur in mem
      requires b + mem[b].units == mem[cur].next ==> mem[cur].next in mem
      modifies this`mem
      ensures mem == old(mem)[b := HighJoined(old(mem), b, cur)]
    {
      var next := mem[cur].next;
      if b + mem[b].units == next {
        mem := mem[b := Block(mem[b].units + mem[next].units, mem[next].next)];
      } else {
        mem := mem[b := mem[b].(next := next)];
      }
    }

    // The second merge: the block before b with b.
    method JoinPrevious(b: Addr, cur: Addr)
      requires b in mem && cur in mem
      modifies this`mem
      ensures mem == old(mem)[cur := LowJoined(old(mem), b, cur)]
    {
      if cur + mem[cur].units == b {
        mem := mem[cur := Block(mem[cur].units + mem[b].units, mem[b].next)];
      } else {
        mem := mem[cur := mem[cur].(next := b)];
      }
    }

    // slob_free: a live block goes back to the free space.
    method Free(block: Addr, size: nat) returns (ghost k: nat)
      requires Valid()
      requires block != 0 ==> block in live && (size != 0 ==> SlobUnits(size) == live[block])
      modifies this`mem, this`slobfree, this`free, this`live
      ensures Valid()
      ensures block == 0 ==> mem == old(mem) && slobfree == old(slobfree) && free == old(free) && live == old(live)
      ensures block != 0 ==> live == old(live) - {block}
      ensures block != 0 ==> Space(free) == old(Space(free)) + Units(Blk(block, old(live)[block]))
      ensures block != 0 ==> PutIn(old(free), k, Blk(block, old(live)[block]), free, slobfree)
    {
      if block == 0 {
        return 0;
      }
      if size != 0 {
        StoreUnits(block, SlobUnits(size));
      }
      k := FreeBlock(block);
    }

    method PutBack(b: Addr, ghost n: int) returns (ghost k: nat)
      requires ListOk(mem, free, slobfree, arena)
      requires b in mem && mem[b].units == n && OffArena(Blk(b, n), arena) && Space(free) !! Units(Blk(b, n))
      modifies this`mem, this`slobfree, this`free
      ensures ListOk(mem, free, slobfree, arena) && Space(free) == old(Space(free)) + Units(Blk(b, n))
      ensures KeptBut(old(mem), mem, old(free), b) && PutIn(old(free), k, Blk(b, n), free, slobfree)
    {
      ghost var s := free;
      hide *;
      k := Insert(b, n);
      IsPutIn(s, k, Blk(b, n), free, slobfree);
    }

    lemma IsPutIn(s: seq<Blk>, k: nat, b: Blk, s': seq<Blk>, rover: Addr)
      requires s != [] && Gap(s, k, b) && s' == Freed(s, k, b) && rover == s[Before(s, k)].addr
      ensures PutIn(s, k, b, s', rover)
    {
    }

    method FreeBlock(block: Addr) returns (ghost k: nat)
      requires Valid() && block in live
      modifies this`mem, this`slobfree, this`free, this`live
      ensures Valid() && live == old(live) - {block}
      ensures Space(free) == old(Space(free)) + Units(Blk(block, old(live)[block]))
      ensures PutIn(old(free), k, Blk(block, old(live)[block]), free, slobfree)
    {
      ghost var s, l, m := free, live, mem;
      hide *;
      Parts();
      FreeFacts(free, live, owned, arena, block);
      HeaderOf(mem, live, block);
      k := PutBack(block, l[block]);
      live := live - {block};
      BackInList(m, s, l, block);
    }

    lemma BackInList(m: map<Addr, Block>, s: seq<Blk>, l: map<Addr, int>, block: Addr)
      requires Tiled(s, l, owned, arena) && Headers(m, l) && block in l && live == l - {block}
      requires ListOk(mem, free, slobfree, arena) && KeptBut(m, mem, s, block)
      requires Space(free) == Space(s) + Units(Blk(block, l[block]))
      ensures Valid()
    {
      hide *;
      GivenBack(m, mem, s, free, l, owned, arena, block);
      Whole();
    }

    // b->units = units, which the header already holds for a live block
    method StoreUnits(b: Addr, units: int)
      requires b in mem && mem[b].units == units
      modifies this`mem
      ensures mem == old(mem)
    {
      mem := mem[b := mem[b].(units := units)];
    }

    // Unlinking or fragmenting the block cur that was found after prev.
    method TakeList(prev: Addr, cur: Addr, units: int, ghost k: nat)
      requires ListOk(mem, free, slobfree, arena) && k < |free| && 0 < units <= free[k].units &&
        free[k] != Blk(arena, 1)
      requires cur == free[k].addr && prev == free[Before(free, k)].addr
      modifies this`mem, this`slobfree, this`free
      ensures ListOk(mem, free, slobfree, arena) && free == Taken(old(free), k, units) && slobfree == prev
      ensures cur in mem && mem[cur].units == units && Kept(old(mem), mem, old(free))
    {
      ghost var s, m := free, mem;
      hide *;
      ListParts(mem, free, slobfree, arena);
      MoreThanOne(s, k, units, arena);
      TakeBlock(prev, cur, units, k);
      slobfree := prev;
      free := Taken(s, k, units);
      ListTaken(m, mem, s, old(slobfree), arena, k, units);
    }

    // Exact fit or fragmenting.
    method TakeBlock(prev: Addr, cur: Addr, units: int, ghost k: nat)
      requires Canonical(free) && Linked(mem, free) && |free| > 1 && k < |free| && 0 < units <= free[k].units
      requires cur == free[k].addr && prev == free[Before(free, k)].addr
      modifies this`mem
      ensures Linked(mem, Taken(free, k, units)) && Kept(old(mem), mem, free)
      ensures cur in mem && mem[cur].units == units
    {
      hide *;
      Around(mem, free, k);
      if mem[cur].units == units {
        Unlink(prev, cur, k);
      } else {
        Fragment(prev, cur, units, k);
      }
    }

    method Unlink(prev: Addr, cur: Addr, ghost k: nat)
      requires Canonical(free) && Linked(mem, free) && |free| > 1 && k < |free|
      requires cur == free[k].addr && prev == free[Before(free, k)].addr
      modifies this`mem
      ensures Linked(mem, Taken(free, k, free[k].units)) && Kept(old(mem), mem, free)
      ensures cur in mem && mem[cur].units == free[k].units
    {
      hide *;
      Around(mem, free, k);
      mem := mem[prev := mem[prev].(next := mem[cur].next)];
      Unlinked(old(mem), mem, free, k);
    }

    method Fragment(prev: Addr, cur: Addr, units: int, ghost k: nat)
      requires Canonical(free) && Linked(mem, free) && |free| > 1 && k < |free| && 0 < units < free[k].units
      requires cur == free[k].addr && prev == free[Before(free, k)].addr
      modifies this`mem
      ensures Linked(mem, Taken(free, k, units)) && Kept(old(mem), mem, free)
      ensures cur in mem && mem[cur].units == units
    {
      hide *;
      Around(mem, free, k);
      RestInside(free, k, units);
      var rest := cur + units;
      mem := mem[prev := mem[prev].(next := rest)];
      mem := mem[rest := Block(mem[cur].units - units, mem[cur].next)];
      mem := mem[cur := mem[cur].(units := units)];
      Fragmented(old(mem), mem, free, k, units);
    }

    method Take(prev: Addr, cur: Addr, units: int, ghost k: nat)
      requires Valid() && k < |free| && 0 < units <= free[k].units && free[k] != Blk(arena, 1)
      requires cur == free[k].addr && prev == free[Before(free, k)].addr
      modifies this`mem, this`slobfree, this`free, this`live
      ensures Valid() && cur !in old(live) && live == old(live)[cur := units] && cur > 0
      ensures free == Taken(old(free), k, units) && owned == old(owned) && slobfree == prev
    {
      ghost var s, m, l := free, mem, live;
      hide *;
      Parts();
      TakenSpace(s, k, units);
      FreshHeaders(s, l, owned, arena);
      TakeList(prev, cur, units, k);
      live := live[cur := units];
      TiledTaken(s, free, l, owned, arena, cur, units);
      HeadersTaken(m, mem, l, cur, units, s);
      Whole();
    }

    // slob_free of a page just obtained
    method GrowList(p: Addr) returns (ghost k: nat)
      requires ListOk(mem, free, slobfree, arena) && p !in Space(free)
      requires OffArena(Blk(p, PAGE_UNITS), arena) && Space(free) !! Units(Blk(p, PAGE_UNITS))
      modifies this`mem, this`slobfree, this`free
      ensures ListOk(mem, free, slobfree, arena) && Space(free) == old(Space(free)) + Units(Blk(p, PAGE_UNITS))
      ensures KeptBut(old(mem), mem, old(free), p) && HasLarge(free)
      ensures PutIn(old(free), k, Blk(p, PAGE_UNITS), free, slobfree)
    {
      ghost var s, m := free, mem;
      ListKept(mem, s, slobfree, arena, p, Block(PAGE_UNITS, 0));
      mem := mem[p := Block(PAGE_UNITS, 0)];
      k := InsertPage(p);
      KeptThrough(m, mem, s, p, Block(PAGE_UNITS, 0));
    }

    method InsertPage(p: Addr) returns (ghost k: nat)
      requires ListOk(mem, free, slobfree, arena) && p in mem && mem[p].units == PAGE_UNITS
      requires OffArena(Blk(p, PAGE_UNITS), arena) && Space(free) !! Units(Blk(p, PAGE_UNITS))
      modifies this`mem, this`slobfree, this`free
      ensures ListOk(mem, free, slobfree, arena) && Space(free) == old(Space(free)) + Units(Blk(p, PAGE_UNITS))
      ensures KeptBut(old(mem), mem, old(free), p) && HasLarge(free)
      ensures PutIn(old(free), k, Blk(p, PAGE_UNITS), free, slobfree)
    {
      ghost var s := free;
      ListParts(mem, free, slobfree, arena);
      hide *;
      k := Insert(p, PAGE_UNITS);
      IsPutIn(s, k, Blk(p, PAGE_UNITS), free, slobfree);
      GrownIsLarge(s, k, Blk(p, PAGE_UNITS));
    }

    // slob_alloc's call slob_free(page, PAGE_SIZE)
    method Grow(p: Addr) returns (ghost k: nat)
      requires Valid() && FreshPage(p, owned, arena)
      modifies this`mem, this`slobfree, this`free, this`owned
      ensures Valid() && owned == old(owned) + Units(Blk(p, PAGE_UNITS)) && HasLarge(free)
      ensures Space(free) == old(Space(free)) + Units(Blk(p, PAGE_UNITS))
      ensures PutIn(old(free), k, Blk(p, PAGE_UNITS), free, slobfree)
    {
      ghost var s, m, o := free, mem, owned;
      hide *;
      Parts();
      PageApart(s, live, o, arena, p);
      k := GrowList(p);
      owned := owned + Units(Blk(p, PAGE_UNITS));
      PageAdded(m, mem, s, free, live, o, arena, p);
      Whole();
    }

    lemma ScanBegins(units: int) returns (r: nat, i: nat)
      requires Valid()
      ensures slobfree in mem && Scan(free, slobfree, r, i, slobfree, mem[slobfree].next, units)
    {
      r :| 0 <= r < |free| && free[r].addr == slobfree;
      i := Round(free, r);
      ScanStart(free, r, units);
      BlockAt(mem, free, slobfree, arena, r, r);
    }

    lemma ScanGoesOn(r: nat, i: nat, prev: Addr, cur: Addr, units: int)
      requires Valid() && Scan(free, slobfree, r, i, prev, cur, units)
      ensures r < |free| && i < |free| && cur == free[i].addr && prev == free[Before(free, i)].addr
      ensures cur in mem && mem[cur].units == free[i].units && (cur == slobfree <==> i == r)
      ensures free[i].units >= units ==> !AllSmall(free, units)
      ensures free[i].units < units && i == r ==> AllSmall(free, units)
      ensures free[i].units < units && i != r ==> Scan(free, slobfree, r, Round(free, i), cur, mem[cur].next, units)
    {
      BlockAt(mem, free, slobfree, arena, r, i);
      if free[i].units >= units {
        assert free[i] in free;
      } else {
        ScanStep(free, r, i, units);
      }
    }

    // The scan of slob_alloc, from the block after slobfree to slobfree.
    method Search(units: int) returns (prev: Addr, cur: Addr, fits: bool, ghost k: nat)
      requires Valid()
      ensures fits ==> k < |free| && free[k].units >= units && FirstFit(free, slobfree, k, units)
      ensures fits ==> cur == free[k].addr && prev == free[Before(free, k)].addr
      ensures !fits <==> AllSmall(free, units)
    {
      ghost var r: nat, i: nat := ScanBegins(units);
      prev := slobfree;
      cur := mem[prev].next;
      hide Valid, Scan, AllSmall, Before;
      while true
        invariant Scan(free, slobfree, r, i, prev, cur, units)
        decreases if i <= r then r - i else |free| - i + r
      {
        ScanGoesOn(r, i, prev, cur, units);
        if mem[cur].units >= units {
          return prev, cur, true, i;
        }
        if cur == slobfree {
          return prev, cur, false, i;
        }
        prev, cur, i := cur, mem[cur].next, Round(free, i);
      }
    }

    // The whole state of the heap.
    ghost function Now(): Heap
      reads this
    {
      Heap(mem, slobfree, free, live, owned)
    }

    // slob_alloc with align 0; page is what __slob_get_free_page would return. The scan ends,
    // a page is obtained at most once and only when no block is large enough.
    method Alloc(size: nat, page: Option<Addr>) returns (block: Addr, ghost grown: bool, ghost mid: Heap, ghost k: nat)
      requires Valid() && 0 < size && size + SLOB_UNIT < PAGE_SIZE
      requires page.Some? ==> FreshPage(page.value, owned, arena)
      modifies this`mem, this`slobfree, this`free, this`live, this`owned
      ensures Allocated(old(Now()), Now(), arena, SlobUnits(size), page, block, grown, mid, k)
      ensures block != 0 && block != arena ==>
                block in live && Holds(live[block], size)
      ensures block != arena ==> Valid()
      ensures block == arena ==> size <= SLOB_UNIT && (|mid.free| > 1 ==> !Valid())
    {
      var units := SlobUnits(size);
      ghost var h := Now();
      UnitsInPage(size);
      NowIs();
      hide *;
      grown, mid := false, h;
      while true
        invariant Valid() && mid == Now() && (if grown then Enlarged(h, mid, units, page) else mid == h)
        invariant !grown ==> page.Some? ==> FreshPage(page.value, owned, arena)
        decreases !grown
      {
        var fits;
        block, fits, k := SearchAndTake(units);
        if fits {
          AllocatedFrom(h, mid, Now(), arena, units, page, block, grown, k);
          UnitsGiven(h, Now(), arena, units, page, block, grown, mid, k);
          NowIs();
          UnitsHold(size);
          OneUnit(size);
          return;
        }
        if page.None? {
          block := 0;
          ArenaPositive();
          NotAllocated(h, mid, Now(), arena, units, page, grown, k);
          return;
        }
        GrowOnce(page.value, units, grown);
        Enlarges(h, mid, Now(), units, page, grown);
        grown, mid := true, Now();
      }
    }

    lemma NowIs()
      ensures Now() == Heap(mem, slobfree, free, live, owned)
    {
    }

    // The growth of slob_alloc, never for the second time.
    method GrowOnce(p: Addr, units: int, ghost grown: bool)
      requires Valid() && units <= PAGE_UNITS && AllSmall(free, units) && !grown && FreshPage(p, owned, arena)
      modifies this`mem, this`slobfree, this`free, this`owned
      ensures Valid() && GrownBy(old(Now()), Now(), p) && !AllSmall(free, units)
    {
      ghost var h := Now();
      NowIs();
      hide *;
      ghost var g := Grow(p);
      NotAllSmall(free, units);
      IsGrownBy(h, p, g);
    }

    lemma IsGrownBy(h: Heap, p: Addr, g: nat)
      requires PutIn(h.free, g, Blk(p, PAGE_UNITS), free, slobfree)
      requires owned == h.owned + Units(Blk(p, PAGE_UNITS)) && live == h.live
      ensures GrownBy(h, Now(), p)
    {
    }

    // One pass of slob_alloc over the list.
    method SearchAndTake(units: int) returns (block: Addr, fits: bool, ghost k: nat)
      requires Valid() && 0 < units
      modifies this`mem, this`slobfree, this`free, this`live
      ensures fits <==> !AllSmall(old(free), units)
      ensures if fits then block > 0 && HandedOut(old(Now()), Now(), arena, units, block, k) else Now() == old(Now())
      ensures !fits || block != arena ==> Valid()
      ensures fits && block == arena ==> units == 1 && (|old(free)| > 1 ==> !Valid())
    {
      ghost var h := Now();
      NowIs();
      hide *;
      var prev, cur;
      prev, cur, fits, k := Search(units);
      if fits {
        block := cur;
        FoundArena(k);
        if cur != arena {
          Take(prev, cur, units, k);
          IsServed(h, units, block, k);
        } else {
          TakeArena(prev, cur, units, k);
        }
        IsHandedOut(h, Now(), arena, units, block, k);
      } else {
        block := 0;
      }
    }

    lemma FoundArena(k: nat)
      requires Valid() && k < |free|
      ensures arena > 0 && (free[k].addr == arena <==> free[k] == Blk(arena, 1))
    {
      Parts();
      ArenaPositive();
      var a :| 0 <= a < |free| && free[a] == Blk(arena, 1);
      BlockAt(mem, free, slobfree, arena, k, a);
    }

    lemma ArenaPositive()
      requires Valid()
      ensures arena > 0
    {
      var a :| 0 <= a < |free| && free[a] == Blk(arena, 1);
      BlockInSpace(free, a);
    }

    // The same writes when the block found is the arena's: an exact fit, for one unit only.
    method TakeArena(prev: Addr, cur: Addr, units: int, ghost k: nat)
      requires Valid() && 0 < units && FirstFit(free, slobfree, k, units) && free[k] == Blk(arena, 1)
      requires cur == free[k].addr && prev == free[Before(free, k)].addr
      modifies this`mem, this`slobfree
      ensures ArenaGiven(old(Now()), Now(), arena, units, k) && units == 1
      ensures |free| > 1 ==> !Valid()
    {
      ghost var h := Now();
      BlockAt(mem, free, slobfree, arena, k, k);
      BlockAt(mem, free, slobfree, arena, k, Before(free, k));
      ArenaFits(free, slobfree, k, units, arena);
      Parts();
      hide Valid, Canonical, FirstFit, NextOf, Before, ListOk, Tiled, Headers;
      mem := mem[prev := mem[prev].(next := mem[cur].next)];
      slobfree := prev;
      IsArenaGiven(h, units, k);
      ArenaLost(h, Now(), arena, units, k);
      if |free| > 1 { NotValidNow(); }
    }

    lemma NotValidNow()
      requires !Linked(mem, free)
      ensures !Valid()
    {
    }

    lemma IsArenaGiven(h: Heap, units: int, k: nat)
      requires FirstFit(h.free, h.slobfree, k, units) && h.free[k] == Blk(arena, 1) &&
        h.free[Before(h.free, k)].addr in h.mem
      requires slobfree == h.free[Before(h.free, k)].addr &&
        mem == h.mem[slobfree := h.mem[slobfree].(next := NextOf(h.free, k))]
      requires free == h.free && live == h.live && owned == h.owned
      ensures ArenaGiven(h, Now(), arena, units, k)
    {
    }

    lemma IsServed(h: Heap, units: int, block: Addr, k: nat)
      requires k < |h.free| && FirstFit(h.free, h.slobfree, k, units) && block == h.free[k].addr
      requires free == Taken(h.free, k, units) && slobfree == h.free[Before(h.free, k)].addr
      requires block > 0 && block !in h.live && live == h.live[block := units] && owned == h.owned
      ensures Served(h, Now(), units, block, k)
    {
    }

    // The small path of kmalloc, taken for these sizes: a header unit in front of the object. The
    // assertion of slob_alloc demands another unit, and fails for the last eight sizes.
    method Kmalloc(size: nat, page: Option<Addr>)
      returns (r: KmallocResult, ghost block: Addr, ghost grown: bool, ghost mid: Heap, ghost k: nat)
      requires Valid() && size < PAGE_SIZE - SLOB_UNIT
      requires page.Some? ==> FreshPage(page.value, owned, arena)
      modifies this`mem, this`slobfree, this`free, this`live, this`owned
      ensures (r == Panic <==> PAGE_SIZE - 2 * SLOB_UNIT <= size) && (r == Panic ==> Now() == old(Now()))
      ensures r != Panic ==> Allocated(old(Now()), Now(), arena, SlobUnits(size + SLOB_UNIT), page, block, grown, mid,
                                       k)
      ensures r != Panic ==> r == if block == 0 then NoMemory else Object(block + 1)
      ensures r.Object? && block != arena ==> block in live && Holds(live[block] - 1, size)
      ensures block != arena ==> Valid()
      ensures block == arena ==> size == 0 && (|mid.free| > 1 ==> !Valid())
    {
      ArenaPositive();
      Limits(size);
      hide *;
      block, grown, mid, k := 0, false, Now(), 0;
      if size + SLOB_UNIT + SLOB_UNIT >= PAGE_SIZE {
        return Panic, block, grown, mid, k;
      }
      r, block, grown, mid, k := KmallocUnits(size, page);
    }

    // The header unit and the object behind it.
    method KmallocUnits(size: nat, page: Option<Addr>)
      returns (r: KmallocResult, ghost block: Addr, ghost grown: bool, ghost mid: Heap, ghost k: nat)
      requires Valid() && size + SLOB_UNIT + SLOB_UNIT < PAGE_SIZE
      requires page.Some? ==> FreshPage(page.value, owned, arena)
      modifies this`mem, this`slobfree, this`free, this`live, this`owned
      ensures Allocated(old(Now()), Now(), arena, SlobUnits(size + SLOB_UNIT), page, block, grown, mid, k)
      ensures r == if block == 0 then NoMemory else Object(block + 1)
      ensures r.Object? && block != arena ==> block in live && Holds(live[block] - 1, size)
      ensures block != arena ==> Valid()
      ensures block == arena ==> size == 0 && (|mid.free| > 1 ==> !Valid())
    {
      hide Valid, Allocated, SlobUnits, FreshPage, Now, Holds;
      var m;
      m, grown, mid, k := Alloc(size + SLOB_UNIT, page);
      block := m;
      if block != 0 && block != arena {
        BehindHeader(live[block], size);
      }
      r := if m == 0 then NoMemory else Object(m + 1);
    }

    // kfree of an object that kmalloc's small path returned
    method Kfree(obj: Addr)
      requires Valid() && (obj != 0 ==> obj - 1 in live)
      modifies this`mem, this`slobfree, this`free, this`live
      ensures Valid()
      ensures obj == 0 ==> mem == old(mem) && slobfree == old(slobfree) && free == old(free) && live == old(live)
      ensures obj != 0 ==> live == old(live) - {obj - 1}
      ensures obj != 0 ==> Space(free) == old(Space(free)) + Units(Blk(obj - 1, old(live)[obj - 1]))
    {
      hide *;
      if obj != 0 {
        Parts();
        LivePositive(free, live, owned, arena, obj - 1);
        ghost var k := Free(obj - 1, 0);
      }
    }

    // An allocation that obtained no page is undone exactly by freeing the block.
    method AllocThenFree(size: nat) returns (block: Addr)
      requires Valid() && 0 < size && size + SLOB_UNIT < PAGE_SIZE
      modifies this`mem, this`slobfree, this`free, this`live, this`owned
      ensures block != arena ==> Valid() && free == old(free) && live == old(live) && owned == old(owned)
      ensures block == arena ==> size <= SLOB_UNIT
    {
      hide *;
      ghost var grown, mid, k, j;
      ghost var h := Now();
      NowIs();
      Parts();
      block, grown, mid, k := Alloc(size, None);
      if block == arena {
        return;
      }
      BackTo(h, SlobUnits(size), block, grown, mid, k);
      j := Free(block, size);
      assert live == old(live);
      Parts();
      assert Shared(free, live, owned) && Shared(old(free), live, owned) by {
        SharedOfTiled(free, live, owned, arena);
        SharedOfTiled(old(free), live, owned, arena);
      }
      FreeListDetermined(free, old(free), live, owned);
    }

    lemma BackTo(h: Heap, units: int, block: Addr, grown: bool, mid: Heap, k: nat)
      requires Allocated(h, Now(), arena, units, None, block, grown, mid, k) && block != arena
      ensures owned == h.owned && (block == 0 ==> free == h.free && live == h.live)
      ensures block != 0 ==> block in live && live[block] == units && live - {block} == h.live
    {
    }
  }

  // The largest request that kmalloc serves from a fresh heap, and the next one.
  method KmallocLimit(arena: Addr, page: Addr) returns (below: KmallocResult, at: KmallocResult)
    requires arena > 0 && FreshPage(page, iset{arena}, arena)
    ensures below.Object? && at == Panic
  {
    var heap := new SlobAllocator(arena);
    ghost var block, grown, mid, k;
    at, block, grown, mid, k := heap.Kmalloc(4080, Some(page));
    below, block, grown, mid, k := heap.Kmalloc(4079, Some(page));
  }
  // A request of size 0 on a fresh heap is answered with the arena's own unit, which stays free.
  method KmallocZero(arena: Addr) returns (r: KmallocResult)
    requires arena > 0
    ensures r == Object(arena + 1)
  {
    var heap := new SlobAllocator(arena);
    assert heap.free[0] in heap.free;
    ghost var block, grown, mid, k;
    r, block, grown, mid, k := heap.Kmalloc(0, None);
  }
}
