// Page tables and reference counts of kern/mm/pmm.c, and dup_mmap and exit_mmap of kern/mm/vmm.c.
module PageTables {
  import opened Options

  const NPTEENTRY: int := 1024
  const USER_FIRST: int := 0x200      // first user page: USERBASE / PGSIZE
  const USER_LAST: int := 0xB0000     // page behind the last user page: USERTOP / PGSIZE

  datatype Frame = Frame(number: int)
  datatype Dir = Dir(number: int)     // a page directory

  // Pages are numbered by their linear address divided by PGSIZE.
  function Pdx(v: int): int { v / NPTEENTRY }
  function Ptx(v: int): int { v % NPTEENTRY }

  // Permission bits of an entry besides the present bit; extra stands for bits outside PTE_USER.
  datatype Perm = Perm(write: bool, user: bool, extra: bool)

  function UserBits(p: Perm): Perm { p.(extra := false) }

  // A page directory entry and a page table entry, by their places; absent ones are not present.
  datatype PdePlace = PdePlace(dir: Dir, index: int)
  datatype Slot = Slot(table: Frame, index: int)
  datatype Leaf = Leaf(frame: Frame, perm: Perm)

  type Pdes = map<PdePlace, Frame>
  type Ptes = map<Slot, Leaf>

  ghost predicate IsTable(pde: Pdes, f: Frame) { exists k :: k in pde && pde[k] == f }

  ghost function Users(pte: Ptes, f: Frame): set<Slot> { set s | s in pte && pte[s].frame == f }

  // The entry that maps page v in directory d.
  function SlotOf(pde: Pdes, d: Dir, v: int): Option<Slot> {
    var k := PdePlace(d, Pdx(v));
    if k in pde then Some(Slot(pde[k], Ptx(v))) else None
  }

  function Entry(pde: Pdes, pte: Ptes, d: Dir, v: int): Option<Leaf> {
    var s := SlotOf(pde, d, v);
    if s.Some? && s.value in pte then Some(pte[s.value]) else None
  }

  // No two directory entries share a table, and every leaf entry belongs to a table in use.
  ghost predicate Tables(pde: Pdes, pte: Ptes, frames: set<Frame>) {
    && (forall k, l :: k in pde && l in pde && pde[k] == pde[l] ==> k == l)
    && (forall k :: k in pde ==> pde[k] in frames && 0 <= k.index)
    && (forall s :: s in pte ==> IsTable(pde, s.table) && 0 <= s.index < NPTEENTRY)
    && (forall s :: s in pte ==> pte[s].frame in frames && !IsTable(pde, pte[s].frame))
  }

  // ref counts the entries that map a data frame; a table is referenced once.
  ghost predicate Counted(pde: Pdes, pte: Ptes, ref: map<Frame, int>, frames: set<Frame>) {
    forall f :: f in frames ==> f in ref && ref[f] == if IsTable(pde, f) then 1 else |Users(pte, f)|
  }

  // A frame is free exactly when it is no table, is not mapped, and nobody holds it.
  ghost predicate Conserved(pde: Pdes, pte: Ptes, free: set<Frame>, held: set<Frame>, frames: set<Frame>) {
    && free <= frames && held <= frames
    && (forall f :: f in frames ==> (f in free <==> !IsTable(pde, f) && Users(pte, f) == {} && f !in held))
    && (forall f :: f in held ==> !IsTable(pde, f) && Users(pte, f) == {})
  }

  lemma UsersWith(pte: Ptes, s: Slot, l: Leaf, f: Frame)
    ensures Users(pte[s := l], f) == if l.frame == f then Users(pte, f) + {s} else Users(pte, f) - {s}
  {
  }

  lemma UsersWithout(pte: Ptes, s: Slot, f: Frame)
    ensures Users(pte - {s}, f) == Users(pte, f) - {s}
  {
  }

  // Different pages of the user part have different entries.
  lemma SlotsDiffer(pde: Pdes, pte: Ptes, frames: set<Frame>, d: Dir, v: int, e: Dir, w: int)
    requires Tables(pde, pte, frames) && SlotOf(pde, d, v).Some? && SlotOf(pde, d, v) == SlotOf(pde, e, w) &&
      0 <= v && 0 <= w
    ensures d == e && v == w && SlotOf(pde, d, v) == Some(Slot(pde[PdePlace(d, v / 1024)], v % 1024))
  {
    assert v == Pdx(v) * NPTEENTRY + Ptx(v) && w == Pdx(w) * NPTEENTRY + Ptx(w);
  }

  // Removing the leaf entry at s.
  lemma RemovedTables(pde: Pdes, pte: Ptes, frames: set<Frame>, s: Slot)
    requires Tables(pde, pte, frames)
    ensures Tables(pde, pte - {s}, frames)
  {
  }

  lemma RemovedCount(pde: Pdes, pte: Ptes, ref: map<Frame, int>, frames: set<Frame>, s: Slot)
    requires Tables(pde, pte, frames) && Counted(pde, pte, ref, frames) && s in pte
    ensures var f := pte[s].frame; f in ref && ref[f] > 0 && Counted(pde, pte - {s}, ref[f := ref[f] - 1], frames)
    ensures var f := pte[s].frame; ref[f] - 1 == 0 <==> Users(pte - {s}, f) == {}
  {
    var f := pte[s].frame;
    assert s in Users(pte, f);
    forall g | g in frames ensures Users(pte - {s}, g) == if g == f then Users(pte, f) - {s} else Users(pte, g) {
      UsersWithout(pte, s, g);
    }
  }

  lemma RemovedFree(pde: Pdes, pte: Ptes, free: set<Frame>, held: set<Frame>, frames: set<Frame>, s: Slot)
    requires Tables(pde, pte, frames) && Conserved(pde, pte, free, held, frames) && s in pte
    ensures var f := pte[s].frame; f !in free
    ensures var f := pte[s].frame;
      Conserved(pde, pte - {s}, if Users(pte - {s}, f) == {} then free + {f} else free, held, frames)
  {
    var f := pte[s].frame;
    assert s in Users(pte, f) && f in frames && !IsTable(pde, f);
    OtherUsers(pte, s);
    hide Users, IsTable, Tables;
  }

  lemma OtherUsers(pte: Ptes, s: Slot)
    requires s in pte
    ensures forall g :: g != pte[s].frame ==> Users(pte - {s}, g) == Users(pte, g)
  {
    forall g | g != pte[s].frame ensures Users(pte - {s}, g) == Users(pte, g) {
      UsersWithout(pte, s, g);
      assert s !in Users(pte, g);
    }
  }

  // A new leaf entry at s, which was not present, for the frame f.
  lemma AddedTables(pde: Pdes, pte: Ptes, frames: set<Frame>, s: Slot, l: Leaf)
    requires Tables(pde, pte, frames) && IsTable(pde, s.table) && 0 <= s.index < NPTEENTRY
    requires l.frame in frames && !IsTable(pde, l.frame)
    ensures Tables(pde, pte[s := l], frames)
  {
  }

  lemma AddedCount(pde: Pdes, pte: Ptes, ref: map<Frame, int>, frames: set<Frame>, s: Slot, l: Leaf)
    requires Counted(pde, pte, ref, frames) && s !in pte && l.frame in frames && !IsTable(pde, l.frame)
    ensures l.frame in ref && Counted(pde, pte[s := l], ref[l.frame := ref[l.frame] + 1], frames)
  {
    forall g | g in frames ensures Users(pte[s := l], g) == if g == l.frame then Users(pte, g) + {s}
      else Users(pte, g) {
      UsersWith(pte, s, l, g);
    }
    assert s !in Users(pte, l.frame);
  }

  lemma AddedFree(pde: Pdes, pte: Ptes, free: set<Frame>, held: set<Frame>, frames: set<Frame>, s: Slot, l: Leaf)
    requires Conserved(pde, pte, free, held, frames) && s !in pte && l.frame in frames && l.frame !in free
    ensures Conserved(pde, pte[s := l], free, held - {l.frame}, frames)
  {
    forall g ensures Users(pte[s := l], g) == if g == l.frame then Users(pte, g) + {s} else Users(pte, g) {
      UsersWith(pte, s, l, g);
    }
    assert s in Users(pte[s := l], l.frame);
  }

  // The frame f, held so far, becomes the table at k.
  lemma NewTable(pde: Pdes, pte: Ptes, ref: map<Frame, int>, free: set<Frame>, held: set<Frame>, frames: set<Frame>,
                 k: PdePlace, f: Frame)
    requires Tables(pde, pte, frames) && Counted(pde, pte, ref, frames) && Conserved(pde, pte, free, held, frames)
    requires k !in pde && f in frames && f in free && 0 <= k.index
    ensures Tables(pde[k := f], pte, frames) && Counted(pde[k := f], pte, ref[f := 1], frames)
    ensures Conserved(pde[k := f], pte, free - {f}, held, frames)
  {
    var pde' := pde[k := f];
    forall g ensures IsTable(pde', g) <==> IsTable(pde, g) || g == f {
      if IsTable(pde, g) {
        var l :| l in pde && pde[l] == g;
        assert pde'[l] == g;
      }
      assert pde'[k] == f;
    }
    forall s | s in pte ensures pte[s].frame != f {
      assert pte[s].frame == f ==> s in Users(pte, f);
    }
  }

  // The table at k, which holds no entry, is given back.
  lemma TableGone(pde: Pdes, pte: Ptes, ref: map<Frame, int>, free: set<Frame>, held: set<Frame>, frames: set<Frame>,
                  k: PdePlace)
    requires Tables(pde, pte, frames) && Counted(pde, pte, ref, frames) && Conserved(pde, pte, free, held, frames)
    requires k in pde && forall s :: s in pte ==> s.table != pde[k]
    ensures pde[k] !in free && Tables(pde - {k}, pte, frames) && Counted(pde - {k}, pte, ref[pde[k] := 0], frames)
    ensures Conserved(pde - {k}, pte, free + {pde[k]}, held, frames)
  {
    var f, pde' := pde[k], pde - {k};
    assert IsTable(pde, f);
    forall g ensures IsTable(pde', g) <==> IsTable(pde, g) && g != f {
      if IsTable(pde, g) && g != f {
        var l :| l in pde && pde[l] == g;
        assert l in pde' && pde'[l] == g;
      }
    }
    assert Users(pte, f) == {} by {
      assert forall s :: s in pte ==> pte[s].frame != f;
    }
  }

  // The maps differ in what they map at most at page v of d.
  ghost predicate OthersKept(pde: Pdes, pte: Ptes, pde': Pdes, pte': Ptes, d: Dir, v: int) {
    forall e, w :: 0 <= w && !(e == d && w == v) ==> Entry(pde', pte', e, w) == Entry(pde, pte, e, w)
  }

  lemma RemovedEntry(pde: Pdes, pte: Ptes, frames: set<Frame>, d: Dir, v: int, s: Slot)
    requires Tables(pde, pte, frames) && SlotOf(pde, d, v) == Some(s) && 0 <= v
    ensures Entry(pde, pte - {s}, d, v) == None && OthersKept(pde, pte, pde, pte - {s}, d, v)
  {
    forall e, w | 0 <= w && !(e == d && w == v) ensures Entry(pde, pte - {s}, e, w) == Entry(pde, pte, e, w) {
      if SlotOf(pde, e, w) == Some(s) { SlotsDiffer(pde, pte, frames, d, v, e, w); }
    }
  }

  lemma AddedEntry(pde: Pdes, pte: Ptes, frames: set<Frame>, d: Dir, v: int, s: Slot, l: Leaf)
    requires Tables(pde, pte, frames) && SlotOf(pde, d, v) == Some(s) && 0 <= v
    ensures Entry(pde, pte[s := l], d, v) == Some(l) && OthersKept(pde, pte, pde, pte[s := l], d, v)
  {
    forall e, w | 0 <= w && !(e == d && w == v) ensures Entry(pde, pte[s := l], e, w) == Entry(pde, pte, e, w) {
      if SlotOf(pde, e, w) == Some(s) { SlotsDiffer(pde, pte, frames, d, v, e, w); }
    }
  }

  lemma OtherTables(pde: Pdes, k: PdePlace, f: Frame)
    requires k !in pde
    ensures forall g :: g != f ==> (IsTable(pde[k := f], g) <==> IsTable(pde, g))
  {
    forall g | g != f ensures IsTable(pde[k := f], g) <==> IsTable(pde, g) {
      if IsTable(pde, g) {
        var l :| l in pde && pde[l] == g;
        assert pde[k := f][l] == g;
      }
    }
  }

  // A new, empty table maps nothing.
  lemma NewTableEntries(pde: Pdes, pte: Ptes, k: PdePlace, f: Frame)
    requires k !in pde && forall s :: s in pte ==> s.table != f
    ensures forall e, w :: Entry(pde[k := f], pte, e, w) == Entry(pde, pte, e, w)
  {
  }

  // The invariant of the page maps.
  ghost predicate Sound(pde: Pdes, pte: Ptes, ref: map<Frame, int>, free: set<Frame>, held: set<Frame>,
                        frames: set<Frame>) {
    Tables(pde, pte, frames) && Counted(pde, pte, ref, frames) && Conserved(pde, pte, free, held, frames)
  }

  lemma RemovedSound(pde: Pdes, pte: Ptes, ref: map<Frame, int>, free: set<Frame>, held: set<Frame>,
                     frames: set<Frame>, s: Slot)
    requires Sound(pde, pte, ref, free, held, frames) && s in pte
    ensures pte[s].frame in ref && pte[s].frame !in free && ref[pte[s].frame] > 0
    ensures var p := pte[s].frame;
      Sound(pde, pte - {s}, ref[p := ref[p] - 1], if ref[p] - 1 == 0 then free + {p} else free, held, frames)
  {
    RemovedTables(pde, pte, frames, s);
    RemovedCount(pde, pte, ref, frames, s);
    RemovedFree(pde, pte, free, held, frames, s);
    hide Tables, Counted, Conserved, Users;
  }

  lemma AddedSound(pde: Pdes, pte: Ptes, ref: map<Frame, int>, free: set<Frame>, held: set<Frame>, frames: set<Frame>,
                   s: Slot, l: Leaf)
    requires Sound(pde, pte, ref, free, held, frames) && s !in pte && IsTable(pde, s.table) && 0 <= s.index < NPTEENTRY
    requires l.frame in frames && l.frame !in free && !IsTable(pde, l.frame)
    ensures l.frame in ref && Sound(pde, pte[s := l], ref[l.frame := ref[l.frame] + 1], free, held - {l.frame}, frames)
  {
    AddedTables(pde, pte, frames, s, l);
    AddedCount(pde, pte, ref, frames, s, l);
    AddedFree(pde, pte, free, held, frames, s, l);
    hide Tables, Counted, Conserved, Users, IsTable;
  }

  // What page_insert makes of an entry for another frame p.
  lemma ReplacedSound(pde: Pdes, pte: Ptes, ref: map<Frame, int>, free: set<Frame>, held: set<Frame>,
                      frames: set<Frame>, s: Slot, l: Leaf, pte': Ptes, ref': map<Frame, int>, free': set<Frame>)
    requires Sound(pde, pte, ref, free, held, frames) && s in pte && pte[s].frame != l.frame
    requires IsTable(pde, s.table) && 0 <= s.index < NPTEENTRY && l.frame in frames && l.frame !in free &&
      !IsTable(pde, l.frame)
    requires pte[s].frame in ref && l.frame in ref && pte' == pte[s := l]
    requires var p := pte[s].frame;
      && ref' == ref[l.frame := ref[l.frame] + 1][p := ref[p] - 1]
      && free' == if ref[p] - 1 == 0 then free + {p} else free
    ensures Sound(pde, pte', ref', free', held - {l.frame}, frames)
  {
    hide *;
    var p := pte[s].frame;
    var pte1, ref1 := pte - {s}, ref[p := ref[p] - 1];
    RemovedSound(pde, pte, ref, free, held, frames, s);
    AddedSound(pde, pte1, ref1, free', held, frames, s, l);
    assert pte1[s := l] == pte';
    assert ref1[l.frame := ref1[l.frame] + 1] == ref';
  }

  // The reference counts and the free frames after page_insert of f at s.
  function RefAfter(pte: Ptes, ref: map<Frame, int>, s: Slot, f: Frame): map<Frame, int>
    requires f in ref && (s in pte ==> pte[s].frame in ref)
  {
    var ref1 := ref[f := ref[f] + 1];
    if s in pte then ref1[pte[s].frame := ref1[pte[s].frame] - 1] else ref1
  }

  function FreeAfter(pte: Ptes, ref: map<Frame, int>, free: set<Frame>, s: Slot, f: Frame): set<Frame>
    requires s in pte ==> pte[s].frame in ref
  {
    if s in pte && pte[s].frame != f && ref[pte[s].frame] - 1 == 0 then free + {pte[s].frame} else free
  }

  lemma SetSound(pde: Pdes, pte: Ptes, ref: map<Frame, int>, free: set<Frame>, held: set<Frame>, frames: set<Frame>,
                 s: Slot, l: Leaf)
    requires Sound(pde, pte, ref, free, held, frames)
    requires IsTable(pde, s.table) && 0 <= s.index < NPTEENTRY && l.frame in frames && l.frame !in free &&
      !IsTable(pde, l.frame)
    requires l.frame in ref && (s in pte ==> pte[s].frame in ref)
    ensures Sound(pde, pte[s := l], RefAfter(pte, ref, s, l.frame), FreeAfter(pte, ref, free, s, l.frame),
                  held - {l.frame}, frames)
  {
    var ref', free' := RefAfter(pte, ref, s, l.frame), FreeAfter(pte, ref, free, s, l.frame);
    if s !in pte {
      AddedSound(pde, pte, ref, free, held, frames, s, l);
    } else if pte[s].frame == l.frame {
      assert ref' == ref;
      Remapped(pde, pte, ref, free, held, frames, s, l);
    } else {
      hide Sound, IsTable;
      ReplacedSound(pde, pte, ref, free, held, frames, s, l, pte[s := l], ref', free');
    }
  }

  // The maps map the same pages.
  ghost predicate SameEntries(pde: Pdes, pte: Ptes, pde': Pdes, pte': Ptes) {
    forall e, w :: 0 <= w ==> Entry(pde', pte', e, w) == Entry(pde, pte, e, w)
  }

  lemma KeptThrough(pde: Pdes, pte: Ptes, pde1: Pdes, pte1: Ptes, pte': Ptes, d: Dir, v: int)
    requires SameEntries(pde, pte, pde1, pte1) && OthersKept(pde1, pte1, pde1, pte', d, v)
    ensures OthersKept(pde, pte, pde1, pte', d, v)
  {
  }

  // At most the table number i of d is new.
  ghost predicate Extended(pde: Pdes, pde': Pdes, d: Dir, i: int) {
    && (forall k :: k in pde ==> k in pde' && pde'[k] == pde[k])
    && (forall k :: k in pde' && k !in pde ==> k == PdePlace(d, i))
  }

  // Pages first..cur of d, up to end, are unmapped; nothing else has changed.
  ghost predicate Unmapped(pde: Pdes, pte: Ptes, pte': Ptes, d: Dir, first: int, cur: int, end: int) {
    forall e, w :: 0 <= w ==>
      Entry(pde, pte', e, w) == if e == d && first <= w < cur && w < end then None else Entry(pde, pte, e, w)
  }

  lemma UnmappedOne(pde: Pdes, pte: Ptes, pte1: Ptes, pte': Ptes, d: Dir, first: int, cur: int, end: int)
    requires Unmapped(pde, pte, pte1, d, first, cur, end) && 0 <= first <= cur < end
    requires Entry(pde, pte', d, cur) == None && OthersKept(pde, pte1, pde, pte', d, cur)
    ensures Unmapped(pde, pte, pte', d, first, cur + 1, end)
  {
    forall e, w | 0 <= w
      ensures Entry(pde, pte', e, w) == if e == d && first <= w < cur + 1 && w < end then None
        else Entry(pde, pte, e, w)
    {
      assert !(e == d && w == cur) ==> Entry(pde, pte', e, w) == Entry(pde, pte1, e, w);
    }
  }

  // The first page of the next table.
  function NextTable(v: int): int { (Pdx(v) + 1) * NPTEENTRY }

  // Where a table is missing, no page up to the next table is mapped.
  lemma NoTable(pde: Pdes, pte: Ptes, d: Dir, v: int, w: int)
    requires SlotOf(pde, d, v).None? && 0 <= v <= w < NextTable(v)
    ensures Entry(pde, pte, d, w) == None && Pdx(w) == Pdx(v)
  {
  }

  lemma NextTableFacts(v: int)
    requires 0 <= v
    ensures v < NextTable(v) && Pdx(NextTable(v)) == Pdx(v) + 1
  {
  }

  lemma UnmappedSkip(pde: Pdes, pte: Ptes, pte1: Ptes, d: Dir, first: int, cur: int, end: int)
    requires Unmapped(pde, pte, pte1, d, first, cur, end) && 0 <= first <= cur < end && SlotOf(pde, d, cur).None?
    ensures Unmapped(pde, pte, pte1, d, first, NextTable(cur), end)
  {
    forall e, w | 0 <= w
      ensures Entry(pde, pte1, e, w) == if e == d && first <= w < NextTable(cur) && w < end then None
        else Entry(pde, pte, e, w)
    {
      if e == d && cur <= w < NextTable(cur) { NoTable(pde, pte1, d, cur, w); }
    }
  }

  predicate MapsTo(o: Option<Leaf>, f: Frame) { o.Some? && o.value.frame == f }

  // No page but v of d is mapped to f.
  ghost predicate Sole(pde: Pdes, pte: Ptes, d: Dir, v: int, f: Frame) {
    forall e, w :: 0 <= w && MapsTo(Entry(pde, pte, e, w), f) ==> e == d && w == v
  }

  // Page v of d is mapped, alone, to a frame with the contents x, and may be written and used by a
  // user as l says, with no other bits set.
  ghost predicate CopyOf(pde: Pdes, pte: Ptes, data: map<Frame, int>, d: Dir, v: int, l: Leaf, x: int) {
    var o := Entry(pde, pte, d, v);
    && o.Some? && o.value.perm.write == l.perm.write && o.value.perm.user == l.perm.user && !o.value.perm.extra
    && o.value.frame in data && data[o.value.frame] == x
    && Sole(pde, pte, d, v, o.value.frame)
  }

  // The pages of the region have been copied from one directory to the other; what all other pages
  // are mapped to, and the contents there, are as before.
  ghost predicate Copied(pde: Pdes, pte: Ptes, data: map<Frame, int>, pde': Pdes, pte': Ptes, data': map<Frame, int>,
                         to: Dir, from: Dir, region: iset<int>)
  {
    && (forall w :: w in region && 0 <= w ==> PageCopied(pde, pte, data, pde', pte', data', to, from, w))
    && (forall e, w :: 0 <= w && !(e == to && w in region) ==> PageKept(pde, pte, data, pde', pte', data', e, w))
  }

  ghost predicate PageCopied(pde: Pdes, pte: Ptes, data: map<Frame, int>, pde': Pdes, pte': Ptes,
                             data': map<Frame, int>, to: Dir, from: Dir, w: int)
  {
    var o := Entry(pde, pte, from, w);
    if o.None? then Entry(pde', pte', to, w) == Entry(pde, pte, to, w)
    else o.value.frame in data && CopyOf(pde', pte', data', to, w, o.value, data[o.value.frame])
  }

  ghost predicate PageKept(pde: Pdes, pte: Ptes, data: map<Frame, int>, pde': Pdes, pte': Ptes,
                           data': map<Frame, int>, e: Dir, w: int) {
    var o := Entry(pde, pte, e, w);
    && Entry(pde', pte', e, w) == o
    && (o.Some? ==> o.value.frame in data && o.value.frame in data' && data'[o.value.frame] == data[o.value.frame])
  }

  predicate Within(w: int, first: int, cur: int, end: int) { first <= w < cur && w < end }

  ghost function Pages(first: int, cur: int, end: int): iset<int> { iset w | Within(w, first, cur, end) }

  ghost predicate Unused(pde: Pdes, pte: Ptes, f: Frame) {
    forall e, w :: 0 <= w ==> !MapsTo(Entry(pde, pte, e, w), f)
  }

  // One page copied to the frame f, which nothing was mapped to.
  lemma CopiedOne(pde: Pdes, pte: Ptes, data: map<Frame, int>, pde1: Pdes, pte1: Ptes, data1: map<Frame, int>,
                  pde': Pdes, pte': Ptes, to: Dir, from: Dir, first: int, cur: int, end: int, l: Leaf, f: Frame)
    requires Copied(pde, pte, data, pde1, pte1, data1, to, from, Pages(first, cur, end)) && to != from
    requires 0 <= first <= cur < end && Entry(pde1, pte1, from, cur) == Some(l) && l.frame in data1
    requires Unused(pde1, pte1, f)
    requires Entry(pde', pte', to, cur) == Some(Leaf(f, UserBits(l.perm))) &&
      OthersKept(pde1, pte1, pde', pte', to, cur)
    ensures Copied(pde, pte, data, pde', pte', data1[f := data1[l.frame]], to, from, Pages(first, cur + 1, end))
  {
    var data' := data1[f := data1[l.frame]];
    var r, r' := Pages(first, cur, end), Pages(first, cur + 1, end);
    assert PageKept(pde, pte, data, pde1, pte1, data1, from, cur);
    forall w | w in r' && 0 <= w ensures PageCopied(pde, pte, data, pde', pte', data', to, from, w) {
      if w == cur {
        assert Sole(pde', pte', to, cur, f);
      } else {
        assert w in r && PageCopied(pde, pte, data, pde1, pte1, data1, to, from, w);
        CopyKept(pde1, pte1, data1, pde', pte', data', to, w, cur, f);
      }
    }
    forall e, w | 0 <= w && !(e == to && w in r') ensures PageKept(pde, pte, data, pde', pte', data', e, w) {
      assert PageKept(pde, pte, data, pde1, pte1, data1, e, w) && !MapsTo(Entry(pde1, pte1, e, w), f);
    }
  }

  // An earlier copy at page w is not disturbed by the one at page cur.
  lemma CopyKept(pde1: Pdes, pte1: Ptes, data1: map<Frame, int>, pde': Pdes, pte': Ptes, data': map<Frame, int>,
                 to: Dir, w: int, cur: int, f: Frame)
    requires 0 <= w && w != cur && OthersKept(pde1, pte1, pde', pte', to, cur) && MapsTo(Entry(pde', pte', to, cur), f)
    requires Unused(pde1, pte1, f)
    requires forall g :: g != f && g in data1 ==> g in data' && data'[g] == data1[g]
    ensures Entry(pde', pte', to, w) == Entry(pde1, pte1, to, w)
    ensures forall l, x :: CopyOf(pde1, pte1, data1, to, w, l, x) ==> CopyOf(pde', pte', data', to, w, l, x)
  {
    var o := Entry(pde1, pte1, to, w);
    if o.Some? && Sole(pde1, pte1, to, w, o.value.frame) {
      assert !MapsTo(Entry(pde1, pte1, to, w), f);
      assert Sole(pde', pte', to, w, o.value.frame);
    }
  }

  // Pages that the source does not map need no work.
  lemma CopiedMore(pde: Pdes, pte: Ptes, data: map<Frame, int>, pde1: Pdes, pte1: Ptes, data1: map<Frame, int>,
                   to: Dir, from: Dir, r: iset<int>, r': iset<int>)
    requires Copied(pde, pte, data, pde1, pte1, data1, to, from, r) && to != from
    requires forall w :: w in r ==> w in r'
    requires forall w :: w in r' && w !in r && 0 <= w ==> Entry(pde1, pte1, from, w) == None
    ensures Copied(pde, pte, data, pde1, pte1, data1, to, from, r')
  {
    forall w | w in r' && 0 <= w ensures PageCopied(pde, pte, data, pde1, pte1, data1, to, from, w) {
      if w !in r {
        assert PageKept(pde, pte, data, pde1, pte1, data1, to, w) &&
          PageKept(pde, pte, data, pde1, pte1, data1, from, w);
      }
    }
  }

  lemma CopiedNone(pde: Pdes, pte: Ptes, data: map<Frame, int>, frames: set<Frame>, to: Dir, from: Dir, first: int,
                   end: int)
    requires Tables(pde, pte, frames) && data.Keys == frames
    ensures Copied(pde, pte, data, pde, pte, data, to, from, Pages(first, first, end))
  {
  }

  lemma CopiedSkip(pde: Pdes, pte: Ptes, data: map<Frame, int>, pde1: Pdes, pte1: Ptes, data1: map<Frame, int>,
                   to: Dir, from: Dir, first: int, cur: int, end: int)
    requires Copied(pde, pte, data, pde1, pte1, data1, to, from, Pages(first, cur, end)) && to != from
    requires 0 <= first <= cur < end && SlotOf(pde1, from, cur).None?
    ensures Copied(pde, pte, data, pde1, pte1, data1, to, from, Pages(first, NextTable(cur), end))
  {
    var r, r' := Pages(first, cur, end), Pages(first, NextTable(cur), end);
    forall w | w in r' && w !in r && 0 <= w ensures Entry(pde1, pte1, from, w) == None {
      NoTable(pde1, pte1, from, cur, w);
    }
    CopiedMore(pde, pte, data, pde1, pte1, data1, to, from, r, r');
  }

  lemma CopiedHole(pde: Pdes, pte: Ptes, data: map<Frame, int>, pde1: Pdes, pte1: Ptes, data1: map<Frame, int>,
                   to: Dir, from: Dir, first: int, cur: int, end: int)
    requires Copied(pde, pte, data, pde1, pte1, data1, to, from, Pages(first, cur, end)) && to != from
    requires 0 <= first <= cur < end && Entry(pde1, pte1, from, cur) == None
    ensures Copied(pde, pte, data, pde1, pte1, data1, to, from, Pages(first, cur + 1, end))
  {
    CopiedMore(pde, pte, data, pde1, pte1, data1, to, from, Pages(first, cur, end), Pages(first, cur + 1, end));
  }

  lemma CopiedEnd(pde: Pdes, pte: Ptes, data: map<Frame, int>, pde': Pdes, pte': Ptes, data': map<Frame, int>,
                  to: Dir, from: Dir, first: int, cur: int, end: int)
    requires Copied(pde, pte, data, pde', pte', data', to, from, Pages(first, cur, end)) && end <= cur
    ensures Copied(pde, pte, data, pde', pte', data', to, from, Pages(first, end, end))
  {
    assert Pages(first, cur, end) == Pages(first, end, end);
  }

  // A free frame is mapped nowhere.
  lemma FreeUnmapped(pde: Pdes, pte: Ptes, ref: map<Frame, int>, free: set<Frame>, held: set<Frame>,
                     frames: set<Frame>, f: Frame)
    requires Sound(pde, pte, ref, free, held, frames) && f in free
    ensures Unused(pde, pte, f) && f in frames && !IsTable(pde, f) && f !in held
  {
    forall e, w | 0 <= w ensures !MapsTo(Entry(pde, pte, e, w), f) {
      assert forall s :: s in pte && pte[s].frame == f ==> s in Users(pte, f);
    }
  }

  // The new tables of d stand for the pages first..end.
  ghost predicate TablesFor(pde: Pdes, pde': Pdes, d: Dir, first: int, end: int) {
    && (forall k :: k in pde ==> k in pde' && pde'[k] == pde[k])
    && (forall k :: k in pde' && k !in pde ==> k.dir == d && Pdx(first) <= k.index <= Pdx(end - 1))
  }

  lemma TablesForMore(pde: Pdes, pde1: Pdes, pde': Pdes, d: Dir, first: int, cur: int, end: int)
    requires TablesFor(pde, pde1, d, first, end) && Extended(pde1, pde', d, Pdx(cur)) && 0 <= first <= cur < end
    ensures TablesFor(pde, pde', d, first, end)
  {
    assert Pdx(first) <= Pdx(cur) <= Pdx(end - 1);
  }

  lemma LeafAt(pde: Pdes, pte: Ptes, d: Dir, v: int, s: Slot)
    requires SlotOf(pde, d, v) == Some(s) && s in pte
    ensures Entry(pde, pte, d, v) == Some(pte[s])
  {
  }

  lemma LeafKept(pde: Pdes, pde': Pdes, pte: Ptes, d: Dir, v: int, s: Slot)
    requires SameEntries(pde, pte, pde', pte) && 0 <= v && s in pte && Entry(pde, pte, d, v) == Some(pte[s])
    ensures Entry(pde', pte, d, v) == Some(pte[s])
  {
  }

  // A new empty table does not disturb a copy.
  lemma CopiedSame(pde: Pdes, pte: Ptes, data: map<Frame, int>, pde1: Pdes, pde': Pdes, pte1: Ptes,
                   data1: map<Frame, int>, to: Dir, from: Dir, r: iset<int>)
    requires Copied(pde, pte, data, pde1, pte1, data1, to, from, r) && SameEntries(pde1, pte1, pde', pte1)
    ensures Copied(pde, pte, data, pde', pte1, data1, to, from, r)
  {
    forall w | w in r && 0 <= w ensures PageCopied(pde, pte, data, pde', pte1, data1, to, from, w) {
      assert PageCopied(pde, pte, data, pde1, pte1, data1, to, from, w);
      assert Entry(pde', pte1, to, w) == Entry(pde1, pte1, to, w);
    }
    forall e, w | 0 <= w && !(e == to && w in r) ensures PageKept(pde, pte, data, pde', pte1, data1, e, w) {
      assert PageKept(pde, pte, data, pde1, pte1, data1, e, w);
    }
  }

  // ---- whole address spaces ----

  // A memory area, in pages.
  datatype Range = Range(first: int, end: int)

  ghost predicate UserRanges(vmas: seq<Range>) {
    forall j :: 0 <= j < |vmas| ==> USER_FIRST <= vmas[j].first < vmas[j].end <= USER_LAST
  }

  ghost predicate Apart(vmas: seq<Range>) {
    forall i, j :: 0 <= i < j < |vmas| ==> vmas[i].end <= vmas[j].first
  }

  ghost predicate InSome(vmas: seq<Range>, lo: int, hi: int, w: int) {
    exists j :: lo <= j < hi && 0 <= j < |vmas| && vmas[j].first <= w < vmas[j].end
  }

  ghost function Area(vmas: seq<Range>, lo: int, hi: int): iset<int> { iset w | InSome(vmas, lo, hi, w) }

  // Table number i serves one of the first n areas.
  ghost predicate ServedBy(vmas: seq<Range>, n: int, i: int) {
    exists j :: 0 <= j < n && j < |vmas| && Pdx(vmas[j].first) <= i <= Pdx(vmas[j].end - 1)
  }

  // The areas account for all that d maps and for all its tables.
  ghost predicate Covered(pde: Pdes, pte: Ptes, d: Dir, vmas: seq<Range>) {
    && (forall w :: 0 <= w && Entry(pde, pte, d, w).Some? ==> InSome(vmas, 0, |vmas|, w))
    && (forall k :: k in pde && k.dir == d ==> ServedBy(vmas, |vmas|, k.index))
  }

  ghost predicate AreasUnmapped(pde: Pdes, pte: Ptes, pte': Ptes, d: Dir, vmas: seq<Range>, n: int) {
    forall e, w :: 0 <= w ==>
      Entry(pde, pte', e, w) == if e == d && InSome(vmas, 0, n, w) then None else Entry(pde, pte, e, w)
  }

  lemma AreaUnmapped(pde: Pdes, pte: Ptes, pte1: Ptes, pte': Ptes, d: Dir, vmas: seq<Range>, n: nat)
    requires AreasUnmapped(pde, pte, pte1, d, vmas, n) && n < |vmas|
    requires Unmapped(pde, pte1, pte', d, vmas[n].first, vmas[n].end, vmas[n].end)
    ensures AreasUnmapped(pde, pte, pte', d, vmas, n + 1)
  {
    forall e, w | 0 <= w
      ensures Entry(pde, pte', e, w) == if e == d && InSome(vmas, 0, n + 1, w) then None else Entry(pde, pte, e, w)
    {
      assert InSome(vmas, 0, n + 1, w) <==> InSome(vmas, 0, n, w) || vmas[n].first <= w < vmas[n].end by {
        if InSome(vmas, 0, n, w) {
          var j :| 0 <= j < n && j < |vmas| && vmas[j].first <= w < vmas[j].end;
          assert j < n + 1;
        }
        if vmas[n].first <= w < vmas[n].end { assert 0 <= n < n + 1; }
      }
    }
  }

  // The tables lo..hi of d are gone.
  ghost predicate TablesDropped(pde: Pdes, pde': Pdes, d: Dir, lo: int, hi: int) {
    forall k :: (k in pde' <==> k in pde && !(k.dir == d && lo <= k.index < hi)) && (k in pde' ==> pde'[k] == pde[k])
  }

  // No entry is left in the tables of d.
  ghost predicate NoEntries(pde: Pdes, pte: Ptes, d: Dir) {
    forall k, s :: k in pde && k.dir == d && s in pte ==> s.table != pde[k]
  }

  lemma NothingMapped(pde: Pdes, pte: Ptes, frames: set<Frame>, d: Dir)
    requires Tables(pde, pte, frames) && forall w :: 0 <= w ==> Entry(pde, pte, d, w).None?
    ensures NoEntries(pde, pte, d)
  {
    forall k, s | k in pde && k.dir == d && s in pte ensures s.table != pde[k] {
      var w := k.index * NPTEENTRY + s.index;
      PageOf(k.index, s.index);
      assert 0 <= w && Entry(pde, pte, d, w).None?;
      assert k == PdePlace(d, Pdx(w));
      assert Slot(pde[k], Ptx(w)) !in pte && s == Slot(s.table, s.index);
    }
  }

  lemma PageOf(i: int, x: int)
    requires 0 <= i && 0 <= x < NPTEENTRY
    ensures 0 <= i * NPTEENTRY + x && Pdx(i * NPTEENTRY + x) == i && Ptx(i * NPTEENTRY + x) == x
  {
  }

  ghost predicate NoEntryIn(pde: Pdes, pte: Ptes, k: PdePlace) {
    forall s :: s in pte && k in pde ==> s.table != pde[k]
  }

  lemma DroppedIs(pde: Pdes, k: PdePlace)
    ensures Dropped(pde, k) == if k in pde then pde - {k} else pde
  {
  }

  lemma TableGoneSound(pde: Pdes, pte: Ptes, ref: map<Frame, int>, free: set<Frame>, held: set<Frame>,
                       frames: set<Frame>, k: PdePlace)
    requires Sound(pde, pte, ref, free, held, frames) && k in pde && NoEntryIn(pde, pte, k)
    ensures Sound(pde - {k}, pte, ref[pde[k] := 0], free + {pde[k]}, held, frames)
  {
    hide Tables, Counted, Conserved;
    TableGone(pde, pte, ref, free, held, frames, k);
  }

  ghost function Dropped(pde: Pdes, k: PdePlace): Pdes { if k in pde then pde - {k} else pde }

  lemma DropStep(pde: Pdes, pde1: Pdes, pte: Ptes, d: Dir, lo: int, i: int)
    requires TablesDropped(pde, pde1, d, lo, i) && lo <= i
    ensures TablesDropped(pde, Dropped(pde1, PdePlace(d, i)), d, lo, i + 1)
    ensures TablesEmpty(pde, pte, d, lo, i + 1) ==> TablesEmpty(pde, pte, d, lo, i)
    ensures TablesEmpty(pde, pte, d, lo, i + 1) ==> NoEntryIn(pde1, pte, PdePlace(d, i))
  {
    var k := PdePlace(d, i);
    assert forall l: PdePlace :: l.dir == d && l.index == i ==> l == k;
  }

  // Copies of two areas, one after the other.
  lemma CopiedTwice(pde: Pdes, pte: Ptes, data: map<Frame, int>, pde1: Pdes, pte1: Ptes, data1: map<Frame, int>,
                    pde': Pdes, pte': Ptes, data': map<Frame, int>, to: Dir, from: Dir, r: iset<int>, r': iset<int>)
    requires Copied(pde, pte, data, pde1, pte1, data1, to, from, r) &&
      Copied(pde1, pte1, data1, pde', pte', data', to, from, r')
    requires to != from && r !! r'
    ensures Copied(pde, pte, data, pde', pte', data', to, from, r + r')
  {
    forall w | w in r + r' && 0 <= w ensures PageCopied(pde, pte, data, pde', pte', data', to, from, w) {
      assert PageKept(pde, pte, data, pde1, pte1, data1, from, w);
      if w in r {
        assert PageCopied(pde, pte, data, pde1, pte1, data1, to, from, w) && w !in r';
        assert PageKept(pde1, pte1, data1, pde', pte', data', to, w);
        CopySurvives(pde, pte, data, pde1, pte1, data1, pde', pte', data', to, from, r', w);
      } else {
        assert PageCopied(pde1, pte1, data1, pde', pte', data', to, from, w);
        assert PageKept(pde, pte, data, pde1, pte1, data1, to, w);
      }
    }
    forall e, w | 0 <= w && !(e == to && w in r + r') ensures PageKept(pde, pte, data, pde', pte', data', e, w) {
      assert PageKept(pde, pte, data, pde1, pte1, data1, e, w) && PageKept(pde1, pte1, data1, pde', pte', data', e, w);
    }
  }

  lemma CopySurvives(pde: Pdes, pte: Ptes, data: map<Frame, int>, pde1: Pdes, pte1: Ptes, data1: map<Frame, int>,
                     pde': Pdes, pte': Ptes, data': map<Frame, int>, to: Dir, from: Dir, r': iset<int>, w: int)
    requires Copied(pde1, pte1, data1, pde', pte', data', to, from, r') && 0 <= w && w !in r'
    requires PageCopied(pde, pte, data, pde1, pte1, data1, to, from, w) &&
      PageKept(pde1, pte1, data1, pde', pte', data', to, w)
    ensures PageCopied(pde, pte, data, pde', pte', data', to, from, w)
  {
    var o := Entry(pde, pte, from, w);
    if o.Some? {
      var f := Entry(pde1, pte1, to, w).value.frame;
      forall e, x | 0 <= x && MapsTo(Entry(pde', pte', e, x), f) ensures e == to && x == w {
        if e == to && x in r' {
          assert PageCopied(pde1, pte1, data1, pde', pte', data', to, from, x);
          assert MapsTo(Entry(pde', pte', to, w), f);
        } else {
          assert PageKept(pde1, pte1, data1, pde', pte', data', e, x);
        }
      }
    }
  }

  // The same tables with the same entries hold the same leaf entries.
  lemma SameMaps(pde: Pdes, pte: Ptes, pte': Ptes, frames: set<Frame>)
    requires Tables(pde, pte, frames) && Tables(pde, pte', frames) && SameEntries(pde, pte, pde, pte')
    ensures pte' == pte
  {
    forall s ensures (s in pte <==> s in pte') && (s in pte ==> pte'[s] == pte[s]) {
      if s in pte || s in pte' {
        var k :| k in pde && pde[k] == s.table;
        var w := k.index * NPTEENTRY + s.index;
        PageOf(k.index, s.index);
        assert Entry(pde, pte', k.dir, w) == Entry(pde, pte, k.dir, w);
        assert k == PdePlace(k.dir, Pdx(w));
        assert SlotOf(pde, k.dir, w) == Some(s);
      }
    }
  }

  // The free frames are determined by what is mapped.
  lemma FreeDetermined(pde: Pdes, pte: Ptes, free: set<Frame>, free': set<Frame>, held: set<Frame>, frames: set<Frame>)
    requires Conserved(pde, pte, free, held, frames) && Conserved(pde, pte, free', held, frames)
    ensures free' == free
  {
    assert forall f :: f in free ==> f in frames;
    assert forall f :: f in free' ==> f in frames;
  }

  // Table number i serves one of the areas from n on.
  ghost predicate ServedFrom(vmas: seq<Range>, n: int, i: int) {
    exists j :: n <= j < |vmas| && 0 <= j && Pdx(vmas[j].first) <= i <= Pdx(vmas[j].end - 1)
  }

  // The region, within the areas from n on, has been copied; new tables serve one of these areas.
  ghost predicate AreasCopied(pde: Pdes, pte: Ptes, data: map<Frame, int>, pde': Pdes, pte': Ptes,
                              data': map<Frame, int>, to: Dir, from: Dir, vmas: seq<Range>, n: int, region: iset<int>)
  {
    && Copied(pde, pte, data, pde', pte', data', to, from, region)
    && (forall w :: w in region ==> InSome(vmas, n, |vmas|, w))
    && (forall k :: k in pde ==> k in pde' && pde'[k] == pde[k])
    && (forall k :: k in pde' && k !in pde ==> k.dir == to && ServedFrom(vmas, n, k.index))
  }

  lemma AreaCopied(pde: Pdes, pte: Ptes, data: map<Frame, int>, pde1: Pdes, pte1: Ptes, data1: map<Frame, int>,
                   pde': Pdes, pte': Ptes, data': map<Frame, int>, to: Dir, from: Dir, vmas: seq<Range>, n: int,
                   done: int)
    requires 0 <= n < |vmas| && to != from && UserRanges(vmas) && Apart(vmas) && vmas[n].first <= done <= vmas[n].end
    requires AreasCopied(pde, pte, data, pde1, pte1, data1, to, from, vmas, n + 1, Area(vmas, n + 1, |vmas|))
    requires Copied(pde1, pte1, data1, pde', pte', data', to, from, Pages(vmas[n].first, done, vmas[n].end))
    requires TablesFor(pde1, pde', to, vmas[n].first, vmas[n].end)
    ensures AreasCopied(pde, pte, data, pde', pte', data', to, from, vmas, n,
                        Area(vmas, n + 1, |vmas|) + Pages(vmas[n].first, done, vmas[n].end))
    ensures done == vmas[n].end ==>
      Area(vmas, n + 1, |vmas|) + Pages(vmas[n].first, done, vmas[n].end) == Area(vmas, n, |vmas|)
  {
    AreaRegions(vmas, n, done);
    hide UserRanges, Apart, InSome;
    CopiedTwice(pde, pte, data, pde1, pte1, data1, pde', pte', data', to, from, Area(vmas, n + 1, |vmas|),
                Pages(vmas[n].first, done, vmas[n].end));
    NewTablesServe(pde1, pde', to, vmas, n);
    hide Copied;
  }

  lemma AreaRegions(vmas: seq<Range>, n: int, done: int)
    requires 0 <= n < |vmas| && UserRanges(vmas) && Apart(vmas) && vmas[n].first <= done <= vmas[n].end
    ensures var r, r' := Area(vmas, n + 1, |vmas|), Pages(vmas[n].first, done, vmas[n].end);
      && r !! r' && (forall w :: w in r + r' ==> InSome(vmas, 0, |vmas|, w))
      && (done == vmas[n].end ==> r + r' == Area(vmas, n, |vmas|))
  {
    var r, r' := Area(vmas, n + 1, |vmas|), Pages(vmas[n].first, done, vmas[n].end);
    forall w ensures !(w in r && w in r') &&
      (w in r || w in r' ==> InSome(vmas, n, |vmas|, w) && InSome(vmas, 0, |vmas|, w)) {
      if w in r {
        var j :| n + 1 <= j < |vmas| && 0 <= j < |vmas| && vmas[j].first <= w < vmas[j].end;
        assert vmas[n].end <= vmas[j].first;
      } else if w in r' {
        assert vmas[n].first <= w < vmas[n].end;
      }
    }
    if done == vmas[n].end {
      forall w | InSome(vmas, n, |vmas|, w) ensures w in r || w in r' {
        var j :| n <= j < |vmas| && 0 <= j < |vmas| && vmas[j].first <= w < vmas[j].end;
      }
    }
  }

  lemma NewTablesServe(pde1: Pdes, pde': Pdes, to: Dir, vmas: seq<Range>, n: int)
    requires 0 <= n < |vmas| && TablesFor(pde1, pde', to, vmas[n].first, vmas[n].end)
    ensures forall k :: k in pde1 ==> k in pde' && pde'[k] == pde1[k]
    ensures forall k :: k in pde' && k !in pde1 ==> k.dir == to && ServedFrom(vmas, n, k.index)
    ensures forall i :: ServedFrom(vmas, n + 1, i) ==> ServedFrom(vmas, n, i)
  {
  }

  // A directory without tables is covered by the areas after they have been copied into it.
  lemma CoveredCopy(pde: Pdes, pte: Ptes, data: map<Frame, int>, pde': Pdes, pte': Ptes, data': map<Frame, int>,
                    to: Dir, from: Dir, vmas: seq<Range>, n: nat, region: iset<int>)
    requires AreasCopied(pde, pte, data, pde', pte', data', to, from, vmas, n, region) && n <= |vmas|
    requires forall k :: k in pde ==> k.dir != to
    ensures Covered(pde', pte', to, vmas[n..])
  {
    var rest := vmas[n..];
    forall w | 0 <= w && Entry(pde', pte', to, w).Some? ensures InSome(rest, 0, |rest|, w) {
      assert w !in region ==> PageKept(pde, pte, data, pde', pte', data', to, w);
      var j :| n <= j < |vmas| && 0 <= j && vmas[j].first <= w < vmas[j].end;
      assert rest[j - n] == vmas[j];
    }
    forall k | k in pde' && k.dir == to ensures ServedBy(rest, |rest|, k.index) {
      var j :| n <= j < |vmas| && 0 <= j && Pdx(vmas[j].first) <= k.index <= Pdx(vmas[j].end - 1);
      assert rest[j - n] == vmas[j];
    }
  }

  lemma SlotFacts(pde: Pdes, pte: Ptes, ref: map<Frame, int>, free: set<Frame>, held: set<Frame>, frames: set<Frame>,
                  d: Dir, v: int, s: Slot, f: Frame)
    requires Sound(pde, pte, ref, free, held, frames) && 0 <= v && SlotOf(pde, d, v) == Some(s) && f in frames
    ensures IsTable(pde, s.table) && 0 <= s.index < NPTEENTRY && f in ref
    ensures s in pte ==> pte[s].frame in ref
  {
  }

  lemma Remapped(pde: Pdes, pte: Ptes, ref: map<Frame, int>, free: set<Frame>, held: set<Frame>, frames: set<Frame>,
                 s: Slot, l: Leaf)
    requires Sound(pde, pte, ref, free, held, frames) && s in pte && pte[s].frame == l.frame
    ensures Sound(pde, pte[s := l], ref, free, held - {l.frame}, frames)
  {
    forall g ensures Users(pte[s := l], g) == Users(pte, g) {
      UsersWith(pte, s, l, g);
    }
    assert s in Users(pte, l.frame);
  }

  // A frame that is no table has no entries in it.
  lemma NoStaleEntries(pde: Pdes, pte: Ptes, frames: set<Frame>, free: set<Frame>, held: set<Frame>, f: Frame)
    requires Tables(pde, pte, frames) && Conserved(pde, pte, free, held, frames) && f in free
    ensures forall s :: s in pte ==> s.table != f
  {
  }

  // Where copy_range gives up: page v of the source is present and there is no frame, for a table of the
  // destination (NoMemory) or, with the table there, for the page itself (Panicked).
  ghost predicate StuckAt(pde: Pdes, pte: Ptes, to: Dir, from: Dir, v: int, x: CopyResult) {
    && Entry(pde, pte, from, v).Some? && (x == NoMemory <==> SlotOf(pde, to, v).None?)
    && (x == Panicked <==> SlotOf(pde, to, v).Some?)
  }

  lemma IsStuck(pde: Pdes, pte: Ptes, to: Dir, from: Dir, v: int, s: Slot, x: CopyResult)
    requires s in pte && Entry(pde, pte, from, v) == Some(pte[s])
    requires if x == NoMemory then SlotOf(pde, to, v).None? else x == Panicked && SlotOf(pde, to, v).Some?
    ensures StuckAt(pde, pte, to, from, v, x)
  {
  }

  // The pages copied when dup_mmap ended with r in front of (or in) area left, at page at.
  ghost function CopiedRegion(vmas: seq<Range>, r: CopyResult, left: nat, at: int): iset<int>
    requires left <= |vmas|
  {
    if (r == NoMemory || r == Panicked) && left < |vmas|
    then Area(vmas, left + 1, |vmas|) + Pages(vmas[left].first, at, vmas[left].end)
    else Area(vmas, left, |vmas|)
  }

  // How dup_mmap has ended: all areas are copied, or there was no memory for the area in front of the
  // first one listed, or copying the first one listed stopped at a page.
  ghost predicate DupOutcome(pde: Pdes, pte: Ptes, free: set<Frame>, to: Dir, from: Dir, vmas: seq<Range>,
                             got: seq<bool>, r: CopyResult, left: nat, at: int)
  {
    && |got| == |vmas| && left <= |vmas| && AllGot(got, left)
    && match r
       case Done => left == 0
       case NoArea => left > 0 && !got[left - 1]
       case _ => left < |vmas| && vmas[left].first <= at < vmas[left].end && free == {} && StuckAt(pde, pte, to, from,
           at, r)
  }

  // There was memory for the areas from n on.
  ghost predicate AllGot(got: seq<bool>, n: int) { forall j :: 0 <= j && n <= j < |got| ==> got[j] }

  lemma MoreGot(got: seq<bool>, n: nat)
    requires n < |got| && got[n] && AllGot(got, n + 1)
    ensures AllGot(got, n)
  {
  }

  lemma NoneGot(got: seq<bool>)
    ensures AllGot(got, |got|)
  {
  }

  lemma RegionIs(vmas: seq<Range>, r: CopyResult, n: nat, at: int)
    requires n < |vmas|
    ensures CopiedRegion(vmas, r, n, at) ==
      if r == NoMemory || r == Panicked then Area(vmas, n + 1, |vmas|) + Pages(vmas[n].first, at, vmas[n].end)
      else Area(vmas, n, |vmas|)
  {
  }

  lemma PanicMeans(pde: Pdes, pte: Ptes, free: set<Frame>, to: Dir, from: Dir, vmas: seq<Range>, got: seq<bool>,
                   left: nat, at: int)
    requires DupOutcome(pde, pte, free, to, from, vmas, got, Panicked, left, at)
    ensures free == {}
  {
  }

  lemma RestRanges(vmas: seq<Range>)
    requires UserRanges(vmas)
    ensures forall n :: 0 <= n <= |vmas| ==> UserRanges(vmas[n..])
  {
  }

  // ---- tables given back ----

  // Table places lo up to hi of d hold no tables with entries.
  ghost predicate TablesEmpty(pde: Pdes, pte: Ptes, d: Dir, lo: int, hi: int) {
    forall k, s :: k in pde && k.dir == d && lo <= k.index < hi && s in pte ==> s.table != pde[k]
  }

  ghost function TableFrames(pde: Pdes, d: Dir, lo: int, hi: int): set<Frame> {
    set k | k in pde && k.dir == d && lo <= k.index < hi :: pde[k]
  }

  lemma DropFrames(pde: Pdes, pde1: Pdes, d: Dir, lo: int, i: int)
    requires TablesDropped(pde, pde1, d, lo, i) && lo <= i
    ensures var k := PdePlace(d, i);
            TableFrames(pde, d, lo, i + 1) ==
              if k in pde1 then TableFrames(pde, d, lo, i) + {pde1[k]} else TableFrames(pde, d, lo, i)
  {
    var k := PdePlace(d, i);
    assert k in pde1 <==> k in pde;
    forall f ensures f in TableFrames(pde, d, lo, i + 1) <==>
      f in TableFrames(pde, d, lo, i) || (k in pde && f == pde[k]) {
      if f in TableFrames(pde, d, lo, i + 1) {
        var l :| l in pde && l.dir == d && lo <= l.index < i + 1 && pde[l] == f;
        assert l.index == i ==> l == k;
      }
    }
  }

  lemma StillNoEntries(pde: Pdes, pde': Pdes, pte: Ptes, d: Dir, lo: int, hi: int)
    requires NoEntries(pde, pte, d) && TablesDropped(pde, pde', d, lo, hi)
    ensures NoEntries(pde', pte, d) && TablesEmpty(pde, pte, d, lo, hi)
  {
  }

  // An entry in a table that was given back belongs to no table any more.
  lemma Dangling(pde: Pdes, pde': Pdes, pte: Ptes, frames: set<Frame>, d: Dir, lo: int, hi: int)
    requires Tables(pde, pte, frames) && TablesDropped(pde, pde', d, lo, hi) && Tables(pde', pte, frames)
    ensures TablesEmpty(pde, pte, d, lo, hi)
  {
    forall k, s | k in pde && k.dir == d && lo <= k.index < hi && s in pte ensures s.table != pde[k] {
      assert IsTable(pde', s.table);
    }
  }

  class PageMaps {
    const frames: set<Frame>         // the frames under management
    var pde: Pdes
    var pte: Ptes
    var ref: map<Frame, int>
    var data: map<Frame, int>        // what each frame holds, as one value
    var free: set<Frame>
    ghost var held: set<Frame>       // frames allocated and not mapped yet

    ghost predicate Valid()
      reads this
    {
      Sound(pde, pte, ref, free, held, frames) && data.Keys == frames
    }

    constructor (frames: set<Frame>, data: map<Frame, int>)
      requires data.Keys == frames
      ensures Valid() && this.frames == frames && pde == map[] && pte == map[] && free == frames && held == {}
    {
      this.frames := frames;
      pde, pte, ref, this.data := map[], map[], map f | f in frames :: 0, data;
      free, held := frames, {};
      new;
      assert forall f :: Users(pte, f) == {};
    }

    // get_pte without creating a table
    method GetPte(d: Dir, v: int) returns (s: Option<Slot>)
      requires Valid() && 0 <= v
      ensures s == SlotOf(pde, d, v)
    {
      var k := PdePlace(d, Pdx(v));
      if k !in pde {
        return None;
      }
      s := Some(Slot(pde[k], Ptx(v)));
    }

    // get_pte with create set: a missing table is allocated, empty, if there is a frame for it.
    method CreatePte(d: Dir, v: int) returns (s: Option<Slot>)
      requires Valid() && 0 <= v
      modifies this`pde, this`ref, this`free
      ensures Valid() && s == SlotOf(pde, d, v)
      ensures SlotOf(old(pde), d, v).Some? || s.None? ==> pde == old(pde) && ref == old(ref) && free == old(free)
      ensures SameEntries(old(pde), pte, pde, pte) && free <= old(free) && Extended(old(pde), pde, d, Pdx(v))
      ensures forall g :: g in frames && g !in old(free) ==> (IsTable(pde, g) <==> IsTable(old(pde), g))
      ensures s.None? ==> free == {}
      ensures SlotOf(old(pde), d, v).None? && s.Some? ==> s.value.table in old(free) && s.value !in pte
      ensures SlotOf(old(pde), d, v).None? && s.Some? ==>
        pde == old(pde)[PdePlace(d, Pdx(v)) := s.value.table] && free == old(free) - {s.value.table}
    {
      s := GetPte(d, v);
      if s.None? {
        if free == {} {
          return None;
        }
        var f := AddTable(PdePlace(d, Pdx(v)));
        s := Some(Slot(f, Ptx(v)));
      }
    }

    // A table from a free frame.
    method AddTable(k: PdePlace) returns (f: Frame)
      requires Valid() && k !in pde && 0 <= k.index && free != {}
      modifies this`pde, this`ref, this`free
      ensures Valid() && f in old(free) && pde == old(pde)[k := f] && free == old(free) - {f}
      ensures SameEntries(old(pde), pte, pde, pte) && forall s :: s in pte ==> s.table != f
      ensures forall g :: g in frames && g !in old(free) ==> (IsTable(pde, g) <==> IsTable(old(pde), g))
    {
      f :| f in free;
      Parts();
      FreeIsFrame(f);
      hide Tables, Counted, Conserved, Entry, Valid;
      NewTable(pde, pte, ref, free, held, frames, k, f);
      NoStaleEntries(pde, pte, frames, free, held, f);
      NewTableEntries(pde, pte, k, f);
      OtherTables(pde, k, f);
      free := free - {f};
      ref := ref[f := 1];
      pde := pde[k := f];
      IsValid();
    }

    lemma FreeIsFrame(f: Frame)
      requires Valid() && f in free
      ensures f in frames && free <= frames
    {
    }

    // The body of page_remove_pte for a present entry.
    method DropEntry(s: Slot)
      requires s in pte && pte[s].frame in ref
      modifies this`pte, this`ref, this`free
      ensures var p := old(pte)[s].frame;
        && pte == old(pte) - {s} && ref == old(ref)[p := old(ref)[p] - 1]
        && free == if old(ref)[p] - 1 == 0 then old(free) + {p} else old(free)
    {
      var p := pte[s].frame;
      ref := ref[p := ref[p] - 1];
      if ref[p] == 0 {
        free := free + {p};
      }
      pte := pte - {s};
    }

    // page_remove_pte: the frame goes back once nothing maps it any more, and never twice.
    method PageRemovePte(d: Dir, v: int, s: Slot)
      requires Valid() && 0 <= v && SlotOf(pde, d, v) == Some(s)
      modifies this`pte, this`ref, this`free
      ensures Valid() && Entry(pde, pte, d, v) == None && OthersKept(pde, old(pte), pde, pte, d, v)
    {
      hide *;
      Parts();
      RemovedEntry(pde, pte, frames, d, v, s);
      if s in pte {
        RemovedSound(pde, pte, ref, free, held, frames, s);
        DropEntry(s);
        IsValid();
      } else {
        assert pte - {s} == pte;
      }
    }

    // page_insert of a frame that is neither free nor a table.
    method PageInsert(d: Dir, f: Frame, v: int, perm: Perm) returns (ok: bool)
      requires Valid() && 0 <= v && f in frames && f !in free && !IsTable(pde, f)
      modifies this`pde, this`pte, this`ref, this`free, this`held
      ensures Valid() &&
        (!ok ==> pde == old(pde) && pte == old(pte) && ref == old(ref) && free == old(free) && held == old(held))
      ensures ok ==> Entry(pde, pte, d, v) == Some(Leaf(f, perm)) && OthersKept(old(pde), old(pte), pde, pte, d, v)
      ensures ok ==> held == old(held) - {f} && Extended(old(pde), pde, d, Pdx(v))
      ensures !ok <==> old(free) == {} && SlotOf(old(pde), d, v).None?
      ensures SlotOf(old(pde), d, v).Some? ==> pde == old(pde)
    {
      var s := CreatePte(d, v);
      if s.None? {
        return false;
      }
      ghost var pde1, pte1 := pde, pte;
      hide *;
      SetEntry(d, f, v, perm, s.value);
      KeptThrough(old(pde), old(pte), pde1, pte1, pte, d, v);
      ok := true;
    }

    // page_insert once the entry is found.
    method SetEntry(d: Dir, f: Frame, v: int, perm: Perm, s: Slot)
      requires Valid() && 0 <= v && f in frames && f !in free && !IsTable(pde, f) && SlotOf(pde, d, v) == Some(s)
      modifies this`pte, this`ref, this`free, this`held
      ensures Valid() && pte == old(pte)[s := Leaf(f, perm)] && held == old(held) - {f}
      ensures Entry(pde, pte, d, v) == Some(Leaf(f, perm)) && OthersKept(pde, old(pte), pde, pte, d, v)
    {
      hide *;
      Parts();
      AddedEntry(pde, pte, frames, d, v, s, Leaf(f, perm));
      SlotFacts(pde, pte, ref, free, held, frames, d, v, s, f);
      SetSound(pde, pte, ref, free, held, frames, s, Leaf(f, perm));
      WriteEntry(s, f, perm);
      held := held - {f};
      IsValid();
    }

    // The writes of page_insert.
    method WriteEntry(s: Slot, f: Frame, perm: Perm)
      requires f in ref && (s in pte ==> pte[s].frame in ref)
      modifies this`pte, this`ref, this`free
      ensures pte == old(pte)[s := Leaf(f, perm)]
      ensures ref == RefAfter(old(pte), old(ref), s, f) && free == FreeAfter(old(pte), old(ref), old(free), s, f)
    {
      ghost var pte0 := pte;
      ref := ref[f := ref[f] + 1];
      if s in pte {
        var p := pte[s].frame;
        if p == f {
          ref := ref[f := ref[f] - 1];
        } else {
          DropEntry(s);
          assert pte[s := Leaf(f, perm)] == pte0[s := Leaf(f, perm)];
        }
      }
      pte := pte[s := Leaf(f, perm)];
    }

    lemma Parts()
      requires Valid()
      ensures Sound(pde, pte, ref, free, held, frames) && data.Keys == frames
      ensures Tables(pde, pte, frames) && Conserved(pde, pte, free, held, frames)
    {
    }

    lemma LeafData(s: Slot)
      requires Valid() && s in pte
      ensures pte[s].frame in data
    {
    }

    // Free frames are unused in every respect.
    lemma FreeFacts()
      requires Valid()
      ensures forall f :: f in free ==> f in frames && f !in held && !IsTable(pde, f) && Unused(pde, pte, f)
    {
      forall f | f in free ensures f in frames && f !in held && !IsTable(pde, f) && Unused(pde, pte, f) {
        FreeUnmapped(pde, pte, ref, free, held, frames, f);
      }
    }

    lemma IsValid()
      requires Sound(pde, pte, ref, free, held, frames) && data.Keys == frames
      ensures Valid()
    {
    }

    // unmap_range: every page of the range is unmapped, even where tables are missing, and no other.
    method UnmapRange(d: Dir, first: int, end: int)
      requires Valid() && USER_FIRST <= first < end <= USER_LAST
      modifies this`pte, this`ref, this`free
      ensures Valid() && Unmapped(pde, old(pte), pte, d, first, end, end)
    {
      var start := first;
      ghost var pte0 := pte;
      assert Unmapped(pde, pte0, pte, d, first, start, end);
      hide *;
      while start < end
        invariant Valid() && 0 <= first <= start && Unmapped(pde, pte0, pte, d, first, start, end)
        decreases end - start
      {
        ghost var pte1 := pte;
        var s := GetPte(d, start);
        if s.None? {
          UnmappedSkip(pde, pte0, pte, d, first, start, end);
          NextTableFacts(start);
          start := NextTable(start);
          continue;
        }
        PageRemovePte(d, start, s.value);
        UnmappedOne(pde, pte0, pte1, pte, d, first, start, end);
        start := start + 1;
      }
      UnmappedEnd(pde, pte0, pte, d, first, start, end);
    }

    // alloc_page: some free frame
    method AllocPage() returns (f: Option<Frame>)
      requires Valid()
      modifies this`free, this`held
      ensures Valid() && (f.None? <==> old(free) == {})
      ensures f.None? ==> free == old(free) && held == old(held)
      ensures f.Some? ==> f.value in old(free) && free == old(free) - {f.value} && held == old(held) + {f.value}
    {
      if free == {} {
        return None;
      }
      var g :| g in free;
      free := free - {g};
      held := held + {g};
      f := Some(g);
    }

    // The body of the loop of copy_range for a present page.
    method CopyPage(to: Dir, from: Dir, v: int, s: Slot, first: int, end: int, ghost pde0: Pdes, ghost pte0: Ptes,
                    ghost data0: map<Frame, int>) returns (x: CopyResult)
      requires Valid() && to != from && 0 <= first <= v < end && SlotOf(pde, from, v) == Some(s) && s in pte
      requires Copied(pde0, pte0, data0, pde, pte, data, to, from, Pages(first, v, end))
      modifies this`pde, this`pte, this`ref, this`free, this`held, this`data
      ensures Valid() && Extended(old(pde), pde, to, Pdx(v)) && held == old(held)
      ensures Copied(pde0, pte0, data0, pde, pte, data, to, from, Pages(first, if x == Done then v + 1 else v, end))
      ensures x != NoArea && (x != Done ==> free == {} && StuckAt(pde, pte, to, from, v, x))
    {
      ghost var pde1 := pde;
      LeafAt(pde, pte, from, v, s);
      hide *;
      var n := CreatePte(to, v);
      CopiedSame(pde0, pte0, data0, pde1, pde, pte, data, to, from, Pages(first, v, end));
      LeafKept(pde1, pde, pte, from, v, s);
      if n.None? {
        IsStuck(pde, pte, to, from, v, s, NoMemory);
        return NoMemory;
      }
      x := FillPage(to, from, v, s, n.value, first, end, pde0, pte0, data0);
    }

    // The new frame for page v, whose entry n exists.
    method FillPage(to: Dir, from: Dir, v: int, s: Slot, n: Slot, first: int, end: int, ghost pde0: Pdes,
                    ghost pte0: Ptes, ghost data0: map<Frame, int>) returns (x: CopyResult)
      requires Valid() && to != from && 0 <= first <= v < end && s in pte && Entry(pde, pte, from, v) == Some(pte[s])
      requires SlotOf(pde, to, v) == Some(n) &&
        Copied(pde0, pte0, data0, pde, pte, data, to, from, Pages(first, v, end))
      modifies this`pde, this`pte, this`ref, this`free, this`held, this`data
      ensures Valid() && pde == old(pde) && held == old(held)
      ensures Copied(pde0, pte0, data0, pde, pte, data, to, from, Pages(first, if x == Done then v + 1 else v, end))
      ensures x != NoArea && (x != Done ==> free == {} && StuckAt(pde, pte, to, from, v, x))
    {
      hide *;
      var l := pte[s];
      var perm := UserBits(l.perm);
      LeafData(s);
      ghost var pte1, data1 := pte, data;
      FreeFacts();
      var f := AllocPage();
      Parts();
      if f.None? {
        IsStuck(pde, pte, to, from, v, s, Panicked);
        return Panicked;
      }
      var npage := f.value;
      assert npage !in free;
      data := data[npage := data[l.frame]];
      IsValid();
      var ok := PageInsert(to, npage, v, perm);
      assert ok;
      CopiedOne(pde0, pte0, data0, pde, pte1, data1, pde, pte, to, from, first, v, end, l, npage);
      x := Done;
    }

    // copy_range: every present page of the source gets a frame of its own in the destination, with the
    // same contents. On failure the pages before position done have been copied.
    method CopyRange(to: Dir, from: Dir, first: int, end: int) returns (r: CopyResult, ghost done: int)
      requires Valid() && to != from && USER_FIRST <= first < end <= USER_LAST
      modifies this`pde, this`pte, this`ref, this`free, this`held, this`data
      ensures Valid() && first <= done <= end && (r == Done ==> done == end)
      ensures Copied(old(pde), old(pte), old(data), pde, pte, data, to, from, Pages(first, done, end))
      ensures TablesFor(old(pde), pde, to, first, end) && held == old(held)
      ensures r != NoArea && (r != Done ==> free == {} && done < end && StuckAt(pde, pte, to, from, done, r))
    {
      var start := first;
      ghost var pde0, pte0, data0, held0 := pde, pte, data, held;
      CopiedNone(pde, pte, data, frames, to, from, first, end);
      assert TablesFor(pde0, pde, to, first, end);
      hide *;
      while start < end
        invariant Valid() && first <= start && held == held0
        invariant Copied(pde0, pte0, data0, pde, pte, data, to, from, Pages(first, start, end))
        invariant TablesFor(pde0, pde, to, first, end)
        decreases end - start
      {
        var x, next := CopyStep(to, from, start, first, end, pde0, pte0, data0);
        if x != Done {
          return x, start;
        }
        start := next;
      }
      CopiedEnd(pde0, pte0, data0, pde, pte, data, to, from, first, start, end);
      r, done := Done, end;
    }

    // One round of the loop of copy_range.
    method CopyStep(to: Dir, from: Dir, start: int, first: int, end: int, ghost pde0: Pdes, ghost pte0: Ptes,
                    ghost data0: map<Frame, int>) returns (x: CopyResult, next: int)
      requires Valid() && to != from && 0 <= first <= start < end && TablesFor(pde0, pde, to, first, end)
      requires Copied(pde0, pte0, data0, pde, pte, data, to, from, Pages(first, start, end))
      modifies this`pde, this`pte, this`ref, this`free, this`held, this`data
      ensures Valid() && held == old(held) && TablesFor(pde0, pde, to, first, end) && next > start
      ensures Copied(pde0, pte0, data0, pde, pte, data, to, from, Pages(first, if x == Done then next else start, end))
      ensures x != NoArea && (x != Done ==> free == {} && StuckAt(pde, pte, to, from, start, x))
    {
      hide *;
      NextTableFacts(start);
      var s := GetPte(from, start);
      if s.None? {
        CopiedSkip(pde0, pte0, data0, pde, pte, data, to, from, first, start, end);
        return Done, NextTable(start);
      }
      x, next := Done, start + 1;
      if s.value in pte {
        ghost var pde1 := pde;
        x := CopyPage(to, from, start, s.value, first, end, pde0, pte0, data0);
        TablesForMore(pde0, pde1, pde, to, first, start, end);
      } else {
        HoleAt(pde, pte, from, start, s.value);
        CopiedHole(pde0, pte0, data0, pde, pte, data, to, from, first, start, end);
      }
    }

    // dup_mmap: copies the areas, the last one first; got tells for each whether vma_create gets its
    // memory. The areas from left on have entered the list of the copy.
    method DupMmap(to: Dir, from: Dir, vmas: seq<Range>, got: seq<bool>)
      returns (r: CopyResult, left: nat, ghost at: int)
      requires Valid() && to != from && UserRanges(vmas) && Apart(vmas) && |got| == |vmas|
      modifies this`pde, this`pte, this`ref, this`free, this`held, this`data
      ensures Valid() && held == old(held) && left <= |vmas|
      ensures AreasCopied(old(pde), old(pte), old(data), pde, pte, data, to, from, vmas, left,
                          CopiedRegion(vmas, r, left, at))
      ensures DupOutcome(pde, pte, free, to, from, vmas, got, r, left, at)
    {
      ghost var pde0, pte0, data0 := pde, pte, data;
      left, r, at := |vmas|, Done, 0;
      StartCopy(to, from, vmas, got);
      hide *;
      while left > 0 && r == Done
        invariant held == old(held) && Copying(to, from, vmas, got, r, left, at, pde0, pte0, data0)
        decreases left, r == Done
      {
        r, left, at := CopyNext(to, from, vmas, got, left, at, pde0, pte0, data0);
      }
      EndCopy(to, from, vmas, got, r, left, at, pde0, pte0, data0);
    }

    // The areas from left on have been copied, or the copy has ended there.
    ghost predicate Copying(to: Dir, from: Dir, vmas: seq<Range>, got: seq<bool>, r: CopyResult, left: nat, at: int,
                            pde0: Pdes, pte0: Ptes, data0: map<Frame, int>)
      reads this
    {
      && Valid() && |got| == |vmas| && left <= |vmas| && AllGot(got, left)
      && AreasCopied(pde0, pte0, data0, pde, pte, data, to, from, vmas, left, CopiedRegion(vmas, r, left, at))
      && (r != Done ==> DupOutcome(pde, pte, free, to, from, vmas, got, r, left, at))
    }

    lemma StartCopy(to: Dir, from: Dir, vmas: seq<Range>, got: seq<bool>)
      requires Valid() && |got| == |vmas|
      ensures Copying(to, from, vmas, got, Done, |vmas|, 0, pde, pte, data)
    {
      Parts();
      NoAreaCopied(pde, pte, data, frames, to, from, vmas);
      NoneGot(got);
      hide AreasCopied, DupOutcome, AllGot;
    }

    lemma EndCopy(to: Dir, from: Dir, vmas: seq<Range>, got: seq<bool>, r: CopyResult, left: nat, at: int, pde0: Pdes,
                  pte0: Ptes, data0: map<Frame, int>)
      requires Copying(to, from, vmas, got, r, left, at, pde0, pte0, data0) && (left == 0 || r != Done)
      ensures Valid() && left <= |vmas|
      ensures AreasCopied(pde0, pte0, data0, pde, pte, data, to, from, vmas, left, CopiedRegion(vmas, r, left, at))
      ensures DupOutcome(pde, pte, free, to, from, vmas, got, r, left, at)
    {
      hide AreasCopied, CopiedRegion, StuckAt;
    }

    // One round of the loop of dup_mmap.
    method CopyNext(to: Dir, from: Dir, vmas: seq<Range>, got: seq<bool>, left: nat, ghost at: int, ghost pde0: Pdes,
                    ghost pte0: Ptes, ghost data0: map<Frame, int>)
      returns (r: CopyResult, left': nat, ghost at': int)
      requires to != from && UserRanges(vmas) && Apart(vmas) && left > 0
      requires Copying(to, from, vmas, got, Done, left, at, pde0, pte0, data0)
      modifies this`pde, this`pte, this`ref, this`free, this`held, this`data
      ensures held == old(held) && Copying(to, from, vmas, got, r, left', at', pde0, pte0, data0)
      ensures left' < left || (left' == left && r != Done)
    {
      hide Valid, AreasCopied, AllGot, StuckAt, UserRanges, Apart, Area, Pages;
      if !got[left - 1] {
        return NoArea, left, at;
      }
      left' := left - 1;
      r, at' := CopyArea(to, from, vmas, left', pde0, pte0, data0);
      MoreGot(got, left');
    }

    // The copy of area n, behind which all have been copied.
    method CopyArea(to: Dir, from: Dir, vmas: seq<Range>, n: nat, ghost pde0: Pdes, ghost pte0: Ptes,
                    ghost data0: map<Frame, int>)
      returns (r: CopyResult, ghost at: int)
      requires Valid() && to != from && UserRanges(vmas) && Apart(vmas) && n < |vmas|
      requires AreasCopied(pde0, pte0, data0, pde, pte, data, to, from, vmas, n + 1, Area(vmas, n + 1, |vmas|))
      modifies this`pde, this`pte, this`ref, this`free, this`held, this`data
      ensures Valid() && held == old(held) && vmas[n].first <= at <= vmas[n].end && r != NoArea
      ensures AreasCopied(pde0, pte0, data0, pde, pte, data, to, from, vmas, n, CopiedRegion(vmas, r, n, at))
      ensures r != Done ==> free == {} && at < vmas[n].end && StuckAt(pde, pte, to, from, at, r)
    {
      hide *;
      ghost var pde1, pte1, data1 := pde, pte, data;
      IsUser(vmas, n);
      r, at := CopyRange(to, from, vmas[n].first, vmas[n].end);
      AreaCopied(pde0, pte0, data0, pde1, pte1, data1, pde, pte, data, to, from, vmas, n, at);
      RegionIs(vmas, r, n, at);
    }

    // copy_mm for an address space that is then taken down again, or whose copying fails and is cleaned
    // up: it gives back every frame. Only a failed assertion leaves things as they are.
    method DupThenExit(to: Dir, from: Dir, vmas: seq<Range>, got: seq<bool>) returns (r: CopyResult)
      requires Valid() && to != from && UserRanges(vmas) && Apart(vmas) && |got| == |vmas| && forall k :: k in pde ==>
        k.dir != to
      modifies this`pde, this`pte, this`ref, this`free, this`held, this`data
      ensures Valid() && held == old(held) && (r == Panicked ==> free == {})
      ensures r != Panicked ==> pde == old(pde) && pte == old(pte) && free == old(free)
    {
      ghost var pde0, pte0, data0, free0 := pde, pte, data, free;
      Parts();
      RestRanges(vmas);
      hide *;
      var left;
      ghost var at;
      r, left, at := DupMmap(to, from, vmas, got);
      if r == Panicked {
        PanicMeans(pde, pte, free, to, from, vmas, got, left, at);
        return;
      }
      ghost var region := CopiedRegion(vmas, r, left, at);
      CoveredCopy(pde0, pte0, data0, pde, pte, data, to, from, vmas, left, region);
      ghost var pde1, pte1, data1 := pde, pte, data;
      ExitMmap(to, vmas[left..]);
      Parts();
      BackAgain(pde0, pte0, data0, pde1, pte1, data1, pde, pte, frames, to, from, vmas, left, region);
      SoundFree(pde0, pte0, pte, free0, free, held, frames);
    }

    // exit_range: the tables that serve the range go back, each once. The maps are sound afterwards if
    // and only if these tables held no entry any more.
    method ExitRange(d: Dir, first: int, end: int)
      requires Valid() && USER_FIRST <= first < end <= USER_LAST
      modifies this`pde, this`ref, this`free
      ensures TablesDropped(old(pde), pde, d, Pdx(first), Pdx(end - 1) + 1)
      ensures free == old(free) + TableFrames(old(pde), d, Pdx(first), Pdx(end - 1) + 1)
      ensures Valid() <==> TablesEmpty(old(pde), pte, d, Pdx(first), Pdx(end - 1) + 1)
    {
      ghost var pde0, free0 := pde, free;
      ghost var lo, i := Pdx(first), Pdx(first);
      var start := Pdx(first) * NPTEENTRY;
      TableStart(first, end, 0);
      hide Exiting, Pdx, Valid, TablesDropped, TablesEmpty, TableFrames;
      TableStart(first, end, i);
      ExitStart(d, lo);
      while start < end
        invariant start == i * NPTEENTRY && lo <= i <= Pdx(end - 1) + 1 && (start < end <==> i < Pdx(end - 1) + 1)
        invariant Exiting(pde0, free0, d, lo, i)
        decreases end - start
      {
        TableStart(first, end, i);
        DropNext(d, lo, i, start, pde0, free0);
        start := start + NPTEENTRY;
        i := i + 1;
        TableStart(first, end, i);
      }
      ExitEnd(pde0, free0, d, lo, i);
    }

    // The tables of places lo up to i have been given back.
    ghost predicate Exiting(pde0: Pdes, free0: set<Frame>, d: Dir, lo: int, i: int)
      reads this
    {
      && Tables(pde0, pte, frames) && TablesDropped(pde0, pde, d, lo, i) && free == free0 + TableFrames(pde0, d, lo, i)
      && (TablesEmpty(pde0, pte, d, lo, i) ==> Valid())
    }

    lemma ExitStart(d: Dir, lo: int)
      requires Valid()
      ensures Exiting(pde, free, d, lo, lo)
    {
      NoneDropped(pde, d, lo);
    }

    lemma ExitEnd(pde0: Pdes, free0: set<Frame>, d: Dir, lo: int, i: int)
      requires Exiting(pde0, free0, d, lo, i)
      ensures TablesDropped(pde0, pde, d, lo, i) && free == free0 + TableFrames(pde0, d, lo, i)
      ensures Valid() <==> TablesEmpty(pde0, pte, d, lo, i)
    {
      hide Tables, TablesDropped, TableFrames, TablesEmpty, Valid;
      if Valid() {
        Parts();
        Dangling(pde0, pde, pte, frames, d, lo, i);
      }
    }

    method DropNext(d: Dir, ghost lo: int, ghost i: int, start: int, ghost pde0: Pdes, ghost free0: set<Frame>)
      requires Exiting(pde0, free0, d, lo, i) && lo <= i && Pdx(start) == i
      modifies this`pde, this`ref, this`free
      ensures Exiting(pde0, free0, d, lo, i + 1)
    {
      hide Tables, TablesDropped, TableFrames, TablesEmpty, Valid, Pdx, NoEntryIn, Dropped;
      DropFrames(pde0, pde, d, lo, i);
      DropStep(pde0, pde, pte, d, lo, i);
      DropTable(d, i, start);
    }

    lemma NoneDropped(pde: Pdes, d: Dir, lo: int)
      ensures TablesDropped(pde, pde, d, lo, lo) && TableFrames(pde, d, lo, lo) == {}
    {
    }

    lemma TableStart(first: int, end: int, i: int)
      requires 0 <= first < end && 0 <= i
      ensures Pdx(i * NPTEENTRY) == i && (i * NPTEENTRY < end <==> i < Pdx(end - 1) + 1)
      ensures 0 <= Pdx(first) <= Pdx(end - 1)
    {
      assert Pdx(first) * NPTEENTRY <= first;
    }

    // One round of the loop of exit_range.
    method DropTable(d: Dir, ghost i: int, start: int)
      requires Pdx(start) == i
      modifies this`pde, this`ref, this`free
      ensures pde == Dropped(old(pde), PdePlace(d, i))
      ensures free == if PdePlace(d, i) in old(pde) then old(free) + {old(pde)[PdePlace(d, i)]} else old(free)
      ensures old(Valid()) && NoEntryIn(old(pde), pte, PdePlace(d, i)) ==> Valid()
    {
      var k := PdePlace(d, Pdx(start));
      ghost var intact := Valid() && NoEntryIn(pde, pte, k);
      hide Valid, NoEntryIn, Sound;
      DroppedIs(pde, k);
      if k in pde {
        if intact { Parts(); TableGoneSound(pde, pte, ref, free, held, frames, k); }
        GiveBack(k);
        if intact { IsValid(); }
      }
    }

    method GiveBack(k: PdePlace)
      requires k in pde
      modifies this`pde, this`ref, this`free
      ensures k in old(pde) && pde == old(pde) - {k} && ref == old(ref)[old(pde)[k] := 0] &&
        free == old(free) + {old(pde)[k]}
    {
      ref := ref[pde[k] := 0];
      free := free + {pde[k]};
      pde := pde - {k};
    }

    // exit_mmap: nothing of the user part of d is left, and no other directory has changed.
    method ExitMmap(d: Dir, vmas: seq<Range>)
      requires Valid() && UserRanges(vmas) && Covered(pde, pte, d, vmas)
      modifies this`pde, this`pte, this`ref, this`free
      ensures Valid() && forall k :: (k in pde <==> k in old(pde) && k.dir != d) && (k in pde ==> pde[k] == old(pde)[k])
      ensures forall e, w :: 0 <= w && e != d ==> Entry(pde, pte, e, w) == Entry(old(pde), old(pte), e, w)
    {
      ghost var pde0, pte0 := pde, pte;
      hide Sound, Covered, Entry, InSome, ServedBy, AreasUnmapped, NoEntries;
      CoveredFacts(pde, pte, d, vmas);
      UnmapAreas(d, vmas);
      Parts();
      AllUnmapped(pde, pte0, pte, frames, d, vmas);
      OthersUnmapped(pde, pte0, pte, d, vmas);
      ghost var pte1 := pte;
      ExitAreas(d, vmas);
      OthersStay(pde0, pde, pte, d);
    }

    lemma CoveredFacts(pde: Pdes, pte: Ptes, d: Dir, vmas: seq<Range>)
      requires Covered(pde, pte, d, vmas)
      ensures forall k :: k in pde && k.dir == d ==> ServedBy(vmas, |vmas|, k.index)
    {
    }

    lemma OthersUnmapped(pde: Pdes, pte: Ptes, pte': Ptes, d: Dir, vmas: seq<Range>)
      requires AreasUnmapped(pde, pte, pte', d, vmas, |vmas|)
      ensures forall e, w :: 0 <= w && e != d ==> Entry(pde, pte', e, w) == Entry(pde, pte, e, w)
    {
    }

    lemma OthersStay(pde: Pdes, pde': Pdes, pte: Ptes, d: Dir)
      requires forall k :: (k in pde' <==> k in pde && k.dir != d) && (k in pde' ==> pde'[k] == pde[k])
      ensures forall e, w :: 0 <= w && e != d ==> Entry(pde', pte, e, w) == Entry(pde, pte, e, w)
    {
    }

    // The first loop of exit_mmap.
    method UnmapAreas(d: Dir, vmas: seq<Range>)
      requires Valid() && UserRanges(vmas)
      modifies this`pte, this`ref, this`free
      ensures Valid() && AreasUnmapped(pde, old(pte), pte, d, vmas, |vmas|)
    {
      ghost var pte0 := pte;
      assert AreasUnmapped(pde, pte0, pte, d, vmas, 0);
      for i := 0 to |vmas|
        invariant Valid() && AreasUnmapped(pde, pte0, pte, d, vmas, i)
      {
        hide Valid, AreasUnmapped, Unmapped;
        ghost var pte1 := pte;
        UnmapRange(d, vmas[i].first, vmas[i].end);
        AreaUnmapped(pde, pte0, pte1, pte, d, vmas, i);
      }
    }

    // The second loop of exit_mmap.
    method ExitAreas(d: Dir, vmas: seq<Range>)
      requires Valid() && UserRanges(vmas) && NoEntries(pde, pte, d) && forall k :: k in pde && k.dir == d ==>
        ServedBy(vmas, |vmas|, k.index)
      modifies this`pde, this`ref, this`free
      ensures Valid() && forall k :: (k in pde <==> k in old(pde) && k.dir != d) && (k in pde ==> pde[k] == old(pde)[k])
    {
      ghost var pde0 := pde;
      AllLeft(pde, d, vmas);
      hide *;
      for i := 0 to |vmas|
        invariant Valid() && NoEntries(pde, pte, d) && TablesLeft(pde0, pde, d, vmas, i)
      {
        ExitArea(d, vmas, i, pde0);
      }
      NoneLeft(pde0, pde, d, vmas);
    }

    method ExitArea(d: Dir, vmas: seq<Range>, i: nat, ghost pde0: Pdes)
      requires Valid() && UserRanges(vmas) && i < |vmas| && NoEntries(pde, pte, d) && TablesLeft(pde0, pde, d, vmas, i)
      modifies this`pde, this`ref, this`free
      ensures Valid() && NoEntries(pde, pte, d) && TablesLeft(pde0, pde, d, vmas, i + 1)
    {
      hide *;
      IsUser(vmas, i);
      ghost var pde1 := pde;
      ExitRange(d, vmas[i].first, vmas[i].end);
      StillNoEntries(pde1, pde, pte, d, Pdx(vmas[i].first), Pdx(vmas[i].end - 1) + 1);
      TablesLeftStep(pde0, pde1, pde, d, vmas, i);
    }
  }

  // The tables that serve the first n areas are gone.
  ghost predicate TablesLeft(pde: Pdes, pde': Pdes, d: Dir, vmas: seq<Range>, n: int) {
    forall k :: (k in pde' <==> k in pde && !(k.dir == d && ServedBy(vmas, n, k.index))) && (k in pde' ==>
      pde'[k] == pde[k])
  }

  lemma AllLeft(pde: Pdes, d: Dir, vmas: seq<Range>)
    ensures TablesLeft(pde, pde, d, vmas, 0)
  {
  }

  lemma NoneLeft(pde: Pdes, pde': Pdes, d: Dir, vmas: seq<Range>)
    requires TablesLeft(pde, pde', d, vmas, |vmas|) && forall k :: k in pde && k.dir == d ==>
      ServedBy(vmas, |vmas|, k.index)
    ensures forall k :: (k in pde' <==> k in pde && k.dir != d) && (k in pde' ==> pde'[k] == pde[k])
  {
    hide ServedBy;
  }

  lemma TablesLeftStep(pde: Pdes, pde1: Pdes, pde': Pdes, d: Dir, vmas: seq<Range>, n: nat)
    requires TablesLeft(pde, pde1, d, vmas, n) && n < |vmas|
    requires TablesDropped(pde1, pde', d, Pdx(vmas[n].first), Pdx(vmas[n].end - 1) + 1)
    ensures TablesLeft(pde, pde', d, vmas, n + 1)
  {
    forall i ensures ServedBy(vmas, n + 1, i) <==>
      ServedBy(vmas, n, i) || Pdx(vmas[n].first) <= i <= Pdx(vmas[n].end - 1) {
      if ServedBy(vmas, n, i) {
        var j :| 0 <= j < n && j < |vmas| && Pdx(vmas[j].first) <= i <= Pdx(vmas[j].end - 1);
        assert j < n + 1;
      }
    }
  }

  // Once the areas are unmapped, the tables of d are empty.
  lemma AllUnmapped(pde: Pdes, pte: Ptes, pte': Ptes, frames: set<Frame>, d: Dir, vmas: seq<Range>)
    requires Tables(pde, pte', frames) && AreasUnmapped(pde, pte, pte', d, vmas, |vmas|) && Covered(pde, pte, d, vmas)
    ensures NoEntries(pde, pte', d)
  {
    forall w | 0 <= w ensures Entry(pde, pte', d, w).None? {
      assert Entry(pde, pte, d, w).Some? ==> InSome(vmas, 0, |vmas|, w);
    }
    NothingMapped(pde, pte', frames, d);
  }

  lemma IsUser(vmas: seq<Range>, n: int)
    requires UserRanges(vmas) && 0 <= n < |vmas|
    ensures USER_FIRST <= vmas[n].first < vmas[n].end <= USER_LAST
  {
  }

  lemma NoAreaCopied(pde: Pdes, pte: Ptes, data: map<Frame, int>, frames: set<Frame>, to: Dir, from: Dir,
                     vmas: seq<Range>)
    requires Tables(pde, pte, frames) && data.Keys == frames
    ensures AreasCopied(pde, pte, data, pde, pte, data, to, from, vmas, |vmas|, Area(vmas, |vmas|, |vmas|))
  {
    assert forall w :: w !in Area(vmas, |vmas|, |vmas|);
  }

  // The maps after the copy was taken down are the maps before it.
  lemma BackAgain(pde: Pdes, pte: Ptes, data: map<Frame, int>, pde1: Pdes, pte1: Ptes, data1: map<Frame, int>,
                  pde': Pdes, pte': Ptes, frames: set<Frame>, to: Dir, from: Dir, vmas: seq<Range>, n: int,
                  region: iset<int>)
    requires AreasCopied(pde, pte, data, pde1, pte1, data1, to, from, vmas, n, region) && forall k :: k in pde ==>
      k.dir != to
    requires forall k :: (k in pde' <==> k in pde1 && k.dir != to) && (k in pde' ==> pde'[k] == pde1[k])
    requires forall e, w :: 0 <= w && e != to ==> Entry(pde', pte', e, w) == Entry(pde1, pte1, e, w)
    requires Tables(pde, pte, frames) && Tables(pde', pte', frames)
    ensures pde' == pde && pte' == pte
  {
    assert pde' == pde;
    forall e, w | 0 <= w ensures Entry(pde', pte', e, w) == Entry(pde, pte, e, w) {
      if e != to { assert PageKept(pde, pte, data, pde1, pte1, data1, e, w); }
    }
    SameMaps(pde, pte, pte', frames);
  }

  lemma SoundFree(pde: Pdes, pte: Ptes, pte': Ptes, free: set<Frame>, free': set<Frame>, held: set<Frame>,
                  frames: set<Frame>)
    requires pte' == pte && Conserved(pde, pte, free, held, frames) && Conserved(pde, pte', free', held, frames)
    ensures free' == free
  {
    FreeDetermined(pde, pte, free, free', held, frames);
  }

  // Done is the return value 0; NoMemory is -E_NO_MEM; Panicked a failed assertion on alloc_page.
  datatype CopyResult = Done | NoMemory | Panicked | NoArea

  lemma HoleAt(pde: Pdes, pte: Ptes, d: Dir, v: int, s: Slot)
    requires SlotOf(pde, d, v) == Some(s) && s !in pte
    ensures Entry(pde, pte, d, v) == None
  {
  }

  lemma UnmappedEnd(pde: Pdes, pte: Ptes, pte': Ptes, d: Dir, first: int, cur: int, end: int)
    requires Unmapped(pde, pte, pte', d, first, cur, end) && end <= cur
    ensures Unmapped(pde, pte, pte', d, first, end, end)
  {
  }
}
