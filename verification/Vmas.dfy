// The list of memory areas of kern/mm/vmm.c with its one-entry cache, and the checks on it.
module Vmas {
  import opened Options

  const WORD: int := 0x1_0000_0000
  const PGSIZE: int := 4096
  const USERBASE: int := 0x0020_0000
  const USERTOP: int := 0xB000_0000

  // struct vma_struct with the three flag bits the checks look at
  datatype Vma = Vma(start: int, end: int, read: bool, write: bool, stack: bool)

  predicate Holds(v: Vma, addr: int) { v.start <= addr < v.end }

  // Areas are nonempty, in address order, and do not overlap.
  ghost predicate Sorted(list: seq<Vma>) {
    && (forall i :: 0 <= i < |list| ==> list[i].start < list[i].end < WORD)
    && (forall i, j :: 0 <= i < j < |list| ==> list[i].end <= list[j].start)
  }

  // The scan without a cache.
  function Scan(list: seq<Vma>, addr: int): Option<Vma> {
    if list == [] then None else if Holds(list[0], addr) then Some(list[0]) else Scan(list[1..], addr)
  }

  lemma {:induction false} ScanFacts(list: seq<Vma>, addr: int)
    ensures var r := Scan(list, addr); r.Some? ==> r.value in list && Holds(r.value, addr)
    ensures Scan(list, addr).None? ==> forall v :: v in list ==> !Holds(v, addr)
  {
    if list != [] {
      ScanFacts(list[1..], addr);
      assert list == [list[0]] + list[1..];
    }
  }

  // In a sorted list an address lies in one area only.
  lemma ScanStep(list: seq<Vma>, i: nat, addr: int)
    requires i < |list|
    ensures Scan(list[i..], addr) == if Holds(list[i], addr) then Some(list[i]) else Scan(list[i + 1..], addr)
  {
    assert list[i..][1..] == list[i + 1..];
  }

  lemma ScanEnd(list: seq<Vma>, addr: int)
    ensures Scan(list[|list|..], addr) == None
  {
  }

  lemma ScanUnique(list: seq<Vma>, addr: int, v: Vma)
    requires Sorted(list) && v in list && Holds(v, addr)
    ensures Scan(list, addr) == Some(v)
  {
    ScanFacts(list, addr);
    var i :| 0 <= i < |list| && list[i] == v;
    var j :| 0 <= j < |list| && Some(list[j]) == Scan(list, addr);
  }

  predicate Apart(v: Vma, w: Vma) { v.end <= w.start || w.end <= v.start }

  lemma InsertedSorted(list: seq<Vma>, k: nat, v: Vma)
    requires Sorted(list) && k <= |list| && v.start < v.end < WORD
    requires forall i :: 0 <= i < k ==> list[i].start <= v.start
    requires k < |list| ==> list[k].start > v.start
    requires k > 0 ==> list[k - 1].end <= v.start
    requires k < |list| ==> v.end <= list[k].start
    ensures Sorted(list[..k] + [v] + list[k..])
  {
    forall i | 0 <= i < |list|
      ensures i < k ==> list[i].end <= v.start
      ensures i >= k ==> v.end <= list[i].start
    {
      assert i < k - 1 ==> list[i].end <= list[k - 1].start;
      assert i > k ==> list[k].end <= list[i].start;
    }
    InsertedBetween(list, k, v);
  }

  lemma InsertedBetween(list: seq<Vma>, k: nat, v: Vma)
    requires Sorted(list) && k <= |list| && v.start < v.end < WORD
    requires forall i :: 0 <= i < |list| ==> if i < k then list[i].end <= v.start else v.end <= list[i].start
    ensures Sorted(list[..k] + [v] + list[k..])
  {
    var s := list[..k] + [v] + list[k..];
    forall i | 0 <= i < |s| ensures s[i] == if i < k then list[i] else if i == k then v else list[i - 1] {
    }
  }

  // The areas next to the place of v decide whether v overlaps any.
  lemma NeighboursDecide(list: seq<Vma>, k: nat, v: Vma)
    requires Sorted(list) && k <= |list| && v.start < v.end
    requires forall i :: 0 <= i < k ==> list[i].start <= v.start
    requires k < |list| ==> list[k].start > v.start
    ensures (k > 0 ==> list[k - 1].end <= v.start) && (k < |list| ==> v.end <= list[k].start)
      <==> forall w :: w in list ==> Apart(v, w)
  {
    if (k > 0 ==> list[k - 1].end <= v.start) && (k < |list| ==> v.end <= list[k].start) {
      forall w | w in list ensures Apart(v, w) {
        var i :| 0 <= i < |list| && list[i] == w;
        assert i < k - 1 ==> list[i].end <= list[k - 1].start;
        assert k < i ==> list[k].end <= list[i].start;
      }
    } else {
      var i := if k > 0 && list[k - 1].end > v.start then k - 1 else k;
      assert list[i] in list && !Apart(v, list[i]);
    }
  }

  // ---- what a checked access means ----

  // The byte at x may be read (written): it lies in an area with the flag, and not in the
  // first page of a stack if it is to be written.
  ghost predicate ByteOk(list: seq<Vma>, x: int, write: bool) {
    exists v :: v in list && Holds(v, x) && Allows(v, x, write)
  }

  predicate Allows(v: Vma, x: int, write: bool) {
    && (if write then v.write else v.read)
    && (write && v.stack ==> x >= v.start + PGSIZE)
  }

  // A user range that is not empty and does not wrap around.
  predicate UserRange(addr: int, len: int) {
    USERBASE <= addr && 0 < len && addr + len <= USERTOP
  }

  predicate UserAccess(start: int, end: int) { USERBASE <= start && start < end && end <= USERTOP }

  lemma UserAccessMeans(addr: int, len: int)
    requires 0 <= addr < WORD && 0 <= len < WORD
    ensures UserAccess(addr, (addr + len) % WORD) <==> UserRange(addr, len)
  {
    assert addr + len < WORD ==> (addr + len) % WORD == addr + len;
    assert addr + len >= WORD ==> (addr + len) % WORD == addr + len - WORD;
  }

  function RoundDown(a: int): int { a - a % PGSIZE }

  // ROUNDUP in 32-bit arithmetic
  function RoundUp(a: int): int { RoundDown((a + PGSIZE - 1) % WORD) }

  // start is the beginning of the page of addr.
  predicate PageBelow(addr: int, start: int) { start % 4096 == 0 && start <= addr < start + 4096 }

  // end is the first page boundary at or above a, which is 0 above the last one.
  predicate PageAbove(a: int, end: int) {
    end % 4096 == 0 && if a <= 0xFFFF_F000 then a <= end < a + 4096 else end == 0
  }

  lemma Rounded(a: int)
    requires 0 <= a < WORD
    ensures PageBelow(a, RoundDown(a)) && PageAbove(a, RoundUp(a))
  {
    if a > 0xFFFF_F000 {
      assert (a + PGSIZE - 1) % WORD == a + PGSIZE - 1 - WORD;
    }
  }

  // Where the pages of a user range end. A range that wraps around and is not refused is mapped as one
  // page, the one it begins in.
  lemma RangeMapped(addr: int, len: int, start: int, end: int)
    requires 0 <= addr < WORD && 0 <= len < WORD && PageBelow(addr, start) && PageAbove((addr + len) % WORD, end)
    requires UserAccess(start, end)
    ensures if addr + len < WORD then addr + len <= end < addr + len + 4096 else end == start + 4096
  {
    if addr + len >= WORD {
      assert (addr + len) % WORD == addr + len - WORD;
      OnePage(addr, addr + len - WORD, start, end);
    } else {
      assert (addr + len) % WORD == addr + len;
    }
  }

  lemma OnePage(addr: int, a: int, start: int, end: int)
    requires 0 <= a < addr && PageBelow(addr, start) && PageAbove(a, end) && start < end
    ensures end == start + 4096
  {
    var m, n := start / 4096, end / 4096;
    assert start == m * 4096 && end == n * 4096;
  }

  // Invalid stands for -E_INVAL, NoMemory for -E_NO_MEM, Panic for a failed assertion.
  datatype MapResult = Mapped | Invalid | NoMemory | Panic

  class MemoryMap {
    var list: seq<Vma>        // mmap_list
    var cache: Option<Vma>    // mmap_cache
    var count: int            // map_count

    constructor ()
      ensures Valid() && list == []
    {
      list, cache, count := [], None, 0;
    }

    ghost predicate Valid()
      reads this
    {
      Sorted(list) && (cache.Some? ==> cache.value in list) && count == |list|
    }

    // find_vma: the cache never changes the answer.
    method FindVma(addr: int) returns (r: Option<Vma>)
      requires Valid()
      modifies this`cache
      ensures Valid() && r == Scan(list, addr)
      ensures cache == if r.Some? then r else old(cache)
    {
      ScanFacts(list, addr);
      if cache.Some? && Holds(cache.value, addr) { ScanUnique(list, addr, cache.value); }
      assert list[0..] == list;
      hide Scan, Sorted;
      r := cache;
      if !(r.Some? && r.value.start <= addr && r.value.end > addr) {
        var found, i := false, 0;
        while i < |list|
          invariant 0 <= i <= |list| && !found && Scan(list, addr) == Scan(list[i..], addr)
          invariant cache == old(cache)
        {
          r := Some(list[i]);
          ScanStep(list, i, addr);
          if list[i].start <= addr && addr < list[i].end {
            found := true;
            break;
          }
          i := i + 1;
        }
        if !found {
          ScanEnd(list, addr);
          r := None;
        }
      }
      if r.Some? {
        cache := r;
      }
    }

    // insert_vma_struct; ok is false when an assertion of check_vma_overlap would fail, which is
    // exactly when v overlaps an area already there.
    method InsertVma(v: Vma) returns (ok: bool, ghost k: nat)
      requires Valid() && v.start < v.end < WORD
      modifies this`list, this`count
      ensures Valid() && (ok <==> forall w :: w in old(list) ==> Apart(v, w))
      ensures !ok ==> list == old(list)
      ensures ok ==> k <= |old(list)| && list == old(list)[..k] + [v] + old(list)[k..]
    {
      var i := 0;
      while i < |list|
        invariant 0 <= i <= |list| && forall j :: 0 <= j < i ==> list[j].start <= v.start
      {
        if list[i].start > v.start {
          break;
        }
        i := i + 1;
      }
      NeighboursDecide(list, i, v);
      k := i;
      ok := (i == 0 || list[i - 1].end <= v.start) && (i == |list| || v.end <= list[i].start);
      if ok {
        InsertedSorted(list, i, v);
        list := list[..i] + [v] + list[i..];
        count := count + 1;
      }
    }

    // user_mem_check for a process with a memory map: it ends, and accepts exactly the
    // non-empty, non-wrapping user ranges all of whose bytes may be accessed.
    method UserMemCheck(addr: int, len: int, write: bool) returns (ok: bool)
      requires Valid() && 0 <= addr < WORD && 0 <= len < WORD
      modifies this`cache
      ensures Valid()
      ensures ok <==> UserRange(addr, len) && forall x :: addr <= x < addr + len ==> ByteOk(list, x, write)
    {
      UserAccessMeans(addr, len);
      if !UserAccess(addr, (addr + len) % WORD) {
        return false;
      }
      var start, end := addr, (addr + len) % WORD;
      while start < end
        invariant Valid() && addr <= start && end == addr + len
        invariant forall x :: addr <= x < start && x < end ==> ByteOk(list, x, write)
        decreases end - start
      {
        var vma := FindVma(start);
        ScanFacts(list, start);
        if vma.None? || start < vma.value.start {
          assert !ByteOk(list, start, write);
          return false;
        }
        var v := vma.value;
        OnlyArea(v, start, write);
        if !(if write then v.write else v.read) {
          return false;
        }
        if write && v.stack {
          if start < v.start + PGSIZE {
            return false;
          }
        }
        forall x | start <= x < v.end ensures ByteOk(list, x, write) {
          assert v in list && Holds(v, x) && Allows(v, x, write);
        }
        start := v.end;
      }
      ok := true;
    }

    // The area that holds x decides about the byte at x.
    lemma OnlyArea(v: Vma, x: int, write: bool)
      requires Sorted(list) && v in list && Holds(v, x)
      ensures ByteOk(list, x, write) <==> Allows(v, x, write)
    {
      ScanUnique(list, x, v);
      if ByteOk(list, x, write) {
        var w :| w in list && Holds(w, x) && Allows(w, x, write);
        ScanUnique(list, x, w);
      }
    }

    // mm_map; gotMemory tells whether vma_create gets its memory. Only an area that holds the first
    // page is refused; an area that begins further up in the range fails an assertion instead. What is
    // mapped are the pages of the range, but only its first page if the range wraps around.
    method MmMap(addr: int, len: int, read: bool, write: bool, stack: bool, gotMemory: bool)
      returns (r: MapResult, ghost start: int, ghost end: int, ghost k: nat)
      requires Valid() && 0 <= addr < WORD && 0 <= len < WORD
      modifies this
      ensures Valid() && (r != Mapped ==> list == old(list))
      ensures PageBelow(addr, start) && PageAbove((addr + len) % WORD, end)
      ensures var invalid := !UserAccess(start, end) || exists w :: w in old(list) && Holds(w, start);
        && (r == Invalid <==> invalid)
        && (r == NoMemory <==> !invalid && !gotMemory)
        && (r == Panic <==> !invalid && gotMemory && exists w :: w in old(list) && start < w.start < end)
        && (r == Mapped ==>
              k <= |old(list)| && list == old(list)[..k] + [Vma(start, end, read, write, stack)] + old(list)[k..])
      ensures r == Mapped ==> if addr + len < WORD then addr + len <= end < addr + len + 4096 else end == start + 4096
    {
      var first, last := RoundDown(addr), RoundUp((addr + len) % WORD);
      start, end := first, last;
      k := 0;
      Rounded(addr);
      Rounded((addr + len) % WORD);
      if !UserAccess(first, last) {
        return Invalid, start, end, 0;
      }
      RangeMapped(addr, len, first, last);
      var vma := FindVma(first);
      ScanFacts(list, first);
      if vma.Some? && last > vma.value.start {
        return Invalid, start, end, 0;
      }
      if !gotMemory {
        return NoMemory, start, end, 0;
      }
      var v := Vma(first, last, read, write, stack);
      OverlapFromAbove(list, v);
      var ok;
      hide Apart, Sorted, PageBelow, PageAbove;
      ok, k := InsertVma(v);
      r := if ok then Mapped else Panic;
    }

    // A range whose first address is in no area overlaps exactly the areas that begin inside it.
    lemma OverlapFromAbove(list: seq<Vma>, v: Vma)
      requires Sorted(list) && v.start < v.end && forall w :: w in list ==> !Holds(w, v.start)
      ensures (forall w :: w in list ==> Apart(v, w)) <==> !exists w :: w in list && v.start < w.start < v.end
    {
      forall w | w in list ensures Apart(v, w) <==> !(v.start < w.start < v.end) {
        assert !Holds(w, v.start);
        var i :| 0 <= i < |list| && list[i] == w;
      }
    }
  }

  // One page is mapped, and then two pages that begin right below it: the second call panics.
  method MapBelow() returns (first: MapResult, second: MapResult)
    ensures first == Mapped && second == Panic
  {
    var mm := new MemoryMap();
    ghost var start, end, k;
    first, start, end, k := mm.MmMap(USERBASE + PGSIZE, PGSIZE, true, true, false, true);
    assert mm.list[0] == Vma(USERBASE + PGSIZE, USERBASE + 2 * PGSIZE, true, true, false);
    second, start, end, k := mm.MmMap(USERBASE, 2 * PGSIZE, true, true, false, true);
  }
}
