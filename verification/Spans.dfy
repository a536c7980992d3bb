// Free space as a sequence of blocks in address order of which no two touch, shared by the two
// allocators: what freeing and taking do to it, and why its blocks are determined by its space.
module Spans {

  type Addr = int

  // A free block as the list sees it.
  datatype Blk = Blk(addr: Addr, units: int)

  // Blocks are nonempty, in address order, and no two of them touch.
  ghost predicate Canonical(s: seq<Blk>) {
    && (forall i :: 0 <= i < |s| ==> s[i].units > 0)
    && (forall i, j :: 0 <= i < j < |s| ==> s[i].addr + s[i].units < s[j].addr)
  }

  ghost predicate Inside(u: int, b: Blk) { b.addr <= u < b.addr + b.units }

  ghost predicate InSpace(u: int, s: seq<Blk>) {
    exists i :: 0 <= i < |s| && Inside(u, s[i])
  }

  ghost function Space(s: seq<Blk>): iset<int> { iset u | InSpace(u, s) }

  ghost function Units(b: Blk): iset<int> { iset u | Inside(u, b) }

  // b would touch the block before (after) position k.
  ghost predicate TouchesLow(s: seq<Blk>, k: nat, b: Blk)
    requires k <= |s|
  {
    k > 0 && s[k - 1].addr + s[k - 1].units == b.addr
  }

  ghost predicate TouchesHigh(s: seq<Blk>, k: nat, b: Blk)
    requires k <= |s|
  {
    k < |s| && b.addr + b.units == s[k].addr
  }

  // b merged with what it touches.
  ghost function Grown(s: seq<Blk>, k: nat, b: Blk): Blk
    requires k <= |s|
  {
    var c := if TouchesHigh(s, k, b) then Blk(b.addr, b.units + s[k].units) else b;
    if TouchesLow(s, k, b) then Blk(s[k - 1].addr, s[k - 1].units + c.units) else c
  }

  // The list with the block b put in at position k and merged with what it touches.
  ghost function Freed(s: seq<Blk>, k: nat, b: Blk): seq<Blk>
    requires k <= |s|
  {
    s[..if TouchesLow(s, k, b) then k - 1 else k] + [Grown(s, k, b)] + s[if TouchesHigh(s, k, b) then k + 1 else k..]
  }

  // b lies between the blocks k - 1 and k.
  ghost predicate Gap(s: seq<Blk>, k: nat, b: Blk) {
    && k <= |s| && b.units > 0
    && (k > 0 ==> s[k - 1].addr + s[k - 1].units <= b.addr)
    && (k < |s| ==> b.addr + b.units <= s[k].addr)
  }

  // Blocks lo..hi replaced by one block that touches neither side.
  lemma ReplacedCanonical(s: seq<Blk>, lo: nat, hi: nat, b: Blk)
    requires Canonical(s) && lo <= hi <= |s| && b.units > 0
    requires lo > 0 ==> s[lo - 1].addr + s[lo - 1].units < b.addr
    requires hi < |s| ==> b.addr + b.units < s[hi].addr
    ensures Canonical(s[..lo] + [b] + s[hi..])
  {
    var t := s[..lo] + [b] + s[hi..];
    forall i | 0 <= i < |t|
      ensures t[i].units > 0
      ensures i < lo ==> t[i] == s[i] && t[i].addr + t[i].units < b.addr
      ensures i > lo ==> t[i] == s[hi + i - lo - 1] && b.addr + b.units < t[i].addr
    {
      assert i < lo - 1 ==> s[i].addr + s[i].units < s[lo - 1].addr;
      assert i > lo + 1 ==> s[hi].addr + s[hi].units < s[hi + i - lo - 1].addr;
    }
    assert t[lo] == b;
  }

  lemma Neighbours(s: seq<Blk>, i: nat)
    requires Canonical(s) && i < |s|
    ensures s[i].units > 0 && (i + 1 < |s| ==> s[i].addr + s[i].units < s[i + 1].addr)
  {
  }

  lemma GrownFits(s: seq<Blk>, k: nat, b: Blk)
    requires Canonical(s) && Gap(s, k, b)
    ensures var lo, g := if TouchesLow(s, k, b) then k - 1 else k, Grown(s, k, b);
      g.units > 0 && (lo > 0 ==> s[lo - 1].addr + s[lo - 1].units < g.addr)
    ensures var hi, g := if TouchesHigh(s, k, b) then k + 1 else k, Grown(s, k, b);
      hi < |s| ==> g.addr + g.units < s[hi].addr
  {
    if k > 0 { Neighbours(s, k - 1); }
    if k > 1 { Neighbours(s, k - 2); }
    if k < |s| { Neighbours(s, k); }
    hide Canonical;
  }

  lemma FreedCanonical(s: seq<Blk>, k: nat, b: Blk)
    requires Canonical(s) && Gap(s, k, b)
    ensures Canonical(Freed(s, k, b))
  {
    GrownFits(s, k, b);
    hide Canonical, Grown;
    ReplacedCanonical(s, if TouchesLow(s, k, b) then k - 1 else k, if TouchesHigh(s, k, b) then k + 1
      else k, Grown(s, k, b));
  }

  lemma SpaceConcat(s: seq<Blk>, t: seq<Blk>)
    ensures Space(s + t) == Space(s) + Space(t)
  {
    forall u ensures InSpace(u, s + t) <==> InSpace(u, s) || InSpace(u, t) {
      if InSpace(u, s) {
        var i :| 0 <= i < |s| && Inside(u, s[i]);
        assert (s + t)[i] == s[i];
      }
      if InSpace(u, t) {
        var i :| 0 <= i < |t| && Inside(u, t[i]);
        assert (s + t)[|s| + i] == t[i];
      }
    }
  }

  lemma SpaceOne(b: Blk)
    ensures Space([b]) == Units(b)
  {
    forall u ensures InSpace(u, [b]) <==> Inside(u, b) {
      assert [b][0] == b;
    }
  }

  // Blocks lo..hi cover what the block c covers.
  lemma ReplacedSpace(s: seq<Blk>, lo: nat, hi: nat, b: Blk)
    requires lo <= hi <= |s|
    ensures Space(s) == Space(s[..lo]) + Space(s[lo..hi]) + Space(s[hi..])
    ensures Space(s[..lo] + [b] + s[hi..]) == Space(s[..lo]) + Units(b) + Space(s[hi..])
  {
    assert s == s[..lo] + s[lo..hi] + s[hi..];
    SpaceConcat(s[..lo] + s[lo..hi], s[hi..]);
    SpaceConcat(s[..lo], s[lo..hi]);
    SpaceConcat(s[..lo] + [b], s[hi..]);
    SpaceConcat(s[..lo], [b]);
    SpaceOne(b);
  }

  lemma FreedSpace(s: seq<Blk>, k: nat, b: Blk)
    requires Canonical(s) && Gap(s, k, b)
    ensures Space(Freed(s, k, b)) == Space(s) + Units(b)
  {
    hide Canonical, Space, InSpace, Units, Grown;
    var low, high := TouchesLow(s, k, b), TouchesHigh(s, k, b);
    var lo, hi := if low then k - 1 else k, if high then k + 1 else k;
    ReplacedSpace(s, lo, hi, Grown(s, k, b));
    GrownUnits(s, k, b);
    SpaceSplit(s, lo, k, hi);
    SpaceFew(s[lo..k]);
    SpaceFew(s[k..hi]);
  }

  lemma SpaceSplit(s: seq<Blk>, lo: nat, k: nat, hi: nat)
    requires lo <= k <= hi <= |s|
    ensures Space(s[lo..hi]) == Space(s[lo..k]) + Space(s[k..hi])
  {
    assert s[lo..hi] == s[lo..k] + s[k..hi];
    SpaceConcat(s[lo..k], s[k..hi]);
  }

  lemma GrownUnits(s: seq<Blk>, k: nat, b: Blk)
    requires Canonical(s) && Gap(s, k, b)
    ensures Units(Grown(s, k, b)) ==
      (if TouchesLow(s, k, b) then Units(s[k - 1]) else iset{}) +
      (if TouchesHigh(s, k, b) then Units(s[k]) else iset{}) + Units(b)
  {
    if k > 0 { Neighbours(s, k - 1); }
    if k < |s| { Neighbours(s, k); }
  }

  lemma SpaceFew(s: seq<Blk>)
    requires |s| <= 1
    ensures Space(s) == if s == [] then iset{} else Units(s[0])
  {
    if |s| == 1 {
      assert s == [s[0]];
      SpaceOne(s[0]);
    }
  }

  // The list after the first n units of block k are taken.
  ghost function Taken(s: seq<Blk>, k: nat, n: int): seq<Blk>
    requires k < |s|
  {
    if s[k].units == n then s[..k] + s[k + 1..]
    else s[..k] + [Blk(s[k].addr + n, s[k].units - n)] + s[k + 1..]
  }

  lemma TakenCanonical(s: seq<Blk>, k: nat, n: int)
    requires Canonical(s) && k < |s| && 0 < n <= s[k].units
    ensures Canonical(Taken(s, k, n))
  {
    if n < s[k].units {
      assert k > 0 ==> s[k - 1].addr + s[k - 1].units < s[k].addr;
      ReplacedCanonical(s, k, k + 1, Blk(s[k].addr + n, s[k].units - n));
    } else {
      RemovedCanonical(s, k);
    }
  }

  lemma RemovedCanonical(s: seq<Blk>, k: nat)
    requires Canonical(s) && k < |s|
    ensures Canonical(s[..k] + s[k + 1..])
  {
    var t := s[..k] + s[k + 1..];
    forall i | 0 <= i < |t| ensures t[i] == s[if i < k then i else i + 1] {
    }
  }

  lemma TakenSpace(s: seq<Blk>, k: nat, n: int)
    requires Canonical(s) && k < |s| && 0 < n <= s[k].units
    ensures Space(s) == Space(Taken(s, k, n)) + Units(Blk(s[k].addr, n))
    ensures Space(Taken(s, k, n)) !! Units(Blk(s[k].addr, n))
  {
    var rest := Blk(s[k].addr + n, s[k].units - n);
    ReplacedSpace(s, k, k + 1, rest);
    assert s[k..k + 1] == [s[k]];
    SpaceOne(s[k]);
    assert Units(s[k]) == Units(rest) + Units(Blk(s[k].addr, n));
    if n == s[k].units {
      SpaceConcat(s[..k], s[k + 1..]);
      assert Units(rest) == iset{};
    }
    Apart(s[..k], Blk(s[k].addr, n));
    Apart(s[k + 1..], Blk(s[k].addr, n));
  }

  lemma Apart(s: seq<Blk>, b: Blk)
    requires forall i :: 0 <= i < |s| ==> s[i].addr + s[i].units <= b.addr || b.addr + b.units <= s[i].addr
    ensures Space(s) !! Units(b)
  {
  }

  // A canonical list is determined by the units it covers.
  lemma {:induction false} CanonicalUnique(s: seq<Blk>, t: seq<Blk>)
    requires Canonical(s) && Canonical(t) && Space(s) == Space(t)
    ensures s == t
  {
    if s != [] { FirstInside(s); }
    if t != [] { FirstInside(t); }
    hide Canonical, Space;
    if s != [] && t != [] {
      FirstBlock(s, t);
      FirstBlock(t, s);
      assert s[0] == t[0];
      RestSpace(s);
      RestSpace(t);
      TailCanonical(s);
      TailCanonical(t);
      CanonicalUnique(s[1..], t[1..]);
      assert s == [s[0]] + s[1..] && t == [t[0]] + t[1..];
    }
  }

  lemma TailCanonical(s: seq<Blk>)
    requires Canonical(s) && s != []
    ensures Canonical(s[1..])
  {
    var t := s[1..];
    forall i, j | 0 <= i < j < |t| ensures t[i].addr + t[i].units < t[j].addr {
      assert t[i] == s[i + 1] && t[j] == s[j + 1];
    }
  }

  lemma BlockInSpace(s: seq<Blk>, i: nat)
    requires Canonical(s) && i < |s|
    ensures s[i].addr in Space(s)
  {
    assert Inside(s[i].addr, s[i]);
  }

  lemma FirstInside(s: seq<Blk>)
    requires Canonical(s) && s != []
    ensures s[0].addr in Space(s) && s[0].addr + s[0].units !in Space(s)
    ensures forall u :: Inside(u, s[0]) ==> u in Space(s)
    ensures forall u :: u in Space(s) ==> s[0].addr <= u
  {
    assert Inside(s[0].addr, s[0]);
  }

  lemma FirstBlock(s: seq<Blk>, t: seq<Blk>)
    requires Canonical(s) && Canonical(t) && Space(s) == Space(t) && s != [] && t != []
    ensures t[0].addr <= s[0].addr
    ensures t[0].addr == s[0].addr ==> t[0].units <= s[0].units
  {
    FirstInside(s);
    FirstInside(t);
    var e, b := s[0].addr + s[0].units, t[0];
    assert e in Space(t) <==> e in Space(s);
    assert Inside(e, b) <==> b.addr <= e < b.addr + b.units;
  }

  lemma RestSpace(s: seq<Blk>)
    requires Canonical(s) && s != []
    ensures Space(s[1..]) == Space(s) - Units(s[0])
  {
    assert s == [s[0]] + s[1..];
    SpaceConcat([s[0]], s[1..]);
    SpaceOne(s[0]);
    Apart(s[1..], s[0]);
  }

  // A block outside the free space fits in exactly one gap.
  lemma GapExists(s: seq<Blk>, b: Blk) returns (k: nat)
    requires Canonical(s) && b.units > 0 && Space(s) !! Units(b)
    ensures Gap(s, k, b)
    ensures forall i :: 0 <= i < |s| ==> (i < k <==> s[i].addr < b.addr)
  {
    k := 0;
    while k < |s| && s[k].addr < b.addr
      invariant 0 <= k <= |s|
      invariant forall i :: 0 <= i < k ==> s[i].addr < b.addr
    {
      k := k + 1;
    }
    forall i | k <= i < |s| ensures s[i].addr >= b.addr {
      assert i > k ==> s[k].addr + s[k].units < s[i].addr;
    }
    if k > 0 {
      var u := b.addr;
      assert Inside(u, b) && u in Units(b);
      assert Inside(u, s[k - 1]) ==> u in Space(s);
    }
    if k < |s| {
      var u := s[k].addr;
      assert Inside(u, s[k]) && u in Space(s);
      assert Inside(u, b) ==> u in Units(b);
    }
  }

  ghost predicate InLive(u: int, live: map<Addr, int>) {
    exists a :: a in live && Inside(u, Blk(a, live[a]))
  }

  ghost function LiveSpace(live: map<Addr, int>): iset<int> { iset u | InLive(u, live) }

  ghost predicate Disjoint(b: Blk, c: Blk) { b.addr + b.units <= c.addr || c.addr + c.units <= b.addr }

  // Live blocks are nonempty and do not overlap.
  ghost predicate LiveApart(live: map<Addr, int>) {
    && (forall a :: a in live ==> live[a] > 0)
    && (forall a, b :: a in live && b in live && a != b ==> Disjoint(Blk(a, live[a]), Blk(b, live[b])))
  }

  // A block that b does not touch is still there after the insertion.
  lemma FreedAt(s: seq<Blk>, k: nat, b: Blk, r: nat)
    requires k <= |s| && r < |s|
    requires !(TouchesLow(s, k, b) && r == k - 1) && !(TouchesHigh(s, k, b) && r == k)
    ensures s[r] in Freed(s, k, b)
  {
    var t := Freed(s, k, b);
    var lo, hi := if TouchesLow(s, k, b) then k - 1 else k, if TouchesHigh(s, k, b) then k + 1 else k;
    if r < lo {
      assert t[r] == s[r];
    } else {
      assert t[r - hi + lo + 1] == s[r];
    }
  }

  lemma UnitsMeet(b: Blk, c: Blk)
    requires b.units > 0 && c.units > 0 && Units(b) !! Units(c)
    ensures Disjoint(b, c)
  {
    var u := if b.addr > c.addr then b.addr else c.addr;
    assert Inside(u, b) && Inside(u, c) ==> u in Units(b) && u in Units(c);
  }

  lemma LiveBlock(live: map<Addr, int>, a: Addr)
    requires a in live
    ensures Units(Blk(a, live[a])) <= LiveSpace(live)
  {
    forall u | u in Units(Blk(a, live[a])) ensures InLive(u, live) {
      assert Inside(u, Blk(a, live[a]));
    }
  }

  // A live block given up.
  lemma LiveWithout(live: map<Addr, int>, a: Addr)
    requires LiveApart(live) && a in live
    ensures LiveApart(live - {a})
    ensures LiveSpace(live - {a}) == LiveSpace(live) - Units(Blk(a, live[a]))
  {
    var rest := live - {a};
    forall u ensures InLive(u, rest) <==> InLive(u, live) && !Inside(u, Blk(a, live[a])) {
      if InLive(u, rest) {
        var x :| x in rest && Inside(u, Blk(x, rest[x]));
        assert x in live && Disjoint(Blk(x, live[x]), Blk(a, live[a]));
      }
      if InLive(u, live) && !Inside(u, Blk(a, live[a])) {
        var x :| x in live && Inside(u, Blk(x, live[x]));
        assert x in rest;
      }
    }
  }

  // A new live block.
  lemma LiveWith(live: map<Addr, int>, a: Addr, n: int)
    requires LiveApart(live) && n > 0 && Units(Blk(a, n)) !! LiveSpace(live)
    ensures a !in live && LiveApart(live[a := n])
    ensures LiveSpace(live[a := n]) == LiveSpace(live) + Units(Blk(a, n))
  {
    assert Inside(a, Blk(a, n));
    forall x | x in live ensures x != a && Disjoint(Blk(x, live[x]), Blk(a, n)) {
      LiveBlock(live, x);
      UnitsMeet(Blk(x, live[x]), Blk(a, n));
    }
    var more := live[a := n];
    forall u ensures InLive(u, more) <==> InLive(u, live) || Inside(u, Blk(a, n)) {
      if InLive(u, live) {
        var x :| x in live && Inside(u, Blk(x, live[x]));
        assert more[x] == live[x];
      }
      if Inside(u, Blk(a, n)) { assert more[a] == n; }
      if InLive(u, more) {
        var x :| x in more && Inside(u, Blk(x, more[x]));
        assert x == a || (x in live && more[x] == live[x]);
      }
    }
  }

  // A live block seen as two.
  ghost function Split(live: map<Addr, int>, a: Addr, n: int): map<Addr, int>
    requires a in live
  {
    live[a := n][a + n := live[a] - n]
  }

  lemma SharedSplit(free: seq<Blk>, live: map<Addr, int>, owned: iset<int>, a: Addr, n: int)
    requires Shared(free, live, owned) && a in live && 0 < n < live[a]
    ensures a + n !in live && Shared(free, Split(live, a, n), owned)
  {
    var rest, b := live - {a}, Blk(a, live[a]);
    LiveWithout(live, a);
    LiveBlock(live, a);
    assert Units(b) == Units(Blk(a, n)) + Units(Blk(a + n, live[a] - n));
    LiveWith(rest, a, n);
    LiveWith(rest[a := n], a + n, live[a] - n);
    assert Split(live, a, n) == rest[a := n][a + n := live[a] - n];
  }

  // Where the other blocks stand after an allocation.
  lemma TakenAt(s: seq<Blk>, k: nat, n: int, i: nat) returns (j: nat)
    requires k < |s| && i < |s| && i != k
    ensures j < |Taken(s, k, n)| && Taken(s, k, n)[j] == s[i]
  {
    j := if i < k || s[k].units != n then i else i - 1;
  }

  // Free and live blocks together cover exactly the space owned, each unit once.
  ghost predicate Shared(free: seq<Blk>, live: map<Addr, int>, owned: iset<int>) {
    Space(free) !! LiveSpace(live) && owned == Space(free) + LiveSpace(live) && LiveApart(live)
  }

  lemma SharedTaken(s: seq<Blk>, s': seq<Blk>, live: map<Addr, int>, owned: iset<int>, a: Addr, n: int)
    requires Shared(s, live, owned) && n > 0
    requires Space(s) == Space(s') + Units(Blk(a, n)) && Space(s') !! Units(Blk(a, n))
    ensures Shared(s', live[a := n], owned) && a !in live
  {
    LiveWith(live, a, n);
  }

  lemma SharedFreed(s: seq<Blk>, s': seq<Blk>, live: map<Addr, int>, owned: iset<int>, a: Addr)
    requires Shared(s, live, owned) && a in live && Space(s') == Space(s) + Units(Blk(a, live[a]))
    ensures Shared(s', live - {a}, owned)
  {
    LiveWithout(live, a);
    LiveBlock(live, a);
  }

  // The free list is a function of the space owned and the blocks handed out.
  lemma FreeListDetermined(s: seq<Blk>, t: seq<Blk>, live: map<Addr, int>, owned: iset<int>)
    requires Canonical(s) && Canonical(t) && Shared(s, live, owned) && Shared(t, live, owned)
    ensures s == t
  {
    assert Space(s) == owned - LiveSpace(live) && Space(t) == owned - LiveSpace(live);
    CanonicalUnique(s, t);
  }
}
