// The first-fit page allocator of kern/mm/default_pmm.c: a list of all free pages whose property
// fields mark the blocks.
module FirstFitPages {
  import opened Spans
  import opened Options

  type Page = int   // index of a struct Page in the pages array

  // ---- the page list as the concatenation of its runs ----

  ghost function Run(b: Blk): seq<Page> {
    seq(if b.units > 0 then b.units else 0, i => b.addr + i)
  }

  ghost function Flat(s: seq<Blk>): seq<Page> {
    if s == [] then [] else Run(s[0]) + Flat(s[1..])
  }

  ghost function Total(s: seq<Blk>): int {
    if s == [] then 0 else s[0].units + Total(s[1..])
  }

  lemma {:induction false} FlatConcat(s: seq<Blk>, t: seq<Blk>)
    ensures Flat(s + t) == Flat(s) + Flat(t) && Total(s + t) == Total(s) + Total(t)
  {
    if s == [] {
      assert s + t == t;
    } else {
      assert (s + t)[1..] == s[1..] + t;
      FlatConcat(s[1..], t);
    }
  }

  lemma FlatOne(b: Blk)
    ensures Flat([b]) == Run(b) && Total([b]) == b.units
  {
    assert [b][1..] == [];
  }

  // Runs lo..hi replaced by b.
  lemma FlatReplaced(s: seq<Blk>, lo: nat, hi: nat, b: Blk)
    requires lo <= hi <= |s|
    ensures Flat(s[..lo] + [b] + s[hi..]) == Flat(s[..lo]) + Run(b) + Flat(s[hi..])
    ensures Total(s[..lo] + [b] + s[hi..]) == Total(s[..lo]) + b.units + Total(s[hi..])
  {
    FlatConcat(s[..lo] + [b], s[hi..]);
    FlatConcat(s[..lo], [b]);
    FlatOne(b);
  }

  lemma FlatSplit(s: seq<Blk>, k: nat)
    requires k <= |s|
    ensures Flat(s) == Flat(s[..k]) + Flat(s[k..]) && Total(s) == Total(s[..k]) + Total(s[k..])
  {
    assert s == s[..k] + s[k..];
    FlatConcat(s[..k], s[k..]);
  }

  lemma {:induction false} FlatLength(s: seq<Blk>)
    requires forall i :: 0 <= i < |s| ==> s[i].units > 0
    ensures |Flat(s)| == Total(s) && forall i :: 0 <= i < |s| ==> s[i].units <= Total(s)
  {
    if s != [] {
      FlatLength(s[1..]);
      assert forall i :: 0 < i < |s| ==> s[i] == s[1..][i - 1];
    }
  }

  // Where page j of run k stands in the list.
  lemma FlatAt(s: seq<Blk>, k: nat, j: nat)
    requires Canonical(s) && k < |s| && j < s[k].units
    ensures |Flat(s[..k])| + j < |Flat(s)| && Flat(s)[|Flat(s[..k])| + j] == s[k].addr + j
    ensures j + 1 == s[k].units ==> |Flat(s[..k])| + j + 1 == |Flat(s[..k + 1])|
    ensures |Flat(s[..k])| + s[k].units <= |Flat(s)|
  {
    FlatSplit(s, k);
    assert s[k..][0] == s[k] && s[..k + 1] == s[..k] + [s[k]];
    FlatConcat(s[..k], [s[k]]);
    FlatOne(s[k]);
  }

  lemma {:induction false} FlatInside(s: seq<Blk>, lo: int, hi: int)
    requires forall i :: 0 <= i < |s| ==> lo <= s[i].addr && s[i].addr + s[i].units <= hi
    ensures forall i :: 0 <= i < |Flat(s)| ==> lo <= Flat(s)[i] < hi
  {
    if s != [] {
      assert forall i :: 0 <= i < |s[1..]| ==> s[1..][i] == s[i + 1];
      FlatInside(s[1..], lo, hi);
    }
  }

  // The pages before a gap are below it, those after it above.
  lemma FlatAround(s: seq<Blk>, k: nat, b: Blk)
    requires Canonical(s) && Gap(s, k, b)
    ensures |Flat(s[..k])| <= |Flat(s)|
    ensures forall i :: 0 <= i < |Flat(s[..k])| ==> Flat(s)[i] < b.addr
    ensures forall i :: |Flat(s[..k])| <= i < |Flat(s)| ==> Flat(s)[i] >= b.addr + b.units
  {
    FlatSplit(s, k);
    var lo, hi := s[..k], s[k..];
    if k > 0 {
      forall i | 0 <= i < k ensures s[0].addr <= lo[i].addr && lo[i].addr + lo[i].units <= b.addr {
        assert i > 0 ==> s[0].addr + s[0].units < s[i].addr;
        assert i < k - 1 ==> s[i].addr + s[i].units < s[k - 1].addr;
      }
      FlatInside(lo, s[0].addr, b.addr);
    }
    if k < |s| {
      var last := s[|s| - 1];
      forall i | 0 <= i < |hi| ensures b.addr + b.units <= hi[i].addr &&
        hi[i].addr + hi[i].units <= last.addr + last.units {
        assert hi[i] == s[k + i];
        assert i > 0 ==> s[k].addr + s[k].units < s[k + i].addr;
        assert k + i < |s| - 1 ==> s[k + i].addr + s[k + i].units < last.addr;
      }
      FlatInside(hi, b.addr + b.units, last.addr + last.units);
    }
  }

  lemma RunSplit(a: Page, p: int, q: int)
    requires 0 <= p && 0 <= q
    ensures Run(Blk(a, p + q)) == Run(Blk(a, p)) + Run(Blk(a + p, q))
  {
  }

  lemma FlatNext(s: seq<Blk>, k: nat)
    requires k < |s|
    ensures Flat(s[..k + 1]) == Flat(s[..k]) + Run(s[k]) && Total(s[..k + 1]) == Total(s[..k]) + s[k].units
    ensures Flat(s[k..]) == Run(s[k]) + Flat(s[k + 1..]) && Total(s[k..]) == s[k].units + Total(s[k + 1..])
  {
    assert s[..k + 1] == s[..k] + [s[k]] && s[k..] == [s[k]] + s[k + 1..];
    FlatConcat(s[..k], [s[k]]);
    FlatConcat([s[k]], s[k + 1..]);
    FlatOne(s[k]);
  }

  // What the run grown around b consists of.
  lemma GrownRun(s: seq<Blk>, k: nat, b: Blk)
    requires Canonical(s) && Gap(s, k, b)
    ensures Run(Grown(s, k, b)) ==
      (if TouchesLow(s, k, b) then Run(s[k - 1]) else []) + Run(b) + (if TouchesHigh(s, k, b) then Run(s[k]) else [])
  {
    if k > 0 { Neighbours(s, k - 1); }
    if k < |s| { Neighbours(s, k); }
    hide Canonical;
    var more := if TouchesHigh(s, k, b) then s[k].units else 0;
    RunSplit(b.addr, b.units, more);
    if TouchesLow(s, k, b) {
      RunSplit(s[k - 1].addr, s[k - 1].units, b.units + more);
    }
  }

  lemma Regroup(a: seq<Page>, l: seq<Page>, b: seq<Page>, h: seq<Page>, c: seq<Page>)
    ensures a + (l + b + h) + c == (a + l) + b + (h + c)
  {
  }

  // Merging moves no page of the list: b is put in whole at its gap.
  lemma FlatFreed(s: seq<Blk>, k: nat, b: Blk)
    requires Canonical(s) && Gap(s, k, b)
    ensures Flat(Freed(s, k, b)) == Flat(s[..k]) + Run(b) + Flat(s[k..])
    ensures Total(Freed(s, k, b)) == Total(s) + b.units
  {
    hide Canonical, Run, Flat, Total;
    var low, high := TouchesLow(s, k, b), TouchesHigh(s, k, b);
    var lo, hi := if low then k - 1 else k, if high then k + 1 else k;
    FlatReplaced(s, lo, hi, Grown(s, k, b));
    FlatSplit(s, k);
    GrownRun(s, k, b);
    if low { FlatNext(s, lo); }
    if high { FlatNext(s, k); }
    Regroup(Flat(s[..lo]), if low then Run(s[lo]) else [], Run(b), if high then Run(s[k]) else [], Flat(s[hi..]));
  }

  lemma CutOut(a: seq<Page>, r: seq<Page>, q: seq<Page>, c: seq<Page>)
    ensures a + q + c == (a + (r + q) + c)[..|a|] + (a + (r + q) + c)[|a| + |r|..]
  {
  }

  lemma TakenParts(s: seq<Blk>, k: nat, n: int)
    requires k < |s| && 0 < n <= s[k].units
    ensures Flat(Taken(s, k, n)) == Flat(s[..k]) + Run(Blk(s[k].addr + n, s[k].units - n)) + Flat(s[k + 1..])
    ensures Total(Taken(s, k, n)) == Total(s[..k]) + (s[k].units - n) + Total(s[k + 1..])
  {
    var rest := Blk(s[k].addr + n, s[k].units - n);
    FlatReplaced(s, k, k + 1, rest);
    FlatConcat(s[..k], s[k + 1..]);
    assert n == s[k].units ==> Run(rest) == [];
  }

  lemma WholeParts(s: seq<Blk>, k: nat, n: int)
    requires k < |s| && 0 < n <= s[k].units
    ensures Flat(s) ==
      Flat(s[..k]) + (Run(Blk(s[k].addr, n)) + Run(Blk(s[k].addr + n, s[k].units - n))) + Flat(s[k + 1..])
    ensures Total(s) == Total(s[..k]) + s[k].units + Total(s[k + 1..])
  {
    hide *;
    FlatSplit(s, k);
    FlatNext(s, k);
    RunParts(s[k], n);
    Assoc(Flat(s[..k]), Run(s[k]), Flat(s[k + 1..]));
  }

  lemma RunParts(b: Blk, n: int)
    requires 0 <= n <= b.units
    ensures Run(b) == Run(Blk(b.addr, n)) + Run(Blk(b.addr + n, b.units - n))
  {
    assert b == Blk(b.addr, n + (b.units - n));
    RunSplit(b.addr, n, b.units - n);
  }

  lemma Assoc(a: seq<Page>, q: seq<Page>, c: seq<Page>)
    ensures a + (q + c) == a + q + c
  {
  }

  // Taking the first n pages of run k cuts them out of the list.
  lemma FlatTaken(s: seq<Blk>, k: nat, n: int)
    requires k < |s| && 0 < n <= s[k].units
    ensures |Flat(s[..k])| + n <= |Flat(s)| && Total(Taken(s, k, n)) == Total(s) - n
    ensures Flat(Taken(s, k, n)) == Flat(s)[..|Flat(s[..k])|] + Flat(s)[|Flat(s[..k])| + n..]
  {
    var first, rest := Blk(s[k].addr, n), Blk(s[k].addr + n, s[k].units - n);
    assert |Run(first)| == n;
    hide *;
    TakenParts(s, k, n);
    WholeParts(s, k, n);
    CutOut(Flat(s[..k]), Run(first), Run(rest), Flat(s[k + 1..]));
  }

  // ---- property fields ----

  // The head of a run carries its length, the other pages 0.
  ghost predicate TaggedRun(m: map<Page, int>, b: Blk) {
    forall u :: Inside(u, b) ==> u in m && m[u] == if u == b.addr then b.units else 0
  }

  ghost predicate Tagged(m: map<Page, int>, s: seq<Blk>) {
    forall i :: 0 <= i < |s| ==> TaggedRun(m, s[i])
  }

  // Pages after the first of an allocated block carry 0.
  ghost predicate ZeroInside(m: map<Page, int>, b: Blk) {
    forall u :: Inside(u, b) ==> u in m && (u != b.addr ==> m[u] == 0)
  }

  ghost predicate LiveTags(m: map<Page, int>, live: map<Page, int>) {
    forall a :: a in live ==> ZeroInside(m, Blk(a, live[a]))
  }

  // The fields of m that differ in m' all belong to pages of b.
  ghost predicate ChangedIn(m: map<Page, int>, m': map<Page, int>, b: Blk) {
    forall u :: !Inside(u, b) ==> (u in m <==> u in m') && (u in m ==> m'[u] == m[u])
  }

  lemma TagsReplaced(m: map<Page, int>, m': map<Page, int>, s: seq<Blk>, lo: nat, hi: nat, b: Blk)
    requires Tagged(m, s) && lo <= hi <= |s| && ChangedIn(m, m', b) && TaggedRun(m', b)
    requires forall i :: 0 <= i < |s| && !(lo <= i < hi) ==> Disjoint(s[i], b)
    ensures Tagged(m', s[..lo] + [b] + s[hi..])
  {
    var t := s[..lo] + [b] + s[hi..];
    forall i | 0 <= i < |t| ensures TaggedRun(m', t[i]) {
      if i != lo {
        var j := if i < lo then i else hi + i - lo - 1;
        assert t[i] == s[j] && Disjoint(s[j], b) && TaggedRun(m, s[j]);
      }
    }
  }

  lemma LiveTagsKept(m: map<Page, int>, m': map<Page, int>, live: map<Page, int>, b: Blk)
    requires LiveTags(m, live) && ChangedIn(m, m', b) && Units(b) !! LiveSpace(live)
    ensures LiveTags(m', live)
  {
    forall a | a in live ensures ZeroInside(m', Blk(a, live[a])) {
      LiveBlock(live, a);
      forall u | Inside(u, Blk(a, live[a])) ensures u in m' && (u != a ==> m'[u] == 0) {
        assert u in Units(Blk(a, live[a])) && u !in Units(b);
      }
    }
  }

  // Two neighbouring runs joined: the first page gets the sum, the head of the second 0.
  lemma JoinTags(m: map<Page, int>, a: Page, p: int, q: int)
    requires p > 0 && q > 0 && TaggedRun(m, Blk(a, p)) && TaggedRun(m, Blk(a + p, q))
    ensures Inside(a, Blk(a, p)) && Inside(a + p, Blk(a + p, q)) && m[a] == p && m[a + p] == q
    ensures TaggedRun(m[a := p + q][a + p := 0], Blk(a, p + q))
  {
    assert Inside(a, Blk(a, p)) && Inside(a + p, Blk(a + p, q));
    forall u | Inside(u, Blk(a, p + q)) ensures u in m {
      assert Inside(u, Blk(a, p)) || Inside(u, Blk(a + p, q));
    }
  }

  // The fields after n pages are taken off the front of b: what is left gets a head.
  ghost function TakenTags(m: map<Page, int>, b: Blk, n: int): map<Page, int> {
    if b.units > n then m[b.addr + n := b.units - n] else m
  }

  lemma TagsTaken(m: map<Page, int>, m': map<Page, int>, s: seq<Blk>, k: nat, n: int)
    requires Canonical(s) && Tagged(m, s) && k < |s| && 0 < n <= s[k].units
    requires m' == TakenTags(m, s[k], n)
    ensures Tagged(m', Taken(s, k, n)) && ZeroInside(m', Blk(s[k].addr, n))
    ensures ChangedIn(m, m', Blk(s[k].addr + n, s[k].units - n))
  {
    assert TaggedRun(m, s[k]);
    var rest := Blk(s[k].addr + n, s[k].units - n);
    forall u | Inside(u, Blk(s[k].addr, n)) || Inside(u, rest) ensures Inside(u, s[k]) {
    }
    if n < s[k].units {
      forall i | 0 <= i < |s| && i != k ensures Disjoint(s[i], rest) {
        assert i < k ==> s[i].addr + s[i].units < s[k].addr;
        assert i > k ==> s[k].addr + s[k].units < s[i].addr;
      }
      TagsReplaced(m, m', s, k, k + 1, rest);
    }
  }

  // The grown run overlaps no run it did not absorb.
  lemma GrownApart(s: seq<Blk>, k: nat, b: Blk, i: nat)
    requires Canonical(s) && Gap(s, k, b) && i < |s|
    requires !(TouchesLow(s, k, b) && i == k - 1) && !(TouchesHigh(s, k, b) && i == k)
    ensures Disjoint(s[i], Grown(s, k, b))
  {
    if i < k {
      Neighbours(s, k - 1);
      assert i < k - 1 ==> s[i].addr + s[i].units < s[k - 1].addr;
      assert TouchesHigh(s, k, b) ==> s[k - 1].addr + s[k - 1].units < s[k].addr;
    } else {
      Neighbours(s, k);
      assert i > k ==> s[k].addr + s[k].units < s[i].addr;
      assert k > 0 ==> s[k - 1].addr + s[k - 1].units < s[i].addr;
    }
  }

  lemma TagsFreed(m: map<Page, int>, m': map<Page, int>, s: seq<Blk>, k: nat, b: Blk)
    requires Canonical(s) && Gap(s, k, b) && Tagged(m, s)
    requires ChangedIn(m, m', Grown(s, k, b)) && TaggedRun(m', Grown(s, k, b))
    ensures Tagged(m', Freed(s, k, b))
  {
    var lo, hi := if TouchesLow(s, k, b) then k - 1 else k, if TouchesHigh(s, k, b) then k + 1 else k;
    forall i | 0 <= i < |s| && !(lo <= i < hi) ensures Disjoint(s[i], Grown(s, k, b)) {
      GrownApart(s, k, b, i);
    }
    hide Canonical, Gap, Grown, TaggedRun, ChangedIn, Disjoint;
    TagsReplaced(m, m', s, lo, hi, Grown(s, k, b));
  }

  lemma LiveTagsTaken(m: map<Page, int>, m': map<Page, int>, s: seq<Blk>, live: map<Page, int>, owned: iset<int>,
                      k: nat, n: int)
    requires Canonical(s) && Shared(s, live, owned) && LiveTags(m, live) && k < |s| && 0 < n <= s[k].units
    requires ZeroInside(m', Blk(s[k].addr, n)) && ChangedIn(m, m', Blk(s[k].addr + n, s[k].units - n))
    ensures LiveTags(m', live[s[k].addr := n])
  {
    var rest := Blk(s[k].addr + n, s[k].units - n);
    forall u | u in Units(rest) ensures u in Space(s) {
      assert Inside(u, s[k]);
    }
    LiveTagsKept(m, m', live, rest);
  }

  // b merged with the run above it only.
  ghost function HighRun(s: seq<Blk>, k: nat, b: Blk): Blk
    requires k <= |s|
  {
    if TouchesHigh(s, k, b) then Blk(b.addr, b.units + s[k].units) else b
  }

  // The pages of b stand right before position i.
  ghost predicate LastRun(list: seq<Page>, i: nat, b: Blk) {
    0 < b.units <= i <= |list| && forall d :: i - b.units <= d < i ==> list[d] == b.addr + d - (i - b.units)
  }

  lemma LastRunAt(list: seq<Page>, i: nat, b: Blk, d: int)
    requires LastRun(list, i, b) && i - b.units <= d < i
    ensures list[d] == b.addr + d - (i - b.units) && Inside(list[d], b)
  {
  }

  lemma LowFacts(list: seq<Page>, i: nat, s: seq<Blk>, k: nat, b: Blk)
    requires Canonical(s) && Gap(s, k, b) && i <= |list| && (if k > 0 then LastRun(list, i, s[k - 1]) else i == 0)
    ensures i > 0 && list[i - 1] == b.addr - 1 <==> TouchesLow(s, k, b)
    ensures HighRun(s, k, b).units > 0 && HighRun(s, k, b).addr == b.addr
    ensures Grown(s, k, b) == if TouchesLow(s, k, b) then Blk(s[k - 1].addr, s[k - 1].units + HighRun(s, k, b).units)
                              else HighRun(s, k, b)
  {
    if k > 0 { LastRunAt(list, i, s[k - 1], i - 1); }
    if k < |s| { Neighbours(s, k); }
  }

  lemma LiveApartFromFree(s: seq<Blk>, live: map<Page, int>, owned: iset<int>, a: Page)
    requires Shared(s, live, owned) && a in live
    ensures live[a] > 0 && Space(s) !! Units(Blk(a, live[a]))
  {
    LiveBlock(live, a);
  }

  lemma ZeroOf(m: map<Page, int>, live: map<Page, int>, a: Page)
    requires LiveTags(m, live) && a in live
    ensures ZeroInside(m, Blk(a, live[a]))
  {
  }

  // The grown run is part of the space free afterwards.
  lemma GrownInSpace(s: seq<Blk>, k: nat, b: Blk)
    requires k <= |s|
    ensures Units(Grown(s, k, b)) <= Space(Freed(s, k, b))
  {
    var lo := if TouchesLow(s, k, b) then k - 1 else k;
    assert Freed(s, k, b)[lo] == Grown(s, k, b);
  }

  lemma LiveTagsFreed(m: map<Page, int>, m': map<Page, int>, s: seq<Blk>, k: nat, live: map<Page, int>,
                      owned: iset<int>, a: Page)
    requires a in live && LiveTags(m, live) && k <= |s|
    requires Shared(Freed(s, k, Blk(a, live[a])), live - {a}, owned)
    requires ChangedIn(m, m', Grown(s, k, Blk(a, live[a])))
    ensures LiveTags(m', live - {a})
  {
    GrownInSpace(s, k, Blk(a, live[a]));
    hide Space, Units, LiveSpace, Freed, Grown;
    LiveTagsKept(m, m', live - {a}, Grown(s, k, Blk(a, live[a])));
  }

  // Where the block was linked: the pages on both sides of it.
  lemma PlaceFacts(s: seq<Blk>, k: nat, b: Blk, list: seq<Page>)
    requires Canonical(s) && Gap(s, k, b) && |Flat(s[..k])| <= |Flat(s)|
    requires list == Flat(s)[..|Flat(s[..k])|] + Run(b) + Flat(s)[|Flat(s[..k])|..]
    ensures list == Flat(Freed(s, k, b))
    ensures var i := |Flat(s[..k])|;
      && i + b.units <= |list| && (i + b.units < |list| <==> k < |s|)
      && (k < |s| ==> list[i + b.units] == s[k].addr)
      && (if k > 0 then LastRun(list, i, s[k - 1]) else i == 0)
  {
    FlatSplit(s, k);
    FlatFreed(s, k, b);
    var i := |Flat(s[..k])|;
    assert Flat(s)[..i] == Flat(s[..k]) && Flat(s)[i..] == Flat(s[k..]);
    if k < |s| { FlatAt(s, k, 0); } else { assert Flat(s[k..]) == []; }
    if k > 0 {
      LastRunOf(s, k);
      hide Flat, Freed, Canonical;
      var c := s[k - 1];
      forall d | i - c.units <= d < i ensures list[d] == c.addr + d - (i - c.units) {
        LastRunAt(Flat(s), i, c, d);
      }
    }
  }

  // The run before position k stands right before the place of k.
  lemma LastRunOf(s: seq<Blk>, k: nat)
    requires Canonical(s) && 0 < k <= |s| && |Flat(s[..k])| <= |Flat(s)|
    ensures LastRun(Flat(s), |Flat(s[..k])|, s[k - 1])
  {
    var c, i := s[k - 1], |Flat(s[..k])|;
    FlatNext(s, k - 1);
    assert |Flat(s[..k - 1])| == i - c.units;
    forall d | i - c.units <= d < i ensures Flat(s)[d] == c.addr + d - (i - c.units) {
      FlatAt(s, k - 1, d - (i - c.units));
    }
  }

  lemma LowTags(m: map<Page, int>, m': map<Page, int>, s: seq<Blk>, k: nat, b: Blk)
    requires Canonical(s) && Gap(s, k, b) && Tagged(m, s) && ChangedIn(m, m', HighRun(s, k, b))
    ensures k > 0 ==> TaggedRun(m', s[k - 1])
  {
    if k > 0 {
      assert TaggedRun(m, s[k - 1]);
      Neighbours(s, k - 1);
    }
  }

  lemma ChangedTwice(m: map<Page, int>, m1: map<Page, int>, m': map<Page, int>, s: seq<Blk>, k: nat, b: Blk)
    requires Canonical(s) && Gap(s, k, b) && ChangedIn(m, m1, HighRun(s, k, b)) && ChangedIn(m1, m', Grown(s, k, b))
    ensures ChangedIn(m, m', Grown(s, k, b))
  {
    if k > 0 { Neighbours(s, k - 1); }
    forall u | Inside(u, HighRun(s, k, b)) ensures Inside(u, Grown(s, k, b)) {
    }
  }

  // A region put after the last run.
  lemma AppendedList(m: map<Page, int>, m': map<Page, int>, s: seq<Blk>, b: Blk)
    requires Canonical(s) && Tagged(m, s) && b.units > 0 && ChangedIn(m, m', b) && TaggedRun(m', b)
    requires Above(s, b)
    ensures Canonical(s + [b]) && Tagged(m', s + [b]) && Flat(s + [b]) == Flat(s) + Run(b)
    ensures Total(s + [b]) == Total(s) + b.units
  {
    AboveFits(s, b);
    hide *;
    FlatConcat(s, [b]);
    FlatOne(b);
    ReplacedCanonical(s, |s|, |s|, b);
    TagsReplaced(m, m', s, |s|, |s|, b);
  }

  lemma AboveFits(s: seq<Blk>, b: Blk)
    requires Canonical(s) && Above(s, b)
    ensures s[..|s|] + [b] + s[|s|..] == s + [b]
    ensures |s| > 0 ==> s[|s| - 1].addr + s[|s| - 1].units < b.addr
    ensures forall i :: 0 <= i < |s| ==> Disjoint(s[i], b)
  {
    forall i | 0 <= i < |s| ensures Disjoint(s[i], b) {
      assert i < |s| - 1 ==> s[i].addr + s[i].units < s[|s| - 1].addr;
    }
  }

  lemma AppendedSpace(m: map<Page, int>, m': map<Page, int>, s: seq<Blk>, live: map<Page, int>, owned: iset<int>,
                      b: Blk)
    requires LiveTags(m, live) && Shared(s, live, owned) && Units(b) !! owned && ChangedIn(m, m', b)
    ensures LiveTags(m', live) && Shared(s + [b], live, owned + Units(b))
  {
    LiveTagsKept(m, m', live, b);
    SpaceConcat(s, [b]);
    SpaceOne(b);
  }

  // Free pages carry the same fields again and all others were left alone.
  lemma Restored(m: map<Page, int>, m1: map<Page, int>, m': map<Page, int>, s: seq<Blk>, k: nat, n: int, t: seq<Blk>,
                 j: nat, b: Blk)
    requires Tagged(m, s) && Tagged(m', s) && k < |s| && 0 < n <= s[k].units && m1 == TakenTags(m, s[k], n)
    requires j <= |t| && Freed(t, j, b) == s && ChangedIn(m1, m', Grown(t, j, b))
    ensures m' == m
  {
    GrownInSpace(t, j, b);
    forall u ensures (u in m <==> u in m') && (u in m ==> m'[u] == m[u]) {
      if InSpace(u, s) {
        var i :| 0 <= i < |s| && Inside(u, s[i]);
        assert TaggedRun(m, s[i]) && TaggedRun(m', s[i]);
      } else {
        assert !Inside(u, Grown(t, j, b)) by {
          assert u in Units(Grown(t, j, b)) ==> u in Space(s);
        }
        assert n < s[k].units ==> Inside(s[k].addr + n, s[k]);
      }
    }
  }

  lemma GapInside(s: seq<Blk>, k: nat, b: Blk)
    requires Gap(s, k, b)
    ensures k <= |s|
  {
  }

  // The n pages from base on belong to the allocated block at a.
  ghost predicate Within(live: map<Page, int>, a: Page, base: Page, n: int) {
    a in live && a <= base && n > 0 && base + n <= a + live[a]
  }

  // What of that block stays allocated when they are freed.
  ghost function Remaining(live: map<Page, int>, a: Page, base: Page, n: int): map<Page, int>
    requires Within(live, a, base, n)
  {
    var below := if a < base then (live - {a})[a := base - a] else live - {a};
    if base + n < a + live[a] then below[base + n := a + live[a] - base - n] else below
  }

  lemma LiveKeys(live: map<Page, int>, a: Page, base: Page, n: int)
    requires Within(live, a, base, n)
    ensures var l1 := if a < base then Split(live, a, base - a) else live;
            var l2 := if base in l1 && n < l1[base] then Split(l1, base, n) else l1;
            (a < base ==> base !in live) && (base + n < a + live[a] ==> base + n !in l1) ==>
              l2 - {base} == Remaining(live, a, base, n)
  {
  }

  lemma WholeBlock(live: map<Page, int>, a: Page, n: int)
    requires a in live && live[a] == n > 0
    ensures Within(live, a, a, n) && Remaining(live, a, a, n) == live - {a}
  {
  }

  lemma LiveTagsSplit(m: map<Page, int>, live: map<Page, int>, a: Page, n: int)
    requires LiveTags(m, live) && a in live && 0 < n < live[a]
    ensures LiveTags(m, Split(live, a, n))
  {
    assert ZeroInside(m, Blk(a, live[a]));
  }

  // ---- regions out of order ----

  // b lies behind all runs and does not touch the last one.
  ghost predicate Above(s: seq<Blk>, b: Blk) {
    s != [] ==> s[|s| - 1].addr + s[|s| - 1].units < b.addr
  }

  // The list, its length and the property fields are those of the runs s.
  ghost predicate Describes(list: seq<Page>, nrFree: int, m: map<Page, int>, s: seq<Blk>) {
    Canonical(s) && list == Flat(s) && nrFree == Total(s) && Tagged(m, s)
  }

  // The run that position i of the list belongs to.
  lemma {:induction false} FlatFind(s: seq<Blk>, i: nat) returns (r: nat, j: nat)
    requires i < |Flat(s)|
    ensures r < |s| && j < s[r].units && Flat(s)[i] == s[r].addr + j
  {
    if i < |Run(s[0])| {
      r, j := 0, i;
    } else {
      r, j := FlatFind(s[1..], i - |Run(s[0])|);
      r := r + 1;
    }
  }

  lemma {:induction false} FlatIncreasing(s: seq<Blk>, i: nat, j: nat)
    requires Canonical(s) && i < j < |Flat(s)|
    ensures Flat(s)[i] < Flat(s)[j]
  {
    var n := |Run(s[0])|;
    TailCanonical(s);
    if j >= n {
      if i >= n {
        FlatIncreasing(s[1..], i - n, j - n);
      } else {
        var r, d := FlatFind(s[1..], j - n);
        assert s[1..][r] == s[r + 1];
      }
    }
  }

  // If runs describe the list with b appended, then b lies behind the last run and does not touch it.
  lemma OnlyAbove(s: seq<Blk>, b: Blk, t: seq<Blk>, m: map<Page, int>)
    requires Canonical(s) && b.units > 0 && TaggedRun(m, b)
    requires Canonical(t) && Flat(t) == Flat(s) + Run(b) && Tagged(m, t)
    ensures Above(s, b)
  {
    if s != [] {
      FlatEnd(s);
      var i := |Flat(s)|;
      assert Flat(t)[i - 1] == Flat(s)[i - 1] && Flat(t)[i] == b.addr;
      FlatIncreasing(t, i - 1, i);
      var p, c := FlatFind(t, i - 1);
      var q, d := FlatFind(t, i);
      assert d == 0 by {
        assert TaggedRun(m, t[q]) && Inside(b.addr, t[q]) && Inside(b.addr, b);
      }
      HeadApart(t, p, c, q);
    }
  }

  lemma NotDescribed(s: seq<Blk>, b: Blk, list: seq<Page>, nrFree: int, m: map<Page, int>)
    requires Canonical(s) && !Above(s, b) && b.units > 0 && TaggedRun(m, b) && list == Flat(s) + Run(b)
    ensures forall t :: !Describes(list, nrFree, m, t)
  {
    forall t ensures !Describes(list, nrFree, m, t) {
      if Describes(list, nrFree, m, t) {
        OnlyAbove(s, b, t, m);
      }
    }
  }

  lemma FlatEnd(s: seq<Blk>)
    requires Canonical(s) && s != []
    ensures |Flat(s)| > 0 && Flat(s)[|Flat(s)| - 1] == s[|s| - 1].addr + s[|s| - 1].units - 1
  {
    assert s[..|s|] == s;
    assert s[|s| - 1].units > 0;
    hide *;
    FlatAt(s, |s| - 1, s[|s| - 1].units - 1);
  }

  // The page in front of the head of a run is not free.
  lemma HeadApart(t: seq<Blk>, p: nat, c: nat, q: nat)
    requires Canonical(t) && p < |t| && q < |t| && c < t[p].units
    ensures t[p].addr + c + 1 != t[q].addr
  {
    assert p < q ==> t[p].addr + t[p].units < t[q].addr;
    assert q < p ==> t[q].addr + t[q].units < t[p].addr;
  }

  class PageList {
    var list: seq<Page>              // free_list
    var property: map<Page, int>
    var nrFree: int
    ghost var free: seq<Blk>         // the runs of free pages in address order
    ghost var live: map<Page, int>   // allocated blocks and their lengths
    ghost var owned: iset<int>       // every page handed to the manager

    constructor ()
      ensures Valid() && free == [] && live == map[] && owned == iset{}
    {
      list, property, nrFree := [], map[], 0;
      free, live, owned := [], map[], iset{};
      new;
      assert Space(free) == iset{} && LiveSpace(live) == iset{};
    }

    ghost predicate Listed()
      reads this
    {
      Canonical(free) && list == Flat(free) && nrFree == Total(free) && Tagged(property, free)
    }

    ghost predicate Valid()
      reads this
    {
      Listed() && LiveTags(property, live) && Shared(free, live, owned)
    }

    // Page j of run k: its place in the list and its property field.
    lemma Where(k: nat, j: nat)
      requires Listed() && k <= |free| && (if k < |free| then j < free[k].units else j == 0)
      ensures k < |free| ==>
        var i := |Flat(free[..k])| + j;
        && i < |list| && list[i] == free[k].addr + j && list[i] in property
        && property[list[i]] == (if j == 0 then free[k].units else 0)
        && (j + 1 == free[k].units ==> i + 1 == |Flat(free[..k + 1])|)
      ensures k == |free| ==> |Flat(free[..k])| == |list|
    {
      if k < |free| {
        FlatAt(free, k, j);
        assert TaggedRun(property, free[k]) && Inside(free[k].addr + j, free[k]);
      } else {
        assert free[..k] == free;
      }
    }

    // The first page, if any, that heads a run of at least n pages.
    method FindRun(n: int) returns (i: nat, ghost k: nat)
      requires Listed() && n > 0
      ensures i <= |list| && (i == |list| ==> forall r :: 0 <= r < |free| ==> free[r].units < n)
      ensures i < |list| ==> k < |free| && free[k].units >= n && i == |Flat(free[..k])| && list[i] == free[k].addr
      ensures i < |list| ==> list[i] in property && property[list[i]] == free[k].units
      ensures i < |list| ==> forall r :: 0 <= r < k ==> free[r].units < n
    {
      i := 0;
      k := 0;
      ghost var j: nat := 0;
      Neighbourly();
      Where(0, 0);
      hide Listed;
      while i < |list|
        invariant k <= |free| && i == |Flat(free[..k])| + j && (if k < |free| then j < free[k].units else j == 0)
        invariant forall r :: 0 <= r < k || (r == k && j > 0) ==> free[r].units < n
        invariant i <= |list| && (i < |list| <==> k < |free|)
      {
        Where(k, j);
        if property[list[i]] >= n {
          return;
        }
        i := i + 1;
        if j + 1 == free[k].units { k, j := k + 1, 0; } else { j := j + 1; }
        Where(k, j);
      }
    }

    lemma Neighbourly()
      requires Listed()
      ensures forall r :: 0 <= r < |free| ==> free[r].units > 0
      ensures Flat(free[..0]) == []
    {
    }

    // Unlinking n pages from position i on.
    method Unlink(i: nat, n: int)
      requires 0 < n && i + n <= |list|
      modifies this`list
      ensures list == old(list)[..i] + old(list)[i + n..]
    {
      var c := 0;
      while c < n
        invariant 0 <= c <= n && list == old(list)[..i] + old(list)[i + c..]
      {
        list := list[..i] + list[i + 1..];
        c := c + 1;
      }
    }

    // default_alloc_pages: the lowest run that is long enough, and nothing only if there is none.
    method Alloc(n: int) returns (p: Option<Page>, ghost k: nat)
      requires Valid() && n > 0
      modifies this
      ensures Valid() && owned == old(owned)
      ensures p.None? ==> free == old(free) && live == old(live) && property == old(property)
      ensures p.None? <==> forall r :: 0 <= r < |old(free)| ==> old(free)[r].units < n
      ensures p.Some? ==> k < |old(free)| && p.value == old(free)[k].addr && old(free)[k].units >= n
      ensures p.Some? ==> forall r :: 0 <= r < k ==> old(free)[r].units < n
      ensures p.Some? ==> p.value !in old(live) && live == old(live)[p.value := n] && free == Taken(old(free), k, n)
      ensures p.Some? ==> property == TakenTags(old(property), old(free)[k], n)
    {
      if n > nrFree {
        FlatLength(free);
        return None, 0;
      }
      var i;
      i, k := FindRun(n);
      if i < |list| {
        p := Some(list[i]);
        AllocAt(i, n, k);
      } else {
        p := None;
      }
    }

    method AllocAt(i: nat, n: int, ghost k: nat)
      requires Valid() && n > 0 && k < |free| && free[k].units >= n
      requires i < |list| && i == |Flat(free[..k])| && list[i] == free[k].addr
      modifies this
      ensures Valid() && owned == old(owned)
      ensures old(free)[k].addr !in old(live) && live == old(live)[old(free)[k].addr := n] &&
        free == Taken(old(free), k, n)
      ensures property == TakenTags(old(property), old(free)[k], n)
    {
      ghost var s, m, l := free, property, live;
      Where(k, 0);
      TakenCanonical(s, k, n);
      TakenSpace(s, k, n);
      FlatTaken(s, k, n);
      var p := list[i];
      Unlink(i, n);
      if property[p] > n {
        NextPage(s, k, n);
        property := property[list[i] := property[p] - n];
      }
      nrFree := nrFree - n;
      free := Taken(s, k, n);
      live := live[p := n];
      TagsTaken(m, property, s, k, n);
      SharedTaken(s, free, l, owned, p, n);
      LiveTagsTaken(m, property, s, l, owned, k, n);
    }

    lemma NextPage(s: seq<Blk>, k: nat, n: int)
      requires Canonical(s) && k < |s| && 0 < n < s[k].units
      requires |Flat(s[..k])| + n <= |Flat(s)|
      requires list == Flat(s)[..|Flat(s[..k])|] + Flat(s)[|Flat(s[..k])| + n..]
      ensures |Flat(s[..k])| < |list| && list[|Flat(s[..k])|] == s[k].addr + n
    {
      FlatAt(s, k, n);
    }

    // The position before the first page above base.
    method FindPlace(base: Page, ghost k: nat, ghost n: int) returns (i: nat)
      requires Listed() && Gap(free, k, Blk(base, n))
      ensures i == |Flat(free[..k])| <= |list|
    {
      FlatAround(free, k, Blk(base, n));
      i := 0;
      while i < |list|
        invariant i <= |Flat(free[..k])|
      {
        if list[i] > base {
          break;
        }
        i := i + 1;
      }
    }

    // Linking the n pages from base on before position i.
    method Link(base: Page, i: nat, n: int)
      requires 0 < n && i <= |list|
      modifies this`list
      ensures list == old(list)[..i] + Run(Blk(base, n)) + old(list)[i..]
    {
      var c := 0;
      while c < n
        invariant 0 <= c <= n && list == old(list)[..i] + Run(Blk(base, c)) + old(list)[i..]
      {
        assert Run(Blk(base, c + 1)) == Run(Blk(base, c)) + [base + c];
        list := list[..i + c] + [base + c] + list[i + c..];
        c := c + 1;
      }
    }

    // base->property = n, and the merge with the run above; i is the place of the page after the block.
    method JoinHigh(base: Page, n: int, i: nat, ghost s: seq<Blk>, ghost k: nat)
      requires Canonical(s) && Gap(s, k, Blk(base, n)) && Tagged(property, s) && ZeroInside(property, Blk(base, n))
      requires i <= |list| && (i < |list| <==> k < |s|) && (k < |s| ==> list[i] == s[k].addr)
      modifies this`property
      ensures TaggedRun(property, HighRun(s, k, Blk(base, n)))
      ensures ChangedIn(old(property), property, HighRun(s, k, Blk(base, n)))
    {
      property := property[base := n];
      assert TaggedRun(property, Blk(base, n));
      if i < |list| && base + n == list[i] {
        ghost var b := s[k];
        assert TaggedRun(old(property), b) && b == Blk(base + n, b.units);
        assert TaggedRun(property, b);
        JoinTags(property, base, n, b.units);
        var p := list[i];
        property := property[base := property[base] + property[p]];
        property := property[p := 0];
      }
    }

    // The merge with the run below, found by walking back from the page before base.
    method JoinLow(base: Page, i: nat, ghost s: seq<Blk>, ghost k: nat, ghost n: int)
      requires Canonical(s) && Gap(s, k, Blk(base, n)) && TaggedRun(property, HighRun(s, k, Blk(base, n)))
      requires k > 0 ==> TaggedRun(property, s[k - 1])
      requires i <= |list| && (if k > 0 then LastRun(list, i, s[k - 1]) else i == 0)
      modifies this`property
      ensures TaggedRun(property, Grown(s, k, Blk(base, n)))
      ensures ChangedIn(old(property), property, Grown(s, k, Blk(base, n)))
    {
      LowFacts(list, i, s, k, Blk(base, n));
      ghost var c := HighRun(s, k, Blk(base, n));
      assert Inside(base, c) && base in property;
      if i > 0 && list[i - 1] == base - 1 {
        ghost var b := s[k - 1];
        JoinTags(property, b.addr, b.units, c.units);
        var j := i - 1;
        while j >= 0
          invariant i - b.units <= j < i && property == old(property)
          decreases j
        {
          var p := list[j];
          LastRunAt(list, i, b, j);
          assert Inside(p, b) && p in property;
          if property[p] != 0 {
            property := property[p := property[p] + property[base]];
            property := property[base := 0];
            break;
          }
          j := j - 1;
        }
      }
    }

    // default_free_pages of n pages from base on, which lie in the allocated block at a
    method Free(base: Page, n: int, ghost a: Page) returns (ghost k: nat)
      requires Valid() && Within(live, a, base, n)
      modifies this
      ensures Valid() && owned == old(owned) && live == Remaining(old(live), a, base, n)
      ensures Space(free) == old(Space(free)) + Units(Blk(base, n))
      ensures k <= |old(free)| && Gap(old(free), k, Blk(base, n)) && free == Freed(old(free), k, Blk(base, n))
      ensures ChangedIn(old(property), property, Grown(old(free), k, Blk(base, n)))
    {
      hide *;
      CutOutLive(base, n, a);
      Parts();
      LiveApartFromFree(free, live, owned, base);
      k := GapExists(free, Blk(base, n));
      GapInside(free, k, Blk(base, n));
      FreeAt(base, n, k);
    }

    // The pages to be freed seen as an allocated block of their own.
    ghost method CutOutLive(base: Page, n: int, a: Page)
      requires Valid() && Within(live, a, base, n)
      modifies this`live
      ensures Valid() && base in live && live[base] == n && live - {base} == Remaining(old(live), a, base, n)
    {
      ghost var l := live;
      LiveKeys(l, a, base, n);
      hide Valid;
      if a < base { SplitLive(a, base - a); }
      if n < live[base] { SplitLive(base, n); }
    }

    // Nothing but the view of the allocated pages changes.
    ghost method SplitLive(a: Page, n: int)
      requires Valid() && a in live && 0 < n < live[a]
      modifies this`live
      ensures Valid() && a + n !in old(live) && live == Split(old(live), a, n)
    {
      hide *;
      Parts();
      SharedSplit(free, live, owned, a, n);
      LiveTagsSplit(property, live, a, n);
      live := Split(live, a, n);
      Whole();
    }

    method FreeAt(base: Page, n: int, ghost k: nat)
      requires Valid() && base in live && live[base] == n && Gap(free, k, Blk(base, n))
      modifies this
      ensures Valid() && owned == old(owned) && live == old(live) - {base}
      ensures Space(free) == old(Space(free)) + Units(Blk(base, n))
      ensures Gap(old(free), k, Blk(base, n)) && free == Freed(old(free), k, Blk(base, n))
      ensures ChangedIn(old(property), property, Grown(old(free), k, Blk(base, n)))
    {
      ghost var s, m, l, b := free, property, live, Blk(base, n);
      Parts();
      ZeroOf(m, l, base);
      hide *;
      PutBack(base, n, k);
      free := Freed(s, k, b);
      live := live - {base};
      FreedSpace(s, k, b);
      SharedFreed(s, free, l, owned, base);
      LiveTagsFreed(m, property, s, k, l, owned, base);
      Whole();
    }

    lemma Parts()
      requires Valid()
      ensures Listed() && Canonical(free) && LiveTags(property, live) && Shared(free, live, owned)
    {
    }

    lemma Whole()
      requires Listed() && LiveTags(property, live) && Shared(free, live, owned)
      ensures Valid()
    {
    }

    // The list and the property fields after a block is put back.
    method PutBack(base: Page, n: int, ghost k: nat)
      requires Listed() && Gap(free, k, Blk(base, n)) && ZeroInside(property, Blk(base, n))
      modifies this`list, this`property, this`nrFree
      ensures list == Flat(Freed(free, k, Blk(base, n))) && nrFree == Total(Freed(free, k, Blk(base, n)))
      ensures Canonical(Freed(free, k, Blk(base, n))) && Tagged(property, Freed(free, k, Blk(base, n)))
      ensures ChangedIn(old(property), property, Grown(free, k, Blk(base, n)))
    {
      ghost var b := Blk(base, n);
      ListParts();
      hide *;
      FreedCanonical(free, k, b);
      FlatFreed(free, k, b);
      var i := FindPlace(base, k, n);
      Link(base, i, n);
      PlaceFacts(free, k, b, list);
      Retag(base, n, i, k);
      nrFree := nrFree + n;
    }

    lemma ListParts()
      requires Listed()
      ensures Canonical(free) && list == Flat(free) && nrFree == Total(free) && Tagged(property, free)
    {
    }

    // The property fields, once the pages are linked from position i on.
    method Retag(base: Page, n: int, i: nat, ghost k: nat)
      requires Canonical(free) && Gap(free, k, Blk(base, n)) && Tagged(property, free) &&
        ZeroInside(property, Blk(base, n))
      requires n > 0 && i + n <= |list| && (i + n < |list| <==> k < |free|) &&
        (k < |free| ==> list[i + n] == free[k].addr)
      requires if k > 0 then LastRun(list, i, free[k - 1]) else i == 0
      modifies this`property
      ensures Tagged(property, Freed(free, k, Blk(base, n)))
      ensures ChangedIn(old(property), property, Grown(free, k, Blk(base, n)))
    {
      hide *;
      ghost var m, b := property, Blk(base, n);
      JoinHigh(base, n, i + n, free, k);
      LowTags(m, property, free, k, b);
      ghost var m1 := property;
      JoinLow(base, i, free, k, n);
      ChangedTwice(m, m1, property, free, k, b);
      TagsFreed(m, property, free, k, b);
    }

    // default_init_memmap. It appends, so the list describes free runs exactly if the region lies behind
    // all free pages without touching them.
    method InitMemmap(base: Page, n: int)
      requires Valid() && n > 0 && Units(Blk(base, n)) !! owned
      modifies this
      ensures list == old(list) + Run(Blk(base, n)) && nrFree == old(nrFree) + n && live == old(live)
      ensures ChangedIn(old(property), property, Blk(base, n)) && TaggedRun(property, Blk(base, n))
      ensures Valid() <==> Above(old(free), Blk(base, n))
      ensures Above(old(free), Blk(base, n)) ==>
                free == old(free) + [Blk(base, n)] && owned == old(owned) + Units(Blk(base, n))
      ensures !Above(old(free), Blk(base, n)) ==> forall s :: !Describes(list, nrFree, property, s)
    {
      hide *;
      ghost var s, m, o, b := free, property, owned, Blk(base, n);
      Parts();
      ListParts();
      LinkLast(base, n);
      nrFree := nrFree + n;
      if Above(s, b) {
        free := s + [b];
        owned := o + Units(b);
        AppendedList(m, property, s, b);
        AppendedSpace(m, property, s, live, o, b);
        ListWhole();
        Whole();
      } else {
        NotDescribed(s, b, list, nrFree, property);
        NotListed();
      }
    }

    lemma NotListed()
      requires !Describes(list, nrFree, property, free)
      ensures !Valid()
    {
    }

    lemma ListWhole()
      requires Canonical(free) && list == Flat(free) && nrFree == Total(free) && Tagged(property, free)
      ensures Listed()
    {
    }

    // The loop over the new pages, and the length of the region in the first one.
    method LinkLast(base: Page, n: int)
      requires n > 0
      modifies this`list, this`property
      ensures list == old(list) + Run(Blk(base, n))
      ensures ChangedIn(old(property), property, Blk(base, n)) && TaggedRun(property, Blk(base, n))
    {
      var c := 0;
      while c < n
        invariant 0 <= c <= n && list == old(list) + Run(Blk(base, c)) &&
          ChangedIn(old(property), property, Blk(base, n))
        invariant forall u :: Inside(u, Blk(base, c)) ==> u in property && property[u] == 0
      {
        assert Run(Blk(base, c + 1)) == Run(Blk(base, c)) + [base + c];
        property := property[base + c := 0];
        list := list + [base + c];
        c := c + 1;
      }
      property := property[base := n];
    }

    // An allocation followed by the free of the block restores the list and every property field.
    method AllocThenFree(n: int) returns (p: Option<Page>)
      requires Valid() && n > 0
      modifies this
      ensures Valid() && free == old(free) && live == old(live) && owned == old(owned)
      ensures list == old(list) && nrFree == old(nrFree) && property == old(property)
    {
      hide *;
      ghost var k, j;
      Parts();
      ListParts();
      p, k := Alloc(n);
      if p.Some? {
        ghost var t, m1 := free, property;
        Parts();
        WholeBlock(live, p.value, n);
        j := Free(p.value, n, p.value);
        assert live == old(live);
        Parts();
        FreeListDetermined(free, old(free), live, owned);
        Restored(old(property), m1, property, old(free), k, n, t, j, Blk(p.value, n));
      }
      ListParts();
    }
  }

  // Two regions side by side: the second is not joined to the first, and the list describes no runs.
  method SideBySide(base: Page, n: int, m: int) returns (pages: PageList)
    requires n > 0 && m > 0
    ensures !pages.Valid() && forall s :: !Describes(pages.list, pages.nrFree, pages.property, s)
  {
    pages := new PageList();
    pages.InitMemmap(base, n);
    pages.InitMemmap(base + n, m);
  }
}
