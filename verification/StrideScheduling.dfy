// The stride scheduler of kern/schedule/default_sched.c on the skew heap of libs/skew_heap.h.
module StrideScheduling {

  type Ptr = int

  const NULL: Ptr := 0
  const BIG_STRIDE: int := 0x7FFF_FFFF
  const WORD: int := 0x1_0000_0000

  // struct skew_heap_entry; memory maps addresses to these structs
  datatype Entry = Entry(parent: Ptr, left: Ptr, right: Ptr)

  type Mem = map<Ptr, Entry>

  // ---- 32-bit arithmetic ----

  function Wrap(x: int): int { x % WORD }

  // Conversion of a 32-bit word to int32_t.
  function Signed(w: int): int { if w > BIG_STRIDE then w - WORD else w }

  function Sign(c: int): int { if c > 0 then 1 else if c == 0 then 0 else -1 }

  // proc_stride_comp_f on two stored strides.
  function Compare(p: int, q: int): int {
    Sign(Signed(Wrap(p - q)))
  }

  // The wrapped comparison is the true order while the strides stay in a window.
  lemma CompareIsOrder(p: int, q: int)
    requires -BIG_STRIDE <= p - q <= BIG_STRIDE
    ensures Compare(Wrap(p), Wrap(q)) == if p > q then 1 else if p == q then 0 else -1
  {
    assert Wrap(Wrap(p) - Wrap(q)) == Wrap(p - q);
  }

  lemma WrapDifference(p: int, q: int)
    ensures Wrap(Wrap(p) - Wrap(q)) == Wrap(p - q)
  {
  }

  lemma WrapIs(d: int, k: int)
    requires 0 <= d + k * WORD < WORD
    ensures Wrap(d) == d + k * WORD
  {
  }

  // It is the sign of the signed residue of the difference; so less than one word apart, the order is
  // the true one if and only if the difference is a 32-bit signed number.
  lemma CompareIsRight(p: int, q: int)
    ensures Compare(Wrap(p), Wrap(q)) == Sign(Signed(Wrap(p - q)))
    ensures -WORD < p - q < WORD ==>
              (Compare(Wrap(p), Wrap(q)) == Sign(p - q) <==> -0x8000_0000 <= p - q <= 0x7FFF_FFFF)
  {
    WrapDifference(p, q);
    var d := p - q;
    if 0 <= d < WORD { WrapIs(d, 0); }
    if -WORD < d < 0 { WrapIs(d, 1); }
    hide Wrap;
  }

  // One past the window the comparison is already wrong.
  lemma CompareOutsideWindow(q: int)
    ensures Compare(Wrap(q + BIG_STRIDE + 1), Wrap(q)) == -1
  {
    assert Wrap(Wrap(q + BIG_STRIDE + 1) - Wrap(q)) == Wrap(BIG_STRIDE + 1);
  }

  // ---- heaps as trees ----

  datatype Heap = Empty | Node(l: Heap, n: Ptr, r: Heap)

  ghost function Nodes(t: Heap): set<Ptr> {
    match t
    case Empty => {}
    case Node(l, n, r) => Nodes(l) + {n} + Nodes(r)
  }

  ghost predicate Distinct(t: Heap) {
    t.Node? ==>
      Distinct(t.l) && Distinct(t.r) && t.n !in Nodes(t.l) && t.n !in Nodes(t.r) && Nodes(t.l) !! Nodes(t.r)
  }

  ghost function Size(t: Heap): nat {
    if t.Empty? then 0 else 1 + Size(t.l) + Size(t.r)
  }

  type Keys = map<Ptr, int>

  ghost predicate Keyed(t: Heap, key: Keys) {
    forall n :: n in Nodes(t) ==> n in key
  }

  // Every node is at or above the key of its parent.
  ghost predicate Ordered(t: Heap, key: Keys)
  {
    t.Node? ==>
      && t.n in key && Ordered(t.l, key) && Ordered(t.r, key)
      && (t.l.Node? ==> key[t.n] <= key[t.l.n]) && (t.r.Node? ==> key[t.n] <= key[t.r.n])
  }

  lemma {:induction false} RootIsMinimum(t: Heap, key: Keys, n: Ptr)
    requires Ordered(t, key) && n in Nodes(t)
    ensures n in key && key[t.n] <= key[n]
  {
    if n in Nodes(t.l) {
      RootIsMinimum(t.l, key, n);
    } else if n in Nodes(t.r) {
      RootIsMinimum(t.r, key, n);
    }
  }

  // skew_heap_merge on trees, when the comparison is the true order of key.
  ghost function Merged(a: Heap, b: Heap, key: Keys): Heap
    requires Keyed(a, key) && Keyed(b, key)
    decreases Size(a) + Size(b)
  {
    if a.Empty? then b
    else if b.Empty? then a
    else if key[a.n] < key[b.n] then Node(Merged(a.r, b, key), a.n, a.l)
    else Node(Merged(a, b.r, key), b.n, b.l)
  }

  lemma MergedFacts(a: Heap, b: Heap, key: Keys)
    requires Keyed(a, key) && Keyed(b, key)
    ensures Nodes(Merged(a, b, key)) == Nodes(a) + Nodes(b)
    ensures Distinct(a) && Distinct(b) && Nodes(a) !! Nodes(b) ==> Distinct(Merged(a, b, key))
    ensures a.Node? || b.Node? ==> Merged(a, b, key).Node?
    ensures a.Node? && b.Node? ==> Merged(a, b, key).n == (if key[a.n] < key[b.n] then a.n else b.n)
    decreases Size(a) + Size(b)
  {
    if a.Node? && b.Node? {
      if key[a.n] < key[b.n] { MergedFacts(a.r, b, key); } else { MergedFacts(a, b.r, key); }
    }
  }

  lemma MergedOrdered(a: Heap, b: Heap, key: Keys)
    requires Keyed(a, key) && Keyed(b, key) && Ordered(a, key) && Ordered(b, key)
    ensures Ordered(Merged(a, b, key), key)
    decreases Size(a) + Size(b)
  {
    if a.Node? && b.Node? {
      if key[a.n] < key[b.n] {
        MergedOrdered(a.r, b, key);
        MergedFacts(a.r, b, key);
      } else {
        MergedOrdered(a, b.r, key);
        MergedFacts(a, b.r, key);
      }
    }
  }

  // ---- a position in a heap ----

  datatype Path = Top | Step(d: bool, n: Ptr, sib: Heap, up: Path)

  ghost function PathNodes(p: Path): set<Ptr> {
    if p.Top? then {} else PathNodes(p.up) + {p.n} + Nodes(p.sib)
  }

  ghost predicate PathDistinct(p: Path) {
    p.Step? ==>
      && Distinct(p.sib) && PathDistinct(p.up)
      && p.n !in Nodes(p.sib) && p.n !in PathNodes(p.up) && Nodes(p.sib) !! PathNodes(p.up)
  }

  function Mk(d: bool, a: Heap, n: Ptr, b: Heap): Heap {
    if d then Node(a, n, b) else Node(b, n, a)
  }

  ghost function Plug(p: Path, t: Heap): Heap {
    if p.Top? then t else Plug(p.up, Mk(p.d, t, p.n, p.sib))
  }

  lemma PlugFacts(p: Path, t: Heap)
    ensures Nodes(Plug(p, t)) == Nodes(t) + PathNodes(p)
    ensures Distinct(t) && PathDistinct(p) && Nodes(t) !! PathNodes(p) ==> Distinct(Plug(p, t))
  {
    if p.Step? { PlugFacts(p.up, Mk(p.d, t, p.n, p.sib)); }
  }

  // Putting a heap of later nodes in the place of t keeps the order.
  lemma {:induction false} PlugOrdered(p: Path, t: Heap, t': Heap, key: Keys)
    requires Ordered(Plug(p, t), key) && Ordered(t', key) && t.Node?
    requires t'.Node? ==> t'.n in key && t.n in key && key[t.n] <= key[t'.n]
    ensures Ordered(Plug(p, t'), key)
  {
    if p.Step? {
      var a, a' := Mk(p.d, t, p.n, p.sib), Mk(p.d, t', p.n, p.sib);
      assert Ordered(Plug(p.up, a), key);
      PlugParts(p.up, a, key);
      assert Ordered(a, key) && Ordered(p.sib, key);
      assert Ordered(a', key);
      PlugOrdered(p.up, a, a', key);
    }
  }

  lemma PlugParts(p: Path, t: Heap, key: Keys)
    requires Ordered(Plug(p, t), key)
    ensures Ordered(t, key)
  {
    if p.Step? { PlugParts(p.up, Mk(p.d, t, p.n, p.sib), key); }
  }

  // The structs in m link together as t below x; the parent link of x itself is free.
  ghost predicate Shape(m: Mem, t: Heap, x: Ptr) {
    match t
    case Empty => x == NULL
    case Node(l, n, r) =>
      && x == n && n != NULL && n in m
      && Shape(m, l, m[n].left) && Shape(m, r, m[n].right)
      && (l.Node? ==> l.n in m && m[l.n].parent == n) && (r.Node? ==> r.n in m && m[r.n].parent == n)
  }

  ghost predicate Same(m: Mem, m': Mem, but: set<Ptr>) {
    m'.Keys == m.Keys && forall n :: n in m && n !in but ==> m'[n] == m[n]
  }

  lemma {:induction false} Frame(m: Mem, m': Mem, t: Heap, x: Ptr)
    requires Shape(m, t, x) && Distinct(t)
    requires forall n :: n in Nodes(t) && n in m && n != x ==> n in m' && m'[n] == m[n]
    requires t.Node? ==> x in m' && m'[x].left == m[x].left && m'[x].right == m[x].right
    ensures Shape(m', t, x)
  {
    if t.Node? {
      Frame(m, m', t.l, m[x].left);
      Frame(m, m', t.r, m[x].right);
    }
  }

  // Owner of the position at the end of p; NULL is the parent link of the root.
  ghost function Owner(p: Path): Ptr {
    if p.Top? then NULL else p.n
  }

  ghost predicate PathShape(m: Mem, p: Path, x: Ptr, top: Ptr) {
    match p
    case Top => x == top
    case Step(d, n, s, up) =>
      && n != NULL && n in m && (if d then m[n].left else m[n].right) == x
      && Shape(m, s, if d then m[n].right else m[n].left)
      && (s.Node? ==> s.n in m && m[s.n].parent == n)
      && m[n].parent == Owner(up) && PathShape(m, up, n, top)
  }

  // All strides of the set lie in one window of width BIG_STRIDE.
  ghost predicate InWindow(key: Keys, s: set<Ptr>) {
    && s <= key.Keys
    && forall x, y :: x in s && y in s ==> key[x] - key[y] <= BIG_STRIDE
  }

  // The stored 32-bit strides are the true ones reduced.
  ghost predicate Stored(stride: map<Ptr, int>, key: Keys, s: set<Ptr>) {
    s <= key.Keys && forall x :: x in s ==> x in stride && stride[x] == Wrap(key[x])
  }

  lemma CompareStored(stride: map<Ptr, int>, key: Keys, s: set<Ptr>, a: Ptr, b: Ptr)
    requires InWindow(key, s) && Stored(stride, key, s) && a in s && b in s
    ensures Compare(stride[a], stride[b]) == -1 <==> key[a] < key[b]
  {
    assert key[b] - key[a] <= BIG_STRIDE;
    CompareIsOrder(key[a], key[b]);
  }

  lemma {:induction false} PathFrame(m: Mem, m': Mem, p: Path, x: Ptr, top: Ptr)
    requires PathShape(m, p, x, top) && PathDistinct(p)
    requires forall n :: n in PathNodes(p) && n in m ==> n in m' && m'[n] == m[n]
    ensures PathShape(m', p, x, top)
  {
    if p.Step? {
      Frame(m, m', p.sib, if p.d then m[p.n].right else m[p.n].left);
      PathFrame(m, m', p.up, p.n, top);
    }
  }

  // A heap hung on the link of its owner that the position was on.
  lemma Rehang(m: Mem, m': Mem, p: Path, x: Ptr, y: Ptr, top: Ptr)
    requires PathShape(m, p, x, top) && PathDistinct(p) && p.Step?
    requires p.n in m' && m'[p.n] == (if p.d then m[p.n].(left := y) else m[p.n].(right := y))
    requires forall n :: n in PathNodes(p) && n in m && n != p.n ==> n in m' && m'[n] == m[n]
    ensures PathShape(m', p, y, top)
  {
    Frame(m, m', p.sib, if p.d then m[p.n].right else m[p.n].left);
    PathFrame(m, m', p.up, p.n, top);
  }

  lemma {:induction false} PlugShape(m: Mem, p: Path, t: Heap, x: Ptr, top: Ptr)
    requires PathShape(m, p, x, top) && Shape(m, t, x)
    requires t.Node? ==> m[x].parent == Owner(p)
    ensures Shape(m, Plug(p, t), top)
    ensures Plug(p, t).Node? ==> m[top].parent == NULL
    decreases p
  {
    if p.Step? {
      PlugShape(m, p.up, Mk(p.d, t, p.n, p.sib), p.n, top);
    }
  }

  // The position of a node.
  lemma {:induction false} Locate(m: Mem, p: Path, t: Heap, x: Ptr, top: Ptr, z: Ptr) returns (p': Path, t': Heap)
    requires PathShape(m, p, x, top) && Shape(m, t, x) && z in Nodes(t) && m[x].parent == Owner(p)
    requires Distinct(t) && PathDistinct(p) && Nodes(t) !! PathNodes(p)
    ensures PathShape(m, p', z, top) && Shape(m, t', z) && t'.Node? && m[z].parent == Owner(p')
    ensures Plug(p', t') == Plug(p, t) && Distinct(t') && PathDistinct(p') && Nodes(t') !! PathNodes(p')
    decreases t
  {
    if z == t.n {
      p', t' := p, t;
    } else if z in Nodes(t.l) {
      p', t' := Locate(m, Step(true, x, t.r, p), t.l, m[x].left, top, z);
    } else {
      p', t' := Locate(m, Step(false, x, t.l, p), t.r, m[x].right, top, z);
    }
  }

  // How far one run advances a process.
  function Pass(priority: int): int
    requires priority >= 0
  {
    if priority == 0 then BIG_STRIDE else BIG_STRIDE / priority
  }

  ghost function Progress(runs: nat, priority: int): int
    requires priority >= 0
  {
    runs * Pass(priority)
  }

  lemma PassRange(priority: int)
    requires priority >= 0
    ensures 0 <= Pass(priority) <= BIG_STRIDE
  {
    if priority > 0 {
      assert BIG_STRIDE / priority * priority <= BIG_STRIDE;
    }
  }

  lemma PassExact(priority: int)
    requires priority >= 0
    ensures priority == 0 ==> Pass(priority) == BIG_STRIDE
    ensures priority > 0 ==> Pass(priority) * priority <= BIG_STRIDE < (Pass(priority) + 1) * priority
  {
  }

  lemma ProgressStep(runs: nat, priority: int)
    requires priority >= 0
    ensures Progress(runs + 1, priority) == Progress(runs, priority) + Pass(priority)
  {
  }

  lemma {:induction false} OrderedSame(t: Heap, key: Keys, key': Keys)
    requires Ordered(t, key) && forall n :: n in Nodes(t) ==> n in key && n in key' && key'[n] == key[n]
    ensures Ordered(t, key')
  {
    if t.Node? {
      OrderedSame(t.l, key, key');
      OrderedSame(t.r, key, key');
    }
  }

  lemma {:induction false} MergedSame(a: Heap, b: Heap, key: Keys, key': Keys)
    requires Keyed(a, key) && Keyed(b, key) && Keyed(a, key') && Keyed(b, key')
    requires forall n :: n in Nodes(a) + Nodes(b) ==> key'[n] == key[n]
    ensures Merged(a, b, key') == Merged(a, b, key)
    decreases Size(a) + Size(b)
  {
    if a.Node? && b.Node? {
      if key[a.n] < key[b.n] { MergedSame(a.r, b, key, key'); } else { MergedSame(a, b.r, key, key'); }
    }
  }

  lemma LeastInHeap(t: Heap, key: Keys)
    requires Ordered(t, key) && t.Node?
    ensures t.n in key && forall q :: q in Nodes(t) ==> q in key && key[t.n] <= key[q]
  {
    forall q | q in Nodes(t) ensures q in key && key[t.n] <= key[q] {
      RootIsMinimum(t, key, q);
    }
  }

  // Raising the least key by at most BIG_STRIDE stays in the window.
  lemma WindowAdvance(key: Keys, s: set<Ptr>, p: Ptr, d: int)
    requires InWindow(key, s) && p in s && 0 <= d <= BIG_STRIDE
    requires forall q :: q in s ==> key[p] <= key[q]
    ensures InWindow(key[p := key[p] + d], s)
  {
    var key' := key[p := key[p] + d];
    forall x, y | x in s && y in s ensures key'[x] - key'[y] <= BIG_STRIDE {
      assert key[x] - key[y] <= BIG_STRIDE;
    }
  }

  lemma WrapAdd(x: int, d: int)
    ensures Wrap(Wrap(x) + d) == Wrap(x + d)
  {
    assert x == x / WORD * WORD + Wrap(x);
    assert x + d == Wrap(x) + d + WORD * (x / WORD);
  }

  lemma StoredAdvance(stride: map<Ptr, int>, key: Keys, s: set<Ptr>, p: Ptr, d: int)
    requires Stored(stride, key, s) && p in s
    ensures Stored(stride[p := Wrap(stride[p] + d)], key[p := key[p] + d], s)
  {
    WrapAdd(key[p], d);
  }

  // Taking the root of t out at the end of p; key differs from total at most there.
  lemma RemovedNodes(p: Path, t: Heap, key: Keys)
    requires t.Node? && Distinct(t) && PathDistinct(p) && Nodes(t) !! PathNodes(p)
    requires Keyed(t.l, key) && Keyed(t.r, key)
    ensures Nodes(Plug(p, Merged(t.l, t.r, key))) == Nodes(Plug(p, t)) - {t.n}
    ensures Distinct(Plug(p, Merged(t.l, t.r, key)))
  {
    MergedFacts(t.l, t.r, key);
    PlugFacts(p, t);
    PlugFacts(p, Merged(t.l, t.r, key));
  }

  lemma KidsOrdered(t: Heap, key: Keys)
    requires t.Node? && Ordered(t, key) && Distinct(t)
    ensures Ordered(t.l, key) && Ordered(t.r, key) && Keyed(t.l, key) && Keyed(t.r, key)
    ensures t.n in key && t.n !in Nodes(t.l) && t.n !in Nodes(t.r) && Distinct(t.l) && Distinct(t.r)
    ensures Nodes(t.l) !! Nodes(t.r)
    ensures forall n :: n in Nodes(t.l) || n in Nodes(t.r) ==> n in key && key[t.n] <= key[n]
  {
    if t.l.Node? { LeastInHeap(t.l, key); }
    if t.r.Node? { LeastInHeap(t.r, key); }
  }

  lemma RemovedOrder(p: Path, t: Heap, key: Keys, total: Keys)
    requires t.Node? && Ordered(Plug(p, t), key)
    requires Distinct(t) && PathDistinct(p) && Nodes(t) !! PathNodes(p)
    requires key.Keys == total.Keys && forall x :: x in key && x != t.n ==> key[x] == total[x]
    ensures Keyed(t.l, total) && Keyed(t.r, total) && Ordered(Plug(p, Merged(t.l, t.r, total)), total)
  {
    PlugParts(p, t, key);
    KidsOrdered(t, key);
    hide Nodes, Ordered, Distinct, Merged, Plug, PathDistinct, PathNodes;
    MergedSame(t.l, t.r, key, total);
    var u := Merged(t.l, t.r, key);
    MergedFacts(t.l, t.r, key);
    MergedOrdered(t.l, t.r, key);
    PlugOrdered(p, t, u, key);
    RemovedNodes(p, t, key);
    if Plug(p, u).Node? { LeastInHeap(Plug(p, u), key); }
    OrderedSame(Plug(p, u), key, total);
  }

  // Two disjoint heaps whose strides lie in one window.
  ghost predicate Mergeable(stride: map<Ptr, int>, key: Keys, s: Heap, t: Heap) {
    && Distinct(s) && Distinct(t) && Nodes(s) !! Nodes(t)
    && InWindow(key, Nodes(s) + Nodes(t)) && Stored(stride, key, Nodes(s) + Nodes(t))
  }

  lemma MergeableKids(stride: map<Ptr, int>, key: Keys, s: Heap, t: Heap)
    requires Mergeable(stride, key, s, t) && s.Node? && t.Node?
    ensures Mergeable(stride, key, s.r, t) && Mergeable(stride, key, s, t.r)
    ensures s.n in key && t.n in key && s.n in stride && t.n in stride
    ensures Compare(stride[s.n], stride[t.n]) == -1 <==> key[s.n] < key[t.n]
    ensures Keyed(s, key) && Keyed(t, key)
    ensures Distinct(Merged(s.r, t, key)) && Nodes(Merged(s.r, t, key)) == Nodes(s.r) + Nodes(t)
    ensures Distinct(Merged(s, t.r, key)) && Nodes(Merged(s, t.r, key)) == Nodes(s) + Nodes(t.r)
  {
    CompareStored(stride, key, Nodes(s) + Nodes(t), s.n, t.n);
    MergedFacts(s.r, t, key);
    MergedFacts(s, t.r, key);
  }

  // The structs in m link together as t below x, the root, in the order of key.
  ghost predicate HeapAt(m: Mem, t: Heap, x: Ptr, key: Keys) {
    Shape(m, t, x) && (t.Node? ==> m[x].parent == NULL) && Distinct(t) && Ordered(t, key)
  }

  // The stored strides are the true ones, which lie in one window and count the runs.
  ghost predicate HistoryOf(stride: map<Ptr, int>, total: Keys, runs: map<Ptr, nat>, priority: map<Ptr, int>,
                            first: Keys, procs: set<Ptr>) {
    && InWindow(total, procs) && Stored(stride, total, procs)
    && procs <= first.Keys && procs <= runs.Keys
    && (forall x :: x in procs ==> x in priority && 0 <= priority[x] < WORD)
    && (forall x :: x in procs ==> total[x] == first[x] + Progress(runs[x], priority[x]))
  }

  lemma MergeableNow(stride: map<Ptr, int>, total: Keys, procs: set<Ptr>, s: Heap, t: Heap)
    requires InWindow(total, procs) && Stored(stride, total, procs)
    requires Distinct(s) && Distinct(t) && Nodes(s) !! Nodes(t) && Nodes(s) + Nodes(t) <= procs
    ensures Mergeable(stride, total, s, t) && Keyed(s, total) && Keyed(t, total)
  {
  }

  lemma EnqueueFacts(stride: map<Ptr, int>, total: Keys, runs: map<Ptr, nat>, priority: map<Ptr, int>, first: Keys,
                     procs: set<Ptr>, m: Mem, t: Heap, x: Ptr, proc: Ptr)
    requires HeapAt(m, t, x, total) && HistoryOf(stride, total, runs, priority, first, procs)
    requires Nodes(t) <= procs && proc in procs && proc !in Nodes(t)
    ensures Mergeable(stride, total, t, Node(Empty, proc, Empty)) && Keyed(t, total) &&
      Keyed(Node(Empty, proc, Empty), total)
    ensures Nodes(Merged(t, Node(Empty, proc, Empty), total)) == Nodes(t) + {proc}
    ensures |Nodes(t) + {proc}| == |Nodes(t)| + 1
  {
    MergeableNow(stride, total, procs, t, Node(Empty, proc, Empty));
    MergedFacts(t, Node(Empty, proc, Empty), total);
  }

  // b is the root of t, which sits at the end of p in the heap with root a.
  ghost predicate Hangs(m: Mem, p: Path, t: Heap, b: Ptr, a: Ptr) {
    && PathShape(m, p, b, a) && Shape(m, t, b) && t.Node? && m[b].parent == Owner(p)
    && Distinct(t) && PathDistinct(p) && Nodes(t) !! PathNodes(p)
  }

  // The position of proc, and the heap that remains without it.
  lemma DequeueFacts(stride: map<Ptr, int>, total: Keys, runs: map<Ptr, nat>, priority: map<Ptr, int>, first: Keys,
                     procs: set<Ptr>, m: Mem, t: Heap, x: Ptr, key: Keys, proc: Ptr) returns (p: Path, u: Heap)
    requires HeapAt(m, t, x, key) && HistoryOf(stride, total, runs, priority, first, procs)
    requires Nodes(t) <= procs && proc in Nodes(t)
    requires key.Keys == total.Keys && forall n :: n in key && n != proc ==> key[n] == total[n]
    ensures u.Node? && Hangs(m, p, u, proc, x) && Nodes(u) + PathNodes(p) == Nodes(t)
    ensures Mergeable(stride, total, u.l, u.r) && Keyed(u.l, total) && Keyed(u.r, total)
    ensures var t' := Plug(p, Merged(u.l, u.r, total));
      Ordered(t', total) && Distinct(t') && Nodes(t') == Nodes(t) - {proc}
    ensures |Nodes(t) - {proc}| == |Nodes(t)| - 1
  {
    p, u := Locate(m, Top, t, x, x, proc);
    PlugFacts(p, u);
    MergeableNow(stride, total, procs, u.l, u.r);
    RemovedOrder(p, u, key, total);
    RemovedNodes(p, u, total);
  }

  lemma SetBack(s: set<Ptr>, x: Ptr)
    ensures if x in s then s - {x} + {x} == s else s - {x} == s
  {
  }

  lemma HistoryLess(stride: map<Ptr, int>, total: Keys, runs: map<Ptr, nat>, priority: map<Ptr, int>, first: Keys,
                    procs: set<Ptr>, some: set<Ptr>)
    requires HistoryOf(stride, total, runs, priority, first, procs) && some <= procs
    ensures HistoryOf(stride, total, runs, priority, first, some)
  {
  }

  // What a pick reads off the heap and the history.
  lemma PickFacts(m: Mem, t: Heap, x: Ptr, stride: map<Ptr, int>, total: Keys, runs: map<Ptr, nat>,
                  priority: map<Ptr, int>, first: Keys, procs: set<Ptr>)
    requires HeapAt(m, t, x, total) && HistoryOf(stride, total, runs, priority, first, procs) && Nodes(t) == procs
    ensures x == NULL <==> procs == {}
    ensures x != NULL ==>
      && x in procs && x in total && x in stride && x in runs && x in priority && 0 <= priority[x] &&
           procs <= total.Keys
      && forall q :: q in procs ==> total[x] <= total[q]
  {
    if t.Node? { LeastInHeap(t, total); }
  }

  // Every process has run once more than before at p, which had a least stride.
  lemma Advance(stride: map<Ptr, int>, total: Keys, runs: map<Ptr, nat>, priority: map<Ptr, int>, first: Keys,
                procs: set<Ptr>, p: Ptr)
    requires HistoryOf(stride, total, runs, priority, first, procs) && p in procs
    requires forall q :: q in procs ==> total[p] <= total[q]
    ensures var d := Pass(priority[p]);
      HistoryOf(stride[p := Wrap(stride[p] + d)], total[p := total[p] + d], runs[p := runs[p] + 1], priority, first,
                procs)
  {
    PassRange(priority[p]);
    ProgressStep(runs[p], priority[p]);
    WindowAdvance(total, procs, p, Pass(priority[p]));
    StoredAdvance(stride, total, procs, p, Pass(priority[p]));
  }

  // The processes of s began with equal strides.
  ghost predicate SameStart(first: Keys, s: set<Ptr>) {
    forall x, y :: x in s && y in s ==> x in first && y in first && first[x] == first[y]
  }

  // No process of s has a smaller stride than p.
  ghost predicate Least(key: Keys, s: set<Ptr>, p: Ptr) {
    p in key && forall q :: q in s ==> q in key && key[p] <= key[q]
  }

  // A run has advanced a stride from s to t: by the most that priority such steps fit into BIG_STRIDE, or
  // by BIG_STRIDE for priority 0.
  ghost predicate Advanced(s: int, t: int, priority: int) {
    && (priority == 0 ==> t - s == BIG_STRIDE)
    && (priority > 0 ==> (t - s) * priority <= BIG_STRIDE < (t - s + 1) * priority)
  }

  // The weighted run counts of two processes differ by at most BIG_STRIDE.
  ghost predicate Fair(runs: map<Ptr, nat>, priority: map<Ptr, int>, procs: set<Ptr>) {
    forall x, y :: x in procs && y in procs ==>
      && x in runs && y in runs && x in priority && y in priority && priority[x] >= 0 && priority[y] >= 0
      && Weighted(runs[x], priority[x]) - Weighted(runs[y], priority[y]) <= BIG_STRIDE
  }

  // Every run of a process weighs BIG_STRIDE / priority, and BIG_STRIDE if the priority is 0.
  ghost function Weighted(runs: nat, priority: int): int
    requires priority >= 0
  {
    if priority == 0 then runs * BIG_STRIDE else runs * (BIG_STRIDE / priority)
  }

  // The runs of any two processes are as their priorities, up to one run for each unit of priority and
  // what the rounding of BIG_STRIDE / priority adds up to.
  ghost predicate Shares(runs: map<Ptr, nat>, priority: map<Ptr, int>, procs: set<Ptr>) {
    forall x, y :: x in procs && y in procs ==>
      && x in runs && y in runs && x in priority && y in priority
      && (priority[x] > 0 && priority[y] > 0 ==> Share(runs[x], priority[x], runs[y], priority[y]))
  }

  ghost predicate Share(rx: nat, px: int, ry: nat, py: int) {
    (rx * py - ry * px) * BIG_STRIDE <= (BIG_STRIDE + rx) * (px * py)
  }

  lemma FairShares(runs: map<Ptr, nat>, priority: map<Ptr, int>, procs: set<Ptr>)
    requires Fair(runs, priority, procs)
    ensures Shares(runs, priority, procs)
  {
    forall x, y | x in procs && y in procs && priority[x] > 0 && priority[y] > 0
      ensures Share(runs[x], priority[x], runs[y], priority[y])
    {
      assert Weighted(runs[x], priority[x]) - Weighted(runs[y], priority[y]) <= BIG_STRIDE;
      WeightedShare(runs[x], priority[x], runs[y], priority[y]);
    }
  }

  lemma WeightedShare(rx: nat, px: int, ry: nat, py: int)
    requires px > 0 && py > 0 && Weighted(rx, px) - Weighted(ry, py) <= BIG_STRIDE
    ensures Share(rx, px, ry, py)
  {
    PassExact(px);
    PassExact(py);
    ShareBound(BIG_STRIDE, rx, px, Pass(px), ry, py, Pass(py));
  }

  lemma ShareBound(big: int, rx: nat, px: int, dx: int, ry: nat, py: int, dy: int)
    requires px > 0 && py > 0 && big < (dx + 1) * px && dy * py <= big && rx * dx - ry * dy <= big
    ensures (rx * py - ry * px) * big <= (big + rx) * (px * py)
  {
    Scale(px * py, rx * dx - ry * dy, big);
    Scale(rx * py, big, (dx + 1) * px);
    Scale(ry * px, dy * py, big);
    assert rx * py * ((dx + 1) * px) == px * py * (rx * dx) + rx * (px * py);
    assert ry * px * (dy * py) == px * py * (ry * dy);
    assert px * py * (rx * dx - ry * dy) == px * py * (rx * dx) - px * py * (ry * dy);
    assert (rx * py - ry * px) * big == rx * py * big - ry * px * big;
    assert (big + rx) * (px * py) == px * py * big + rx * (px * py);
  }

  lemma Scale(k: int, a: int, b: int)
    requires k >= 0 && a <= b
    ensures k * a <= k * b
  {
  }

  lemma WindowIsFair(stride: map<Ptr, int>, total: Keys, runs: map<Ptr, nat>, priority: map<Ptr, int>, first: Keys,
                     procs: set<Ptr>)
    requires HistoryOf(stride, total, runs, priority, first, procs)
    requires forall x, y :: x in procs && y in procs ==> x in first && y in first && first[x] == first[y]
    ensures Fair(runs, priority, procs)
  {
    forall x, y | x in procs && y in procs
      ensures Weighted(runs[x], priority[x]) - Weighted(runs[y], priority[y]) <= BIG_STRIDE
    {
      assert total[x] - total[y] <= BIG_STRIDE;
      assert Progress(runs[x], priority[x]) == Weighted(runs[x], priority[x]);
      assert Progress(runs[y], priority[y]) == Weighted(runs[y], priority[y]);
    }
  }

  // ---- counting picks ----

  // How often x was picked.
  function Times(picked: seq<Ptr>, x: Ptr): nat {
    if picked == [] then 0
    else Times(picked[..|picked| - 1], x) + if picked[|picked| - 1] == x then 1 else 0
  }

  // One process was picked each time, as long as one could run only such; those that still can were
  // counted every time; and procs has lost those that blocked.
  ghost predicate RunOf(blocks: seq<bool>, picked: seq<Ptr>, procs0: set<Ptr>, procs: set<Ptr>, runs0: map<Ptr, nat>,
                        runs: map<Ptr, nat>)
  {
    && |picked| == |blocks| && procs <= procs0
    && ((forall i :: 0 <= i < |blocks| ==> !blocks[i]) ==> procs == procs0)
    && (procs != {} ==> forall i :: 0 <= i < |picked| ==> picked[i] in procs0)
    && (forall x :: x in procs ==> x in runs && x in runs0 && runs[x] == runs0[x] + Times(picked, x))
  }

  lemma RunStep(blocks: seq<bool>, i: nat, picked: seq<Ptr>, procs0: set<Ptr>, procs: set<Ptr>, procs': set<Ptr>,
                runs0: map<Ptr, nat>, runs: map<Ptr, nat>, runs': map<Ptr, nat>, next: Ptr)
    requires i < |blocks| && RunOf(blocks[..i], picked, procs0, procs, runs0, runs)
    requires procs' <= procs && (!blocks[i] ==> procs' == procs)
    requires procs' != {} ==> next in procs' && next in runs && runs' == runs[next := runs[next] + 1]
    ensures RunOf(blocks[..i + 1], picked + [next], procs0, procs', runs0, runs')
  {
    assert (picked + [next])[..|picked|] == picked;
    assert blocks[..i + 1] == blocks[..i] + [blocks[i]];
    assert blocks[..i + 1][i] == blocks[i] && forall j :: 0 <= j < i ==> blocks[..i + 1][j] == blocks[..i][j];
  }

  class StrideQueue {
    var mem: Mem
    var pool: Ptr                  // rq->lab6_run_pool
    var procNum: int               // rq->proc_num
    const maxTimeSlice: int
    var stride: map<Ptr, int>      // lab6_stride
    var priority: map<Ptr, int>    // lab6_priority
    var timeSlice: map<Ptr, int>
    ghost var procs: set<Ptr>      // the processes that have been runnable since the start
    ghost const first: Keys        // their strides at the start
    ghost var heap: Heap           // the tree the links of the run pool form
    ghost var total: Keys          // the strides without wrap-around
    ghost var runs: map<Ptr, nat>  // how often each process was picked

    // stride_init, for processes whose strides start in one window
    constructor (max: int, mem: Mem, stride: map<Ptr, int>, priority: map<Ptr, int>, timeSlice: map<Ptr, int>,
                 ghost procs: set<Ptr>, ghost first: Keys)
      requires NULL !in procs && InWindow(first, procs) && Stored(stride, first, procs)
      requires procs <= mem.Keys && procs <= timeSlice.Keys
      requires forall x :: x in procs ==> x in priority && 0 <= priority[x] < WORD
      ensures Valid() && this.procs == procs && this.first == first && heap == Empty && total == first
      ensures maxTimeSlice == max && this.priority == priority
    {
      this.maxTimeSlice, this.mem, this.stride, this.priority, this.timeSlice := max, mem, stride, priority, timeSlice;
      pool, procNum := NULL, 0;
      this.procs, this.first, total := procs, first, first;
      heap, runs := Empty, map x | x in procs :: 0;
    }

    ghost predicate ValidFor(key: Keys)
      reads this
    {
      && HeapAt(mem, heap, pool, key) && Nodes(heap) <= procs && procNum == |Nodes(heap)|
      && HistoryOf(stride, total, runs, priority, first, procs)
      && NULL !in procs && forall x :: x in procs ==> x in mem && x in timeSlice
    }

    ghost predicate Valid()
      reads this
    {
      ValidFor(total)
    }

    method Merge(a: Ptr, b: Ptr, ghost s: Heap, ghost t: Heap) returns (c: Ptr)
      requires Shape(mem, s, a) && Shape(mem, t, b) && Mergeable(stride, total, s, t) && Keyed(s, total) &&
        Keyed(t, total)
      modifies this`mem
      ensures Shape(mem, Merged(s, t, total), c)
      ensures Same(old(mem), mem, Nodes(s) + Nodes(t))
      ensures c != NULL ==> c in mem && c in old(mem) && mem[c].parent == old(mem)[c].parent
      decreases Size(s) + Size(t)
    {
      if a == NULL {
        return b;
      } else if b == NULL {
        return a;
      }
      MergeableKids(stride, total, s, t);
      hide Mergeable, Compare;
      ghost var m := mem;
      var l, r;
      if Compare(stride[a], stride[b]) == -1 {
        r := mem[a].left;
        l := Merge(mem[a].right, b, s.r, t);
        Frame(m, mem, s.l, r);
        Attach(a, l, r, Merged(s.r, t, total), s.l);
        c := a;
      } else {
        r := mem[b].left;
        l := Merge(a, mem[b].right, s, t.r);
        Frame(m, mem, t.l, r);
        Attach(b, l, r, Merged(s, t.r, total), t.l);
        c := b;
      }
    }

    // The common tail of both branches: l below the left link of a, r below the right one.
    method Attach(a: Ptr, l: Ptr, r: Ptr, ghost tl: Heap, ghost tr: Heap)
      requires Shape(mem, tl, l) && Shape(mem, tr, r) && (tr.Node? ==> r in mem && mem[r].parent == a)
      requires Distinct(Node(tl, a, tr)) && a != NULL && a in mem
      modifies this`mem
      ensures Shape(mem, Node(tl, a, tr), a)
      ensures Same(old(mem), mem, {a, l}) && mem[a].parent == old(mem)[a].parent
    {
      ghost var m := mem;
      mem := mem[a := mem[a].(left := l, right := r)];
      if l != NULL { mem := mem[l := mem[l].(parent := a)]; }
      Frame(m, mem, tl, l);
      Frame(m, mem, tr, r);
    }

    // skew_heap_insert(a, b)
    method HeapInsert(a: Ptr, b: Ptr, ghost t: Heap) returns (c: Ptr)
      requires HeapAt(mem, t, a, total) && b in mem && b != NULL
      requires Mergeable(stride, total, t, Node(Empty, b, Empty)) && Keyed(t, total) &&
        Keyed(Node(Empty, b, Empty), total)
      modifies this`mem
      ensures HeapAt(mem, Merged(t, Node(Empty, b, Empty), total), c, total)
      ensures Same(old(mem), mem, Nodes(t) + {b})
    {
      ghost var m := mem;
      mem := mem[b := Entry(NULL, NULL, NULL)];
      Frame(m, mem, t, a);
      MergedFacts(t, Node(Empty, b, Empty), total);
      MergedOrdered(t, Node(Empty, b, Empty), total);
      c := Merge(a, b, t, Node(Empty, b, Empty));
    }

    // skew_heap_remove(a, b): b sits at the end of p below the root a.
    method HeapRemove(a: Ptr, b: Ptr, ghost p: Path, ghost t: Heap) returns (c: Ptr)
      requires t.Node? && Hangs(mem, p, t, b, a)
      requires Mergeable(stride, total, t.l, t.r) && Keyed(t.l, total) && Keyed(t.r, total)
      requires var t' := Plug(p, Merged(t.l, t.r, total)); Ordered(t', total) && Distinct(t')
      modifies this`mem
      ensures HeapAt(mem, Plug(p, Merged(t.l, t.r, total)), c, total)
      ensures Same(old(mem), mem, Nodes(t) + PathNodes(p))
    {
      ghost var u := Merged(t.l, t.r, total);
      MergedFacts(t.l, t.r, total);
      var q := mem[b].parent;
      var rep := MergeKids(a, b, q, p, t);
      c := rep;
      if q != NULL {
        Reattach(q, b, rep, p, u, a);
        c := a;
      }
    }

    // The merge of the children of b, with q for its parent.
    method MergeKids(a: Ptr, b: Ptr, q: Ptr, ghost p: Path, ghost t: Heap) returns (rep: Ptr)
      requires t.Node? && Hangs(mem, p, t, b, a) && b in mem && q == mem[b].parent
      requires Mergeable(stride, total, t.l, t.r) && Keyed(t.l, total) && Keyed(t.r, total)
      modifies this`mem
      ensures PathShape(mem, p, b, a) && Shape(mem, Merged(t.l, t.r, total), rep)
      ensures Merged(t.l, t.r, total).Node? ==> mem[rep].parent == q
      ensures Same(old(mem), mem, Nodes(t.l) + Nodes(t.r))
    {
      ghost var m, u := mem, Merged(t.l, t.r, total);
      MergedFacts(t.l, t.r, total);
      rep := Merge(mem[b].left, mem[b].right, t.l, t.r);
      ghost var m1 := mem;
      PathFrame(m, m1, p, b, a);
      if rep != NULL { mem := mem[rep := mem[rep].(parent := q)]; }
      Frame(m1, mem, u, rep);
      PathFrame(m1, mem, p, b, a);
    }

    // The link of q that pointed to b now points to rep.
    method Reattach(q: Ptr, b: Ptr, rep: Ptr, ghost p: Path, ghost u: Heap, ghost a: Ptr)
      requires PathShape(mem, p, b, a) && PathDistinct(p) && p.Step? && q == p.n && b != NULL && b !in PathNodes(p)
      requires Shape(mem, u, rep) && Distinct(u) && Nodes(u) !! PathNodes(p) && (u.Node? ==> mem[rep].parent == q)
      modifies this`mem
      ensures Shape(mem, Plug(p, u), a) && (Plug(p, u).Node? ==> mem[a].parent == NULL)
      ensures Same(old(mem), mem, {q})
    {
      if mem[q].left == b {
        mem := mem[q := mem[q].(left := rep)];
      } else {
        mem := mem[q := mem[q].(right := rep)];
      }
      Frame(old(mem), mem, u, rep);
      Rehang(old(mem), mem, p, b, rep, a);
      PlugShape(mem, p, u, rep, a);
    }

    // stride_enqueue
    method Enqueue(proc: Ptr)
      requires Valid() && proc in procs && proc !in Nodes(heap)
      modifies this`mem, this`pool, this`procNum, this`timeSlice, this`heap
      ensures Valid() && Nodes(heap) == old(Nodes(heap)) + {proc}
      ensures timeSlice == old(timeSlice)[proc :=
        if old(timeSlice[proc]) == 0 || old(timeSlice[proc]) > maxTimeSlice then maxTimeSlice else old(timeSlice[proc])]
    {
      hide HeapAt, HistoryOf, Mergeable, Keyed, Nodes, Merged, Shape, Distinct, Ordered;
      EnqueueFacts(stride, total, runs, priority, first, procs, mem, heap, pool, proc);
      ghost var t := heap;
      heap := Merged(t, Node(Empty, proc, Empty), total);
      pool := HeapInsert(pool, proc, t);
      Refill(proc);
      procNum := procNum + 1;
    }

    method Refill(proc: Ptr)
      requires proc in timeSlice
      modifies this`timeSlice
      ensures timeSlice == old(timeSlice)[proc :=
        if old(timeSlice[proc]) == 0 || old(timeSlice[proc]) > maxTimeSlice then maxTimeSlice else old(timeSlice[proc])]
    {
      var slice := timeSlice[proc];
      if slice == 0 || slice > maxTimeSlice { slice := maxTimeSlice; }
      timeSlice := timeSlice[proc := slice];
    }

    // stride_pick_next: the picked process has a least stride of those queued, and its key is raised
    // while it is still the root of the heap. Who is not queued now has not been runnable throughout.
    method PickNext() returns (p: Ptr)
      requires Valid()
      modifies this`stride, this`total, this`runs, this`procs
      ensures procs == old(Nodes(heap)) && Nodes(heap) == procs && (p == NULL <==> procs == {})
      ensures p == NULL ==> Valid() && stride == old(stride) && total == old(total) && runs == old(runs)
      ensures p != NULL ==> p in procs && p in old(total) && p in old(runs) && p in priority && priority[p] >= 0
      ensures p != NULL ==> Least(old(total), procs, p)
      ensures p != NULL ==> p in total && total == old(total)[p := total[p]]
      ensures p != NULL ==> Advanced(old(total)[p], total[p], priority[p])
      ensures p != NULL ==> runs == old(runs)[p := old(runs)[p] + 1]
      ensures p != NULL ==> ValidFor(old(total))
    {
      hide *;
      KeepQueued();
      p := PickRoot();
    }

    ghost method KeepQueued()
      requires Valid()
      modifies this`procs
      ensures Valid() && procs == Nodes(heap)
    {
      HistoryLess(stride, total, runs, priority, first, procs, Nodes(heap));
      hide HeapAt, HistoryOf, Nodes;
      procs := Nodes(heap);
    }

    method PickRoot() returns (p: Ptr)
      requires Valid() && Nodes(heap) == procs
      modifies this`stride, this`total, this`runs
      ensures p == NULL <==> procs == {}
      ensures p == NULL ==> Valid() && stride == old(stride) && total == old(total) && runs == old(runs)
      ensures p != NULL ==> p in procs && p in old(total) && p in old(runs) && p in priority && priority[p] >= 0
      ensures p != NULL ==> Least(old(total), procs, p)
      ensures p != NULL ==> p in total && total == old(total)[p := total[p]]
      ensures p != NULL ==> Advanced(old(total)[p], total[p], priority[p])
      ensures p != NULL ==> runs == old(runs)[p := old(runs)[p] + 1]
      ensures p != NULL ==> ValidFor(old(total))
    {
      hide HeapAt, HistoryOf, Nodes;
      PickFacts(mem, heap, pool, stride, total, runs, priority, first, procs);
      if pool == NULL { return NULL; }
      p := pool;
      Advance(stride, total, runs, priority, first, procs, p);
      stride := stride[p := Wrap(stride[p] + Pass(priority[p]))];
      PassExact(priority[p]);
      total := total[p := total[p] + Pass(priority[p])];
      runs := runs[p := runs[p] + 1];
    }

    // stride_dequeue; key is the order the heap had, which differs from the strides at most at proc.
    method Dequeue(proc: Ptr, ghost key: Keys)
      requires ValidFor(key) && proc in Nodes(heap)
      requires key.Keys == total.Keys && forall x :: x in key && x != proc ==> key[x] == total[x]
      modifies this`mem, this`pool, this`procNum, this`heap
      ensures Valid() && Nodes(heap) == old(Nodes(heap)) - {proc}
    {
      hide HeapAt, HistoryOf, Hangs, Mergeable, Keyed, Nodes, Merged, Ordered, Distinct, PathNodes, Plug;
      ghost var p, u := DequeueFacts(stride, total, runs, priority, first, procs, mem, heap, pool, key, proc);
      heap := Plug(p, Merged(u.l, u.r, total));
      pool := HeapRemove(pool, proc, p, u);
      procNum := procNum - 1;
    }

    // stride_proc_tick: whether the process must give up the processor.
    method ProcTick(proc: Ptr) returns (needResched: bool)
      requires proc in timeSlice
      modifies this`timeSlice
      ensures proc in timeSlice && timeSlice[proc] == (if old(timeSlice[proc]) > 0 then old(timeSlice[proc]) - 1
        else old(timeSlice[proc]))
      ensures forall x :: x in old(timeSlice) && x != proc ==> x in timeSlice && timeSlice[x] == old(timeSlice)[x]
      ensures timeSlice.Keys == old(timeSlice).Keys
      ensures needResched <==> timeSlice[proc] == 0
    {
      if timeSlice[proc] > 0 {
        timeSlice := timeSlice[proc := timeSlice[proc] - 1];
      }
      needResched := timeSlice[proc] == 0;
    }

    // A process keeps the processor until it is asked to give it up: at the tick that uses up its slice,
    // and at once if the slice is already used up.
    method TickUntilResched(proc: Ptr) returns (ticks: nat)
      requires proc in timeSlice && timeSlice[proc] >= 0
      modifies this`timeSlice
      ensures ticks == (if old(timeSlice[proc]) > 1 then old(timeSlice[proc]) else 1)
      ensures timeSlice == old(timeSlice)[proc := 0]
    {
      ghost var slices := timeSlice;
      var needResched := ProcTick(proc);
      ticks := 1;
      while !needResched
        invariant proc in timeSlice && timeSlice.Keys == slices.Keys && timeSlice[proc] >= 0
        invariant forall x :: x in slices && x != proc ==> timeSlice[x] == slices[x]
        invariant needResched <==> timeSlice[proc] == 0
        invariant ticks + timeSlice[proc] == if slices[proc] > 1 then slices[proc] else 1
        decreases timeSlice[proc]
      {
        needResched := ProcTick(proc);
        ticks := ticks + 1;
      }
    }

    // One pass of schedule(); idle stands for idleproc, and blocks says that the current process is no
    // longer runnable.
    method Schedule(current: Ptr, idle: Ptr, blocks: bool) returns (next: Ptr)
      requires Valid() && idle !in procs && idle != NULL
      requires Nodes(heap) == procs - {current} && (current in procs || current == idle)
      modifies this`mem, this`pool, this`procNum, this`timeSlice, this`heap, this`stride, this`total, this`runs,
        this`procs
      ensures Valid() && procs == (if blocks then old(procs) - {current} else old(procs)) &&
        Nodes(heap) == procs - {next}
      ensures if procs == {} then next == idle && runs == old(runs)
              else next in procs && next in old(runs) && runs == old(runs)[next := old(runs)[next] + 1]
      ensures next in procs ==> Least(old(total), procs, next)
    {
      hide *;
      SetBack(procs, current);
      if !blocks && current != idle {
        Enqueue(current);
      }
      next := Dispatch(idle);
    }

    // The second half of schedule(), by the queue alone.
    method Dispatch(idle: Ptr) returns (next: Ptr)
      requires Valid() && idle !in procs && idle != NULL
      modifies this`mem, this`pool, this`procNum, this`heap, this`stride, this`total, this`runs, this`procs
      ensures Valid() && procs == old(Nodes(heap)) && Nodes(heap) == procs - {next}
      ensures if procs == {} then next == idle && runs == old(runs)
              else next in procs && next in old(runs) && runs == old(runs)[next := old(runs)[next] + 1]
      ensures next in procs ==> Least(old(total), procs, next)
    {
      hide HeapAt, HistoryOf, Nodes;
      ghost var before := total;
      next := PickNext();
      if next != NULL {
        Dequeue(next, before);
      } else {
        next := idle;
      }
    }

    // Any number of passes from the start, with processes blocking on the way: each pass picks one
    // process, which is counted, or the idle one if none can run; and two processes that never blocked
    // are never further apart than BIG_STRIDE, each run weighing BIG_STRIDE / priority.
    method Run(blocks: seq<bool>, idle: Ptr) returns (current: Ptr, picked: seq<Ptr>)
      requires Valid() && idle !in procs && idle != NULL && Nodes(heap) == procs && SameStart(first, procs)
      modifies this`mem, this`pool, this`procNum, this`timeSlice, this`heap, this`stride, this`total, this`runs,
        this`procs
      ensures Valid() && Nodes(heap) == procs - {current} && (picked != [] ==> current == picked[|picked| - 1])
      ensures RunOf(blocks, picked, old(procs), procs, old(runs), runs)
      ensures Fair(runs, priority, procs) && Shares(runs, priority, procs)
    {
      ghost var procs0, runs0 := procs, runs;
      StartRun(blocks, idle);
      hide *;
      current := idle;
      picked := [];
      for i := 0 to |blocks|
        invariant Running(current, idle, blocks, i, picked, procs0, runs0)
      {
        current, picked := Round(current, idle, blocks, i, picked, procs0, runs0);
      }
      EndRun(current, idle, blocks, picked, procs0, runs0);
      Fairly(blocks, picked, procs0, runs0);
    }

    // The run after i passes.
    ghost predicate Running(current: Ptr, idle: Ptr, blocks: seq<bool>, i: nat, picked: seq<Ptr>, procs0: set<Ptr>,
                            runs0: map<Ptr, nat>)
      reads this
    {
      && Valid() && idle !in procs && idle != NULL && Nodes(heap) == procs - {current} &&
           (current in procs || current == idle)
      && (picked != [] ==> current == picked[|picked| - 1])
      && i <= |blocks| && RunOf(blocks[..i], picked, procs0, procs, runs0, runs)
    }

    lemma StartRun(blocks: seq<bool>, idle: Ptr)
      requires Valid() && idle !in procs && idle != NULL && Nodes(heap) == procs
      ensures Running(idle, idle, blocks, 0, [], procs, runs)
    {
      hide HeapAt, Nodes;
    }

    lemma EndRun(current: Ptr, idle: Ptr, blocks: seq<bool>, picked: seq<Ptr>, procs0: set<Ptr>, runs0: map<Ptr, nat>)
      requires Running(current, idle, blocks, |blocks|, picked, procs0, runs0)
      ensures Valid() && Nodes(heap) == procs - {current} && (picked != [] ==> current == picked[|picked| - 1])
      ensures RunOf(blocks, picked, procs0, procs, runs0, runs)
    {
      assert blocks[..|blocks|] == blocks;
    }

    method Round(current: Ptr, idle: Ptr, blocks: seq<bool>, i: nat, picked: seq<Ptr>, ghost procs0: set<Ptr>,
                 ghost runs0: map<Ptr, nat>)
      returns (next: Ptr, picked': seq<Ptr>)
      requires i < |blocks| && Running(current, idle, blocks, i, picked, procs0, runs0)
      modifies this`mem, this`pool, this`procNum, this`timeSlice, this`heap, this`stride, this`total, this`runs,
        this`procs
      ensures Running(next, idle, blocks, i + 1, picked', procs0, runs0)
    {
      hide Valid, Nodes, RunOf, Least;
      ghost var runs1, procs1 := runs, procs;
      next := Schedule(current, idle, blocks[i]);
      RunStep(blocks, i, picked, procs0, procs1, procs, runs0, runs1, runs, next);
      picked' := picked + [next];
    }

    lemma Fairly(blocks: seq<bool>, picked: seq<Ptr>, procs0: set<Ptr>, runs0: map<Ptr, nat>)
      requires Valid() && RunOf(blocks, picked, procs0, procs, runs0, runs)
      requires SameStart(first, procs0)
      ensures Fair(runs, priority, procs) && Shares(runs, priority, procs)
    {
      hide HeapAt, HistoryOf, Nodes, Fair, Shares, Times;
      WindowIsFair(stride, total, runs, priority, first, procs);
      FairShares(runs, priority, procs);
    }
  }
}
