// Process states, the family links and the run queue: do_fork, do_exit, do_wait and do_kill of
// kern/process/proc.c with wakeup_proc and schedule of kern/schedule/sched.c.
module ProcessTable {
  import opened Lists
  import opened Options
  import opened Pointers

  const MAX_PROCESS: int := 4096
  const MAX_PID: int := 8192

  datatype State = Uninit | Sleeping | Runnable | Zombie

  // struct proc_struct, in two parts: the state, and the links to the family
  datatype Proc = Proc(state: State, waiting: bool, exiting: bool, pid: int)
  datatype Links = Links(parent: Ptr, cptr: Ptr, optr: Ptr, yptr: Ptr)

  type LinkMap = map<Ptr, Links>
  type Families = map<Ptr, seq<Ptr>>

  // ---- the forest ----

  function First(k: seq<Ptr>): Ptr { if k == [] then Null else k[0] }

  // The links of the children k of q, youngest first; the youngest may still point to a younger
  // sibling that has left when loose is set.
  ghost predicate Siblings(m: LinkMap, q: Ptr, k: seq<Ptr>, loose: bool) {
    forall i :: 0 <= i < |k| ==> Sibling(m, q, k, i, loose)
  }

  ghost predicate Sibling(m: LinkMap, q: Ptr, k: seq<Ptr>, i: int, loose: bool)
    requires 0 <= i < |k|
  {
    && k[i] in m && k[i] != Null && m[k[i]].parent == q
    && m[k[i]].optr == (if i + 1 < |k| then k[i + 1] else Null)
    && (i > 0 || !loose ==> m[k[i]].yptr == (if i > 0 then k[i - 1] else Null))
  }

  ghost predicate Family(m: LinkMap, q: Ptr, k: seq<Ptr>, loose: bool) {
    q in m && m[q].cptr == First(k) && NoRepeats(k) && Siblings(m, q, k, loose)
  }

  // Every process has its children in kids; the family of odd may be loose.
  ghost predicate Forest(m: LinkMap, kids: Families, odd: Ptr) {
    && m.Keys == kids.Keys && Null !in m
    && forall q :: q in kids ==> Family(m, q, kids[q], q == odd)
  }

  // p stands in front of the children of q (the link part of set_links).
  ghost predicate Joined(m: LinkMap, m': LinkMap, q: Ptr, p: Ptr) {
    && q in m && p in m' && m'[p].parent == q && m'[p].optr == m[q].cptr && m'[p].yptr == Null
    && q in m' && m'[q] == m[q].(cptr := p)
    && (m[q].cptr != Null && m[q].cptr in m ==> m[q].cptr in m' && m'[m[q].cptr] == m[m[q].cptr].(yptr := p))
    && (forall x :: x in m && x != p && x != q && x != m[q].cptr ==> x in m' && m'[x] == m[x])
    && m'.Keys == m.Keys + {p}
  }

  lemma ChildOf(m: LinkMap, q: Ptr, k: seq<Ptr>, loose: bool, x: Ptr)
    requires Family(m, q, k, loose) && x in k
    ensures x in m && x != Null && m[x].parent == q
  {
    var i :| 0 <= i < |k| && k[i] == x;
    assert Sibling(m, q, k, i, loose);
  }

  // The family of q with the new child p in front.
  lemma JoinedFamily(m: LinkMap, m': LinkMap, q: Ptr, k: seq<Ptr>, p: Ptr)
    requires Family(m, q, k, false) && Joined(m, m', q, p) && p !in k && p != Null && q !in k && p != q && Null !in m
    ensures Family(m', q, [p] + k, false)
  {
    var k' := [p] + k;
    assert k'[1..] == k;
    forall i | 0 <= i < |k'| ensures Sibling(m', q, k', i, false) {
      if i > 0 {
        assert Sibling(m, q, k, i - 1, false) && k'[i] == k[i - 1];
        assert k[i - 1] in k;
        if i > 1 {
          assert Sibling(m, q, k, 0, false) && k[0] != k[i - 1] by {
            DistinctAt(k, 0, i - 1);
          }
        }
      } else if k != [] {
        assert Sibling(m, q, k, 0, false);
      }
    }
  }

  // A family none of whose members' links have changed.
  lemma FamilyKept(m: LinkMap, m': LinkMap, q: Ptr, k: seq<Ptr>, loose: bool)
    requires Family(m, q, k, loose) && q in m' && m'[q].cptr == m[q].cptr
    requires forall x :: x in k ==> x in m' && x in m && m'[x] == m[x].(cptr := m'[x].cptr)
    ensures Family(m', q, k, loose)
  {
    forall i | 0 <= i < |k| ensures Sibling(m', q, k, i, loose) {
      assert Sibling(m, q, k, i, loose);
    }
  }

  // Children are younger than their parents, so the links have no cycle.
  ghost predicate Younger(kids: Families, born: map<Ptr, int>) {
    forall q, c :: q in kids && c in kids[q] ==> Precedes(born, q, c)
  }

  predicate Precedes(born: map<Ptr, int>, a: Ptr, b: Ptr) { a in born && b in born && born[a] < born[b] }

  // A child belongs to one parent only.
  lemma OneParent(m: LinkMap, kids: Families, odd: Ptr, q: Ptr, r: Ptr, c: Ptr)
    requires Forest(m, kids, odd) && q in kids && r in kids && c in kids[q] && c in kids[r]
    ensures q == r && c in m && m[c].parent == q
  {
    ChildOf(m, q, kids[q], q == odd, c);
    ChildOf(m, r, kids[r], r == odd, c);
  }

  lemma IsChild(m: LinkMap, kids: Families, odd: Ptr, q: Ptr, c: Ptr)
    requires Forest(m, kids, odd) && q in kids && c in kids[q]
    ensures c in m && c != Null && m[c].parent == q && c in kids
  {
    ChildOf(m, q, kids[q], q == odd, c);
  }

  lemma NotOwnChild(kids: Families, born: map<Ptr, int>, q: Ptr)
    requires Younger(kids, born) && q in kids
    ensures q !in kids[q]
  {
    assert !Precedes(born, q, q);
  }

  lemma NoStranger(m: LinkMap, kids: Families, odd: Ptr, p: Ptr, x: Ptr)
    requires Forest(m, kids, odd) && p !in kids && x in kids
    ensures p !in kids[x]
  {
    if p in kids[x] { IsChild(m, kids, odd, x, p); }
  }

  // set_links for a new process p
  lemma ForestJoined(m: LinkMap, m': LinkMap, kids: Families, born: map<Ptr, int>, q: Ptr, p: Ptr)
    requires Forest(m, kids, Null) && Younger(kids, born) && q in kids && p !in kids && p != Null
    requires Joined(m, m', q, p) && m'[p].cptr == Null
    ensures Forest(m', kids[p := []][q := [p] + kids[q]], Null)
  {
    var kids' := kids[p := []][q := [p] + kids[q]];
    forall x | x in kids' ensures Family(m', x, kids'[x], false) {
      if x in kids { NoStranger(m, kids, Null, p, x); }
      if x == q {
        NotOwnChild(kids, born, q);
        JoinedFamily(m, m', q, kids[q], p);
      } else if x != p {
        JoinedOther(m, m', kids, Null, q, p, x);
      }
    }
  }

  // Joining q's children leaves the families of others alone.
  lemma JoinedOther(m: LinkMap, m': LinkMap, kids: Families, odd: Ptr, q: Ptr, p: Ptr, x: Ptr)
    requires Forest(m, kids, odd) && q in kids && x in kids && x != q && p !in kids[x] && q != odd
    requires Joined(m, m', q, p) && (x == p ==> m'[p].cptr == m[p].cptr)
    ensures Family(m', x, kids[x], x == odd)
  {
    assert Family(m, q, kids[q], false) && Family(m, x, kids[x], x == odd);
    forall c | c in kids[x] ensures c in m && c in m' && m'[c] == m[c].(cptr := m'[c].cptr) {
      IsChild(m, kids, odd, x, c);
      if kids[q] != [] && c == kids[q][0] {
        OneParent(m, kids, odd, q, x, c);
      }
    }
    if x == m[q].cptr { assert m'[x] == m[x].(yptr := p); }
    FamilyKept(m, m', x, kids[x], x == odd);
  }

  // The first child of odd moves in front of the children of q.
  lemma ForestAdopted(m: LinkMap, m1: LinkMap, m': LinkMap, kids: Families, born: map<Ptr, int>, odd: Ptr, q: Ptr)
    requires Forest(m, kids, odd) && Younger(kids, born) && odd in kids && q in kids && q != odd && kids[odd] != []
    requires kids[odd][0] != q && kids[odd][0] in m
    requires var c := kids[odd][0];
      m1 == m[odd := m[odd].(cptr := m[c].optr)] && Joined(m1, m', q, c) && m'[c].cptr == m[c].cptr
    ensures Forest(m', kids[odd := kids[odd][1..]][q := [kids[odd][0]] + kids[q]], odd)
  {
    var c, rest := kids[odd][0], kids[odd][1..];
    var kids1 := kids[odd := rest];
    assert Family(m, odd, kids[odd], true) && Sibling(m, odd, kids[odd], 0, true);
    NotOwnChild(kids, born, odd);
    NotOwnChild(kids, born, q);
    RestFamily(m, m1, odd, kids[odd]);
    forall x | x in kids1 ensures Family(m1, x, kids1[x], x == odd) {
      if x != odd {
        forall y | y in kids[x] ensures y in m && y in m1 && m1[y] == m[y].(cptr := m1[y].cptr) {
          IsChild(m, kids, odd, x, y);
        }
        FamilyKept(m, m1, x, kids[x], false);
      }
    }
    assert Forest(m1, kids1, odd);
    var kids' := kids1[q := [c] + kids1[q]];
    forall x | x in kids' ensures Family(m', x, kids'[x], x == odd) {
      if x != odd && c in kids[x] { OneParent(m, kids, odd, odd, x, c); }
      if x == q {
        JoinedFamily(m1, m', q, kids1[q], c);
      } else {
        JoinedOther(m1, m', kids1, odd, q, c, x);
      }
    }
  }

  lemma RestFamily(m: LinkMap, m1: LinkMap, q: Ptr, k: seq<Ptr>)
    requires Family(m, q, k, true) && k != [] && k[0] in m && q !in k
    requires m1 == m[q := m[q].(cptr := m[k[0]].optr)]
    ensures Family(m1, q, k[1..], true)
  {
    var r := k[1..];
    assert Sibling(m, q, k, 0, true);
    forall i | 0 <= i < |r| ensures Sibling(m1, q, r, i, true) {
      assert Sibling(m, q, k, i + 1, true) && r[i] == k[i + 1] && k[i + 1] in k;
    }
  }

  // remove_links for the child p at position j: what it writes.
  ghost predicate Parted(m: LinkMap, m': LinkMap, q: Ptr, k: seq<Ptr>, j: int)
    requires 0 <= j < |k|
  {
    var p := k[j];
    && q in m && p in m && m'.Keys == m.Keys - {p}
    && (j + 1 < |k| ==> k[j + 1] in m && k[j + 1] in m' && m'[k[j + 1]] == m[k[j + 1]].(yptr := m[p].yptr))
    && (j > 0 ==> k[j - 1] in m && k[j - 1] in m' && m'[k[j - 1]] == m[k[j - 1]].(optr := m[p].optr))
    && (j == 0 ==> q in m' && m'[q] == m[q].(cptr := m[p].optr))
    && (forall x :: x in m && x != p && !Touched(q, k, j, x) ==> x in m' && m'[x] == m[x])
  }

  // The structs remove_links writes for child j, apart from the child's own.
  ghost predicate Touched(q: Ptr, k: seq<Ptr>, j: int, x: Ptr)
    requires 0 <= j < |k|
  {
    (j + 1 < |k| && x == k[j + 1]) || (if j > 0 then x == k[j - 1] else x == q)
  }

  lemma PartedFamily(m: LinkMap, m': LinkMap, q: Ptr, k: seq<Ptr>, j: int)
    requires 0 <= j < |k| && Family(m, q, k, false) && Parted(m, m', q, k, j) && q !in k
    ensures Family(m', q, k[..j] + k[j + 1..], false)
  {
    var s := k[..j] + k[j + 1..];
    forall i | 0 <= i < |s| ensures Sibling(m', q, s, i, false) {
      var n := if i < j then i else i + 1;
      assert s[i] == k[n] && Sibling(m, q, k, n, false) && Sibling(m, q, k, j, false);
      PartedMember(m, m', q, k, j, n);
      assert i > 0 ==> s[i - 1] == k[if i - 1 < j then i - 1 else i];
      assert i + 1 < |s| ==> s[i + 1] == k[if i + 1 < j then i + 1 else i + 2];
    }
    assert Sibling(m, q, k, j, false) && (j > 0 ==> Sibling(m, q, k, 0, false));
    if j > 0 {
      PartedParent(m, m', q, k, j);
    }
    WithoutAt(k, j);
  }

  // The parent keeps its first child when a later one leaves.
  lemma PartedParent(m: LinkMap, m': LinkMap, q: Ptr, k: seq<Ptr>, j: int)
    requires 0 < j < |k| && q !in k && Parted(m, m', q, k, j)
    ensures q in m' && m'[q] == m[q]
  {
    assert k[j] in k && k[j - 1] in k && (j + 1 < |k| ==> k[j + 1] in k);
  }

  // What the leaving of child j does to the links of child n.
  lemma PartedMember(m: LinkMap, m': LinkMap, q: Ptr, k: seq<Ptr>, j: int, n: int)
    requires 0 <= j < |k| && 0 <= n < |k| && n != j && NoRepeats(k) && k[n] in m && q !in k && Parted(m, m', q, k, j)
    ensures k[n] in m'
    ensures m'[k[n]] ==
      if n == j + 1 then m[k[n]].(yptr := m[k[j]].yptr) else if n == j - 1 then m[k[n]].(optr := m[k[j]].optr)
        else m[k[n]]
  {
    assert k[n] in k;
    Differ(k, n, j);
    if j + 1 < |k| && n != j + 1 { Differ(k, n, j + 1); }
    if j > 0 && n != j - 1 { Differ(k, n, j - 1); }
  }

  // The reaping of a child that has no children itself.
  lemma ForestParted(m: LinkMap, m': LinkMap, kids: Families, born: map<Ptr, int>, q: Ptr, j: int)
    requires Forest(m, kids, Null) && Younger(kids, born) && q in kids && 0 <= j < |kids[q]|
    requires Parted(m, m', q, kids[q], j) && kids[q][j] in kids && kids[kids[q][j]] == []
    ensures var p := kids[q][j]; Forest(m', kids[q := Removed(kids[q], p)] - {p}, Null)
  {
    var k, p := kids[q], kids[q][j];
    var kids' := kids[q := Removed(k, p)] - {p};
    NotOwnChild(kids, born, q);
    PartedFamily(m, m', q, k, j);
    WithoutAt(k, j);
    assert p in k;
    forall x | x in kids' && x != q ensures Family(m', x, kids'[x], false) {
      assert Family(m, x, kids[x], false);
      forall c | c in kids[x] ensures c in m && c in m' && m'[c] == m[c].(cptr := m'[c].cptr) {
        IsChild(m, kids, Null, x, c);
        PartedOther(m, m', kids, q, j, x, c);
      }
      PartedCptr(m, m', kids, q, j, x);
      FamilyKept(m, m', x, kids[x], false);
    }
  }

  lemma PartedOther(m: LinkMap, m': LinkMap, kids: Families, q: Ptr, j: int, x: Ptr, c: Ptr)
    requires Forest(m, kids, Null) && q in kids && 0 <= j < |kids[q]| && Parted(m, m', q, kids[q], j)
    requires x in kids && x != q && c in kids[x] && c in m
    ensures c in m' && m'[c] == m[c].(cptr := m'[c].cptr)
  {
    var k := kids[q];
    if c in k { OneParent(m, kids, Null, q, x, c); }
    assert k[j] in k && (j > 0 ==> k[j - 1] in k) && (j + 1 < |k| ==> k[j + 1] in k);
  }

  lemma PartedCptr(m: LinkMap, m': LinkMap, kids: Families, q: Ptr, j: int, x: Ptr)
    requires Forest(m, kids, Null) && q in kids && 0 <= j < |kids[q]| && Parted(m, m', q, kids[q], j)
    requires x in kids && x != q && x != kids[q][j]
    ensures x in m && x in m' && m'[x].cptr == m[x].cptr
  {
    assert Family(m, x, kids[x], false);
  }

  // ---- states and the run queue ----

  type Procs = map<Ptr, Proc>

  // A process is on the run queue, once, exactly when it is runnable, not running and not idle.
  ghost predicate Queued(procs: Procs, rq: seq<Ptr>, current: Ptr, idle: Ptr) {
    && NoRepeats(rq)
    && (forall p :: p in rq ==> p in procs)
    && (forall p :: p in procs ==> (p in rq <==> procs[p].state == Runnable && p != current && p != idle))
  }

  // Whether a wait for pid (0: for any child) would take child c.
  predicate Awaits(pid: int, c: Proc) { pid == 0 || c.pid == pid }

  // Some child in k is one that a wait for pid would take.
  ghost predicate HasAwaited(procs: Procs, k: seq<Ptr>, pid: int) {
    exists c :: c in k && c in procs && Awaits(pid, procs[c])
  }

  // No child in k is a zombie that a wait for pid would take.
  ghost predicate NoneToReap(procs: Procs, k: seq<Ptr>, pid: int) {
    forall c :: c in k && c in procs ==> !(Awaits(pid, procs[c]) && procs[c].state == Zombie)
  }

  // Whoever sleeps has a child it waits for.
  ghost predicate AllHaveAwaited(procs: Procs, kids: Families, awaits: map<Ptr, int>) {
    forall p :: p in kids && p in procs && p in awaits && procs[p].state == Sleeping ==>
      HasAwaited(procs, kids[p], awaits[p])
  }

  // Sleepers keep a child they wait for if nobody falls asleep and no sleeper loses a child.
  lemma StillAwaited(s: Procs, s': Procs, k: Families, k': Families, awaits: map<Ptr, int>)
    requires AllHaveAwaited(s, k, awaits)
    requires forall p :: p in k' && p in s' && s'[p].state == Sleeping ==> p in k && p in s && s[p].state == Sleeping
    requires forall p, c :: p in k' && p in s' && s'[p].state == Sleeping && p in k && c in k[p] && c in s ==>
               c in k'[p] && c in s' && s'[c].pid == s[c].pid
    ensures AllHaveAwaited(s', k', awaits)
  {
    forall p | p in k' && p in s' && p in awaits && s'[p].state == Sleeping ensures HasAwaited(s', k'[p], awaits[p]) {
      assert HasAwaited(s, k[p], awaits[p]);
      var c :| c in k[p] && c in s && Awaits(awaits[p], s[c]);
      assert c in k'[p] && Awaits(awaits[p], s'[c]);
    }
  }

  // Nobody sleeps while a child it waits for is a zombie, or without a child to wait for.
  ghost predicate NoMissedChild(procs: Procs, kids: Families, awaits: map<Ptr, int>) {
    NoneMissed(procs, kids, awaits) && AllHaveAwaited(procs, kids, awaits)
  }

  ghost predicate NoneMissed(procs: Procs, kids: Families, awaits: map<Ptr, int>) {
    && (forall p :: p in procs && procs[p].state == Sleeping ==> p in awaits)
    && (forall p, c :: p in kids && p in procs && procs[p].state == Sleeping && c in kids[p] && c in procs ==>
          !(Awaits(awaits[p], procs[c]) && procs[c].state == Zombie))
  }

  // A zombie other than the dying process has no children, the processes of the kernel never
  // become zombies, and only do_wait puts a process to sleep.
  ghost predicate StatesOk(procs: Procs, kids: Families, idle: Ptr, init: Ptr, dying: Ptr) {
    && (forall p :: p in procs && procs[p].state == Zombie && p != dying ==> p in kids && kids[p] == [])
    && idle in procs && procs[idle].state == Runnable && idle != init
    && init in procs && procs[init].state != Zombie
    && (forall p :: p in procs ==> procs[p].state != Uninit && (procs[p].state == Sleeping <==> procs[p].waiting))
  }

  // proc_list holds all processes but the idle one, with different pids.
  ghost predicate Listed(procs: Procs, list: seq<Ptr>, idle: Ptr) {
    && NoRepeats(list) && (forall p :: p in list <==> p in procs && p != idle)
    && (forall p :: p in list ==> 1 <= procs[p].pid < MAX_PID)
    && (forall p, q :: p in list && q in list && procs[p].pid == procs[q].pid ==> p == q)
  }

  // Every listed process is among the children of its parent.
  ghost predicate Adopted(m: LinkMap, kids: Families, list: seq<Ptr>) {
    forall p :: p in list ==> p in m && m[p].parent in kids && p in kids[m[p].parent]
  }

  // wakeup_proc on a process that is not runnable
  function Woken(p: Proc): Proc { p.(state := Runnable, waiting := false) }

  lemma WokenIs(p: Proc)
    ensures Woken(p) == Proc(Runnable, false, p.exiting, p.pid)
  {
  }

  lemma WokenQueued(procs: Procs, rq: seq<Ptr>, current: Ptr, idle: Ptr, p: Ptr)
    requires Queued(procs, rq, current, idle) && p in procs && procs[p].state != Runnable && p != idle
    ensures Queued(procs[p := Woken(procs[p])], if p != current then rq + [p] else rq, current, idle)
  {
    if p != current { AppendedFacts(rq, p); }
  }

  // The run queue after schedule has put back the process it was called by.
  ghost function Requeued(procs: Procs, rq: seq<Ptr>, current: Ptr, idle: Ptr): seq<Ptr> {
    if current in procs && procs[current].state == Runnable && current != idle then rq + [current] else rq
  }

  // One process has left the queue to run, or the queue was empty and the idle process runs.
  ghost predicate Picked(queue: seq<Ptr>, choice: nat, rq: seq<Ptr>, next: Ptr, idle: Ptr) {
    if queue == [] then rq == [] && next == idle
    else next == queue[choice % |queue|] && rq == Removed(queue, next)
  }

  // schedule(): the running process goes to the queue if it can, and some queued process runs next.
  lemma Rescheduled(procs: Procs, rq: seq<Ptr>, current: Ptr, idle: Ptr, rq': seq<Ptr>, next: Ptr)
    requires Queued(procs, rq, current, idle) && current in procs && idle in procs && procs[idle].state == Runnable
    requires rq' == (if procs[current].state == Runnable && current != idle then rq + [current] else rq)
    requires if rq' == [] then next == idle else next in rq'
    ensures Queued(procs, Removed(rq', next), next, idle) && next in procs && procs[next].state == Runnable
  {
    if rq' != rq { AppendedFacts(rq, current); }
    RemovedFacts(rq', next);
  }

  lemma InProcs(procs: Procs, rq: seq<Ptr>, current: Ptr, idle: Ptr, next: Ptr)
    requires Queued(procs, rq, current, idle) && current in procs &&
      (next in rq || next == current || next in rq + [current])
    ensures next in procs
  {
  }

  // The order of birth: the idle process first, then init, then all others.
  ghost predicate Ages(procs: Procs, born: map<Ptr, int>, stamps: int, idle: Ptr, init: Ptr) {
    && (forall p :: p in procs ==> p in born && born[p] < stamps)
    && idle in born && born[idle] == 0 && init in born && born[init] == 1 && stamps > 1
    && (forall p :: p in procs && p != idle && p != init ==> born[p] > 1)
  }

  // ---- the steps of do_exit ----

  function Dead(p: Proc): Proc { p.(state := Zombie) }

  // The exiting process p turns into a zombie and its parent q, if it waits, wakes up.
  function AfterDeath(procs: Procs, p: Ptr, q: Ptr): Procs
    requires p in procs && q in procs && p != q
  {
    var procs1 := procs[p := Dead(procs[p])];
    if procs1[q].waiting then procs1[q := Woken(procs1[q])] else procs1
  }

  lemma DiedStates(procs: Procs, kids: Families, idle: Ptr, init: Ptr, p: Ptr, q: Ptr)
    requires StatesOk(procs, kids, idle, init, Null) && p in procs && q in procs && p != q
    requires p != idle && p != init && procs[p].state == Runnable && kids.Keys == procs.Keys
    requires q in kids && kids[q] != [] && Null !in procs
    ensures StatesOk(AfterDeath(procs, p, q), kids, idle, init, p)
    ensures procs[q].waiting ==> procs[q].state == Sleeping && q != idle
    ensures procs[q].state != Zombie
  {
    var procs2 := AfterDeath(procs, p, q);
    forall x | x in procs2 && procs2[x].state == Zombie && x != p ensures x in kids && kids[x] == [] {
      assert procs[x].state == Zombie;
    }
  }

  // Nobody else waits for p.
  lemma DiedMissed(procs: Procs, m: LinkMap, kids: Families, awaits: map<Ptr, int>, idle: Ptr, init: Ptr, p: Ptr,
                   q: Ptr)
    requires StatesOk(procs, kids, idle, init, Null) && NoMissedChild(procs, kids, awaits) && Forest(m, kids, Null)
    requires p in m && q == m[p].parent && p in procs && q in procs && p != q && procs[p].state == Runnable
    ensures NoMissedChild(AfterDeath(procs, p, q), kids, awaits)
  {
    OnlyParent(m, kids, p);
    hide Forest;
    DiedNoneMissed(procs, kids, awaits, idle, init, p, q);
    hide NoneMissed;
    StillAwaited(procs, AfterDeath(procs, p, q), kids, kids, awaits);
    hide AllHaveAwaited;
  }

  lemma DiedNoneMissed(procs: Procs, kids: Families, awaits: map<Ptr, int>, idle: Ptr, init: Ptr, p: Ptr, q: Ptr)
    requires StatesOk(procs, kids, idle, init, Null) && NoneMissed(procs, kids, awaits)
    requires p in procs && q in procs && p != q && procs[p].state == Runnable
    requires forall x :: x in kids && p in kids[x] ==> x == q
    ensures NoneMissed(AfterDeath(procs, p, q), kids, awaits)
  {
    var procs2 := AfterDeath(procs, p, q);
    forall x, c | x in kids && x in procs2 && procs2[x].state == Sleeping && c in kids[x] && c in procs2
      ensures !(Awaits(awaits[x], procs2[c]) && procs2[c].state == Zombie)
    {
      assert x != q && procs[x].state == Sleeping;
    }
  }

  lemma OnlyParent(m: LinkMap, kids: Families, p: Ptr)
    requires Forest(m, kids, Null) && p in m
    ensures forall x :: x in kids && p in kids[x] ==> x == m[p].parent
  {
    forall x | x in kids && p in kids[x] ensures x == m[p].parent {
      IsChild(m, kids, Null, x, p);
    }
  }

  // The first child of the exiting process goes to init, which wakes up for a zombie.
  lemma AdoptedStates(s: Procs, s': Procs, k: Families, k': Families, awaits: map<Ptr, int>, idle: Ptr, init: Ptr,
                      p: Ptr)
    requires StatesOk(s, k, idle, init, p) && NoMissedChild(s, k, awaits) && s.Keys == k.Keys
    requires p in k && k[p] != [] && p != init && k[p][0] in s && p in s && s[p].state == Zombie && init in s &&
      init in k
    requires k' == k[p := k[p][1..]][init := [k[p][0]] + k[init]]
    requires s' == WokenBy(s, init, k[p][0])
    ensures StatesOk(s', k', idle, init, p) && NoMissedChild(s', k', awaits)
    ensures s'.Keys == s.Keys && s'[p].state == Zombie
  {
    hide NoneMissed, AllHaveAwaited;
    AdoptedOk(s, s', k, k', idle, init, p);
    AdoptedNoneMissed(s, s', k, k', awaits, idle, init, p);
    AdoptedAwaited(s, s', k, k', awaits, idle, init, p);
    hide StatesOk;
  }

  lemma AdoptedOk(s: Procs, s': Procs, k: Families, k': Families, idle: Ptr, init: Ptr, p: Ptr)
    requires StatesOk(s, k, idle, init, p) && s.Keys == k.Keys
    requires p in k && k[p] != [] && p != init && k[p][0] in s && p in s && init in s && init in k
    requires k' == k[p := k[p][1..]][init := [k[p][0]] + k[init]] && s' == WokenBy(s, init, k[p][0])
    ensures StatesOk(s', k', idle, init, p)
  {
  }

  lemma AdoptedNoneMissed(s: Procs, s': Procs, k: Families, k': Families, awaits: map<Ptr, int>, idle: Ptr, init: Ptr,
                          p: Ptr)
    requires StatesOk(s, k, idle, init, p) && NoneMissed(s, k, awaits) && s.Keys == k.Keys
    requires p in k && k[p] != [] && p != init && k[p][0] in s && p in s && s[p].state == Zombie && init in s &&
      init in k
    requires k' == k[p := k[p][1..]][init := [k[p][0]] + k[init]] && s' == WokenBy(s, init, k[p][0])
    ensures NoneMissed(s', k', awaits)
  {
    var c := k[p][0];
    forall x, d | x in k' && x in s' && s'[x].state == Sleeping && d in k'[x] && d in s'
      ensures !(Awaits(awaits[x], s'[d]) && s'[d].state == Zombie)
    {
      assert x != p;
      if x == init && d !in k[init] { assert d == c; }
    }
  }

  lemma AdoptedAwaited(s: Procs, s': Procs, k: Families, k': Families, awaits: map<Ptr, int>, idle: Ptr, init: Ptr,
                       p: Ptr)
    requires AllHaveAwaited(s, k, awaits) && s.Keys == k.Keys
    requires p in k && k[p] != [] && p != init && k[p][0] in s && p in s && s[p].state == Zombie && init in s &&
      init in k
    requires k' == k[p := k[p][1..]][init := [k[p][0]] + k[init]] && s' == WokenBy(s, init, k[p][0])
    ensures AllHaveAwaited(s', k', awaits)
  {
    StillAwaited(s, s', k, k', awaits);
    hide AllHaveAwaited;
  }

  lemma NoNull(m: LinkMap, k: Families, p: Ptr)
    requires Forest(m, k, p)
    ensures Null !in m && m.Keys == k.Keys
  {
  }

  lemma FirstChild(m: LinkMap, kids: Families, p: Ptr)
    requires Forest(m, kids, p) && p in kids && kids[p] != []
    ensures p in m && m[p].cptr == kids[p][0] && kids[p][0] in m && kids[p][0] != Null && m[kids[p][0]].parent == p
  {
    assert Family(m, p, kids[p], true) && Sibling(m, p, kids[p], 0, true);
  }

  // The first child of init, when some child of p is about to join them.
  lemma InitChild(m: LinkMap, kids: Families, p: Ptr, init: Ptr)
    requires Forest(m, kids, p) && p in kids && init in kids && p != init && kids[p] != []
    ensures init in m && m[init].cptr != kids[p][0]
    ensures m[init].cptr != Null ==> m[init].cptr in m && m[init].cptr in kids[init]
  {
    assert Family(m, init, kids[init], false);
    if kids[init] != [] {
      assert Sibling(m, init, kids[init], 0, false);
      assert kids[p][0] in kids[p];
      if m[init].cptr == kids[p][0] { OneParent(m, kids, p, p, init, kids[p][0]); }
    } else {
      FirstChild(m, kids, p);
    }
  }

  // Only c has a new parent, q.
  ghost predicate Reparented(m: LinkMap, m': LinkMap, c: Ptr, q: Ptr) {
    && m'.Keys == m.Keys && c in m' && m'[c].parent == q
    && forall x :: x in m && x != c ==> m'[x].parent == m[x].parent
  }

  lemma JoinedParents(m: LinkMap, m1: LinkMap, m': LinkMap, p: Ptr, q: Ptr, c: Ptr)
    requires p in m && c in m && m1 == m[p := m[p].(cptr := m[c].optr)] && Joined(m1, m', q, c)
    requires (m1[q].cptr != Null ==> m1[q].cptr in m1) && Null !in m
    ensures Reparented(m, m', c, q)
  {
  }

  // The first child of p handed over to init: the lists of children stay complete and ordered by age.
  lemma HandedOver(m: LinkMap, m': LinkMap, kids: Families, list: seq<Ptr>, born: map<Ptr, int>, p: Ptr, init: Ptr)
    requires Adopted(m, kids, list) && Younger(kids, born) && p in kids && init in kids && p != init && kids[p] != []
    requires Reparented(m, m', kids[p][0], init) && Precedes(born, init, p)
    ensures var kids' := kids[p := kids[p][1..]][init := [kids[p][0]] + kids[init]];
      Adopted(m', kids', list) && Younger(kids', born)
  {
    var c, rest := kids[p][0], kids[p][1..];
    var kids' := kids[p := rest][init := [c] + kids[init]];
    assert kids[p] == [c] + rest && c in kids[p] && Precedes(born, p, c);
    forall x | x in list ensures x in m' && m'[x].parent in kids' && x in kids'[m'[x].parent] {
      assert x in m && m[x].parent in kids && x in kids[m[x].parent];
    }
    forall q, d | q in kids' && d in kids'[q] ensures Precedes(born, q, d) {
      assert q in kids && (d == c || d in kids[q]);
    }
  }

  // What holds between two rounds of the loop of do_exit, when p is exiting.
  ghost predicate Dying(s: Procs, m: LinkMap, k: Families, awaits: map<Ptr, int>, list: seq<Ptr>, born: map<Ptr, int>,
                        stamps: int, idle: Ptr, init: Ptr, p: Ptr)
  {
    && Forest(m, k, p) && Younger(k, born) && Ages(s, born, stamps, idle, init) && Adopted(m, k, list)
    && StatesOk(s, k, idle, init, p) && NoMissedChild(s, k, awaits) && s.Keys == m.Keys
    && p in s && s[p].state == Zombie && p != idle && p != init
    && init in m && m[init].parent == idle
  }

  lemma DyingFacts(s: Procs, m: LinkMap, k: Families, awaits: map<Ptr, int>, list: seq<Ptr>, born: map<Ptr, int>,
                   stamps: int, idle: Ptr, init: Ptr, p: Ptr)
    requires Dying(s, m, k, awaits, list, born, stamps, idle, init, p) && p in k && k[p] != []
    ensures Forest(m, k, p) && Younger(k, born) && init in k && p != init && k[p][0] != init
    ensures k[p][0] in s && init in s && init != idle && (s[init].waiting ==> s[init].state == Sleeping) && p != Null
  {
    FirstChild(m, k, p);
    assert k[p][0] in k[p];
    assert Precedes(born, p, k[p][0]);
  }

  lemma MakeDying(s: Procs, m: LinkMap, k: Families, awaits: map<Ptr, int>, list: seq<Ptr>, born: map<Ptr, int>,
                  stamps: int, idle: Ptr, init: Ptr, p: Ptr)
    requires Forest(m, k, p) && Younger(k, born) && Ages(s, born, stamps, idle, init) && Adopted(m, k, list)
    requires StatesOk(s, k, idle, init, p) && NoMissedChild(s, k, awaits) && s.Keys == m.Keys
    requires p in s && s[p].state == Zombie && p != idle && p != init
    requires init in m && m[init].parent == idle
    ensures Dying(s, m, k, awaits, list, born, stamps, idle, init, p)
  {
  }

  lemma AgesKept(s: Procs, s': Procs, born: map<Ptr, int>, stamps: int, idle: Ptr, init: Ptr)
    requires Ages(s, born, stamps, idle, init) && s'.Keys == s.Keys
    ensures Ages(s', born, stamps, idle, init)
  {
  }

  // One round of the loop, on all parts of the state.
  lemma RoundDone(s: Procs, s': Procs, m: LinkMap, m': LinkMap, k: Families, k': Families, awaits: map<Ptr, int>,
                  list: seq<Ptr>, born: map<Ptr, int>, stamps: int, idle: Ptr, init: Ptr, p: Ptr)
    requires Dying(s, m, k, awaits, list, born, stamps, idle, init, p) && p in k && init in k && k[p] != []
    requires Reparented(m, m', k[p][0], init) && k' == k[p := k[p][1..]][init := [k[p][0]] + k[init]] &&
      Forest(m', k', p)
    requires k[p][0] in s && init in s
    requires s' == WokenBy(s, init, k[p][0])
    ensures Dying(s', m', k', awaits, list, born, stamps, idle, init, p)
  {
    assert s.Keys == k.Keys && Precedes(born, init, p) && m'.Keys == m.Keys;
    assert init in m' && m'[init].parent == idle by { DyingFacts(s, m, k, awaits, list, born, stamps, idle, init, p); }
    assert Dying(s, m, k, awaits, list, born, stamps, idle, init, p);
    hide *;
    AdoptedStates(s, s', k, k', awaits, idle, init, p);
    HandedOver(m, m', k, list, born, p, init);
    AgesKept(s, s', born, stamps, idle, init);
    MakeDying(s', m', k', awaits, list, born, stamps, idle, init, p);
  }

  // All of k moved, one by one, in front of acc.
  function RevOnto(k: seq<Ptr>, acc: seq<Ptr>): seq<Ptr> {
    if k == [] then acc else RevOnto(k[1..], [k[0]] + acc)
  }

  ghost predicate SamePids(s: Procs, s': Procs) {
    s'.Keys == s.Keys && forall p :: p in s ==> s'[p].pid == s[p].pid
  }

  // The first steps of do_exit, on all parts of the state.
  lemma DeathDone(s: Procs, s': Procs, m: LinkMap, k: Families, awaits: map<Ptr, int>, list: seq<Ptr>,
                  born: map<Ptr, int>, stamps: int, idle: Ptr, init: Ptr, p: Ptr)
    requires Forest(m, k, Null) && Younger(k, born) && Ages(s, born, stamps, idle, init) && Adopted(m, k, list)
    requires StatesOk(s, k, idle, init, Null) && NoMissedChild(s, k, awaits) && s.Keys == m.Keys && Null !in s
    requires p in s && s[p].state == Runnable && p != idle && p != init && p in list
    requires init in m && m[init].parent == idle && m[p].parent in s && m[p].parent != p &&
      s' == AfterDeath(s, p, m[p].parent)
    ensures Dying(s', m, k, awaits, list, born, stamps, idle, init, p) && SamePids(s, s')
    ensures s[m[p].parent].waiting ==> s[m[p].parent].state == Sleeping && m[p].parent != idle
    ensures s[m[p].parent].state != Zombie
  {
    var q := m[p].parent;
    assert p in k[q] && k.Keys == m.Keys;
    AfterDeathFacts(s, p, q);
    hide *;
    Loosened(m, k, p);
    DiedStates(s, k, idle, init, p, q);
    DiedMissed(s, m, k, awaits, idle, init, p, q);
    AgesKept(s, s', born, stamps, idle, init);
    MakeDying(s', m, k, awaits, list, born, stamps, idle, init, p);
  }

  lemma AfterDeathFacts(s: Procs, p: Ptr, q: Ptr)
    requires p in s && q in s && p != q
    ensures AfterDeath(s, p, q).Keys == s.Keys && AfterDeath(s, p, q)[p].state == Zombie &&
      SamePids(s, AfterDeath(s, p, q))
  {
  }

  // The writes that lead to it.
  lemma DeathWrites(s: Procs, s': Procs, p: Ptr, q: Ptr)
    requires p in s && q in s && p != q && (s[q].waiting ==> s[q].state == Sleeping)
    requires var s1 := s[p := s[p].(state := Zombie)];
      s' == if !s1[q].waiting then s1 else if s1[q].state != Runnable then s1[q := Woken(s1[q])] else s1
    ensures s' == AfterDeath(s, p, q)
  {
  }

  lemma Loosened(m: LinkMap, k: Families, p: Ptr)
    requires Forest(m, k, Null)
    ensures Forest(m, k, p)
  {
    forall q | q in k ensures Family(m, q, k[q], q == p) {
      assert Family(m, q, k[q], false);
      var c, loose := k[q], q == p;
      forall i | 0 <= i < |c| ensures Sibling(m, q, c, i, loose) {
        assert Sibling(m, q, c, i, false);
      }
    }
  }

  // A loose family without children is in order.
  lemma Tightened(m: LinkMap, k: Families, p: Ptr)
    requires Forest(m, k, p) && p in k && k[p] == []
    ensures Forest(m, k, Null)
  {
    forall q | q in k ensures Family(m, q, k[q], false) {
      assert Family(m, q, k[q], q == p);
    }
  }

  lemma DeadQueued(procs: Procs, rq: seq<Ptr>, current: Ptr, idle: Ptr)
    requires Queued(procs, rq, current, idle) && current in procs
    ensures Queued(procs[current := Dead(procs[current])], rq, current, idle)
  {
  }

  // After the last round of the loop.
  lemma ExitDone(s: Procs, m: LinkMap, k: Families, awaits: map<Ptr, int>, list: seq<Ptr>, born: map<Ptr, int>,
                 stamps: int, idle: Ptr, init: Ptr, p: Ptr)
    requires Dying(s, m, k, awaits, list, born, stamps, idle, init, p) && p in k && k[p] == []
    ensures Forest(m, k, Null) && Younger(k, born) && Ages(s, born, stamps, idle, init) && Adopted(m, k, list)
    ensures StatesOk(s, k, idle, init, Null) && NoMissedChild(s, k, awaits) && s.Keys == m.Keys && Null !in s
    ensures init in m && m[init].parent == idle
  {
    Tightened(m, k, p);
  }

  lemma HasChild(s: Procs, m: LinkMap, k: Families, awaits: map<Ptr, int>, list: seq<Ptr>, born: map<Ptr, int>,
                 stamps: int, idle: Ptr, init: Ptr, p: Ptr)
    requires Dying(s, m, k, awaits, list, born, stamps, idle, init, p)
    ensures p in k && init in k && p in m && (m[p].cptr != Null <==> k[p] != [])
  {
    assert Family(m, p, k[p], true);
    if k[p] != [] { assert Sibling(m, p, k[p], 0, true); }
  }

  lemma SamePidsListed(s: Procs, s': Procs, list: seq<Ptr>, idle: Ptr)
    requires Listed(s, list, idle) && SamePids(s, s')
    ensures Listed(s', list, idle)
  {
  }

  // The families while the children of p move to init.
  ghost predicate ChildrenMoved(k0: Families, k: Families, p: Ptr, init: Ptr) {
    && p in k0 && init in k0 && p in k && init in k && k == k0[p := k[p]][init := k[init]]
    && RevOnto(k[p], k[init]) == RevOnto(k0[p], k0[init])
  }

  lemma ChildMoved(k0: Families, k: Families, k': Families, p: Ptr, init: Ptr)
    requires ChildrenMoved(k0, k, p, init) && k[p] != [] && p != init
    requires k' == k[p := k[p][1..]][init := [k[p][0]] + k[init]]
    ensures ChildrenMoved(k0, k', p, init) && |k'[p]| == |k[p]| - 1
  {
  }

  lemma AllMoved(k0: Families, k: Families, p: Ptr, init: Ptr)
    requires ChildrenMoved(k0, k, p, init) && k[p] == [] && p != init
    ensures k == k0[p := []][init := RevOnto(k0[p], k0[init])]
  {
  }

  lemma SamePidsTrans(s: Procs, s1: Procs, s': Procs)
    requires SamePids(s, s1) && SamePids(s1, s')
    ensures SamePids(s, s')
  {
  }

  // init wakes up, if it waits, for a child that is a zombie.
  function WokenBy(s: Procs, init: Ptr, c: Ptr): Procs
    requires c in s && init in s
  {
    if s[c].state == Zombie && s[init].waiting then s[init := Woken(s[init])] else s
  }

  // The states after init has been given the children k one by one.
  function AfterAdoption(s: Procs, init: Ptr, k: seq<Ptr>): Procs
    decreases |k|
  {
    if k == [] || k[0] !in s || init !in s then s else AfterAdoption(WokenBy(s, init, k[0]), init, k[1..])
  }

  ghost predicate ZombieIn(s: Procs, k: seq<Ptr>) { exists c :: c in k && c in s && s[c].state == Zombie }

  // init is woken up exactly if it waits and one of the children is a zombie.
  lemma {:induction false} AdoptionWakes(s: Procs, init: Ptr, k: seq<Ptr>)
    requires init in s && init !in k && forall c :: c in k ==> c in s
    ensures AfterAdoption(s, init, k) == if s[init].waiting && ZombieIn(s, k) then s[init := Woken(s[init])] else s
    decreases |k|
  {
    if k != [] {
      var c, rest := k[0], k[1..];
      assert k == [c] + rest && c in k;
      var s1 := WokenBy(s, init, c);
      AdoptionWakes(s1, init, rest);
      assert ZombieIn(s, k) <==> s[c].state == Zombie || ZombieIn(s, rest);
      assert ZombieIn(s, rest) <==> ZombieIn(s1, rest);
    }
  }

  // What the exit of p, child of q with the children k, makes of the states: p is a zombie, and it has
  // woken up its parent, if that waited, and init, if that waited and inherits a zombie.
  ghost predicate Exited(s: Procs, s': Procs, p: Ptr, q: Ptr, init: Ptr, k: seq<Ptr>) {
    && s'.Keys == s.Keys && p in s && s'[p] == Proc(Zombie, s[p].waiting, s[p].exiting, s[p].pid)
    && forall x :: x in s && x != p ==>
         s'[x] == if s[x].waiting && (x == q || (x == init && ZombieIn(s, k)))
                  then Proc(Runnable, false, s[x].exiting, s[x].pid) else s[x]
  }

  lemma ExitWakes(s: Procs, kids: Families, idle: Ptr, init: Ptr, p: Ptr, q: Ptr)
    requires StatesOk(s, kids, idle, init, Null) && p in s && q in s && p != q && p != init && p in kids
    requires p !in kids[p] && init !in kids[p] && forall c :: c in kids[p] ==> c in s
    ensures Exited(s, AfterAdoption(AfterDeath(s, p, q), init, kids[p]), p, q, init, kids[p])
  {
    var s1, k := AfterDeath(s, p, q), kids[p];
    AdoptionWakes(s1, init, k);
    assert ZombieIn(s1, k) <==> ZombieIn(s, k);
  }

  lemma AdoptionStep(s: Procs, s': Procs, init: Ptr, k: seq<Ptr>)
    requires k != [] && k[0] in s && init in s && s' == WokenBy(s, init, k[0])
    ensures AfterAdoption(s', init, k[1..]) == AfterAdoption(s, init, k) && SamePids(s, s')
  {
  }

  // ---- the steps of do_fork and do_wait ----

  function NewProc(pid: int): Proc { Proc(Uninit, false, false, pid) }

  lemma WokenNew(pid: int)
    ensures Woken(NewProc(pid)) == Proc(Runnable, false, false, pid)
  {
  }

  lemma ForkedLinks(s: Procs, m: LinkMap, m': LinkMap, k: Families, list: seq<Ptr>, born: map<Ptr, int>, idle: Ptr,
                    q: Ptr, p: Ptr)
    requires Forest(m, k, Null) && Younger(k, born) && Adopted(m, k, list) && Listed(s, list, idle)
    requires q in k && p !in k && p !in s && p != Null && Joined(m, m', q, p) && p in m' && m'[p].cptr == Null
    ensures Forest(m', k[p := []][q := [p] + k[q]], Null) && Adopted(m', k[p := []][q := [p] + k[q]], [p] + list)
    ensures forall x :: x in m ==> x in m' && m'[x].parent == m[x].parent
  {
    hide *;
    NotListed(s, list, idle, p);
    ForestJoined(m, m', k, born, q, p);
    ForkedAdopted(m, m', k, list, q, p);
  }

  lemma ForkedKeys(s: Procs, m: LinkMap, m': LinkMap, k: Families, list: seq<Ptr>, idle: Ptr, q: Ptr, p: Ptr)
    requires s.Keys == m.Keys && s.Keys == k.Keys && q in s && p !in s && p != Null && Joined(m, m', q, p) &&
      Forest(m, k, Null)
    requires Listed(s, list, idle)
    ensures m'.Keys == s.Keys + {p} && q in k && q in m && p !in m && p !in k && Null !in s && idle !in list
  {
    hide Family;
  }

  lemma ForkedAges(s: Procs, m: LinkMap, k: Families, born: map<Ptr, int>, stamps: int, idle: Ptr, init: Ptr, q: Ptr,
                   p: Ptr, pid: int)
    requires Forest(m, k, Null) && Younger(k, born) && Ages(s, born, stamps, idle, init) && s.Keys == k.Keys
    requires q in s && p !in s && p != Null
    ensures var k', s', born' := k[p := []][q := [p] + k[q]], s[p := Woken(NewProc(pid))], born[p := stamps];
      Younger(k', born') && (init in s && idle in s ==> Ages(s', born', stamps + 1, idle, init))
  {
    var k', born' := k[p := []][q := [p] + k[q]], born[p := stamps];
    forall x, c | x in k' && c in k'[x] ensures Precedes(born', x, c) {
      if x != p && c in k[x] {
        IsChild(m, k, Null, x, c);
        assert Precedes(born, x, c);
      }
    }
  }

  lemma ForkedStates(s: Procs, m: LinkMap, k: Families, awaits: map<Ptr, int>, idle: Ptr, init: Ptr, q: Ptr, p: Ptr,
                     pid: int)
    requires Forest(m, k, Null) && StatesOk(s, k, idle, init, Null) && NoMissedChild(s, k, awaits) && s.Keys == k.Keys
    requires q in s && p !in s && p != Null && s[q].state == Runnable
    ensures var k', s' := k[p := []][q := [p] + k[q]], s[p := Woken(NewProc(pid))];
      StatesOk(s', k', idle, init, Null) && NoMissedChild(s', k', awaits)
  {
    hide NoneMissed, AllHaveAwaited, Forest;
    ForkedOk(s, k, idle, init, q, p, pid);
    ForkedNoneMissed(s, m, k, awaits, q, p, pid);
    ForkedAwaited(s, k, awaits, q, p, pid);
    hide StatesOk;
  }

  lemma ForkedOk(s: Procs, k: Families, idle: Ptr, init: Ptr, q: Ptr, p: Ptr, pid: int)
    requires StatesOk(s, k, idle, init, Null) && s.Keys == k.Keys && q in s && p !in s && p != Null &&
      s[q].state == Runnable
    ensures StatesOk(s[p := Woken(NewProc(pid))], k[p := []][q := [p] + k[q]], idle, init, Null)
  {
    var s' := s[p := Woken(NewProc(pid))];
    assert forall x :: x in s' && s'[x].state == Zombie ==> x in s && s[x].state == Zombie && x != q;
  }

  lemma ForkedNoneMissed(s: Procs, m: LinkMap, k: Families, awaits: map<Ptr, int>, q: Ptr, p: Ptr, pid: int)
    requires Forest(m, k, Null) && NoneMissed(s, k, awaits) && s.Keys == k.Keys
    requires q in s && p !in s && s[q].state == Runnable
    ensures NoneMissed(s[p := Woken(NewProc(pid))], k[p := []][q := [p] + k[q]], awaits)
  {
    hide Forest;
  }

  lemma ForkedAwaited(s: Procs, k: Families, awaits: map<Ptr, int>, q: Ptr, p: Ptr, pid: int)
    requires AllHaveAwaited(s, k, awaits) && s.Keys == k.Keys && q in s && p !in s && s[q].state == Runnable
    ensures AllHaveAwaited(s[p := Woken(NewProc(pid))], k[p := []][q := [p] + k[q]], awaits)
  {
    StillAwaited(s, s[p := Woken(NewProc(pid))], k, k[p := []][q := [p] + k[q]], awaits);
    hide AllHaveAwaited;
  }

  lemma ForkedAdopted(m: LinkMap, m': LinkMap, k: Families, list: seq<Ptr>, q: Ptr, p: Ptr)
    requires Forest(m, k, Null) && Adopted(m, k, list) && q in k && p !in k && p != Null && Joined(m, m', q, p) &&
      p !in list
    ensures Adopted(m', k[p := []][q := [p] + k[q]], [p] + list)
    ensures forall x :: x in m ==> x in m' && m'[x].parent == m[x].parent
  {
    assert Family(m, q, k[q], false);
    if k[q] != [] { assert Sibling(m, q, k[q], 0, false); }
    forall x | x in m ensures x in m' && m'[x].parent == m[x].parent {
    }
    var k' := k[p := []][q := [p] + k[q]];
    forall x | x in [p] + list ensures x in m' && m'[x].parent in k' && x in k'[m'[x].parent] {
      if x != p { assert x in list && x in k[m[x].parent] && m[x].parent in k; }
    }
  }

  ghost predicate UnusedPid(s: Procs, list: seq<Ptr>, pid: int) { forall p :: p in list && p in s ==> s[p].pid != pid }

  lemma ForkedListed(s: Procs, list: seq<Ptr>, idle: Ptr, p: Ptr, pid: int)
    requires Listed(s, list, idle) && p !in s && p != idle && 1 <= pid < MAX_PID && UnusedPid(s, list, pid)
    ensures Listed(s[p := Woken(NewProc(pid))], [p] + list, idle)
  {
    assert ([p] + list)[1..] == list;
  }

  lemma CptrFacts(m: LinkMap, k: Families, born: map<Ptr, int>, q: Ptr, p: Ptr)
    requires Forest(m, k, Null) && Younger(k, born) && q in k && p !in k
    ensures q in m && m[q].cptr != q && (m[q].cptr != Null ==> m[q].cptr in m && m[q].cptr != p) && p !in m &&
      Null !in m
  {
    assert Family(m, q, k[q], false);
    if k[q] != [] {
      assert Sibling(m, q, k[q], 0, false) && k[q][0] in k[q];
      NotOwnChild(k, born, q);
    }
  }

  lemma NotListed(s: Procs, list: seq<Ptr>, idle: Ptr, p: Ptr)
    requires Listed(s, list, idle) && p !in s
    ensures p !in list
  {
  }

  lemma JoinedNew(m: LinkMap, m1: LinkMap, m': LinkMap, q: Ptr, p: Ptr)
    requires p !in m && q in m && m1 == m[p := Links(q, Null, Null, Null)] && Joined(m1, m', q, p) && p != q
    requires p in m1 && p in m' && m'[p].cptr == m1[p].cptr
    ensures Joined(m, m', q, p) && p in m' && m'[p].cptr == Null
  {
  }

  lemma NewQueued(s: Procs, rq: seq<Ptr>, current: Ptr, idle: Ptr, p: Ptr, pid: int)
    requires Queued(s, rq, current, idle) && p !in s && p != idle
    ensures Queued(s[p := NewProc(pid)], rq, current, idle)
  {
  }

  // The state of the kernel between two steps.
  ghost predicate Sound(s: Procs, m: LinkMap, k: Families, awaits: map<Ptr, int>, list: seq<Ptr>, born: map<Ptr, int>,
                        stamps: int, idle: Ptr, init: Ptr, rq: seq<Ptr>, current: Ptr, count: int)
  {
    && Forest(m, k, Null) && Younger(k, born) && Ages(s, born, stamps, idle, init)
    && Adopted(m, k, list) && Listed(s, list, idle) && s.Keys == m.Keys
    && StatesOk(s, k, idle, init, Null) && NoMissedChild(s, k, awaits) && Null !in s
    && Queued(s, rq, current, idle) && current in s && s[current].state == Runnable
    && count == |list| + 1 && init in m && m[init].parent == idle
  }

  lemma ForkedSound(s: Procs, s': Procs, m: LinkMap, m': LinkMap, k: Families, k': Families, awaits: map<Ptr, int>,
                    list: seq<Ptr>, list': seq<Ptr>, born: map<Ptr, int>, stamps: int, idle: Ptr, init: Ptr,
                    rq: seq<Ptr>, rq': seq<Ptr>, q: Ptr, p: Ptr, pid: int, count: int)
    requires Sound(s, m, k, awaits, list, born, stamps, idle, init, rq, q, count)
    requires p !in s && p != Null && p != idle && Joined(m, m', q, p) && p in m' && m'[p].cptr == Null &&
      1 <= pid < MAX_PID
    requires q in k && k' == k[p := []][q := [p] + k[q]] && s' == s[p := Woken(NewProc(pid))] && list' == [p] + list
    requires UnusedPid(s, list, pid) && Queued(s', rq', q, idle)
    ensures Sound(s', m', k', awaits, list', born[p := stamps], stamps + 1, idle, init, rq', q, count + 1)
  {
    hide *;
    SoundParts(s, m, k, awaits, list, born, stamps, idle, init, rq, q, count);
    ForkedKeys(s, m, m', k, list, idle, q, p);
    ForkedLinks(s, m, m', k, list, born, idle, q, p);
    ForkedListed(s, list, idle, p, pid);
    ForkedAges(s, m, k, born, stamps, idle, init, q, p, pid);
    ForkedStates(s, m, k, awaits, idle, init, q, p, pid);
    MakeSound(s', m', k', awaits, list', born[p := stamps], stamps + 1, idle, init, rq', q, count + 1);
  }

  // The links after remove_links(c).
  function Detached(m: LinkMap, c: Ptr): LinkMap
    requires c in m && m[c].parent in m
    requires (m[c].optr != Null ==> m[c].optr in m && m[c].optr != c) &&
      (m[c].yptr != Null ==> m[c].yptr in m && m[c].yptr != c)
  {
    var older, younger := m[c].optr, m[c].yptr;
    var m1 := if older != Null then m[older := m[older].(yptr := younger)] else m;
    var m2 := if younger != Null then m1[younger := m1[younger].(optr := older)]
              else m1[m1[c].parent := m1[m1[c].parent].(cptr := older)];
    m2 - {c}
  }

  lemma PartedBy(m: LinkMap, m': LinkMap, q: Ptr, k: seq<Ptr>, j: nat)
    requires j < |k| && k[j] in m && q in m && m[k[j]].parent == q && k[j] != q && k[j] != Null && q !in k
    requires m[k[j]].optr == (if j + 1 < |k| then k[j + 1] else Null) &&
      m[k[j]].yptr == (if j > 0 then k[j - 1] else Null)
    requires j + 1 < |k| ==> k[j + 1] in m && k[j + 1] != Null && k[j + 1] != k[j]
    requires j > 0 ==> k[j - 1] in m && k[j - 1] != Null && k[j - 1] != k[j]
    requires 0 < j && j + 1 < |k| ==> k[j - 1] != k[j + 1]
    requires m' == Detached(m, k[j])
    ensures Parted(m, m', q, k, j)
  {
    assert j + 1 < |k| ==> k[j + 1] in k;
    assert j > 0 ==> k[j - 1] in k;
  }

  // The maps and the list without c, a child of q.
  ghost predicate Dropped(s: Procs, s': Procs, k: Families, k': Families, list: seq<Ptr>, list': seq<Ptr>, q: Ptr,
                          c: Ptr) {
    q in k && s' == s - {c} && k' == k[q := Removed(k[q], c)] - {c} && list' == Removed(list, c)
  }

  lemma SoleParent(m: LinkMap, k: Families, q: Ptr, c: Ptr)
    requires Forest(m, k, Null) && q in k && c in k[q]
    ensures forall x :: x in k && c in k[x] ==> x == q
  {
    forall x | x in k && c in k[x] ensures x == q {
      OneParent(m, k, Null, x, q, c);
    }
  }

  // The reaping of the zombie c, child number j of q.
  lemma ReapedSound(s: Procs, s': Procs, m: LinkMap, m': LinkMap, k: Families, k': Families, awaits: map<Ptr, int>,
                    list: seq<Ptr>, list': seq<Ptr>, born: map<Ptr, int>, stamps: int, idle: Ptr, init: Ptr,
                    rq: seq<Ptr>, q: Ptr, j: int, c: Ptr, count: int)
    requires Sound(s, m, k, awaits, list, born, stamps, idle, init, rq, q, count)
    requires q in k && 0 <= j < |k[q]| && c == k[q][j] && c in s && s[c].state == Zombie && Parted(m, m', q, k[q], j)
    requires Dropped(s, s', k, k', list, list', q, c)
    ensures Sound(s', m', k', awaits, list', born, stamps, idle, init, rq, q, count - 1)
  {
    hide *;
    SoundParts(s, m, k, awaits, list, born, stamps, idle, init, rq, q, count);
    ReapedLinks(s, s', m, m', k, k', awaits, list, list', born, stamps, idle, init, rq, q, j, c, count);
    SoleParent(m, k, q, k[q][j]);
    ReapedStates(s, s', k, k', awaits, list, list', idle, init, rq, q, c);
    ReapedLists(s, s', m, m', k, k', list, list', born, stamps, idle, init, q, c);
    MakeSound(s', m', k', awaits, list', born, stamps, idle, init, rq, q, count - 1);
  }

  lemma ReapedLinks(s: Procs, s': Procs, m: LinkMap, m': LinkMap, k: Families, k': Families, awaits: map<Ptr, int>,
                    list: seq<Ptr>, list': seq<Ptr>, born: map<Ptr, int>, stamps: int, idle: Ptr, init: Ptr,
                    rq: seq<Ptr>, q: Ptr, j: int, c: Ptr, count: int)
    requires Sound(s, m, k, awaits, list, born, stamps, idle, init, rq, q, count)
    requires q in k && 0 <= j < |k[q]| && c == k[q][j] && c in s && s[c].state == Zombie && Parted(m, m', q, k[q], j)
    requires Dropped(s, s', k, k', list, list', q, c)
    ensures c != Null && c in k && k[c] == [] && c != idle && c != init && c != q && Forest(m', k', Null)
    ensures NoRepeats(list') && (forall x :: x in list' <==> x in list && x != c) && |list'| == |list| - 1
    ensures forall x :: x in Removed(k[q], c) <==> x in k[q] && x != c
    ensures forall x :: x in m && x != c ==> x in m' && m'[x].parent == m[x].parent
    ensures s'.Keys == m'.Keys && q in s' && s'[q] == s[q] && init in m' && m'[init].parent == idle && Null !in s'
  {
    hide *;
    ReapFacts(s, m, k, awaits, list, born, stamps, idle, init, rq, q, j, count);
    SoundParts(s, m, k, awaits, list, born, stamps, idle, init, rq, q, count);
    DroppedLists(s, s', k, k', list, list', q, c);
    DroppedLinks(s, s', m, m', k, k', list, list', born, q, j, c, idle, init);
  }

  lemma DroppedLists(s: Procs, s': Procs, k: Families, k': Families, list: seq<Ptr>, list': seq<Ptr>, q: Ptr, c: Ptr)
    requires Dropped(s, s', k, k', list, list', q, c) && NoRepeats(list) && c in list && NoRepeats(k[q])
    ensures NoRepeats(list') && (forall x :: x in list' <==> x in list && x != c) && |list'| == |list| - 1
    ensures forall x :: x in Removed(k[q], c) <==> x in k[q] && x != c
  {
    RemovedFacts(list, c);
    RemovedFacts(k[q], c);
  }

  lemma DroppedLinks(s: Procs, s': Procs, m: LinkMap, m': LinkMap, k: Families, k': Families, list: seq<Ptr>,
                     list': seq<Ptr>, born: map<Ptr, int>, q: Ptr, j: int, c: Ptr, idle: Ptr, init: Ptr)
    requires Dropped(s, s', k, k', list, list', q, c) && Forest(m, k, Null) && Younger(k, born) && s.Keys == m.Keys &&
      Null !in s
    requires 0 <= j < |k[q]| && c == k[q][j] && c in k && k[c] == [] && c != q && c != init &&
      Parted(m, m', q, k[q], j) && q in s
    requires init in m && m[init].parent == idle
    ensures Forest(m', k', Null) && s'.Keys == m'.Keys && q in s' && s'[q] == s[q] && Null !in s'
    ensures init in m' && m'[init].parent == idle && forall x :: x in m && x != c ==>
      x in m' && m'[x].parent == m[x].parent
  {
    ForestParted(m, m', k, born, q, j);
    PartedKeys(s, s', m, m', q, k[q], j, idle, init);
    PartedParents(m, m', q, k[q], j);
    hide Forest, Parted, Younger, Removed;
  }

  lemma ReapFacts(s: Procs, m: LinkMap, k: Families, awaits: map<Ptr, int>, list: seq<Ptr>, born: map<Ptr, int>,
                  stamps: int, idle: Ptr, init: Ptr, rq: seq<Ptr>, q: Ptr, j: int, count: int)
    requires Sound(s, m, k, awaits, list, born, stamps, idle, init, rq, q, count)
    requires q in k && 0 <= j < |k[q]| && k[q][j] in s && s[k[q][j]].state == Zombie
    ensures var c := k[q][j];
      c != Null && c in k && k[c] == [] && c in list && c != init && c != idle && c != q && c in k[q] && NoRepeats(k[q])
  {
    assert Family(m, q, k[q], false);
  }

  lemma PartedKeys(s: Procs, s': Procs, m: LinkMap, m': LinkMap, q: Ptr, k: seq<Ptr>, j: int, idle: Ptr, init: Ptr)
    requires 0 <= j < |k| && Parted(m, m', q, k, j) && s.Keys == m.Keys && s' == s - {k[j]} && k[j] != q && q in s
    requires init in m && m[init].parent == idle && k[j] != init
    ensures s'.Keys == m'.Keys && q in s' && s'[q] == s[q] && init in m' && m'[init].parent == idle
  {
    PartedParents(m, m', q, k, j);
  }

  // The same before the next process is picked.
  ghost predicate Settled(s: Procs, m: LinkMap, k: Families, awaits: map<Ptr, int>, list: seq<Ptr>,
                          born: map<Ptr, int>, stamps: int, idle: Ptr, init: Ptr, rq: seq<Ptr>, q: Ptr, count: int)
  {
    && Forest(m, k, Null) && Younger(k, born) && Ages(s, born, stamps, idle, init)
    && Adopted(m, k, list) && Listed(s, list, idle) && s.Keys == m.Keys && Null !in s
    && StatesOk(s, k, idle, init, Null) && NoMissedChild(s, k, awaits) && Queued(s, rq, q, idle) && q in s
    && count == |list| + 1 && init in m && m[init].parent == idle
  }

  lemma SettledParts(s: Procs, m: LinkMap, k: Families, awaits: map<Ptr, int>, list: seq<Ptr>, born: map<Ptr, int>,
                     stamps: int, idle: Ptr, init: Ptr, rq: seq<Ptr>, q: Ptr, count: int)
    requires Settled(s, m, k, awaits, list, born, stamps, idle, init, rq, q, count)
    ensures Forest(m, k, Null) && Younger(k, born) && Ages(s, born, stamps, idle, init)
    ensures Adopted(m, k, list) && Listed(s, list, idle) && s.Keys == m.Keys && Null !in s
    ensures StatesOk(s, k, idle, init, Null) && NoMissedChild(s, k, awaits) && Queued(s, rq, q, idle) && q in s
    ensures count == |list| + 1 && init in m && m[init].parent == idle
  {
  }

  lemma MakeSettled(s: Procs, m: LinkMap, k: Families, awaits: map<Ptr, int>, list: seq<Ptr>, born: map<Ptr, int>,
                    stamps: int, idle: Ptr, init: Ptr, rq: seq<Ptr>, q: Ptr, count: int)
    requires Forest(m, k, Null) && Younger(k, born) && Ages(s, born, stamps, idle, init)
    requires Adopted(m, k, list) && Listed(s, list, idle) && s.Keys == m.Keys && Null !in s
    requires StatesOk(s, k, idle, init, Null) && NoMissedChild(s, k, awaits) && Queued(s, rq, q, idle) && q in s
    requires count == |list| + 1 && init in m && m[init].parent == idle
    ensures Settled(s, m, k, awaits, list, born, stamps, idle, init, rq, q, count)
  {
  }

  lemma SoundParts(s: Procs, m: LinkMap, k: Families, awaits: map<Ptr, int>, list: seq<Ptr>, born: map<Ptr, int>,
                   stamps: int, idle: Ptr, init: Ptr, rq: seq<Ptr>, q: Ptr, count: int)
    requires Sound(s, m, k, awaits, list, born, stamps, idle, init, rq, q, count)
    ensures Forest(m, k, Null) && Younger(k, born) && Ages(s, born, stamps, idle, init)
    ensures Adopted(m, k, list) && Listed(s, list, idle) && NoRepeats(list) && s.Keys == m.Keys && s.Keys == k.Keys
    ensures StatesOk(s, k, idle, init, Null) && NoMissedChild(s, k, awaits) && Null !in s
    ensures Queued(s, rq, q, idle) && q in s && s[q].state == Runnable
    ensures count == |list| + 1 && init in m && m[init].parent == idle
  {
  }

  lemma MakeSound(s: Procs, m: LinkMap, k: Families, awaits: map<Ptr, int>, list: seq<Ptr>, born: map<Ptr, int>,
                  stamps: int, idle: Ptr, init: Ptr, rq: seq<Ptr>, q: Ptr, count: int)
    requires Forest(m, k, Null) && Younger(k, born) && Ages(s, born, stamps, idle, init)
    requires Adopted(m, k, list) && Listed(s, list, idle) && s.Keys == m.Keys
    requires StatesOk(s, k, idle, init, Null) && NoMissedChild(s, k, awaits) && Null !in s
    requires Queued(s, rq, q, idle) && q in s && s[q].state == Runnable
    requires count == |list| + 1 && init in m && m[init].parent == idle
    ensures Sound(s, m, k, awaits, list, born, stamps, idle, init, rq, q, count)
  {
  }

  lemma PartedParents(m: LinkMap, m': LinkMap, q: Ptr, k: seq<Ptr>, j: int)
    requires 0 <= j < |k| && Parted(m, m', q, k, j)
    ensures forall x :: x in m && x != k[j] ==> x in m' && m'[x].parent == m[x].parent
  {
    forall x | x in m && x != k[j] ensures x in m' && m'[x].parent == m[x].parent {
      if Touched(q, k, j, x) { }
    }
  }

  lemma ReapedStates(s: Procs, s': Procs, k: Families, k': Families, awaits: map<Ptr, int>, list: seq<Ptr>,
                     list': seq<Ptr>, idle: Ptr, init: Ptr, rq: seq<Ptr>, q: Ptr, c: Ptr)
    requires StatesOk(s, k, idle, init, Null) && NoMissedChild(s, k, awaits) && Queued(s, rq, q, idle) &&
      s.Keys == k.Keys
    requires Null !in s && c in s && s[c].state == Zombie && c != q && q in k &&
      Dropped(s, s', k, k', list, list', q, c)
    requires q in s && s[q].state == Runnable && forall x :: x in Removed(k[q], c) ==> x in k[q]
    requires forall x :: x in k && c in k[x] ==> x == q
    ensures StatesOk(s', k', idle, init, Null) && NoMissedChild(s', k', awaits) && Queued(s', rq, q, idle)
  {
    hide NoneMissed, AllHaveAwaited;
    ReapedOk(s, s', k, k', list, list', idle, init, rq, q, c);
    ReapedNoneMissed(s, s', k, k', awaits, list, list', q, c);
    ReapedAwaited(s, s', k, k', awaits, list, list', q, c);
    hide StatesOk, Queued, Dropped;
  }

  lemma ReapedOk(s: Procs, s': Procs, k: Families, k': Families, list: seq<Ptr>, list': seq<Ptr>, idle: Ptr,
                 init: Ptr, rq: seq<Ptr>, q: Ptr, c: Ptr)
    requires StatesOk(s, k, idle, init, Null) && Queued(s, rq, q, idle) && s.Keys == k.Keys && Null !in s
    requires c in s && s[c].state == Zombie && c != q && q in k && Dropped(s, s', k, k', list, list', q, c)
    requires q in s && s[q].state == Runnable
    ensures StatesOk(s', k', idle, init, Null) && Queued(s', rq, q, idle)
  {
    forall x | x in s' && s'[x].state == Zombie ensures x in k' && k'[x] == [] {
      assert s[x].state == Zombie;
    }
  }

  lemma ReapedNoneMissed(s: Procs, s': Procs, k: Families, k': Families, awaits: map<Ptr, int>, list: seq<Ptr>,
                         list': seq<Ptr>, q: Ptr, c: Ptr)
    requires NoneMissed(s, k, awaits) && q in k && Dropped(s, s', k, k', list, list', q, c)
    requires forall x :: x in Removed(k[q], c) ==> x in k[q]
    ensures NoneMissed(s', k', awaits)
  {
    hide Removed;
  }

  lemma ReapedAwaited(s: Procs, s': Procs, k: Families, k': Families, awaits: map<Ptr, int>, list: seq<Ptr>,
                      list': seq<Ptr>, q: Ptr, c: Ptr)
    requires AllHaveAwaited(s, k, awaits) && q in k && Dropped(s, s', k, k', list, list', q, c)
    requires q in s && s[q].state == Runnable && forall x :: x in k && c in k[x] ==> x == q
    ensures AllHaveAwaited(s', k', awaits)
  {
    StillAwaited(s, s', k, k', awaits);
    hide AllHaveAwaited;
  }

  lemma ReapedLists(s: Procs, s': Procs, m: LinkMap, m': LinkMap, k: Families, k': Families, list: seq<Ptr>,
                    list': seq<Ptr>, born: map<Ptr, int>, stamps: int, idle: Ptr, init: Ptr, q: Ptr, c: Ptr)
    requires Younger(k, born) && Ages(s, born, stamps, idle, init) && Adopted(m, k, list) && Listed(s, list, idle)
    requires c in s && c != q && c != idle && q in k && c in k && k[c] == [] && Dropped(s, s', k, k', list, list', q, c)
    requires NoRepeats(list') && forall x :: x in list' <==> x in list && x != c
    requires forall x :: x in Removed(k[q], c) <==> x in k[q] && x != c
    requires forall x :: x in m && x != c ==> x in m' && m'[x].parent == m[x].parent
    ensures Younger(k', born) && Ages(s', born, stamps, idle, init) && Adopted(m', k', list') && Listed(s', list', idle)
  {
    forall x | x in list' ensures x in m' && m'[x].parent in k' && x in k'[m'[x].parent] {
      assert x in list && x in m && m[x].parent in k && x in k[m[x].parent];
    }
  }

  function Asleep(p: Proc): Proc { p.(state := Sleeping, waiting := true) }

  // A killed process; a waiting one has been woken up.
  function KilledProc(p: Proc): Proc {
    if p.waiting then Woken(p.(exiting := true)) else p.(exiting := true)
  }

  // What do_kill has done and returned: the process with that pid, if there is one, is marked and,
  // when its wait could be interrupted, woken up; a second kill changes nothing.
  ghost predicate KillDone(s: Procs, s': Procs, list: seq<Ptr>, pid: int, r: KillResult) {
    && s'.Keys == s.Keys && (r == NoSuchProcess ==> s' == s)
    && (r == NoSuchProcess <==> UnusedPid(s, list, pid))
    && (forall p :: p in list && p in s && s[p].pid == pid ==>
          if s[p].exiting then r == AlreadyKilled && s' == s
          else r == Killed && s' == s[p := Proc(if s[p].waiting then Runnable else s[p].state, false, true, s[p].pid)])
  }

  lemma OneKilled(s: Procs, s': Procs, list: seq<Ptr>, pid: int, p: Ptr, r: KillResult)
    requires p in list && p in s && s[p].pid == pid
    requires forall x :: x in list && x in s && s[x].pid == pid ==> x == p
    requires if s[p].exiting then r == AlreadyKilled && s' == s else r == Killed && s' == s[p := KilledProc(s[p])]
    ensures KillDone(s, s', list, pid, r)
  {
    KilledIs(s[p]);
  }

  lemma KilledIs(p: Proc)
    ensures KilledProc(p) == Proc(if p.waiting then Runnable else p.state, false, true, p.pid)
  {
  }

  lemma NoneKilled(s: Procs, list: seq<Ptr>, pid: int)
    requires UnusedPid(s, list, pid)
    ensures KillDone(s, s, list, pid, NoSuchProcess)
  {
  }

  lemma KilledSound(s: Procs, m: LinkMap, k: Families, awaits: map<Ptr, int>, list: seq<Ptr>, born: map<Ptr, int>,
                    stamps: int, idle: Ptr, init: Ptr, rq: seq<Ptr>, q: Ptr, count: int, p: Ptr)
    requires Sound(s, m, k, awaits, list, born, stamps, idle, init, rq, q, count) && p in list && p in s
    ensures var s' := s[p := KilledProc(s[p])];
      && Forest(m, k, Null) && Younger(k, born) && Ages(s', born, stamps, idle, init) && Adopted(m, k, list) &&
           Listed(s', list, idle)
      && s'.Keys == m.Keys && StatesOk(s', k, idle, init, Null) && NoMissedChild(s', k, awaits) && Null !in s'
      && s'[q].state == Runnable && count == |list| + 1 && init in m && m[init].parent == idle
    ensures Queued(s[p := s[p].(exiting := true)], rq, q, idle) && p != idle &&
      (s[p].waiting ==> s[p].state == Sleeping)
    ensures !s[p].waiting ==> Queued(s[p := KilledProc(s[p])], rq, q, idle)
  {
    var s' := s[p := KilledProc(s[p])];
    SoundParts(s, m, k, awaits, list, born, stamps, idle, init, rq, q, count);
    hide *;
    KilledRuns(s, list, idle, k, init, p, q);
    KilledStates(s, k, awaits, idle, init, rq, q, p);
    AgesKept(s, s', born, stamps, idle, init);
    SamePidsListed(s, s', list, idle);
  }

  lemma KilledRuns(s: Procs, list: seq<Ptr>, idle: Ptr, k: Families, init: Ptr, p: Ptr, q: Ptr)
    requires Listed(s, list, idle) && p in list && p in s && q in s && s[q].state == Runnable
    ensures var s' := s[p := KilledProc(s[p])];
      SamePids(s, s') && s'.Keys == s.Keys && s'[q].state == Runnable && p != idle
  {
  }

  lemma KilledStates(s: Procs, k: Families, awaits: map<Ptr, int>, idle: Ptr, init: Ptr, rq: seq<Ptr>, q: Ptr, p: Ptr)
    requires StatesOk(s, k, idle, init, Null) && NoMissedChild(s, k, awaits) && Queued(s, rq, q, idle) && p in s &&
      p != idle
    ensures var s' := s[p := KilledProc(s[p])]; StatesOk(s', k, idle, init, Null) && NoMissedChild(s', k, awaits)
    ensures Queued(s[p := s[p].(exiting := true)], rq, q, idle) && (s[p].waiting ==> s[p].state == Sleeping)
    ensures !s[p].waiting ==> Queued(s[p := KilledProc(s[p])], rq, q, idle)
  {
    hide NoneMissed, AllHaveAwaited;
    KilledNoneMissed(s, k, awaits, p);
    KilledAwaited(s, k, awaits, p);
    KilledOk(s, k, idle, init, p);
    KilledQueued(s, k, idle, init, rq, q, p);
    hide StatesOk, Queued;
  }

  lemma KilledOk(s: Procs, k: Families, idle: Ptr, init: Ptr, p: Ptr)
    requires StatesOk(s, k, idle, init, Null) && p in s && p != idle
    ensures StatesOk(s[p := KilledProc(s[p])], k, idle, init, Null) && (s[p].waiting ==> s[p].state == Sleeping)
  {
    var s' := s[p := KilledProc(s[p])];
    assert forall x :: x in s' && s'[x].state == Zombie ==> s[x].state == Zombie;
  }

  lemma KilledQueued(s: Procs, k: Families, idle: Ptr, init: Ptr, rq: seq<Ptr>, q: Ptr, p: Ptr)
    requires Queued(s, rq, q, idle) && p in s
    ensures Queued(s[p := s[p].(exiting := true)], rq, q, idle)
    ensures !s[p].waiting ==> Queued(s[p := KilledProc(s[p])], rq, q, idle)
  {
  }

  lemma KilledNoneMissed(s: Procs, k: Families, awaits: map<Ptr, int>, p: Ptr)
    requires NoneMissed(s, k, awaits) && p in s
    ensures NoneMissed(s[p := KilledProc(s[p])], k, awaits)
  {
    var s' := s[p := KilledProc(s[p])];
    assert forall x :: x in s' && s'[x].state == Sleeping ==> s[x].state == Sleeping;
  }

  lemma KilledAwaited(s: Procs, k: Families, awaits: map<Ptr, int>, p: Ptr)
    requires AllHaveAwaited(s, k, awaits) && p in s
    ensures AllHaveAwaited(s[p := KilledProc(s[p])], k, awaits)
  {
    StillAwaited(s, s[p := KilledProc(s[p])], k, k, awaits);
    hide AllHaveAwaited;
  }

  // The running process falls asleep when no child it waits for is a zombie.
  function AsleepAt(s: Procs, q: Ptr): Procs { if q in s then s[q := Asleep(s[q])] else s }

  lemma AsleepThere(s: Procs, q: Ptr)
    requires q in s
    ensures AsleepAt(s, q) == s[q := Asleep(s[q])] && q in AsleepAt(s, q) && AsleepAt(s, q)[q].state == Sleeping
  {
  }

  lemma AsleepSound(s: Procs, s': Procs, m: LinkMap, k: Families, awaits: map<Ptr, int>, list: seq<Ptr>,
                    born: map<Ptr, int>, stamps: int, idle: Ptr, init: Ptr, rq: seq<Ptr>, q: Ptr, count: int, pid: int)
    requires Sound(s, m, k, awaits, list, born, stamps, idle, init, rq, q, count) && q != idle && q in k && q in s
    requires s' == s[q := Asleep(s[q])]
    requires NoneToReap(s, k[q], pid)
    requires HasAwaited(s, k[q], pid)
    ensures StatesOk(s', k, idle, init, Null) && NoMissedChild(s', k, awaits[q := pid]) && Queued(s', rq, q, idle)
    ensures Ages(s', born, stamps, idle, init) && Listed(s', list, idle) && s'.Keys == s.Keys
  {
    hide *;
    SoundParts(s, m, k, awaits, list, born, stamps, idle, init, rq, q, count);
    AsleepPids(s, s', q);
    SamePidsListed(s, s', list, idle);
    AgesKept(s, s', born, stamps, idle, init);
    AsleepStates(s, s', k, awaits, idle, init, rq, q, pid);
  }

  lemma AsleepPids(s: Procs, s': Procs, q: Ptr)
    requires q in s && s' == s[q := Asleep(s[q])]
    ensures SamePids(s, s') && s'.Keys == s.Keys
  {
  }

  lemma NewlyAsleep(s: Procs, s': Procs, k: Families, awaits: map<Ptr, int>, q: Ptr, pid: int)
    requires AllHaveAwaited(s, k, awaits) && q in k && q in s && s' == s[q := Asleep(s[q])] && HasAwaited(s, k[q], pid)
    ensures AllHaveAwaited(s', k, awaits[q := pid])
  {
    forall p | p in k && p in s' && p in awaits[q := pid] && s'[p].state == Sleeping
      ensures HasAwaited(s', k[p], awaits[q := pid][p])
    {
      var a := awaits[q := pid][p];
      assert HasAwaited(s, k[p], a);
      var c :| c in k[p] && c in s && Awaits(a, s[c]);
      assert c in s' && Awaits(a, s'[c]);
    }
  }

  lemma AsleepStates(s: Procs, s': Procs, k: Families, awaits: map<Ptr, int>, idle: Ptr, init: Ptr, rq: seq<Ptr>,
                     q: Ptr, pid: int)
    requires StatesOk(s, k, idle, init, Null) && NoMissedChild(s, k, awaits) && Queued(s, rq, q, idle) && q != idle &&
      q in k && q in s
    requires s[q].state == Runnable && s' == s[q := Asleep(s[q])]
    requires NoneToReap(s, k[q], pid)
    requires HasAwaited(s, k[q], pid)
    ensures StatesOk(s', k, idle, init, Null) && NoMissedChild(s', k, awaits[q := pid]) && Queued(s', rq, q, idle)
  {
    hide NoneMissed, AllHaveAwaited, HasAwaited;
    NewlyAsleep(s, s', k, awaits, q, pid);
    AsleepNoneMissed(s, s', k, awaits, q, pid);
    AsleepOk(s, s', k, idle, init, rq, q);
    hide StatesOk, Queued;
  }

  lemma AsleepOk(s: Procs, s': Procs, k: Families, idle: Ptr, init: Ptr, rq: seq<Ptr>, q: Ptr)
    requires StatesOk(s, k, idle, init, Null) && Queued(s, rq, q, idle) && q != idle && q in s
    requires s[q].state == Runnable && s' == s[q := Asleep(s[q])]
    ensures StatesOk(s', k, idle, init, Null) && Queued(s', rq, q, idle)
  {
    assert forall x :: x in s' && s'[x].state == Zombie ==> s'[x] == s[x];
  }

  lemma AsleepNoneMissed(s: Procs, s': Procs, k: Families, awaits: map<Ptr, int>, q: Ptr, pid: int)
    requires NoneMissed(s, k, awaits) && q in k && q in s && s[q].state == Runnable && s' == s[q := Asleep(s[q])]
    requires NoneToReap(s, k[q], pid)
    ensures NoneMissed(s', k, awaits[q := pid])
  {
    forall x, c | x in k && x in s' && s'[x].state == Sleeping && c in k[x] && c in s'
      ensures !(Awaits(awaits[q := pid][x], s'[c]) && s'[c].state == Zombie)
    {
      assert s'[c].state == Zombie ==> s[c] == s'[c];
    }
  }

  // find_proc, as the search of the whole list
  function Lookup(procs: Procs, list: seq<Ptr>, pid: int): Option<Ptr> {
    if list == [] then None
    else if list[0] in procs && procs[list[0]].pid == pid then Some(list[0])
    else Lookup(procs, list[1..], pid)
  }

  lemma {:induction false} LookupFacts(procs: Procs, list: seq<Ptr>, pid: int)
    ensures var r := Lookup(procs, list, pid); r.Some? ==>
      r.value in list && r.value in procs && procs[r.value].pid == pid
    ensures Lookup(procs, list, pid).None? ==> UnusedPid(procs, list, pid)
  {
    if list != [] {
      assert list == [list[0]] + list[1..];
      LookupFacts(procs, list[1..], pid);
    }
  }

  datatype ForkResult = Forked(pid: int) | NoFreeProc | NoMemory
  datatype WaitResult = Reaped(child: Ptr) | Slept | NoChild
  datatype ResumeResult = Exits | Panics | Repeats
  datatype KillResult = Killed | AlreadyKilled | NoSuchProcess

  ghost predicate NoZombieBefore(s: Procs, k: seq<Ptr>, n: int) {
    forall j :: 0 <= j < n && j < |k| ==> k[j] in s && s[k[j]].state != Zombie
  }

  // c is the first zombie of k.
  ghost predicate FirstZombie(s: Procs, k: seq<Ptr>, c: Ptr) {
    exists n :: 0 <= n < |k| && k[n] == c && c in s && s[c].state == Zombie && NoZombieBefore(s, k, n)
  }

  lemma ZombieFound(s: Procs, k: seq<Ptr>, n: nat)
    requires n < |k| && k[n] in s && s[k[n]].state == Zombie && NoZombieBefore(s, k, n)
    ensures FirstZombie(s, k, k[n])
  {
  }

  lemma NoZombieNext(s: Procs, k: seq<Ptr>, n: nat)
    requires NoZombieBefore(s, k, n) && n < |k| && k[n] in s && s[k[n]].state != Zombie
    ensures NoZombieBefore(s, k, n + 1)
  {
  }

  lemma SomeKid(s: Procs, k: seq<Ptr>, n: nat)
    requires n <= |k|
    ensures n == 0 ==> NoZombieBefore(s, k, n)
    ensures n == |k| && NoZombieBefore(s, k, n) ==> NoneToReap(s, k, 0)
    ensures (forall c :: c in k ==> c in s) ==> (|k| > 0 <==> HasAwaited(s, k, 0))
  {
    if |k| > 0 { assert k[0] in k; }
  }

  datatype Step =
    | DoFork(p: Ptr, pid: int, gotMemory: bool)
    | DoExit(choice: nat)
    | DoWait(pid: int, choice: nat)
    | DoResume(choice: nat)
    | DoKill(pid: int)
    | DoYield(choice: nat)

  // The state after proc_init.
  lemma FirstState(s: Procs, m: LinkMap, k: Families, awaits: map<Ptr, int>, born: map<Ptr, int>, idle: Ptr, init: Ptr)
    requires idle != Null && init != Null && idle != init && awaits == map[]
    requires s == map[idle := Proc(Runnable, false, false, 0), init := Proc(Runnable, false, false, 1)]
    requires m == map[idle := Links(Null, init, Null, Null), init := Links(idle, Null, Null, Null)]
    requires k == map[idle := [init], init := []] && born == map[idle := 0, init := 1]
    ensures Forest(m, k, Null) && Younger(k, born) && Ages(s, born, 2, idle, init) && Adopted(m, k, [init])
    ensures Listed(s, [init], idle) && StatesOk(s, k, idle, init, Null) && NoMissedChild(s, k, awaits)
    ensures Queued(s, [init], idle, idle)
  {
    assert NoRepeats([init][1..]);
    FirstForest(m, k, idle, init);
    FirstQueued(s, k, idle, init);
    FirstWaiting(s, k, awaits, idle, init);
    hide Forest, Queued, NoMissedChild, StatesOk;
  }

  lemma FirstForest(m: LinkMap, k: Families, idle: Ptr, init: Ptr)
    requires idle != Null && init != Null && idle != init
    requires m == map[idle := Links(Null, init, Null, Null), init := Links(idle, Null, Null, Null)]
    requires k == map[idle := [init], init := []]
    ensures Forest(m, k, Null)
  {
    assert k[idle] == [init] && k[init] == [] && [init][1..] == [];
    assert NoRepeats([init][1..]);
    assert Sibling(m, idle, k[idle], 0, false);
    assert Family(m, idle, k[idle], false) && Family(m, init, k[init], false);
    hide Family;
  }

  lemma FirstQueued(s: Procs, k: Families, idle: Ptr, init: Ptr)
    requires idle != Null && init != Null && idle != init
    requires s == map[idle := Proc(Runnable, false, false, 0), init := Proc(Runnable, false, false, 1)]
    requires k == map[idle := [init], init := []]
    ensures Queued(s, [init], idle, idle) && StatesOk(s, k, idle, init, Null)
  {
    assert NoRepeats([init][1..]);
  }

  lemma FirstWaiting(s: Procs, k: Families, awaits: map<Ptr, int>, idle: Ptr, init: Ptr)
    requires idle != init && awaits == map[] && k == map[idle := [init], init := []]
    requires s == map[idle := Proc(Runnable, false, false, 0), init := Proc(Runnable, false, false, 1)]
    ensures NoMissedChild(s, k, awaits)
  {
  }

  lemma Awaited(s: Procs, k: Families, awaits: map<Ptr, int>, p: Ptr) returns (c: Ptr)
    requires NoMissedChild(s, k, awaits) && s.Keys == k.Keys && p in s && s[p].state == Sleeping
    ensures p in k && c in k[p] && c in s && p in awaits && Awaits(awaits[p], s[c]) && s[c].state != Zombie
  {
    assert HasAwaited(s, k[p], awaits[p]);
    c :| c in k[p] && c in s && Awaits(awaits[p], s[c]);
  }

  lemma ChildFacts(s: Procs, k: Families, rq: seq<Ptr>, born: map<Ptr, int>, stamps: int, idle: Ptr, init: Ptr,
                   current: Ptr, p: Ptr, c: Ptr)
    requires Younger(k, born) && Ages(s, born, stamps, idle, init) && StatesOk(s, k, idle, init, Null)
    requires Queued(s, rq, current, idle) && p in k && c in k[p] && c in s && p in s && s[c].state != Zombie
    ensures s[c].state == Runnable || s[c].state == Sleeping
    ensures Precedes(born, p, c) && c != idle && born[c] < stamps &&
      (s[c].state == Runnable ==> c in rq || c == current)
  {
  }

  // Some process other than the idle one can run.
  ghost predicate SomeoneRuns(s: Procs, idle: Ptr) { exists c :: c in s && s[c].state == Runnable && c != idle }

  lemma Runs(s: Procs, idle: Ptr, c: Ptr)
    requires c in s && s[c].state == Runnable && c != idle
    ensures SomeoneRuns(s, idle)
  {
  }

  // The count is right; the queue holds exactly the processes that can run and do not, each once; no
  // process has a zombie parent; no wait for any child overlooks a zombie, and none is in vain.
  ghost predicate Healthy(s: Procs, m: LinkMap, k: Families, awaits: map<Ptr, int>, list: seq<Ptr>, idle: Ptr,
                          rq: seq<Ptr>, current: Ptr, count: int)
  {
    && count == |list| + 1 && NoRepeats(rq)
    && (forall p :: p in s ==> (p in rq <==> s[p].state == Runnable && p != current && p != idle))
    && (forall p :: p in s && p != idle ==> p in m && m[p].parent in s && s[m[p].parent].state != Zombie)
    && (forall p, c :: p in s && s[p].state == Sleeping && p in awaits && awaits[p] == 0 && p in k && c in k[p] ==>
          c in s && s[c].state != Zombie)
    && (forall p :: p in s && s[p].state == Sleeping ==> SomeoneRuns(s, idle))
  }

  // ---- runs ----

  // What tells processes apart over time: a struct can be used again, a stamp of birth cannot.
  datatype Moment = Moment(procs: Procs, born: map<Ptr, int>, stamps: int, kids: Families, current: Ptr)

  // p is there before and after as the same process, with its pid; its mark and its death are for good.
  ghost predicate LivesOn(a: Moment, b: Moment, p: Ptr) {
    && p in a.procs && p in b.procs && p in a.born && p in b.born && b.born[p] == a.born[p]
    && b.procs[p].pid == a.procs[p].pid && (a.procs[p].exiting ==> b.procs[p].exiting)
    && (a.procs[p].state == Zombie ==> b.procs[p].state == Zombie)
  }

  // p is a zombie and a child of the running process.
  ghost predicate ToReap(a: Moment, p: Ptr) {
    p in a.procs && a.procs[p].state == Zombie && a.current in a.kids && p in a.kids[a.current]
  }

  ghost predicate NewBorn(a: Moment, b: Moment, p: Ptr) { p in b.born && b.born[p] >= a.stamps }

  // One step: everybody lives on but a zombie reaped by its parent, and nobody comes but by birth.
  ghost predicate Onward(a: Moment, b: Moment) {
    && a.stamps <= b.stamps
    && (forall p :: p in a.procs ==> LivesOn(a, b, p) || (p !in b.procs && ToReap(a, p)))
    && (forall p :: p in b.procs ==> LivesOn(a, b, p) || NewBorn(a, b, p))
  }

  ghost predicate Chain(trace: seq<Moment>) {
    forall i :: StepAt(trace, i)
  }

  ghost predicate StepAt(trace: seq<Moment>, i: int) { 0 <= i < |trace| - 1 ==> Onward(trace[i], trace[i + 1]) }

  // p has lived on until it was a zombie that its parent could reap.
  ghost predicate Buried(trace: seq<Moment>, p: Ptr) {
    exists i :: 0 <= i < |trace| && LivesOn(trace[0], trace[i], p) && ToReap(trace[i], p)
  }

  // Over a whole run: who was there lives on or has been buried, and who is there has lived on or was
  // born meanwhile. So a marked process stays marked until it is reaped.
  ghost predicate Lives(trace: seq<Moment>) {
    trace != [] &&
    var a, b := trace[0], trace[|trace| - 1];
    && (forall p :: p in a.procs ==> LivesOn(a, b, p) || Buried(trace, p))
    && (forall p :: p in b.procs ==> LivesOn(a, b, p) || NewBorn(a, b, p))
  }

  lemma {:induction false} ChainLives(trace: seq<Moment>)
    requires trace != [] && Chain(trace) && Steady(trace[0])
    ensures Lives(trace) && trace[0].stamps <= trace[|trace| - 1].stamps
  {
    var n := |trace| - 1;
    if n > 0 {
      var t := trace[..n];
      forall i ensures StepAt(t, i) { assert StepAt(trace, i); }
      ChainLives(t);
      assert StepAt(trace, n - 1) && t[|t| - 1] == trace[n - 1];
      LivesStep(t, trace[n]);
      assert trace == t + [trace[n]];
    } else {
      assert forall p :: p in trace[0].procs ==> LivesOn(trace[0], trace[0], p);
    }
  }

  lemma LivesStep(t: seq<Moment>, c: Moment)
    requires Lives(t) && Onward(t[|t| - 1], c) && t[0].stamps <= t[|t| - 1].stamps
    ensures Lives(t + [c])
  {
    var u, a, b := t + [c], t[0], t[|t| - 1];
    assert u[0] == a && u[|u| - 1] == c;
    forall p | p in a.procs ensures LivesOn(a, c, p) || Buried(u, p) {
      if Buried(t, p) {
        var i :| 0 <= i < |t| && LivesOn(t[0], t[i], p) && ToReap(t[i], p);
        assert u[i] == t[i];
      } else {
        assert u[|t| - 1] == b;
      }
    }
    forall p | p in c.procs ensures LivesOn(a, c, p) || NewBorn(a, c, p) {
      if LivesOn(b, c, p) { assert LivesOn(a, b, p) || NewBorn(a, b, p); }
    }
  }

  // Every process has its stamp, and waits only asleep.
  ghost predicate Steady(a: Moment) {
    forall p :: p in a.procs ==>
      p in a.born && a.born[p] < a.stamps && (a.procs[p].waiting ==> a.procs[p].state == Sleeping)
  }

  lemma OnwardSame(a: Moment, b: Moment)
    requires Steady(a) && b.procs == a.procs && b.born == a.born && b.stamps == a.stamps
    ensures Onward(a, b)
  {
  }

  lemma OnwardForked(a: Moment, b: Moment, p: Ptr, pid: int)
    requires Steady(a) && p !in a.procs && b.procs == a.procs[p := Proc(Runnable, false, false, pid)]
    requires b.born == a.born[p := a.stamps] && b.stamps == a.stamps + 1
    ensures Onward(a, b)
  {
  }

  lemma OnwardExited(a: Moment, b: Moment, p: Ptr, q: Ptr, init: Ptr, k: seq<Ptr>)
    requires Steady(a) && Exited(a.procs, b.procs, p, q, init, k) && b.born == a.born && b.stamps == a.stamps
    ensures Onward(a, b)
  {
  }

  lemma OnwardWaited(a: Moment, b: Moment, list: seq<Ptr>, list': seq<Ptr>, awaits: map<Ptr, int>,
                     awaits': map<Ptr, int>, pid: int, r: WaitResult)
    requires Steady(a) && a.current in a.procs && a.procs[a.current].state == Runnable
    requires Waited(a, b, list, list', awaits, awaits', pid, r)
    ensures Onward(a, b)
  {
    hide FirstZombie, HasAwaited, Awaits, Removed;
  }

  // What one pass of do_wait has done: it has reaped the zombie child r names, which for pid 0 is the
  // first one; or the process sleeps; or it has no such child.
  ghost predicate Waited(a: Moment, b: Moment, list: seq<Ptr>, list': seq<Ptr>, awaits: map<Ptr, int>,
                         awaits': map<Ptr, int>, pid: int, r: WaitResult)
  {
    && a.current in a.kids && a.current in a.procs && b.born == a.born && b.stamps == a.stamps
    && (r == NoChild <==> !HasAwaited(a.procs, a.kids[a.current], pid))
    && (r.Reaped? ==> ReapedBy(a, b, pid, r.child) && list' == Removed(list, r.child) && awaits' == awaits)
    && (r == Slept ==> SleptOn(a, b) && list' == list && awaits' == awaits[a.current := pid])
    && (r == NoChild ==> b == a && list' == list && awaits' == awaits)
  }

  ghost predicate ReapedBy(a: Moment, b: Moment, pid: int, c: Ptr) {
    && ToReap(a, c) && Awaits(pid, a.procs[c]) && (pid == 0 ==> FirstZombie(a.procs, a.kids[a.current], c))
    && b.procs == a.procs - {c} && b.kids == a.kids[a.current := Removed(a.kids[a.current], c)] - {c}
    && b.current == a.current
  }

  ghost predicate SleptOn(a: Moment, b: Moment) {
    && a.current in a.procs && b.kids == a.kids && b.current != a.current
    && var o := a.procs[a.current]; b.procs == a.procs[a.current := Proc(Sleeping, true, o.exiting, o.pid)]
  }

  lemma HasReaped(a: Moment, b: Moment, list: seq<Ptr>, list': seq<Ptr>, awaits: map<Ptr, int>, pid: int, c: Ptr)
    requires a.current in a.kids && a.current in a.procs && b.born == a.born && b.stamps == a.stamps
    requires HasAwaited(a.procs, a.kids[a.current], pid) && c in a.kids[a.current] && c in a.procs
    requires a.procs[c].state == Zombie && Awaits(pid, a.procs[c])
    requires pid == 0 ==> FirstZombie(a.procs, a.kids[a.current], c)
    requires b.procs == a.procs - {c} && b.kids == a.kids[a.current := Removed(a.kids[a.current], c)] - {c}
    requires b.current == a.current && list' == Removed(list, c)
    ensures Waited(a, b, list, list', awaits, awaits, pid, Reaped(c))
  {
  }

  lemma IsSlept(a: Moment, b: Moment)
    requires a.current in a.procs && b.kids == a.kids && b.current != a.current
    requires var o := a.procs[a.current]; b.procs == a.procs[a.current := Proc(Sleeping, true, o.exiting, o.pid)]
    ensures SleptOn(a, b)
  {
  }

  lemma HasSlept(a: Moment, b: Moment, list: seq<Ptr>, awaits: map<Ptr, int>, awaits': map<Ptr, int>, pid: int)
    requires a.current in a.kids && SleptOn(a, b) && b.born == a.born && b.stamps == a.stamps
    requires HasAwaited(a.procs, a.kids[a.current], pid) && awaits' == awaits[a.current := pid]
    ensures Waited(a, b, list, list, awaits, awaits', pid, Slept)
  {
  }

  lemma HasNoChild(a: Moment, list: seq<Ptr>, awaits: map<Ptr, int>, pid: int)
    requires a.current in a.kids && a.current in a.procs && !HasAwaited(a.procs, a.kids[a.current], pid)
    ensures Waited(a, a, list, list, awaits, awaits, pid, NoChild)
  {
  }

  lemma OnwardKilled(a: Moment, b: Moment, list: seq<Ptr>, pid: int, r: KillResult)
    requires Steady(a) && KillDone(a.procs, b.procs, list, pid, r) && b.born == a.born && b.stamps == a.stamps
    ensures Onward(a, b)
  {
    if !UnusedPid(a.procs, list, pid) {
      var p :| p in list && p in a.procs && a.procs[p].pid == pid;
      assert b.procs == a.procs || b.procs == a.procs[p := b.procs[p]];
    }
  }

  lemma IsMarked(s: Procs, s': Procs, list: seq<Ptr>, pid: int, r: KillResult, p: Ptr)
    requires KillDone(s, s', list, pid, r) && p in list && p in s && s[p].pid == pid
    ensures p in s' && s'[p].exiting
  {
  }

  lemma StillMarked(a: Moment, b: Moment, p: Ptr, trace: seq<Moment>)
    requires Lives(trace) && trace[0] == a && trace[|trace| - 1] == b && Steady(a) && p in a.procs && p in b.procs
    ensures p in a.born && p in b.born && (b.born[p] == a.born[p] && a.procs[p].exiting ==> b.procs[p].exiting)
  {
  }

  lemma ExitedIs(s: Procs, s': Procs, p: Ptr, q: Ptr, init: Ptr, k: seq<Ptr>)
    requires Exited(s, s', p, q, init, k)
    ensures p in s && p in s' && s'[p].state == Zombie && s'[p].exiting == s[p].exiting
  {
  }

  lemma StartsChain(trace: seq<Moment>)
    requires |trace| == 1
    ensures Chain(trace)
  {
  }

  lemma MoreChain(trace: seq<Moment>, c: Moment)
    requires trace != [] && Chain(trace) && Onward(trace[|trace| - 1], c)
    ensures Chain(trace + [c])
  {
    var u := trace + [c];
    forall i ensures StepAt(u, i) {
      assert StepAt(trace, i);
    }
  }

  class Kernel {
    const idle: Ptr              // idleproc
    const init: Ptr              // initproc
    var procs: Procs
    var links: LinkMap
    var list: seq<Ptr>           // proc_list
    var rq: seq<Ptr>             // the run queue
    var current: Ptr
    var count: int               // nr_process
    ghost var kids: Families     // the children of each process, youngest first
    ghost var awaits: map<Ptr, int>   // what a sleeping process waits for
    ghost var born: map<Ptr, int>
    ghost var stamps: int

    ghost predicate Valid()
      reads this
    {
      Sound(procs, links, kids, awaits, list, born, stamps, idle, init, rq, current, count)
    }

    ghost function Now(): Moment
      reads this
    {
      Moment(procs, born, stamps, kids, current)
    }

    // The state proc_init leaves: the idle process runs and init is queued.
    constructor (idle: Ptr, init: Ptr)
      requires idle != Null && init != Null && idle != init
      ensures Valid() && this.idle == idle && this.init == init && list == [init] && current == idle
    {
      this.idle, this.init := idle, init;
      procs := map[idle := Proc(Runnable, false, false, 0), init := Proc(Runnable, false, false, 1)];
      links := map[idle := Links(Null, init, Null, Null), init := Links(idle, Null, Null, Null)];
      list, rq, current, count := [init], [init], idle, 2;
      kids, awaits, born, stamps := map[idle := [init], init := []], map[], map[idle := 0, init := 1], 2;
      new;
      FirstState(procs, links, kids, awaits, born, idle, init);
      hide Forest, Younger, Ages, Adopted, Listed, StatesOk, NoMissedChild, Queued;
    }

    // schedule(); choice stands for the pick of the scheduling class.
    method Schedule(choice: nat)
      requires Queued(procs, rq, current, idle) && current in procs && idle in procs && procs[idle].state == Runnable
      requires Null !in procs
      modifies this`rq, this`current
      ensures Queued(procs, rq, current, idle) && current in procs && procs[current].state == Runnable
      ensures Picked(Requeued(procs, old(rq), old(current), idle), choice, rq, current, idle)
    {
      if procs[current].state == Runnable && current != idle {
        rq := rq + [current];
      }
      ghost var queue := rq;
      var next := Null;
      if rq != [] {
        next := rq[choice % |rq|];
        InProcs(procs, old(rq), current, idle, next);
        rq := Removed(rq, next);
      }
      if next == Null {
        next := idle;
      }
      Rescheduled(procs, old(rq), current, idle, queue, next);
      current := next;
    }

    // wakeup_proc
    method Wake(p: Ptr)
      requires p in procs && procs[p].state != Zombie && p != idle
      requires Queued(procs, rq, current, idle)
      modifies this`procs, this`rq
      ensures var o := old(procs)[p];
        procs == if o.state != Runnable then old(procs)[p := Proc(Runnable, false, o.exiting, o.pid)] else old(procs)
      ensures Queued(procs, rq, current, idle)
      ensures rq == if old(procs)[p].state != Runnable && p != current then old(rq) + [p] else old(rq)
    {
      if procs[p].state != Runnable {
        WokenQueued(procs, rq, current, idle, p);
        procs := procs[p := procs[p].(state := Runnable)];
        procs := procs[p := procs[p].(waiting := false)];
        if p != current {
          rq := rq + [p];
        }
      }
    }

    // The writes of set_links, and of do_exit for a child it hands over: c in front of q's children.
    method Join(c: Ptr, q: Ptr)
      requires c in links && q in links && c != q && links[q].cptr != c && links[q].cptr != q && c != Null
      requires links[q].cptr != Null ==> links[q].cptr in links
      modifies this`links
      ensures Joined(old(links), links, q, c) && links[c].cptr == old(links)[c].cptr
    {
      links := links[c := links[c].(yptr := Null)];
      var older := links[q].cptr;
      links := links[c := links[c].(optr := older)];
      if older != Null {
        links := links[older := links[older].(yptr := c)];
      }
      links := links[c := links[c].(parent := q)];
      links := links[q := links[q].(cptr := c)];
    }

    // A child moved from the exiting process to init.
    method MoveFirstChild(p: Ptr) returns (c: Ptr)
      requires Forest(links, kids, p) && Younger(kids, born) && p in kids && init in kids && p != init && kids[p] != []
      requires kids[p][0] != init
      modifies this`links, this`kids
      ensures c == old(kids)[p][0] && kids == old(kids)[p := old(kids)[p][1..]][init := [c] + old(kids)[init]]
      ensures Forest(links, kids, p) && Reparented(old(links), links, c, init) && links.Keys == old(links).Keys
    {
      ghost var m, k := links, kids;
      hide *;
      NoNull(m, k, p);
      FirstChild(m, k, p);
      InitChild(m, k, p, init);
      NotOwnChild(k, born, p);
      NotOwnChild(k, born, init);
      c := links[p].cptr;
      links := links[p := links[p].(cptr := links[c].optr)];
      ghost var m1 := links;
      Join(c, init);
      JoinedParents(m, m1, links, p, init, c);
      ForestAdopted(m, m1, links, k, born, p, init);
      kids := k[p := k[p][1..]][init := [c] + k[init]];
    }

    // One round of the loop of do_exit.
    method HandOver(p: Ptr)
      requires Dying(procs, links, kids, awaits, list, born, stamps, idle, init, p) && Queued(procs, rq, current, idle)
      requires p in kids && init in kids && kids[p] != []
      modifies this`procs, this`links, this`rq, this`kids
      ensures Dying(procs, links, kids, awaits, list, born, stamps, idle, init, p) && Queued(procs, rq, current, idle)
      ensures kids == old(kids)[p := old(kids)[p][1..]][init := [old(kids)[p][0]] + old(kids)[init]]
      ensures init in old(procs) && old(kids)[p][0] in old(procs) && procs == WokenBy(old(procs), init, old(kids)[p][0])
    {
      ghost var m, k, s := links, kids, procs;
      hide *;
      DyingFacts(s, m, k, awaits, list, born, stamps, idle, init, p);
      var c := MoveFirstChild(p);
      WakeInit(c);
      RoundDone(s, procs, m, links, k, kids, awaits, list, born, stamps, idle, init, p);
    }

    // init wakes up, if it waits, for a child that is a zombie.
    method WakeInit(c: Ptr)
      requires Queued(procs, rq, current, idle) && c in procs && init in procs && init != idle
      requires procs[init].waiting ==> procs[init].state == Sleeping
      modifies this`procs, this`rq
      ensures Queued(procs, rq, current, idle)
      ensures procs == WokenBy(old(procs), init, c)
    {
      hide Queued, Woken;
      WokenIs(procs[init]);
      if procs[c].state == Zombie {
        if procs[init].waiting {
          Wake(init);
        }
      }
    }

    lemma Parts()
      requires Valid()
      ensures Forest(links, kids, Null) && Younger(kids, born) && Ages(procs, born, stamps, idle, init)
      ensures Adopted(links, kids, list) && Listed(procs, list, idle) && procs.Keys == links.Keys &&
        procs.Keys == kids.Keys
      ensures StatesOk(procs, kids, idle, init, Null) && NoMissedChild(procs, kids, awaits) && Null !in procs
      ensures Queued(procs, rq, current, idle) && current in procs && procs[current].state == Runnable
      ensures count == |list| + 1 && init in procs && links[init].parent == idle && idle in procs && idle != init
      ensures procs[idle].state == Runnable
    {
    }

    lemma Whole()
      requires Forest(links, kids, Null) && Younger(kids, born) && Ages(procs, born, stamps, idle, init)
      requires Adopted(links, kids, list) && Listed(procs, list, idle) && procs.Keys == links.Keys
      requires StatesOk(procs, kids, idle, init, Null) && NoMissedChild(procs, kids, awaits) && Null !in procs
      requires Queued(procs, rq, current, idle) && current in procs && procs[current].state == Runnable
      requires count == |list| + 1 && init in links && links[init].parent == idle
      ensures Valid()
    {
    }

    // The parent of a process other than the idle one.
    lemma ParentOf(p: Ptr)
      requires Valid() && p in procs && p != idle
      ensures p in list && links[p].parent in procs && links[p].parent != p && p in kids[links[p].parent]
    {
      NotOwnChild(kids, born, p);
    }

    // do_exit up to the loop.
    method Die(p: Ptr)
      requires Valid() && p == current && p != idle && p != init
      modifies this`procs, this`rq
      ensures Dying(procs, links, kids, awaits, list, born, stamps, idle, init, p) && Queued(procs, rq, current, idle)
      ensures SamePids(old(procs), procs) && p in old(procs) && p in links && links[p].parent in old(procs) &&
        p != links[p].parent
      ensures procs == AfterDeath(old(procs), p, links[p].parent)
    {
      ghost var s := procs;
      hide *;
      Parts();
      ParentOf(p);
      DeathDone(s, AfterDeath(s, p, links[p].parent), links, kids, awaits, list, born, stamps, idle, init, p);
      DeadQueued(procs, rq, current, idle);
      procs := procs[p := procs[p].(state := Zombie)];
      DeadIs(s[p]);
      var q := links[p].parent;
      WokenIs(procs[q]);
      if procs[q].waiting {
        Wake(q);
      }
      DeathWrites(s, procs, p, q);
    }

    lemma DeadIs(p: Proc)
      ensures Dead(p) == p.(state := Zombie)
    {
    }

    // do_exit of the running process: it ends as a zombie without children, the children belong to
    // init, and some other process runs.
    method Exit(choice: nat)
      requires Valid() && current != idle && current != init
      modifies this`procs, this`links, this`rq, this`current, this`kids
      ensures Valid() && current != old(current) && old(current) in procs && procs[old(current)].state == Zombie
      ensures SamePids(old(procs), procs) && old(current) in old(kids) && init in old(kids) && list == old(list)
      ensures kids == old(kids)[old(current) := []][init := RevOnto(old(kids)[old(current)], old(kids)[init])]
      ensures old(current) in old(links) && old(links)[old(current)].parent in old(procs)
      ensures Exited(old(procs), procs, old(current), old(links)[old(current)].parent, init,
                     old(kids)[old(current)])
    {
      var p := current;
      ghost var s0 := procs;
      hide *;
      Parts();
      Bequeath(p);
      LastSteps(p, choice, s0);
    }

    // do_exit up to the end of the loop.
    method Bequeath(p: Ptr)
      requires Valid() && p == current && p != idle && p != init
      modifies this`procs, this`links, this`rq, this`kids
      ensures Dying(procs, links, kids, awaits, list, born, stamps, idle, init, p) && Queued(procs, rq, current, idle)
      ensures SamePids(old(procs), procs) && p in old(kids) && init in old(kids) && p in kids && kids[p] == []
      ensures kids == old(kids)[p := []][init := RevOnto(old(kids)[p], old(kids)[init])]
      ensures p in old(links) && old(links)[p].parent in old(procs)
      ensures Exited(old(procs), procs, p, old(links)[p].parent, init, old(kids)[p])
    {
      ghost var s0, k0 := procs, kids;
      hide *;
      Parts();
      NoneMoved(k0, p, init);
      KidsFacts(p);
      Die(p);
      ExitWakes(s0, k0, idle, init, p, links[p].parent);
      HandOverAll(p, k0, s0);
      AllMoved(k0, kids, p, init);
    }

    lemma KidsFacts(p: Ptr)
      requires Valid() && p in procs && p != idle && p != init
      ensures p in kids && p !in kids[p] && init !in kids[p] && forall c :: c in kids[p] ==> c in procs
    {
      NotOwnChild(kids, born, p);
      assert !Precedes(born, p, init);
      forall c | c in kids[p] ensures c in procs { IsChild(links, kids, Null, p, c); }
    }

    lemma NoneMoved(k0: Families, p: Ptr, init: Ptr)
      requires p in k0 && init in k0
      ensures ChildrenMoved(k0, k0, p, init)
    {
    }

    lemma DyingIsZombie(s: Procs, m: LinkMap, k: Families, awaits: map<Ptr, int>, list: seq<Ptr>, born: map<Ptr, int>,
                        stamps: int, idle: Ptr, init: Ptr, p: Ptr)
      requires Dying(s, m, k, awaits, list, born, stamps, idle, init, p)
      ensures p in s && s[p].state == Zombie
    {
    }

    // do_exit behind the loop.
    method LastSteps(p: Ptr, choice: nat, ghost s0: Procs)
      requires Dying(procs, links, kids, awaits, list, born, stamps, idle, init, p) && Queued(procs, rq, current, idle)
      requires p in kids && kids[p] == [] && Listed(s0, list, idle) && SamePids(s0, procs) && count == |list| + 1
      requires current == p
      modifies this`rq, this`current
      ensures Valid() && current != p && p in procs && procs[p].state == Zombie
    {
      hide *;
      DyingIsZombie(procs, links, kids, awaits, list, born, stamps, idle, init, p);
      ExitDone(procs, links, kids, awaits, list, born, stamps, idle, init, p);
      SamePidsListed(s0, procs, list, idle);
      IdleRuns(procs, kids, idle, init);
      Schedule(choice);
      Whole();
    }

    lemma IdleRuns(s: Procs, k: Families, idle: Ptr, init: Ptr)
      requires StatesOk(s, k, idle, init, Null)
      ensures idle in s && s[idle].state == Runnable
    {
    }

    // The loop of do_exit.
    method HandOverAll(p: Ptr, ghost k0: Families, ghost s0: Procs)
      requires Dying(procs, links, kids, awaits, list, born, stamps, idle, init, p) && Queued(procs, rq, current, idle)
      requires ChildrenMoved(k0, kids, p, init) && SamePids(s0, procs) && p != init && kids == k0
      modifies this`procs, this`links, this`rq, this`kids
      ensures Dying(procs, links, kids, awaits, list, born, stamps, idle, init, p) && Queued(procs, rq, current, idle)
      ensures ChildrenMoved(k0, kids, p, init) && p in kids && kids[p] == [] && SamePids(s0, procs)
      ensures p in k0 && procs == AfterAdoption(old(procs), init, k0[p])
    {
      hide *;
      ghost var s1 := procs;
      HasChild(procs, links, kids, awaits, list, born, stamps, idle, init, p);
      while links[p].cptr != Null
        invariant Dying(procs, links, kids, awaits, list, born, stamps, idle, init, p) &&
          Queued(procs, rq, current, idle)
        invariant p in kids && init in kids && p in links && (links[p].cptr != Null <==> kids[p] != [])
        invariant ChildrenMoved(k0, kids, p, init) && SamePids(s0, procs)
        invariant AfterAdoption(procs, init, kids[p]) == AfterAdoption(s1, init, k0[p])
        decreases |kids[p]|
      {
        ghost var k, s := kids, procs;
        HandOver(p);
        ChildMoved(k0, k, kids, p, init);
        AdoptionStep(s, procs, init, k[p]);
        SamePidsTrans(s0, s, procs);
        HasChild(procs, links, kids, awaits, list, born, stamps, idle, init, p);
      }
      NoneAdopted(procs, init);
    }

    lemma NoneAdopted(s: Procs, init: Ptr)
      ensures AfterAdoption(s, init, []) == s
    {
    }

    // do_fork by the running process, with the pid get_pid returns; gotMemory tells whether the struct,
    // the kernel stack and the address space could be had.
    method Fork(p: Ptr, pid: int, gotMemory: bool) returns (r: ForkResult)
      requires Valid() && p != Null && p !in procs && p != idle && 1 <= pid < MAX_PID
      requires UnusedPid(procs, list, pid)
      modifies this
      ensures Valid() && current == old(current)
      ensures r == NoFreeProc <==> |old(list)| + 1 >= MAX_PROCESS
      ensures r == NoMemory <==> |old(list)| + 1 < MAX_PROCESS && !gotMemory
      ensures !r.Forked? ==> Now() == old(Now()) && list == old(list) && rq == old(rq)
      ensures r.Forked? ==> r.pid == pid && list == [p] + old(list)
      ensures r.Forked? ==> procs == old(procs)[p := Proc(Runnable, false, false, pid)]
      ensures r.Forked? ==> born == old(born)[p := old(stamps)] && stamps == old(stamps) + 1
      ensures r.Forked? ==> current in old(kids) && kids == old(kids)[p := []][current := [p] + old(kids)[current]]
      ensures r.Forked? ==> rq == old(rq) + [p] && count == old(count) + 1
    {
      Parts();
      if count >= MAX_PROCESS {
        return NoFreeProc;
      }
      if !gotMemory {
        return NoMemory;
      }
      ListProcess(p, pid);
      r := Forked(pid);
    }

    // The new process in proc_list and among the children of the running one, and its first wakeup.
    method ListProcess(p: Ptr, pid: int)
      requires Valid() && p != Null && p !in procs && p != idle && 1 <= pid < MAX_PID
      requires UnusedPid(procs, list, pid)
      modifies this
      ensures Valid() && current == old(current) && list == [p] + old(list)
      ensures procs == old(procs)[p := Proc(Runnable, false, false, pid)]
      ensures born == old(born)[p := old(stamps)] && stamps == old(stamps) + 1
      ensures current in old(kids) && kids == old(kids)[p := []][current := [p] + old(kids)[current]]
      ensures rq == old(rq) + [p] && count == old(count) + 1
    {
      ghost var s, m, k, l, b, n, r := procs, links, kids, list, born, stamps, rq;
      ghost var q, c := current, count;
      hide *;
      RunningFacts();
      EnterProcess(p, pid);
      WokenNew(pid);
      kids, born, stamps := k[p := []][q := [p] + k[q]], b[p := n], n + 1;
      ForkedSound(s, procs, m, links, k, kids, awaits, l, list, b, n, idle, init, r, rq, q, p, pid, c);
      IsValid();
    }

    lemma IsValid()
      requires Sound(procs, links, kids, awaits, list, born, stamps, idle, init, rq, current, count)
      ensures Valid()
    {
    }

    lemma SoundNow()
      requires Valid()
      ensures Sound(procs, links, kids, awaits, list, born, stamps, idle, init, rq, current, count)
    {
    }

    // What the start of a step is given.
    lemma RunningFacts()
      requires Valid()
      ensures Sound(procs, links, kids, awaits, list, born, stamps, idle, init, rq, current, count)
      ensures Forest(links, kids, Null) && Younger(kids, born) && Queued(procs, rq, current, idle)
      ensures current in procs && current in kids && current != Null && procs.Keys == kids.Keys
      ensures forall x :: x in list ==> x in procs
    {
    }

    // What do_fork writes for the new process.
    method EnterProcess(p: Ptr, pid: int)
      requires Forest(links, kids, Null) && Younger(kids, born) && current in kids && p !in kids && p != Null
      requires Queued(procs, rq, current, idle) && p !in procs && p != idle && p != current
      modifies this`procs, this`links, this`list, this`rq, this`count
      ensures Joined(old(links), links, current, p) && p in links && links[p].cptr == Null
      ensures procs == old(procs)[p := Woken(NewProc(pid))] && rq == old(rq) + [p] && Queued(procs, rq, current, idle)
      ensures p in procs && procs[p].pid == pid && list == [p] + old(list) && count == old(count) + 1
    {
      hide *;
      LinkChild(p, current);
      list := [p] + list;
      count := count + 1;
      StartProcess(p, pid);
    }

    // The struct of a new process and its first wakeup.
    method StartProcess(p: Ptr, pid: int)
      requires Queued(procs, rq, current, idle) && p !in procs && p != idle && p != current
      modifies this`procs, this`rq
      ensures procs == old(procs)[p := Woken(NewProc(pid))] && rq == old(rq) + [p] && Queued(procs, rq, current, idle)
      ensures p in procs && procs[p].pid == pid
    {
      NewQueued(procs, rq, current, idle, p, pid);
      hide Queued;
      procs := procs[p := Proc(Uninit, false, false, pid)];
      WokenIs(procs[p]);
      Wake(p);
    }

    // The links of a new process p, first child of q.
    method LinkChild(p: Ptr, q: Ptr)
      requires Forest(links, kids, Null) && Younger(kids, born) && q in kids && p !in kids && p != Null
      modifies this`links
      ensures Joined(old(links), links, q, p) && p in links && links[p].cptr == Null
    {
      ghost var m := links;
      CptrFacts(m, kids, born, q, p);
      hide *;
      links := links[p := Links(q, Null, Null, Null)];
      ghost var m1 := links;
      Join(p, q);
      JoinedNew(m, m1, links, q, p);
    }

    // The search of do_wait for a child that can be reaped.
    method FindChild(pid: int) returns (child: Ptr, hasKid: bool)
      requires Valid()
      ensures current in kids
      ensures child != Null ==>
        child in kids[current] && child in procs && procs[child].state == Zombie && Awaits(pid, procs[child])
      ensures child == Null ==> NoneToReap(procs, kids[current], pid)
      ensures (hasKid <==> HasAwaited(procs, kids[current], pid)) && (child != Null ==> hasKid)
      ensures child != Null && pid == 0 ==> FirstZombie(procs, kids[current], child)
    {
      if pid != 0 {
        child, hasKid := FindByPid(pid);
      } else {
        child, hasKid := FindAny();
      }
    }

    method FindByPid(pid: int) returns (child: Ptr, hasKid: bool)
      requires Valid() && pid != 0
      ensures current in kids
      ensures child != Null ==>
        child in kids[current] && child in procs && procs[child].state == Zombie && procs[child].pid == pid
      ensures child == Null ==> NoneToReap(procs, kids[current], pid)
      ensures (hasKid <==> HasAwaited(procs, kids[current], pid)) && (child != Null ==> hasKid)
    {
      LookupFacts(procs, list, pid);
      ChildrenListed();
      hide Valid;
      child, hasKid := Null, false;
      var found := Lookup(procs, list, pid);
      if found.Some? {
        var p := found.value;
        if links[p].parent == current {
          hasKid := true;
          if procs[p].state == Zombie {
            child := p;
          }
        }
      }
    }

    // The children of the running process are the listed processes with it as parent.
    lemma ChildrenListed()
      requires Valid()
      ensures current in kids && (forall p :: p in list ==> p in procs && p in links && p != Null)
      ensures forall p :: p in list ==> (links[p].parent == current <==> p in kids[current])
      ensures forall c :: c in kids[current] ==> c in list && c in procs
      ensures forall p, q :: p in list && q in list && procs[p].pid == procs[q].pid ==> p == q
    {
      forall p | p in list && p in kids[current] ensures links[p].parent == current {
        IsChild(links, kids, Null, current, p);
      }
      forall c | c in kids[current] ensures c in list && c in procs {
        IsChild(links, kids, Null, current, c);
        assert Precedes(born, current, c);
      }
    }

    method FindAny() returns (child: Ptr, hasKid: bool)
      requires Valid()
      ensures current in kids
      ensures child != Null ==> child in kids[current] && child in procs && procs[child].state == Zombie
      ensures child == Null ==> NoneToReap(procs, kids[current], 0)
      ensures (hasKid <==> HasAwaited(procs, kids[current], 0)) && (child != Null ==> hasKid)
      ensures child != Null ==> FirstZombie(procs, kids[current], child)
    {
      hide *;
      SiblingAt(0);
      ghost var k, i := kids[current], 0;
      ChildrenListed();
      child, hasKid := links[current].cptr, false;
      SomeKid(procs, k, 0);
      while child != Null
        invariant 0 <= i <= |k| && child == (if i < |k| then k[i] else Null) && hasKid == (i > 0)
        invariant child == Null <==> i == |k|
        invariant NoZombieBefore(procs, k, i)
        decreases |k| - i
      {
        SiblingAt(i);
        hasKid := true;
        if procs[child].state == Zombie {
          ZombieFound(procs, k, i);
          return;
        }
        child := links[child].optr;
        NoZombieNext(procs, k, i);
        i := i + 1;
        SiblingAt(i);
      }
      SomeKid(procs, k, i);
    }

    // Following the links of the children of the running process.
    lemma SiblingAt(i: nat)
      requires Valid()
      ensures current in kids && current in links && links[current].cptr == if kids[current] == [] then Null
        else kids[current][0]
      ensures i < |kids[current]| ==> var k := kids[current];
        k[i] in links && k[i] in procs && k[i] != Null && links[k[i]].optr == if i + 1 < |k| then k[i + 1] else Null
    {
      assert Family(links, current, kids[current], false);
      if i < |kids[current]| {
        assert Sibling(links, current, kids[current], i, false);
      }
    }

    // The links of a child and its neighbours.
    lemma NeighboursOf(j: nat)
      requires Valid() && current in kids && j < |kids[current]|
      ensures var k, q := kids[current], current; var c := k[j];
        && c in links && q in links && links[c].parent == q && c != q && c != Null && q !in k
        && links[c].optr == (if j + 1 < |k| then k[j + 1] else Null) &&
             links[c].yptr == (if j > 0 then k[j - 1] else Null)
        && (j + 1 < |k| ==> k[j + 1] in links && k[j + 1] != Null && k[j + 1] != c)
        && (j > 0 ==> k[j - 1] in links && k[j - 1] != Null && k[j - 1] != c)
        && (0 < j && j + 1 < |k| ==> k[j - 1] != k[j + 1])
    {
      var k := kids[current];
      assert Family(links, current, k, false) && Sibling(links, current, k, j, false);
      NotOwnChild(kids, born, current);
      assert k[j] in k;
      if j + 1 < |k| { assert Sibling(links, current, k, j + 1, false); Differ(k, j, j + 1); }
      if j > 0 { assert Sibling(links, current, k, j - 1, false); Differ(k, j - 1, j); }
      if 0 < j && j + 1 < |k| { Differ(k, j - 1, j + 1); }
    }

    // The link part of remove_links, and the struct given back.
    method Unlink(c: Ptr, ghost j: nat)
      requires Valid() && current in kids && j < |kids[current]| && c == kids[current][j]
      modifies this`links
      ensures Parted(old(links), links, current, kids[current], j)
    {
      hide *;
      NeighboursOf(j);
      ghost var k, m := kids[current], links;
      Detach(c);
      PartedBy(m, links, current, k, j);
    }

    method Detach(c: Ptr)
      requires c in links && links[c].parent in links && c != links[c].parent
      requires links[c].optr != Null ==> links[c].optr in links && links[c].optr != c
      requires links[c].yptr != Null ==> links[c].yptr in links && links[c].yptr != c
      modifies this`links
      ensures links == Detached(old(links), c)
    {
      var older, younger := links[c].optr, links[c].yptr;
      if older != Null {
        links := links[older := links[older].(yptr := younger)];
      }
      if younger != Null {
        links := links[younger := links[younger].(optr := older)];
      } else {
        var q := links[c].parent;
        links := links[q := links[q].(cptr := older)];
      }
      links := links - {c};
    }

    // The part of do_wait behind label found.
    method Reap(c: Ptr)
      requires Valid() && current in kids && c in kids[current] && c in procs && procs[c].state == Zombie
      modifies this`procs, this`links, this`list, this`count, this`kids
      ensures Valid() && procs == old(procs) - {c} && list == Removed(old(list), c)
      ensures kids == old(kids)[current := Removed(old(kids)[current], c)] - {c}
    {
      ghost var j: nat :| j < |kids[current]| && kids[current][j] == c;
      ghost var s, m, k, l, q, n := procs, links, kids, list, current, count;
      hide *;
      SoundNow();
      RemoveProcess(c, j);
      ReapedSound(s, procs, m, links, k, kids, awaits, l, list, born, stamps, idle, init, rq, q, j, c, n);
      IsValid();
    }

    // remove_links, with the struct given back.
    method RemoveProcess(c: Ptr, ghost j: nat)
      requires Valid() && current in kids && j < |kids[current]| && c == kids[current][j]
      modifies this`procs, this`links, this`list, this`count, this`kids
      ensures Parted(old(links), links, current, old(kids)[current], j) && count == old(count) - 1
      ensures Dropped(old(procs), procs, old(kids), kids, old(list), list, current, c)
      ensures procs == old(procs) - {c} && list == Removed(old(list), c)
      ensures kids == old(kids)[current := Removed(old(kids)[current], c)] - {c}
    {
      hide *;
      Unlink(c, j);
      DroppedIs(procs, kids, list, current, c);
      procs := procs - {c};
      list := Removed(list, c);
      count := count - 1;
      kids := kids[current := Removed(kids[current], c)] - {c};
    }

    lemma DroppedIs(s: Procs, k: Families, l: seq<Ptr>, q: Ptr, c: Ptr)
      requires q in k
      ensures Dropped(s, s - {c}, k, k[q := Removed(k[q], c)] - {c}, l, Removed(l, c), q, c)
    {
    }

    // The running process sleeps until a child exits.
    method Sleep(pid: int, choice: nat)
      requires Valid() && current != idle && current in kids
      requires NoneToReap(procs, kids[current], pid)
      requires HasAwaited(procs, kids[current], pid)
      modifies this`procs, this`rq, this`current, this`awaits
      ensures Valid() && SleptOn(old(Now()), Now())
      ensures awaits == old(awaits)[old(current) := pid] && current != old(current)
    {
      hide *;
      RunningFacts();
      AsleepThere(procs, current);
      AsleepProc(procs[current]);
      ghost var a := Now();
      NowIs();
      FallAsleep(pid);
      SettledParts(procs, links, kids, awaits, list, born, stamps, idle, init, rq, current, count);
      IdleRuns(procs, kids, idle, init);
      Schedule(choice);
      MakeSound(procs, links, kids, awaits, list, born, stamps, idle, init, rq, current, count);
      IsValid();
      NowIs();
      IsSlept(a, Now());
    }

    // The state of the process that falls asleep.
    method FallAsleep(pid: int)
      requires Valid() && current != idle && current in kids && HasAwaited(procs, kids[current], pid)
      requires NoneToReap(procs, kids[current], pid)
      modifies this`procs, this`awaits
      ensures procs == AsleepAt(old(procs), current) && awaits == old(awaits)[current := pid]
      ensures Settled(procs, links, kids, awaits, list, born, stamps, idle, init, rq, current, count)
    {
      hide *;
      AsleepFacts(pid);
      SetAsleep(pid);
    }

    lemma AsleepFacts(pid: int)
      requires Valid() && current != idle && current in kids && HasAwaited(procs, kids[current], pid)
      requires NoneToReap(procs, kids[current], pid)
      ensures current in procs
      ensures Settled(AsleepAt(procs, current), links, kids, awaits[current := pid], list, born, stamps, idle, init,
                      rq, current, count)
    {
      ghost var s' := AsleepAt(procs, current);
      RunningFacts();
      AsleepThere(procs, current);
      hide *;
      SoundParts(procs, links, kids, awaits, list, born, stamps, idle, init, rq, current, count);
      AsleepSound(procs, s', links, kids, awaits, list, born, stamps, idle, init, rq, current, count, pid);
      MakeSettled(s', links, kids, awaits[current := pid], list, born, stamps, idle, init, rq, current, count);
    }

    method SetAsleep(pid: int)
      requires current in procs
      modifies this`procs, this`awaits
      ensures procs == AsleepAt(old(procs), current) && awaits == old(awaits)[current := pid]
    {
      AsleepIs(procs[current]);
      procs := procs[current := procs[current].(state := Sleeping)];
      procs := procs[current := procs[current].(waiting := true)];
      awaits := awaits[current := pid];
    }

    lemma AsleepProc(p: Proc)
      ensures Asleep(p) == Proc(Sleeping, true, p.exiting, p.pid)
    {
    }

    lemma AsleepIs(p: Proc)
      ensures Asleep(p) == p.(state := Sleeping).(waiting := true)
    {
    }

    // One pass of do_wait for pid, or for any child if pid is 0: it reaps a zombie child it was
    // told to wait for, sleeps if there are such children but none is a zombie, and fails otherwise.
    method Wait(pid: int, choice: nat) returns (r: WaitResult)
      requires Valid() && current != idle
      modifies this`procs, this`links, this`list, this`count, this`kids, this`rq, this`current, this`awaits
      ensures Valid() && Waited(old(Now()), Now(), old(list), list, old(awaits), awaits, pid, r)
    {
      ghost var a, l, w := Now(), list, awaits;
      hide *;
      RunsNow();
      NowIs();
      var child, hasKid := FindChild(pid);
      if child != Null {
        ZombieIsNotInit(child);
        Reap(child);
        r := Reaped(child);
        NowIs();
        HasReaped(a, Now(), l, list, w, pid, child);
      } else if hasKid {
        Sleep(pid, choice);
        r := Slept;
        NowIs();
        HasSlept(a, Now(), l, w, awaits, pid);
      } else {
        r := NoChild;
        HasNoChild(a, l, w, pid);
      }
    }

    // What do_wait does when schedule() returns: a process marked meanwhile exits, which makes the kernel
    // panic if it is init, and any other starts again.
    method Resume(choice: nat) returns (r: ResumeResult)
      requires Valid() && current != idle
      modifies this`procs, this`links, this`rq, this`current, this`kids
      ensures Valid() && list == old(list) && old(current) in old(procs)
      ensures r == Repeats <==> !old(procs)[old(current)].exiting
      ensures r == Panics <==> old(procs)[old(current)].exiting && old(current) == init
      ensures r != Exits ==> Now() == old(Now()) && rq == old(rq)
      ensures r == Exits ==> old(current) in old(kids) && old(current) in old(links) && current != old(current)
      ensures r == Exits ==> Exited(old(procs), procs, old(current), old(links)[old(current)].parent, init,
                                    old(kids)[old(current)])
    {
      hide *;
      RunningFacts();
      if !procs[current].exiting {
        r := Repeats;
      } else if current == init {
        r := Panics;
      } else {
        Exit(choice);
        r := Exits;
      }
    }

    // The panic of do_wait cannot happen.
    lemma ZombieIsNotInit(c: Ptr)
      requires Valid() && c in procs && procs[c].state == Zombie
      ensures c != idle && c != init
    {
    }

    // do_kill
    method Kill(pid: int) returns (r: KillResult)
      requires Valid()
      modifies this`procs, this`rq
      ensures Valid() && KillDone(old(procs), procs, list, pid, r)
    {
      ghost var s := procs;
      LookupFacts(procs, list, pid);
      ChildrenListed();
      hide *;
      var found := Lookup(procs, list, pid);
      if found.Some? {
        var p := found.value;
        if !procs[p].exiting {
          Mark(p);
          r := Killed;
        } else {
          r := AlreadyKilled;
        }
        OneKilled(s, procs, list, pid, p, r);
      } else {
        r := NoSuchProcess;
        NoneKilled(s, list, pid);
      }
    }

    // The flag, and the wakeup of a process whose wait can be interrupted.
    method Mark(p: Ptr)
      requires Valid() && p in list && p in procs
      modifies this`procs, this`rq
      ensures Valid() && procs == old(procs)[p := KilledProc(old(procs)[p])]
    {
      ghost var s := procs;
      hide *;
      RunningFacts();
      KilledSound(s, links, kids, awaits, list, born, stamps, idle, init, rq, current, count, p);
      procs := procs[p := procs[p].(exiting := true)];
      WokenIs(procs[p]);
      if procs[p].waiting {
        Wake(p);
      }
      KilledWrites(s, procs, p);
      MakeSound(procs, links, kids, awaits, list, born, stamps, idle, init, rq, current, count);
      IsValid();
    }

    lemma KilledWrites(s: Procs, s': Procs, p: Ptr)
      requires p in s && (s[p].waiting ==> s[p].state == Sleeping)
      requires var s1 := s[p := s[p].(exiting := true)];
        s' == if !s1[p].waiting then s1 else if s1[p].state != Runnable then s1[p := Woken(s1[p])] else s1
      ensures s' == s[p := KilledProc(s[p])]
    {
    }

    // The timer interrupt, or a process that yields.
    method Yield(choice: nat)
      requires Valid()
      modifies this`rq, this`current
      ensures Valid() && Picked(Requeued(procs, old(rq), old(current), idle), choice, rq, current, idle)
    {
      hide *;
      RunningFacts();
      SoundParts(procs, links, kids, awaits, list, born, stamps, idle, init, rq, current, count);
      IdleRuns(procs, kids, idle, init);
      Schedule(choice);
      MakeSound(procs, links, kids, awaits, list, born, stamps, idle, init, rq, current, count);
      IsValid();
    }

    // No runnable process is lost, and none is queued twice or without being runnable.
    lemma NobodyLost()
      requires Valid()
      ensures NoRepeats(rq) && forall p :: p in procs ==>
        (p in rq <==> procs[p].state == Runnable && p != current && p != idle)
    {
    }

    // Every process but the idle one is the child of one parent, which is not a zombie.
    lemma ParentAlive(p: Ptr)
      requires Valid() && p in procs && p != idle
      ensures p in links && links[p].parent in procs && procs[links[p].parent].state != Zombie
      ensures forall q :: q in kids ==> (p in kids[q] <==> q == links[p].parent)
    {
      ParentOf(p);
      OnlyParent(links, kids, p);
      hide Forest, Younger, Ages, Queued, NoMissedChild;
    }

    // A process asleep in a wait for any child has no zombie child.
    lemma NoMissedZombie(p: Ptr, c: Ptr)
      requires Valid() && p in procs && procs[p].state == Sleeping && p in awaits && awaits[p] == 0 && p in kids &&
        c in kids[p]
      ensures c in procs && procs[c].state != Zombie
    {
      IsChild(links, kids, Null, p, c);
      assert c in procs ==> Awaits(awaits[p], procs[c]);
      hide Forest, Younger, Ages, Queued, Adopted, Listed;
    }

    // Whoever sleeps has, among its descendants, a process that can run: no wait is in vain.
    lemma SomeoneCanEndIt(p: Ptr) returns (c: Ptr)
      requires Valid() && p in procs && procs[p].state == Sleeping
      ensures c in procs && procs[c].state == Runnable && c != idle && (c in rq || c == current)
      ensures Precedes(born, p, c)
      decreases if p in born then stamps - born[p] else 0
    {
      c := AwaitedChild(p);
      if procs[c].state == Sleeping {
        c := SomeoneCanEndIt(c);
      }
    }

    // The child a sleeper waits for, which is alive.
    lemma AwaitedChild(p: Ptr) returns (c: Ptr)
      requires Valid() && p in procs && procs[p].state == Sleeping
      ensures p in kids && c in kids[p] && c in procs && p in awaits && Awaits(awaits[p], procs[c])
      ensures procs[c].state == Runnable || procs[c].state == Sleeping
      ensures Precedes(born, p, c) && c != idle && born[c] < stamps
      ensures procs[c].state == Runnable ==> c in rq || c == current
    {
      SoundNow();
      SoundParts(procs, links, kids, awaits, list, born, stamps, idle, init, rq, current, count);
      hide *;
      c := Awaited(procs, kids, awaits, p);
      ChildFacts(procs, kids, rq, born, stamps, idle, init, current, p, c);
    }

    // What every valid state guarantees.
    lemma Guarantees()
      requires Valid()
      ensures Healthy(procs, links, kids, awaits, list, idle, rq, current, count)
    {
      hide Valid, Sound, Forest, Younger, Ages, Adopted, Listed, StatesOk, NoMissedChild, Queued, SomeoneRuns;
      SoundNow();
      SoundParts(procs, links, kids, awaits, list, born, stamps, idle, init, rq, current, count);
      NobodyLost();
      forall p | p in procs && p != idle
        ensures p in links && links[p].parent in procs && procs[links[p].parent].state != Zombie
      {
        ParentAlive(p);
      }
      forall p, c | p in procs && procs[p].state == Sleeping && p in awaits && awaits[p] == 0 && p in kids &&
        c in kids[p]
        ensures c in procs && procs[c].state != Zombie
      {
        NoMissedZombie(p, c);
      }
      forall p | p in procs && procs[p].state == Sleeping ensures SomeoneRuns(procs, idle) {
        EndsInRunner(p);
      }
    }

    lemma EndsInRunner(p: Ptr)
      requires Valid() && p in procs && procs[p].state == Sleeping
      ensures SomeoneRuns(procs, idle)
    {
      hide Valid, Precedes;
      var c := SomeoneCanEndIt(p);
      Runs(procs, idle, c);
    }

    // Any sequence of steps of the running processes; a step its process could not take is passed over.
    method Run(steps: seq<Step>) returns (ghost trace: seq<Moment>)
      requires Valid()
      modifies this
      ensures Valid()
      ensures Healthy(procs, links, kids, awaits, list, idle, rq, current, count)
      ensures |trace| == |steps| + 1 && trace[0] == old(Now()) && trace[|steps|] == Now() && Chain(trace) &&
        Lives(trace)
    {
      hide *;
      SteadyNow();
      trace := [Now()];
      StartsChain(trace);
      for i := 0 to |steps|
        invariant Valid() && |trace| == i + 1 && trace[0] == old(Now()) && trace[i] == Now() && Chain(trace)
      {
        Take(steps[i]);
        MoreChain(trace, Now());
        trace := trace + [Now()];
      }
      ChainLives(trace);
      Guarantees();
    }

    // What a step may rely on.
    lemma SteadyNow()
      requires Valid()
      ensures Steady(Now()) && Now() == Moment(procs, born, stamps, kids, current)
    {
    }

    lemma RunsNow()
      requires Valid()
      ensures current in procs && procs[current].state == Runnable
    {
    }

    method Take(step: Step)
      requires Valid()
      modifies this
      ensures Valid() && Onward(old(Now()), Now())
    {
      hide *;
      match step {
        case DoFork(p, pid, gotMemory) => TakeFork(p, pid, gotMemory);
        case DoExit(choice) => TakeExit(choice);
        case DoWait(pid, choice) => TakeWait(pid, choice);
        case DoResume(choice) => TakeResume(choice);
        case DoKill(pid) => TakeKill(pid);
        case DoYield(choice) => TakeYield(choice);
      }
    }

    method TakeExit(choice: nat)
      requires Valid()
      modifies this`procs, this`links, this`rq, this`current, this`kids
      ensures Valid() && Onward(old(Now()), Now())
    {
      ghost var a, m, k := Now(), links, kids;
      hide *;
      SteadyNow();
      if current != idle && current != init {
        Exit(choice);
        NowIs();
        OnwardExited(a, Now(), a.current, m[a.current].parent, init, k[a.current]);
      } else {
        OnwardSame(a, a);
      }
    }

    method TakeResume(choice: nat)
      requires Valid()
      modifies this`procs, this`links, this`rq, this`current, this`kids
      ensures Valid() && Onward(old(Now()), Now())
    {
      ghost var a, m, k := Now(), links, kids;
      hide *;
      SteadyNow();
      if current == idle {
        OnwardSame(a, a);
        return;
      }
      var r := Resume(choice);
      NowIs();
      if r == Exits {
        OnwardExited(a, Now(), a.current, m[a.current].parent, init, k[a.current]);
      } else {
        OnwardSame(a, a);
      }
    }

    method TakeKill(pid: int)
      requires Valid()
      modifies this`procs, this`rq
      ensures Valid() && Onward(old(Now()), Now())
    {
      ghost var a := Now();
      hide *;
      SteadyNow();
      var r := Kill(pid);
      NowIs();
      OnwardKilled(a, Now(), list, pid, r);
    }

    method TakeYield(choice: nat)
      requires Valid()
      modifies this`rq, this`current
      ensures Valid() && Onward(old(Now()), Now())
    {
      ghost var a := Now();
      hide *;
      SteadyNow();
      Yield(choice);
      NowIs();
      OnwardSame(a, Now());
    }

    method TakeFork(p: Ptr, pid: int, gotMemory: bool)
      requires Valid()
      modifies this
      ensures Valid() && Onward(old(Now()), Now())
    {
      ghost var a := Now();
      hide *;
      SteadyNow();
      LookupFacts(procs, list, pid);
      ChildrenListed();
      if p != Null && p !in procs && p != idle && 1 <= pid < MAX_PID && Lookup(procs, list, pid).None? {
        var r := Fork(p, pid, gotMemory);
        NowIs();
        if r.Forked? {
          OnwardForked(a, Now(), p, pid);
        } else {
          OnwardSame(a, a);
        }
      } else {
        OnwardSame(a, a);
      }
    }

    method TakeWait(pid: int, choice: nat)
      requires Valid()
      modifies this`procs, this`links, this`list, this`count, this`kids, this`rq, this`current, this`awaits
      ensures Valid() && Onward(old(Now()), Now())
    {
      ghost var a := Now();
      hide *;
      SteadyNow();
      RunsNow();
      if current == idle {
        OnwardSame(a, a);
        return;
      }
      ghost var l, w := list, awaits;
      var r := Wait(pid, choice);
      OnwardWaited(a, Now(), l, list, w, awaits, pid, r);
    }

    lemma NowIs()
      ensures Now() == Moment(procs, born, stamps, kids, current)
    {
    }

    // A kill is final: whatever happens meanwhile, the process killed, if it was not reaped, ends when it
    // comes back from the schedule() of a wait.
    method KillIsFinal(p: Ptr, steps: seq<Step>, choice: nat) returns (ran: bool)
      requires Valid() && p in list && p in procs && p != init && p != idle
      modifies this
      ensures Valid()
      ensures ran ==> p in procs && p in born && p in old(born)
      ensures ran && born[p] == old(born)[p] ==> procs[p].state == Zombie && procs[p].exiting && current != p
    {
      hide *;
      KillFirst(p);
      ran := RunOn(p, steps);
      if ran {
        EndHere(p, choice);
      }
    }

    // A run after which p, if it is there and not new, is still marked; whether it runs then.
    method RunOn(p: Ptr, steps: seq<Step>) returns (ran: bool)
      requires Valid() && p in procs && procs[p].exiting
      modifies this
      ensures Valid() && (ran <==> current == p) && p in old(born)
      ensures ran ==> p in procs && p in born && (born[p] == old(born)[p] ==> procs[p].exiting)
    {
      ghost var a := Now();
      hide *;
      SteadyNow();
      HasStamp(a, p);
      ghost var trace := Run(steps);
      ran := current == p;
      SteadyNow();
      RunsNow();
      if ran { StillMarked(a, Now(), p, trace); }
    }

    lemma HasStamp(a: Moment, p: Ptr)
      requires Steady(a) && p in a.procs
      ensures p in a.born
    {
    }

    // The kill itself; the process may have been marked before.
    method KillFirst(p: Ptr)
      requires Valid() && p in list && p in procs
      modifies this`procs, this`rq
      ensures Valid() && p in procs && procs[p].exiting
    {
      ghost var s, l := procs, list;
      hide *;
      ghost var pid := procs[p].pid;
      var r := Kill(procs[p].pid);
      IsMarked(s, procs, l, pid, r, p);
    }

    // The running process comes back from the schedule() of a wait.
    method EndHere(p: Ptr, choice: nat)
      requires Valid() && current == p && p != init && p != idle
      modifies this`procs, this`links, this`rq, this`current, this`kids
      ensures Valid() && p in old(procs) && p in procs
      ensures old(procs)[p].exiting ==> procs[p].state == Zombie && procs[p].exiting && current != p
    {
      ghost var s := procs;
      hide *;
      NowIs();
      var r := Resume(choice);
      NowIs();
      if r == Exits {
        ExitedIs(s, procs, p, old(links)[p].parent, init, old(kids)[p]);
      }
    }
  }
}
