// get_pid, the hash chains and find_proc of kern/process/proc.c.
module PidTables {
  import opened Lists
  import opened Options
  import opened Pointers

  const MAX_PROCESS: int := 4096
  const MAX_PID: int := 8192
  const HASH_LIST_SIZE: int := 1024

  // ---- pids in cyclic order ----

  predicate IsPid(q: int) { 1 <= q < MAX_PID }

  function Next(q: int): int { if q + 1 >= MAX_PID then 1 else q + 1 }

  // Going up from a and around, q comes before b.
  predicate Passed(a: int, b: int, q: int) {
    if a < b then a < q < b else q > a || q < b
  }

  // How far it is from a up and around to b.
  function Distance(a: int, b: int): int {
    if a <= b then b - a else MAX_PID - 1 - a + b
  }

  ghost predicate AllPassedUsed(used: set<int>, a: int, b: int) {
    forall q :: IsPid(q) && Passed(a, b, q) ==> q in used
  }

  // r is the first pid after a, in cyclic order, that is not used.
  ghost predicate FirstUnused(used: set<int>, a: int, r: int) {
    IsPid(r) && r !in used && AllPassedUsed(used, a, r)
  }

  lemma StepUsed(used: set<int>, a: int, b: int)
    requires IsPid(b) && b in used && 1 <= a <= MAX_PID && AllPassedUsed(used, a, b)
    ensures AllPassedUsed(used, a, Next(b))
  {
    forall q | IsPid(q) && Passed(a, Next(b), q) ensures q in used {
      assert q == b || Passed(a, b, q) || a == b;
      if a == b {
        assert b + 1 < MAX_PID;
      }
    }
  }

  // The first unused pid is unique.
  lemma FirstUnusedUnique(used: set<int>, a: int, r: int, s: int)
    requires 1 <= a <= MAX_PID && FirstUnused(used, a, r) && FirstUnused(used, a, s)
    ensures r == s
  {
    assert Passed(a, r, s) || Passed(a, s, r) || r == s;
  }

  lemma {:induction false} AllUsed(used: set<int>, n: nat)
    requires forall q :: 1 <= q <= n ==> q in used
    ensures |used| >= n
  {
    if n > 0 { AllUsed(used - {n}, n - 1); }
  }

  // There are more pids than processes.
  lemma UnusedExists(used: set<int>) returns (f: int)
    requires |used| <= MAX_PROCESS
    ensures IsPid(f) && f !in used
  {
    if forall q :: IsPid(q) ==> q in used {
      assert forall q :: 1 <= q <= MAX_PID - 1 ==> IsPid(q) && q in used;
      AllUsed(used, MAX_PID - 1);
    }
    f :| IsPid(f) && f !in used;
  }

  // ---- the process table ----

  // What the pids in use say of the cached interval: it holds no pid in use.
  ghost predicate Safe(used: set<int>, last: int, next: int) {
    && 1 <= last <= MAX_PID && next <= MAX_PID
    && forall q :: q in used ==> !(last < q < next)
  }

  // The pids of the listed processes.
  ghost function Pids(list: seq<Ptr>, pid: map<Ptr, int>): set<int>
    requires forall p :: p in list ==> p in pid
  {
    if list == [] then {} else assert list[0] in list; Pids(list[1..], pid) + {pid[list[0]]}
  }

  lemma {:induction false} PidsFacts(list: seq<Ptr>, pid: map<Ptr, int>)
    requires forall p :: p in list ==> p in pid
    ensures |Pids(list, pid)| <= |list|
    ensures forall p :: p in list ==> pid[p] in Pids(list, pid)
    ensures forall q :: q in Pids(list, pid) ==> exists p :: p in list && pid[p] == q
  {
    if list != [] {
      assert list == [list[0]] + list[1..];
      PidsFacts(list[1..], pid);
      assert list[0] in list;
      forall q | q in Pids(list[1..], pid) ensures exists p :: p in list && pid[p] == q {
        var p :| p in list[1..] && pid[p] == q;
        assert p in list;
      }
    }
  }

  // ---- hash chains ----

  // proc_list, its pids and the hash chains; the chain of a pid is fixed by pid_hashfn.
  ghost predicate Table(list: seq<Ptr>, pid: map<Ptr, int>, chains: seq<seq<Ptr>>, hash: int -> int) {
    && |chains| == HASH_LIST_SIZE && Separate(list, pid)
    && (forall b :: 0 <= b < HASH_LIST_SIZE ==> Chain(list, pid, chains[b], hash, b))
  }

  function Hash(hash: int -> int, q: int): int { hash(q) }

  ghost predicate IsHash(hash: int -> int) { forall q :: 0 <= Hash(hash, q) < HASH_LIST_SIZE }

  // The chain b holds the listed processes whose pids hash to b, each once.
  ghost predicate Chain(list: seq<Ptr>, pid: map<Ptr, int>, chain: seq<Ptr>, hash: int -> int, b: int) {
    && (forall p :: p in chain <==> p in list && p in pid && Hash(hash, pid[p]) == b)
    && NoRepeats(chain)
  }

  // The pids after a process is listed or taken off.
  lemma PidsWith(list: seq<Ptr>, pid: map<Ptr, int>, p: Ptr, q: int)
    requires (forall x :: x in list ==> x in pid) && p !in list
    ensures forall x :: x in [p] + list ==> x in pid[p := q]
    ensures Pids([p] + list, pid[p := q]) == Pids(list, pid) + {q}
  {
    PidsSame(list, pid, pid[p := q]);
    assert ([p] + list)[1..] == list;
  }

  lemma {:induction false} PidsSame(list: seq<Ptr>, pid: map<Ptr, int>, pid': map<Ptr, int>)
    requires forall x :: x in list ==> x in pid && x in pid' && pid'[x] == pid[x]
    ensures Pids(list, pid') == Pids(list, pid)
  {
    if list != [] {
      assert list[0] in list;
      PidsSame(list[1..], pid, pid');
    }
  }

  // The table with p, whose pid is not in use, in front of the list and of its chain.
  lemma TableWith(list: seq<Ptr>, pid: map<Ptr, int>, chains: seq<seq<Ptr>>, hash: int -> int, p: Ptr, q: int)
    requires Table(list, pid, chains, hash) && IsHash(hash) && p !in list && IsPid(q) && q !in Pids(list, pid)
    ensures Table([p] + list, pid[p := q], chains[Hash(hash, q) := [p] + chains[Hash(hash, q)]], hash)
  {
    PidsFacts(list, pid);
    var list', pid', h := [p] + list, pid[p := q], Hash(hash, q);
    var chains' := chains[h := [p] + chains[h]];
    OneEach(list, pid, p, q);
    hide Chain, Pids, Separate;
    forall b | 0 <= b < HASH_LIST_SIZE ensures Chain(list', pid', chains'[b], hash, b) {
      ChainWith(list, pid, chains[b], hash, b, p, q);
    }
  }

  // Listed processes have pids, each its own.
  ghost predicate Separate(list: seq<Ptr>, pid: map<Ptr, int>) {
    && (forall p :: p in list ==> p in pid && IsPid(pid[p]))
    && (forall p, q :: p in list && q in list && pid[p] == pid[q] ==> p == q)
    && NoRepeats(list)
  }

  lemma OneEach(list: seq<Ptr>, pid: map<Ptr, int>, p: Ptr, q: int)
    requires Separate(list, pid) && p !in list && IsPid(q) && forall x :: x in list ==> pid[x] != q
    ensures Separate([p] + list, pid[p := q])
  {
    assert ([p] + list)[1..] == list;
  }

  lemma ChainWith(list: seq<Ptr>, pid: map<Ptr, int>, chain: seq<Ptr>, hash: int -> int, b: int, p: Ptr, q: int)
    requires Chain(list, pid, chain, hash, b) && p !in list
    ensures Chain([p] + list, pid[p := q], if Hash(hash, q) == b then [p] + chain else chain, hash, b)
  {
    assert ([p] + chain)[1..] == chain;
  }

  // The table without p.
  lemma TableWithout(list: seq<Ptr>, pid: map<Ptr, int>, chains: seq<seq<Ptr>>, hash: int -> int, p: Ptr)
    requires Table(list, pid, chains, hash) && IsHash(hash) && p in list
    ensures var h := Hash(hash, pid[p]); Table(Removed(list, p), pid, chains[h := Removed(chains[h], p)], hash)
  {
    var h := Hash(hash, pid[p]);
    RemovedFacts(list, p);
    assert Chain(list, pid, chains[h], hash, h);
    RemovedFacts(chains[h], p);
    var chains' := chains[h := Removed(chains[h], p)];
    forall b | 0 <= b < HASH_LIST_SIZE ensures Chain(Removed(list, p), pid, chains'[b], hash, b) {
      assert Chain(list, pid, chains[b], hash, b);
    }
  }

  // proc_list, the hash chains and the static variables of get_pid.
  class PidTable {
    const hash: int -> int        // pid_hashfn
    var list: seq<Ptr>            // proc_list
    var pid: map<Ptr, int>
    var chains: seq<seq<Ptr>>     // hash_list
    var count: int                // nr_process, which counts the unlisted idle process
    var lastPid: int
    var nextSafe: int

    constructor (hash: int -> int)
      requires IsHash(hash)
      ensures Valid() && list == [] && this.hash == hash
    {
      this.hash := hash;
      list, pid, chains, count := [], map[], seq(HASH_LIST_SIZE, _ => []), 1;
      lastPid, nextSafe := MAX_PID, MAX_PID;
    }

    ghost predicate Valid()
      reads this
    {
      && Table(list, pid, chains, hash) && IsHash(hash) && count == |list| + 1 <= MAX_PROCESS
      && Safe(Pids(list, pid), lastPid, nextSafe)
    }

    // get_pid: ends, and returns the first pid after the last one, in cyclic order, that is not in use.
    method GetPid() returns (q: int)
      requires Valid()
      modifies this`lastPid, this`nextSafe
      ensures FirstUnused(Pids(list, pid), old(lastPid), q)
      ensures lastPid == q && Safe(Pids(list, pid), lastPid, nextSafe)
    {
      lastPid := lastPid + 1;
      if lastPid >= MAX_PID {
        lastPid := 1;
        Rescan(old(lastPid));
      } else if lastPid >= nextSafe {
        Rescan(old(lastPid));
      }
      q := lastPid;
    }

    // The scan at label inside; i returns to 0 at each goto repeat.
    method Rescan(ghost from: int)
      requires Listed() && 1 <= from <= MAX_PID && lastPid == Next(from)
      modifies this`lastPid, this`nextSafe
      ensures FirstUnused(Pids(list, pid), from, lastPid)
      ensures Safe(Pids(list, pid), lastPid, nextSafe)
    {
      PidsFacts(list, pid);
      ghost var f := UnusedExists(Pids(list, pid));
      nextSafe := MAX_PID;
      NoneVisited(from);
      hide *;
      var i := 0;
      while i < |list|
        invariant 0 <= i <= |list| && Scanning(from, i)
        decreases Distance(lastPid, f), |list| - i
      {
        i := Visit(from, i, f);
      }
      AllVisited(from);
    }

    // The scan has found every pid passed since from in use, and no pid of the first i processes in the safe interval.
    ghost predicate Scanning(from: int, i: int)
      requires Listed()
      reads this
    {
      && IsPid(lastPid) && lastPid < nextSafe <= MAX_PID && AllPassedUsed(Pids(list, pid), from, lastPid)
      && forall j :: 0 <= j < i && j < |list| && list[j] in pid ==> !(lastPid <= pid[list[j]] < nextSafe)
    }

    // One process of the scan; f is some unused pid, which lastPid never passes.
    method Visit(ghost from: int, i: int, ghost f: int) returns (i': int)
      requires Listed() && 1 <= from <= MAX_PID && 0 <= i < |list| && Scanning(from, i)
      requires IsPid(f) && f !in Pids(list, pid)
      modifies this`lastPid, this`nextSafe
      ensures 0 <= i' <= |list| && Scanning(from, i')
      ensures Distance(lastPid, f) < Distance(old(lastPid), f) || (lastPid == old(lastPid) && i' == i + 1)
      ensures 0 <= Distance(lastPid, f)
    {
      PidAt(i);
      if pid[list[i]] == lastPid { StepUsed(Pids(list, pid), from, lastPid); }
      hide Table, Pids, AllPassedUsed;
      var q := pid[list[i]];
      if q == lastPid {
        lastPid := lastPid + 1;
        if lastPid >= nextSafe {
          if lastPid >= MAX_PID {
            lastPid := 1;
          }
          nextSafe := MAX_PID;
          return 0;
        }
      } else if q > lastPid && nextSafe > q {
        nextSafe := q;
      }
      i' := i + 1;
    }

    lemma PidAt(i: int)
      requires Listed() && 0 <= i < |list|
      ensures list[i] in pid && IsPid(pid[list[i]]) && pid[list[i]] in Pids(list, pid)
    {
      assert list[i] in list;
      PidsFacts(list, pid);
    }

    lemma NoneVisited(from: int)
      requires Listed() && 1 <= from <= MAX_PID && lastPid == Next(from) && nextSafe == MAX_PID
      ensures Scanning(from, 0)
    {
    }

    lemma AllVisited(from: int)
      requires Listed() && 1 <= from <= MAX_PID && Scanning(from, |list|)
      ensures FirstUnused(Pids(list, pid), from, lastPid) && Safe(Pids(list, pid), lastPid, nextSafe)
    {
      PidsFacts(list, pid);
      forall q | q in Pids(list, pid) ensures !(lastPid <= q < nextSafe) {
        var p :| p in list && pid[p] == q;
        var j :| 0 <= j < |list| && list[j] == p;
      }
    }

    ghost predicate Listed()
      reads this
    {
      Table(list, pid, chains, hash) && |list| < MAX_PROCESS
    }

    // The part of do_fork that lists the new process; it refuses when there are too many.
    method Enlist(p: Ptr) returns (ok: bool)
      requires Valid() && p !in list
      modifies this
      ensures Valid() && (ok <==> |old(list)| + 1 < MAX_PROCESS)
      ensures !ok ==> list == old(list) && pid == old(pid)
      ensures ok ==> list == [p] + old(list) && p in pid && pid == old(pid)[p := pid[p]]
      ensures ok ==> FirstUnused(Pids(old(list), old(pid)), old(lastPid), pid[p])
      ensures ok ==> var h := Hash(hash, pid[p]);
                0 <= h < |old(chains)| && chains == old(chains)[h := [p] + old(chains)[h]]
    {
      if count >= MAX_PROCESS {
        return false;
      }
      var q := GetPid();
      TableWith(list, pid, chains, hash, p, q);
      PidsWith(list, pid, p, q);
      pid := pid[p := q];
      chains := chains[hash(q) := [p] + chains[hash(q)]];
      list := [p] + list;
      count := count + 1;
      ok := true;
    }

    // The part of do_wait that takes the process off (unhash_proc and remove_links).
    method Delist(p: Ptr)
      requires Valid() && p in list
      modifies this`list, this`chains, this`count
      ensures Valid() && list == Removed(old(list), p) && p in pid
      ensures var h := Hash(hash, pid[p]);
        0 <= h < |old(chains)| && chains == old(chains)[h := Removed(old(chains)[h], p)]
    {
      TableWithout(list, pid, chains, hash, p);
      RemovedFacts(list, p);
      PidsFacts(list, pid);
      PidsFacts(Removed(list, p), pid);
      var h := hash(pid[p]);
      chains := chains[h := Removed(chains[h], p)];
      list := Removed(list, p);
      count := count - 1;
    }

    // find_proc: walking one chain finds the listed process with that pid, if there is one.
    method FindProc(q: int) returns (r: Option<Ptr>)
      requires Valid()
      ensures r.Some? ==> r.value in list && pid[r.value] == q
      ensures r.None? ==> forall p :: p in list ==> pid[p] != q
      ensures forall p :: p in list && pid[p] == q ==> r == Some(p)
    {
      if 0 < q < MAX_PID {
        var h := hash(q);
        assert 0 <= Hash(hash, q) < HASH_LIST_SIZE;
        var chain := chains[h];
        assert Chain(list, pid, chain, hash, h);
        for i := 0 to |chain|
          invariant forall j :: 0 <= j < i ==> pid[chain[j]] != q
        {
          assert chain[i] in chain;
          if pid[chain[i]] == q {
            return Some(chain[i]);
          }
        }
        forall p | p in list ensures pid[p] != q {
          assert pid[p] == q ==> p in chain;
        }
      }
      r := None;
    }
  }
}
