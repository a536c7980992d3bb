// The two multi-level feedback queue schedulers, kern/schedule/mlfq_sched.c (smart) and
// kern/schedule/basic_mlfq_sched.c.
module MlfqScheduling {
  import opened Lists
  import opened Pointers

  const MLFQ_LEVELS: int := 4
  const BOOST_TICKS: int := 1000
  const SCORE_SCALE: int := 1000
  const IO_BOUND_THRESHOLD: int := 300
  const WORD: int := 0x1_0000_0000

  function LevelSlice(l: int): int {
    if l == 0 then 2 else if l == 1 then 4 else if l == 2 then 8 else 16
  }

  // The fields of struct proc_struct the schedulers use.
  datatype Proc = Proc(level: int, slice: int, schedCount: int, lastBurst: int, score: int, needResched: bool)

  // ---- score and level ----

  // The score after a run that used the share ratio (in thousandths) of its slice.
  function NewScore(score: int, ratio: int): int {
    if score == 0 then ratio else (6 * score + 4 * ratio) / 10
  }

  // Ticks of the slice used: all of them when none is left.
  function Used(p: Proc): int
  {
    if p.slice <= 0 then LevelSlice(p.level) else LevelSlice(p.level) - p.slice
  }

  // What holds of every process at any time.
  predicate Fine(p: Proc) {
    && 0 <= p.level < MLFQ_LEVELS && p.slice <= LevelSlice(p.level)
    && 0 <= p.score <= SCORE_SCALE && 0 <= p.lastBurst <= LevelSlice(MLFQ_LEVELS - 1) && 0 <= p.schedCount
  }

  // mlfq_predict_and_level_update
  function Predicted(p: Proc): (r: Proc)
    requires Fine(p)
    ensures Fine(r.(slice := 0)) && 0 <= r.lastBurst <= LevelSlice(p.level)
  {
    var used := Used(p);
    RatioRange(used, LevelSlice(p.level));
    var score := NewScore(p.score, used * SCORE_SCALE / LevelSlice(p.level));
    var level :=
      if p.slice <= 0 then (if p.level < MLFQ_LEVELS - 1 then p.level + 1 else p.level)
      else if score < IO_BOUND_THRESHOLD then 0
      else if p.level > 0 then p.level - 1 else p.level;
    p.(lastBurst := used, score := score, level := level)
  }

  // basic_mlfq_update_level
  function Adjusted(p: Proc): (r: Proc)
    requires Fine(p)
    ensures Fine(r.(slice := 0))
  {
    p.(level := if p.slice <= 0 then (if p.level < MLFQ_LEVELS - 1 then p.level + 1 else p.level) else 0)
  }

  lemma RatioRange(used: int, slice: int)
    requires 0 <= used <= slice && 0 < slice
    ensures 0 <= used * SCORE_SCALE / slice <= SCORE_SCALE
  {
    var q := used * SCORE_SCALE / slice;
    assert used * SCORE_SCALE <= slice * SCORE_SCALE;
    assert q > SCORE_SCALE ==> q * slice >= SCORE_SCALE * slice + slice;
    assert q < 0 ==> q * slice <= -slice;
  }

  // One step towards a constant ratio: never past it, from above always closer, from below
  // until the distance is at most 2.
  lemma ScoreStep(s: int, r: int)
    requires 0 <= s <= SCORE_SCALE && 0 <= r <= SCORE_SCALE
    ensures s >= r ==> r <= NewScore(s, r) && (s > r ==> NewScore(s, r) < s)
    ensures s <= r ==> s <= NewScore(s, r) <= r && (s < r - 2 ==> s < NewScore(s, r))
    ensures r - 2 <= s <= r && s > 0 ==> NewScore(s, r) == s
  {
  }

  function Repeated(s: int, r: int, n: nat): int
    decreases n
  {
    if n == 0 then s else Repeated(NewScore(s, r), r, n - 1)
  }

  // How far a score lies outside r-2..r.
  function Excess(s: int, r: int): int {
    if s > r then s - r else if s < r - 2 then r - 2 - s else 0
  }

  // Under a constant ratio r the score settles: at r from above, in r-2..r from below.
  lemma {:induction false} ScoreSettles(s: int, r: int, n: nat)
    requires 0 <= s <= SCORE_SCALE && 0 <= r <= SCORE_SCALE && n >= Excess(s, r)
    ensures r - 2 <= Repeated(s, r, n) <= r
    ensures s >= r ==> Repeated(s, r, n) == r
    decreases n
  {
    ScoreStep(s, r);
    if n > 0 {
      ScoreSettles(NewScore(s, r), r, n - 1);
    }
  }

  // What queueing makes of a process that has run: a new level and its full slice.
  function Requeued(p: Proc, smart: bool): (r: Proc)
    requires Fine(p)
    ensures Fine(r) && r.slice == LevelSlice(r.level)
  {
    var q := if smart then Predicted(p) else Adjusted(p);
    q.(slice := LevelSlice(q.level))
  }

  // The slice of a level.
  predicate IsSlice(slice: int, level: int) {
    0 <= level < 4 && slice == [2, 4, 8, 16][level]
  }

  // The process p has run and was queued again as q. A used up slice costs a level; what is left of a
  // slice earns level 0, in the smart scheduler only with a score below 300 and one level otherwise.
  ghost predicate Levelled(p: Proc, q: Proc, smart: bool) {
    && IsSlice(q.slice, q.level) && q.schedCount == p.schedCount && q.needResched == p.needResched
    && (p.slice <= 0 ==> q.level == if p.level == 3 then 3 else p.level + 1)
    && (p.slice > 0 ==> q.level == if !smart || q.score < 300 || p.level == 0 then 0 else p.level - 1)
    && if smart then Scored(p, q) else q.score == p.score && q.lastBurst == p.lastBurst
  }

  // The new score weighs the old one six to four against the share of the slice used, in thousandths, and
  // is this share itself after a score of 0.
  ghost predicate Scored(p: Proc, q: Proc) {
    0 <= p.level < 4 &&
    var full := [2, 4, 8, 16][p.level];
    var ratio := 1000 * q.lastBurst / full;
    && q.lastBurst == (if p.slice <= 0 then full else full - p.slice)
    && if p.score == 0 then q.score == ratio else 10 * q.score <= 6 * p.score + 4 * ratio < 10 * q.score + 10
  }

  lemma Levels(p: Proc, smart: bool)
    requires Fine(p)
    ensures Levelled(p, Requeued(p, smart), smart)
  {
    SliceIs(p.level);
    SliceIs(Requeued(p, smart).level);
    if smart { Scores(p); }
  }

  lemma SliceIs(l: int)
    requires 0 <= l < MLFQ_LEVELS
    ensures IsSlice(LevelSlice(l), l)
  {
  }

  lemma Scores(p: Proc)
    requires Fine(p)
    ensures Scored(p, Requeued(p, true))
  {
    SliceIs(p.level);
    var q := Predicted(p);
    assert q.lastBurst == Used(p) && q.lastBurst * SCORE_SCALE == 1000 * q.lastBurst;
  }

  // A process gives the processor back before the first tick of its full slice.
  function Yielded(p: Proc): (r: Proc)
    requires Fine(p)
    ensures Fine(r)
  {
    Requeued(p.(slice := LevelSlice(p.level)), true)
  }

  // Three such runs in a row, with no boost between them, lead to level 0.
  lemma ThreeYields(p: Proc)
    requires Fine(p)
    ensures var q := Yielded(Yielded(Yielded(p))); q.level == 0 && q.score <= 216
  {
  }

  // A process whose slice runs out goes down one level in either scheduler; one that yields
  // rises at least as far in the basic scheduler as in the smart one.
  lemma BasicIsMoreGenerous(p: Proc)
    requires Fine(p)
    ensures p.slice <= 0 ==> Requeued(p, true).level == Requeued(p, false).level
    ensures Requeued(p, false).level <= Requeued(p, true).level
  {
  }

  // ---- the queues ----

  // Every queued process sits in the queue of its own level, once, with that level's full slice.
  ghost predicate InPlace(queues: seq<seq<Ptr>>, procs: map<Ptr, Proc>) {
    && |queues| == MLFQ_LEVELS
    && forall l :: 0 <= l < MLFQ_LEVELS ==> LevelInPlace(queues[l], procs, l)
  }

  ghost predicate LevelInPlace(queue: seq<Ptr>, procs: map<Ptr, Proc>, l: int) {
    && NoRepeats(queue)
    && forall p :: p in queue ==> p in procs && procs[p].level == l && procs[p].slice == LevelSlice(l)
  }

  ghost predicate IsQueued(queues: seq<seq<Ptr>>, p: Ptr) {
    exists l :: 0 <= l < |queues| && p in queues[l]
  }

  ghost predicate AllFine(procs: map<Ptr, Proc>) {
    forall p :: p in procs ==> Fine(procs[p])
  }

  function Total(queues: seq<seq<Ptr>>): int
    requires |queues| == MLFQ_LEVELS
  {
    |queues[0]| + |queues[1]| + |queues[2]| + |queues[3]|
  }

  // All queues in the order of their levels.
  function InOrder(queues: seq<seq<Ptr>>): seq<Ptr>
    requires |queues| == MLFQ_LEVELS
  {
    queues[0] + queues[1] + queues[2] + queues[3]
  }

  // The first process of the first queue that is not empty.
  function Front(queues: seq<seq<Ptr>>): Ptr
    requires |queues| == MLFQ_LEVELS
  {
    if InOrder(queues) == [] then Null else InOrder(queues)[0]
  }

  // A process out of the queues changes; or one is put at the end of the queue of its level.
  lemma Enqueued(queues: seq<seq<Ptr>>, procs: map<Ptr, Proc>, p: Ptr, q: Proc)
    requires InPlace(queues, procs) && !IsQueued(queues, p) && 0 <= q.level < MLFQ_LEVELS &&
      q.slice == LevelSlice(q.level)
    ensures InPlace(queues[q.level := queues[q.level] + [p]], procs[p := q])
    ensures Total(queues[q.level := queues[q.level] + [p]]) == Total(queues) + 1
  {
    var queues', procs' := queues[q.level := queues[q.level] + [p]], procs[p := q];
    forall l | 0 <= l < MLFQ_LEVELS ensures LevelInPlace(queues'[l], procs', l) {
      assert LevelInPlace(queues[l], procs, l) && p !in queues[l];
      if l == q.level { AppendedFacts(queues[l], p); }
    }
  }

  lemma Dequeued(queues: seq<seq<Ptr>>, procs: map<Ptr, Proc>, p: Ptr, l: int)
    requires InPlace(queues, procs) && 0 <= l < MLFQ_LEVELS && p in queues[l]
    ensures var queues' := queues[l := Removed(queues[l], p)];
      InPlace(queues', procs) && !IsQueued(queues', p) && Total(queues') == Total(queues) - 1
  {
    var queues' := queues[l := Removed(queues[l], p)];
    assert LevelInPlace(queues[l], procs, l);
    RemovedFacts(queues[l], p);
    forall m | 0 <= m < MLFQ_LEVELS ensures LevelInPlace(queues'[m], procs, m) && p !in queues'[m] {
      assert LevelInPlace(queues[m], procs, m);
    }
  }

  // One step of the boost: the first process of level l moves to the end of level 0.
  function Lifted(p: Proc): Proc { p.(level := 0, slice := LevelSlice(0)) }

  lemma LiftedInPlace(queues: seq<seq<Ptr>>, procs: map<Ptr, Proc>, l: int)
    requires InPlace(queues, procs) && 0 < l < MLFQ_LEVELS && queues[l] != []
    ensures var p := queues[l][0];
      p in procs && InPlace(queues[l := queues[l][1..]][0 := queues[0] + [p]], procs[p := Lifted(procs[p])])
  {
    var p := queues[l][0];
    assert LevelInPlace(queues[l], procs, l);
    assert LevelInPlace(queues[0], procs, 0);
    var queues', procs' := queues[l := queues[l][1..]][0 := queues[0] + [p]], procs[p := Lifted(procs[p])];
    AppendedFacts(queues[0], p);
    assert queues[l] == [p] + queues[l][1..];
    forall m | 0 <= m < MLFQ_LEVELS ensures LevelInPlace(queues'[m], procs', m) {
      assert LevelInPlace(queues[m], procs, m);
    }
  }

  lemma InOrderMembers(queues: seq<seq<Ptr>>, p: Ptr)
    requires |queues| == MLFQ_LEVELS
    ensures p in InOrder(queues) <==> IsQueued(queues, p)
  {
    var a, b, c, d := queues[0], queues[1], queues[2], queues[3];
    assert p in a + b + c + d <==> p in a + b + c || p in d;
    assert p in a + b + c <==> p in a + b || p in c;
    assert p in a + b <==> p in a || p in b;
    if IsQueued(queues, p) {
      var l :| 0 <= l < |queues| && p in queues[l];
      assert l == 0 || l == 1 || l == 2 || l == 3;
    }
  }

  // While the levels between are empty, moving the first of level l behind level 0 keeps the order.
  lemma MovedInOrder(queues: seq<seq<Ptr>>, l: int)
    requires |queues| == MLFQ_LEVELS && 0 < l < MLFQ_LEVELS && queues[l] != []
    requires forall m :: 0 < m < l ==> queues[m] == []
    ensures InOrder(queues[l := queues[l][1..]][0 := queues[0] + [queues[l][0]]]) == InOrder(queues)
  {
    var p, rest := queues[l][0], queues[l][1..];
    assert queues[l] == [p] + rest;
    var queues' := queues[l := rest][0 := queues[0] + [p]];
    if l == 1 {
      assert queues[0] + [p] + rest == queues[0] + queues[1];
    } else if l == 2 {
      assert queues[0] + [p] + [] + rest == queues[0] + [] + queues[2];
    } else {
      assert queues[0] + [p] + [] + [] + rest == queues[0] + [] + [] + queues[3];
    }
  }

  // Only queued processes differ, by having been lifted.
  ghost predicate MovedOnly(queues: seq<seq<Ptr>>, procs: map<Ptr, Proc>, procs': map<Ptr, Proc>) {
    && procs'.Keys == procs.Keys
    && forall x :: x in procs ==>
         procs'[x] == procs[x] || (IsQueued(queues, x) && procs'[x] == procs[x].(level := 0, slice := 2))
  }

  ghost predicate EmptyUpTo(queues: seq<seq<Ptr>>, i: int)
    requires |queues| == MLFQ_LEVELS
  {
    forall m :: 0 < m < i && m < MLFQ_LEVELS ==> queues[m] == []
  }

  // A boost that has emptied the levels below i has changed nothing else so far.
  ghost predicate Boosting(queues: seq<seq<Ptr>>, procs: map<Ptr, Proc>, queues': seq<seq<Ptr>>,
                           procs': map<Ptr, Proc>, i: int)
  {
    && |queues| == MLFQ_LEVELS && InPlace(queues', procs') && AllFine(procs') && InOrder(queues') == InOrder(queues)
    && MovedOnly(queues, procs, procs') && EmptyUpTo(queues', i) && Total(queues') == Total(queues)
  }

  lemma BoostStep(queues: seq<seq<Ptr>>, procs: map<Ptr, Proc>, queues': seq<seq<Ptr>>, procs': map<Ptr, Proc>, i: int)
    requires Boosting(queues, procs, queues', procs', i) && 0 < i < MLFQ_LEVELS && queues'[i] != []
    ensures var p := queues'[i][0];
      p in procs' &&
      Boosting(queues, procs, queues'[i := queues'[i][1..]][0 := queues'[0] + [p]], procs'[p := Lifted(procs'[p])], i)
  {
    var p := queues'[i][0];
    LiftedInPlace(queues', procs', i);
    MovedInOrder(queues', i);
    InOrderMembers(queues, p);
    InOrderMembers(queues', p);
    hide InPlace, InOrder;
    assert p in queues'[i] && IsQueued(queues', p);
    assert IsQueued(queues, p);
  }

  // At the end every queued process has been lifted.
  lemma BoostDone(queues: seq<seq<Ptr>>, procs: map<Ptr, Proc>, queues': seq<seq<Ptr>>, procs': map<Ptr, Proc>)
    requires Boosting(queues, procs, queues', procs', MLFQ_LEVELS)
    ensures queues' == [InOrder(queues), [], [], []] && AllLifted(queues, procs, procs')
  {
    assert queues'[1] == [] && queues'[2] == [] && queues'[3] == [];
    assert queues'[0] + [] + [] + [] == queues'[0];
    assert queues' == [queues'[0], [], [], []];
    forall x | x in procs && IsQueued(queues, x) ensures procs'[x] == procs[x].(level := 0, slice := 2) {
      InOrderMembers(queues, x);
      InOrderMembers(queues', x);
      assert LevelInPlace(queues'[0], procs', 0);
    }
  }

  ghost predicate AllLifted(queues: seq<seq<Ptr>>, procs: map<Ptr, Proc>, procs': map<Ptr, Proc>) {
    && procs'.Keys == procs.Keys
    && (forall x :: x in procs && IsQueued(queues, x) ==> procs'[x] == procs[x].(level := 0, slice := 2))
    && (forall x :: x in procs && !IsQueued(queues, x) ==> procs'[x] == procs[x])
  }

  lemma Sized(q0: seq<seq<Ptr>>, p0: map<Ptr, Proc>, queues: seq<seq<Ptr>>, procs: map<Ptr, Proc>, i: int)
    requires Boosting(q0, p0, queues, procs, i)
    ensures |queues| == MLFQ_LEVELS
  {
  }

  // After n ticks: the slice has gone down by as many, and rescheduling is asked for once none is left.
  ghost function TickedBy(p: Proc, n: nat): Proc {
    p.(slice := p.slice - n, needResched := p.needResched || (n > 0 && p.slice <= n))
  }

  lemma CountedInPlace(queues: seq<seq<Ptr>>, procs: map<Ptr, Proc>, p: Ptr)
    requires InPlace(queues, procs) && p in procs
    ensures var q := procs[p].(schedCount := procs[p].schedCount + 1); InPlace(queues, procs[p := q])
  {
    var q := procs[p].(schedCount := procs[p].schedCount + 1);
    forall l | 0 <= l < MLFQ_LEVELS ensures LevelInPlace(queues[l], procs[p := q], l) {
      assert LevelInPlace(queues[l], procs, l);
    }
  }

  // The first queue that is not empty holds the front process.
  lemma FrontAt(queues: seq<seq<Ptr>>, i: int)
    requires |queues| == MLFQ_LEVELS && 0 <= i < MLFQ_LEVELS && queues[i] != [] && forall m :: 0 <= m < i ==>
      queues[m] == []
    ensures Front(queues) == queues[i][0] && InOrder(queues) != []
    ensures InOrder(queues)[1..] == InOrder(queues[i := queues[i][1..]])
  {
    var p, rest := queues[i][0], queues[i][1..];
    var t := Later(queues, i);
    OrderFrom(queues, i);
    OrderFrom(queues[i := rest], i);
    assert Later(queues[i := rest], i) == t;
    hide InOrder, Later;
    FirstOf(queues[i], t);
  }

  lemma FirstOf<T>(s: seq<T>, t: seq<T>)
    requires s != []
    ensures (s + t)[0] == s[0] && (s + t)[1..] == s[1..] + t
  {
  }

  // The levels below level i, in order.
  ghost function Later(queues: seq<seq<Ptr>>, i: int): seq<Ptr>
    requires |queues| == MLFQ_LEVELS && 0 <= i < MLFQ_LEVELS
  {
    if i == 0 then queues[1] + queues[2] + queues[3]
    else if i == 1 then queues[2] + queues[3] else if i == 2 then queues[3] else []
  }

  lemma OrderFrom(queues: seq<seq<Ptr>>, i: int)
    requires |queues| == MLFQ_LEVELS && 0 <= i < MLFQ_LEVELS && forall m :: 0 <= m < i ==> queues[m] == []
    ensures InOrder(queues) == queues[i] + Later(queues, i)
  {
    var a, b, c, d := queues[0], queues[1], queues[2], queues[3];
    assert a + b + c + d == a + (b + c + d);
    assert i > 0 ==> [] + b + c + d == b + (c + d);
    assert i > 1 ==> [] + [] + c + d == c + d;
    assert i > 2 ==> [] + [] + [] + d == d + [];
  }

  lemma FrontFacts(queues: seq<seq<Ptr>>)
    requires |queues| == MLFQ_LEVELS
    ensures queues[0] != [] ==> InOrder(queues) != [] && Front(queues) == queues[0][0]
  {
    if queues[0] != [] { FrontAt(queues, 0); }
  }

  // What taking the front process out does to the order, with and without a boost at the pick.
  lemma DispatchedOrder(q0: seq<seq<Ptr>>, q1: seq<seq<Ptr>>, procs: map<Ptr, Proc>, p: Ptr)
    requires |q0| == MLFQ_LEVELS && InPlace(q1, procs) && p == Front(q0) && p != Null
    requires p in procs && 0 <= procs[p].level < MLFQ_LEVELS && p in q1[procs[p].level]
    requires q1 == q0 || q1 == [InOrder(q0), [], [], []]
    ensures var q := q1[procs[p].level := Removed(q1[procs[p].level], p)];
      && InOrder(q) == InOrder(q0)[1..] && (q1 == [InOrder(q0), [], [], []] ==> q[0] == InOrder(q0)[1..])
      && (q0[0] != [] ==> q0[0][1..] <= q[0])
  {
    var l := procs[p].level;
    assert InOrder(q0) + [] + [] + [] == InOrder(q0);
    assert InOrder(q1) == InOrder(q0) && Front(q1) == p;
    var i := if q1[0] != [] then 0 else if q1[1] != [] then 1 else if q1[2] != [] then 2 else 3;
    assert q1[i] != [];
    FrontAt(q1, i);
    assert LevelInPlace(q1[i], procs, i) && q1[i][0] == p;
    assert l == i && Removed(q1[l], p) == q1[l][1..];
    if q0[0] != [] && q1 != q0 {
      var a, b := q0[0], q0[1] + q0[2] + q0[3];
      assert InOrder(q0) == a + b && (a + b)[1..] == a[1..] + b;
    }
  }

  datatype Event = Arrive(p: Ptr) | Tick(current: Ptr, runnable: bool) | Pick

  // The processes of line are picked first, in their order.
  ghost predicate InTurn(line: seq<Ptr>, picked: seq<Ptr>) {
    forall k :: 0 <= k < |line| && k < |picked| ==> picked[k] == line[k]
  }

  lemma FrontLine(queues: seq<seq<Ptr>>, picked: seq<Ptr>)
    requires |queues| == MLFQ_LEVELS && InTurn(InOrder(queues), picked)
    ensures InTurn(queues[0], picked)
  {
  }

  // One event of a run: the line moves up at a pick, and keeps its places otherwise.
  lemma Advanced(line: seq<Ptr>, had: seq<Ptr>, was: seq<seq<Ptr>>, queues: seq<seq<Ptr>>, pick: bool, p: Ptr,
                 picked: seq<Ptr>, boosting: bool)
    requires |was| == MLFQ_LEVELS && |queues| == MLFQ_LEVELS && InTurn(line, had)
    requires picked == (if pick then had + [p] else had)
    requires !pick ==> p == Null && was[0] <= queues[0]
    requires pick ==> p == Front(was) && (p == Null <==> InOrder(was) == [])
    requires pick && was[0] != [] ==> p == was[0][0] && was[0][1..] <= queues[0]
    requires boosting ==> pick && had == [] && line == InOrder(was) && (p != Null ==> queues[0] == InOrder(was)[1..])
    requires !boosting && |had| <= |line| ==> line[|had|..] <= was[0]
    ensures InTurn(line, picked) && (|picked| <= |line| ==> line[|picked|..] <= queues[0])
  {
    if pick && |had| < |line| && !boosting {
      var rest := line[|had|..];
      assert rest[0] == line[|had|] && was[0][0] == rest[0];
      assert line[|picked|..] == rest[1..];
    }
    if was[0] != [] { FrontFacts(was); }
  }

  lemma TickedInPlace(queues: seq<seq<Ptr>>, procs: map<Ptr, Proc>, p: Ptr)
    requires InPlace(queues, procs) && AllFine(procs) && p in procs && !IsQueued(queues, p) && p != Null
    ensures InPlace(queues, procs[p := TickedBy(procs[p], 1)]) && AllFine(procs[p := TickedBy(procs[p], 1)])
  {
  }

  // How many of the events are picks.
  function Picks(events: seq<Event>): nat {
    if events == [] then 0
    else Picks(events[..|events| - 1]) + if events[|events| - 1] == Pick then 1 else 0
  }

  lemma PicksNext(events: seq<Event>, i: nat)
    requires i < |events|
    ensures Picks(events[..i + 1]) == Picks(events[..i]) + if events[i] == Pick then 1 else 0
  {
    assert events[..i + 1][..i] == events[..i];
  }

  // How often p was ticked while runnable.
  function TicksOf(events: seq<Event>, p: Ptr): nat {
    if events == [] then 0
    else TicksOf(events[..|events| - 1], p) + if events[|events| - 1] == Tick(p, true) then 1 else 0
  }

  lemma TicksNext(events: seq<Event>, i: nat, p: Ptr)
    requires i < |events|
    ensures TicksOf(events[..i + 1], p) == TicksOf(events[..i], p) + if events[i] == Tick(p, true) then 1 else 0
  {
    assert events[..i + 1][..i] == events[..i];
  }

  // An event changes nothing about the processes out of the queues but the one it names.
  ghost predicate Away(queues: seq<seq<Ptr>>, procs: map<Ptr, Proc>, queues': seq<seq<Ptr>>, procs': map<Ptr, Proc>,
                       e: Event)
  {
    forall x :: x in procs && !IsQueued(queues, x) && e != Arrive(x) ==>
      && x in procs' && !IsQueued(queues', x)
      && procs'[x] == if e != Tick(x, true) then procs[x] else TickedBy(procs[x], 1)
  }

  lemma AwayEnqueued(queues: seq<seq<Ptr>>, procs: map<Ptr, Proc>, p: Ptr, q: Proc, l: int)
    requires |queues| == MLFQ_LEVELS && 0 <= l < MLFQ_LEVELS
    ensures Away(queues, procs, queues[l := queues[l] + [p]], procs[p := q], Arrive(p))
  {
    var queues' := queues[l := queues[l] + [p]];
    forall x | x != p && IsQueued(queues', x) ensures IsQueued(queues, x) {
      var m :| 0 <= m < |queues'| && x in queues'[m];
      assert x in queues[m];
    }
  }

  lemma NotQueued(queues: seq<seq<Ptr>>, p: Ptr)
    requires |queues| == MLFQ_LEVELS
    ensures IsQueued(queues, p) <==> !(p !in queues[0] && p !in queues[1] && p !in queues[2] && p !in queues[3])
  {
    if IsQueued(queues, p) {
      var l :| 0 <= l < |queues| && p in queues[l];
      assert l == 0 || l == 1 || l == 2 || l == 3;
    }
  }

  lemma AwayNothing(queues: seq<seq<Ptr>>, procs: map<Ptr, Proc>, e: Event)
    requires e.Arrive? || (e.Tick? && (e.current !in procs || IsQueued(queues, e.current)))
    ensures Away(queues, procs, queues, procs, e)
  {
  }

  lemma AwayTicked(queues: seq<seq<Ptr>>, procs: map<Ptr, Proc>, procs': map<Ptr, Proc>, p: Ptr, runnable: bool)
    requires p in procs
    requires procs' == if runnable then procs[p := TickedBy(procs[p], 1)] else procs
    ensures Away(queues, procs, queues, procs', Tick(p, runnable))
  {
  }

  lemma AwayPicked(q0: seq<seq<Ptr>>, p0: map<Ptr, Proc>, q1: seq<seq<Ptr>>, lifted: map<Ptr, Proc>, p: Ptr, q: Proc,
                   l: int)
    requires |q0| == MLFQ_LEVELS && (q1 == q0 || q1 == [InOrder(q0), [], [], []]) && 0 <= l < MLFQ_LEVELS
    requires IsQueued(q0, p) && NoRepeats(q1[l]) && (lifted == p0 || AllLifted(q0, p0, lifted))
    ensures Away(q0, p0, q1[l := Removed(q1[l], p)], lifted[p := q], Pick)
  {
    var queues' := q1[l := Removed(q1[l], p)];
    forall x | IsQueued(queues', x) ensures IsQueued(q0, x) {
      var m :| 0 <= m < |queues'| && x in queues'[m];
      RemovedFacts(q1[l], p);
      assert x in q1[m];
      InOrderMembers(q0, x);
    }
  }

  lemma AwayEmpty(q0: seq<seq<Ptr>>, p0: map<Ptr, Proc>, q1: seq<seq<Ptr>>, lifted: map<Ptr, Proc>)
    requires |q0| == MLFQ_LEVELS && (q1 == q0 || q1 == [InOrder(q0), [], [], []])
    requires lifted == p0 || AllLifted(q0, p0, lifted)
    ensures Away(q0, p0, q1, lifted, Pick)
  {
    forall x | IsQueued(q1, x) ensures IsQueued(q0, x) {
      var m :| 0 <= m < |q1| && x in q1[m];
      InOrderMembers(q0, x);
    }
  }

  lemma FrontQueued(queues: seq<seq<Ptr>>, procs: map<Ptr, Proc>)
    requires InPlace(queues, procs) && InOrder(queues) != []
    ensures var p := Front(queues);
      IsQueued(queues, p) && p in procs && 0 <= procs[p].level < MLFQ_LEVELS &&
      procs[p].slice == LevelSlice(procs[p].level)
  {
    var p := Front(queues);
    assert p in InOrder(queues);
    InOrderMembers(queues, p);
    var l :| 0 <= l < |queues| && p in queues[l];
    assert LevelInPlace(queues[l], procs, l);
  }

  // A process that was p has been picked, at a boost or not, was ticked n times, and is queued again as q.
  ghost predicate TurnOf(p: Proc, boosted: bool, n: nat, q: Proc, smart: bool) {
    0 <= p.level < 4 &&
    var l := if boosted then 0 else p.level;
    var full := [2, 4, 8, 16][l];
    && IsSlice(q.slice, q.level) && q.schedCount == p.schedCount + 1
    && (q.needResched <==> p.needResched || n >= full)
    && (n >= full ==> q.level == if l == 3 then 3 else l + 1)
    && (n < full ==> q.level == if !smart || q.score < 300 || l == 0 then 0 else l - 1)
    && (smart ==> q.lastBurst == if n >= full then full else n)
    && if smart then Scored(p.(level := l, slice := full - n), q)
       else q.score == p.score && q.lastBurst == p.lastBurst
  }

  // The process p as it leaves the queues at a pick.
  ghost predicate Chosen(p: Proc, boosted: bool, r: Proc) {
    && Fine(p) && IsSlice(r.slice, r.level)
    && r == p.(level := if boosted then 0 else p.level, slice := r.slice, schedCount := p.schedCount + 1)
  }

  lemma TurnDone(p: Proc, boosted: bool, r: Proc, n: nat, q: Proc, smart: bool)
    requires Chosen(p, boosted, r) && Levelled(TickedBy(r, n), q, smart)
    ensures TurnOf(p, boosted, n, q, smart)
  {
  }

  ghost predicate AtEnd(queues: seq<seq<Ptr>>, p: Ptr, l: int) {
    0 <= l < |queues| && queues[l] != [] && queues[l][|queues[l]| - 1] == p
  }

  lemma AtStart(events: seq<Event>, p: Ptr, r: Proc)
    ensures TickedBy(r, TicksOf(events[..0], p)) == r
  {
  }

  lemma HasSlice(p: Proc, boosted: bool, r: Proc)
    requires Chosen(p, boosted, r)
    ensures r.slice > 0
  {
  }

  lemma TickedMore(r: Proc, n: nat)
    requires r.slice > 0
    ensures TickedBy(TickedBy(r, n), 1) == TickedBy(r, n + 1) && TickedBy(r, 0) == r
  {
  }

  class MlfqQueue {
    const smart: bool               // mlfq_sched_class or basic_mlfq_sched_class
    var queues: seq<seq<Ptr>>
    var globalTimer: int
    var procNum: int
    var procs: map<Ptr, Proc>

    constructor (smart: bool, procs: map<Ptr, Proc>)
      requires AllFine(procs) && Null !in procs
      ensures Valid() && queues == [[], [], [], []] && this.procs == procs && this.smart == smart
    {
      this.smart, this.procs := smart, procs;
      queues, globalTimer, procNum := [[], [], [], []], 0, 0;
    }

    ghost predicate Valid()
      reads this
    {
      && InPlace(queues, procs) && AllFine(procs) && Null !in procs
      && procNum == Total(queues) && 0 <= globalTimer < WORD
    }

    // The level rule of the scheduler in use.
    method UpdateLevel(p: Ptr)
      requires p in procs && Fine(procs[p])
      modifies this`procs
      ensures procs == old(procs)[p := if smart then Predicted(old(procs)[p]) else Adjusted(old(procs)[p])]
    {
      var q := procs[p];
      if smart {
        var maxSlice := LevelSlice(q.level);
        var used := if q.slice <= 0 then maxSlice else maxSlice - q.slice;
        q := q.(lastBurst := used);
        var ratio := used * SCORE_SCALE / maxSlice;
        if q.score == 0 {
          q := q.(score := ratio);
        } else {
          q := q.(score := (6 * q.score + 4 * ratio) / 10);
        }
        if q.slice <= 0 {
          if q.level < MLFQ_LEVELS - 1 {
            q := q.(level := q.level + 1);
          }
        } else if q.score < IO_BOUND_THRESHOLD {
          q := q.(level := 0);
        } else if q.level > 0 {
          q := q.(level := q.level - 1);
        }
      } else if q.slice <= 0 {
        if q.level < MLFQ_LEVELS - 1 {
          q := q.(level := q.level + 1);
        }
      } else {
        q := q.(level := 0);
      }
      procs := procs[p := q];
    }

    // mlfq_enqueue; whoever waits already keeps its place.
    method Enqueue(p: Ptr)
      requires Valid() && p in procs && !IsQueued(queues, p)
      modifies this`queues, this`procs, this`procNum
      ensures Valid() && procNum == old(procNum) + 1
      ensures var q := Arriving(old(procs)[p]);
        && procs == old(procs)[p := q]
        && queues == old(queues)[q.level := old(queues)[q.level] + [p]]
      ensures old(procs)[p].schedCount == 0 ==> procs[p] == old(procs)[p].(level := 0, slice := 2)
      ensures old(procs)[p].schedCount > 0 ==> Levelled(old(procs)[p], procs[p], smart)
    {
      if procs[p].schedCount > 0 { Levels(procs[p], smart); }
      ghost var q := Arriving(procs[p]);
      Enqueued(queues, procs, p, q);
      Prepare(p);
      hide InPlace, Arriving, LevelSlice, Total, IsQueued;
      var l := procs[p].level;
      queues := queues[l := queues[l] + [p]];
      procNum := procNum + 1;
    }

    // The level and the slice with which p enters the queues.
    method Prepare(p: Ptr)
      requires p in procs && Fine(procs[p])
      modifies this`procs
      ensures procs == old(procs)[p := Arriving(old(procs)[p])]
    {
      if procs[p].schedCount > 0 {
        UpdateLevel(p);
      } else {
        procs := procs[p := procs[p].(level := 0)];
      }
      hide Predicted, Adjusted, LevelSlice;
      procs := procs[p := procs[p].(slice := LevelSlice(procs[p].level))];
    }

    // A process as it enters the queues.
    ghost function Arriving(p: Proc): (q: Proc)
      requires Fine(p)
      ensures Fine(q) && q.slice == LevelSlice(q.level)
    {
      if p.schedCount > 0 then Requeued(p, smart) else p.(level := 0, slice := LevelSlice(0))
    }

    // mlfq_dequeue
    method Dequeue(p: Ptr)
      requires Valid() && IsQueued(queues, p)
      modifies this`queues, this`procNum
      ensures Valid() && procNum == old(procNum) - 1 && !IsQueued(queues, p)
      ensures p in procs && queues == old(queues)[procs[p].level := Removed(old(queues)[procs[p].level], p)]
    {
      ghost var m :| 0 <= m < |queues| && p in queues[m];
      assert LevelInPlace(queues[m], procs, m);
      var l := procs[p].level;
      Dequeued(queues, procs, p, l);
      queues := queues[l := Removed(queues[l], p)];
      procNum := procNum - 1;
    }

    // priority_boost: level 0 becomes all queues in order; nobody overtakes.
    method Boost()
      requires Valid()
      modifies this`queues, this`procs
      ensures Valid() && queues == [InOrder(old(queues)), [], [], []]
      ensures AllLifted(old(queues), old(procs), procs)
    {
      ghost var q0, p0 := queues, procs;
      assert Boosting(q0, p0, queues, procs, 1);
      for i := 1 to MLFQ_LEVELS
        invariant Boosting(q0, p0, queues, procs, i)
      {
        BoostLevel(i, q0, p0);
      }
      BoostDone(q0, p0, queues, procs);
    }

    method BoostLevel(i: int, ghost q0: seq<seq<Ptr>>, ghost p0: map<Ptr, Proc>)
      requires 0 < i < MLFQ_LEVELS && Boosting(q0, p0, queues, procs, i)
      modifies this`queues, this`procs
      ensures Boosting(q0, p0, queues, procs, i + 1)
    {
      Sized(q0, p0, queues, procs, i);
      hide Boosting;
      while queues[i] != []
        invariant |queues| == MLFQ_LEVELS && Boosting(q0, p0, queues, procs, i)
        decreases |queues[i]|
      {
        LiftFirst(i, q0, p0);
      }
    }

    // The first process of level i goes to the end of level 0.
    method LiftFirst(i: int, ghost q0: seq<seq<Ptr>>, ghost p0: map<Ptr, Proc>)
      requires |queues| == MLFQ_LEVELS && 0 < i < MLFQ_LEVELS && Boosting(q0, p0, queues, procs, i) && queues[i] != []
      modifies this`queues, this`procs
      ensures |queues| == MLFQ_LEVELS && Boosting(q0, p0, queues, procs, i) && |queues[i]| < |old(queues)[i]|
    {
      BoostStep(q0, p0, queues, procs, i);
      hide Boosting, Lifted;
      var p := queues[i][0];
      queues := queues[i := queues[i][1..]];
      procs := procs[p := Lifted(procs[p])];
      queues := queues[0 := queues[0] + [p]];
    }

    // mlfq_pick_next: the front process, whether or not this pick boosts.
    method PickNext() returns (p: Ptr, ghost lifted: map<Ptr, Proc>)
      requires Valid()
      modifies this`queues, this`procs, this`globalTimer
      ensures Valid() && p == Front(old(queues))
      ensures queues == if old(globalTimer) >= BOOST_TICKS then [InOrder(old(queues)), [], [], []] else old(queues)
      ensures globalTimer == if old(globalTimer) >= BOOST_TICKS then 0 else old(globalTimer)
      ensures if old(globalTimer) >= BOOST_TICKS then AllLifted(old(queues), old(procs), lifted)
        else lifted == old(procs)
      ensures p == Null ==> procs == lifted
      ensures p != Null ==> p in lifted && procs == lifted[p := lifted[p].(schedCount := lifted[p].schedCount + 1)]
      ensures p != Null ==> Fine(procs[p]) && p in queues[procs[p].level]
    {
      hide *;
      BoostIfDue();
      lifted := procs;
      p := PickFront();
    }

    // The boost at the beginning of mlfq_pick_next.
    method BoostIfDue()
      requires Valid()
      modifies this`queues, this`procs, this`globalTimer
      ensures Valid() && Front(queues) == Front(old(queues))
      ensures queues == if old(globalTimer) >= BOOST_TICKS then [InOrder(old(queues)), [], [], []] else old(queues)
      ensures globalTimer == if old(globalTimer) >= BOOST_TICKS then 0 else old(globalTimer)
      ensures if old(globalTimer) >= BOOST_TICKS then AllLifted(old(queues), old(procs), procs)
        else procs == old(procs)
    {
      if globalTimer >= BOOST_TICKS {
        ghost var q0 := queues;
        Boost();
        globalTimer := 0;
        assert InOrder(q0) + [] + [] + [] == InOrder(q0);
      }
    }

    // The scan for the first queue that is not empty; its first process is counted.
    method PickFront() returns (p: Ptr)
      requires Valid()
      modifies this`procs
      ensures Valid() && p == Front(queues)
      ensures p == Null ==> procs == old(procs)
      ensures p != Null ==>
        p in old(procs) && procs == old(procs)[p := old(procs)[p].(schedCount := old(procs)[p].schedCount + 1)]
      ensures p != Null ==> Fine(procs[p]) && p in queues[procs[p].level]
    {
      p := Null;
      for i := 0 to MLFQ_LEVELS
        invariant p == Null && forall m :: 0 <= m < i ==> queues[m] == []
      {
        if queues[i] != [] {
          p := queues[i][0];
          FrontAt(queues, i);
          assert LevelInPlace(queues[i], procs, i);
          CountedInPlace(queues, procs, p);
          procs := procs[p := procs[p].(schedCount := procs[p].schedCount + 1)];
          return;
        }
      }
      assert queues[0] == [] && queues[1] == [] && queues[2] == [] && queues[3] == [];
    }

    lemma Picked(q0: seq<seq<Ptr>>, p0: map<Ptr, Proc>, q1: seq<seq<Ptr>>, lifted: map<Ptr, Proc>, p: Ptr, boosts: bool)
      requires Valid() && queues == q1 && InPlace(q0, p0) && AllFine(p0) && p == Front(q0) && p != Null
      requires q1 == if boosts then [InOrder(q0), [], [], []] else q0
      requires if boosts then AllLifted(q0, p0, lifted) else lifted == p0
      requires p in lifted && procs == lifted[p := lifted[p].(schedCount := lifted[p].schedCount + 1)]
      requires p in q1[procs[p].level]
      ensures IsQueued(q1, p) && p in p0 && Chosen(p0[p], boosts, procs[p])
      ensures Away(q0, p0, q1[procs[p].level := Removed(q1[procs[p].level], p)], procs, Pick)
    {
      FrontQueued(q0, p0);
      SliceIs(p0[p].level);
      assert LevelInPlace(q1[procs[p].level], procs, procs[p].level);
      AwayPicked(q0, p0, q1, lifted, p, procs[p], procs[p].level);
    }

    // A pick and the removal of the picked process, as schedule() does them.
    method Dispatch() returns (p: Ptr)
      requires Valid()
      modifies this`queues, this`procs, this`globalTimer, this`procNum
      ensures Valid() && p == Front(old(queues)) && (p == Null <==> InOrder(old(queues)) == [])
      ensures p != Null ==> InOrder(queues) == InOrder(old(queues))[1..]
      ensures old(globalTimer) >= BOOST_TICKS && p != Null ==> queues[0] == InOrder(old(queues))[1..]
      ensures old(queues)[0] != [] ==> p == old(queues)[0][0] && old(queues)[0][1..] <= queues[0]
      ensures Away(old(queues), old(procs), queues, procs, Pick)
      ensures p != Null ==> p in old(procs) && p in procs && !IsQueued(queues, p)
      ensures p != Null ==> Chosen(old(procs)[p], old(globalTimer) >= BOOST_TICKS, procs[p])
    {
      ghost var q0, p0, boosts := queues, procs, globalTimer >= BOOST_TICKS;
      ghost var lifted;
      p, lifted := PickNext();
      if p != Null {
        ghost var q1, l := queues, procs[p].level;
        Picked(q0, p0, q1, lifted, p, boosts);
        Dequeue(p);
        DispatchedOrder(q0, q1, procs, p);
      } else {
        AwayEmpty(q0, p0, queues, lifted);
      }
      FrontFacts(q0);
    }

    // mlfq_proc_tick
    method ProcTick(p: Ptr, runnable: bool)
      requires Valid() && p in procs && !IsQueued(queues, p)
      modifies this`procs, this`globalTimer
      ensures Valid() && globalTimer == (old(globalTimer) + 1) % WORD
      ensures !runnable ==> procs == old(procs)
      ensures var q := old(procs)[p];
        runnable ==>
          procs == old(procs)[p := q.(slice := q.slice - 1, needResched := q.needResched || q.slice <= 1)]
    {
      if runnable {
        TickedInPlace(queues, procs, p);
        hide InPlace, AllFine;
        CountDown(p);
      }
      globalTimer := (globalTimer + 1) % WORD;
    }

    method CountDown(p: Ptr)
      requires p in procs
      modifies this`procs
      ensures p in old(procs) && procs == old(procs)[p := TickedBy(old(procs)[p], 1)]
    {
      procs := procs[p := procs[p].(slice := procs[p].slice - 1)];
      if procs[p].slice <= 0 {
        procs := procs[p := procs[p].(needResched := true)];
      }
    }

    method Handle(e: Event) returns (p: Ptr)
      requires Valid()
      modifies this`queues, this`procs, this`globalTimer, this`procNum
      ensures Valid()
      ensures e != Pick ==> p == Null && old(queues)[0] <= queues[0]
      ensures e == Pick ==> p == Front(old(queues)) && (p == Null <==> InOrder(old(queues)) == [])
      ensures e == Pick && old(globalTimer) >= BOOST_TICKS && p != Null ==> queues[0] == InOrder(old(queues))[1..]
      ensures e == Pick && old(queues)[0] != [] ==> p == old(queues)[0][0] && old(queues)[0][1..] <= queues[0]
      ensures Away(old(queues), old(procs), queues, procs, e)
    {
      hide Away, IsQueued, AllFine, InOrder, Levelled;
      p := Null;
      ghost var q0, p0 := queues, procs;
      match e {
        case Arrive(q) =>
          NotQueued(queues, q);
          if q in procs && q !in queues[0] && q !in queues[1] && q !in queues[2] && q !in queues[3] {
            Enqueue(q);
            AwayEnqueued(q0, p0, q, procs[q], procs[q].level);
          } else {
            AwayNothing(q0, p0, e);
          }
        case Tick(q, runnable) =>
          NotQueued(queues, q);
          if q in procs && q !in queues[0] && q !in queues[1] && q !in queues[2] && q !in queues[3] {
            ProcTick(q, runnable);
            AwayTicked(q0, p0, procs, q, runnable);
          } else {
            AwayNothing(q0, p0, e);
          }
        case Pick =>
          p := Dispatch();
      }
    }

    // A turn of the front process, in the words of the design: it is picked, anything else happens, and it
    // is queued again. Only how often it was ticked decides its level, its slice and its score, and
    // whether rescheduling was asked for.
    method Turn(events: seq<Event>) returns (p: Ptr)
      requires Valid() && InOrder(queues) != [] && Arrive(Front(queues)) !in events
      modifies this`queues, this`procs, this`globalTimer, this`procNum
      ensures Valid() && p == Front(old(queues)) && p in old(procs) && p in procs
      ensures TurnOf(old(procs)[p], old(globalTimer) >= BOOST_TICKS, TicksOf(events, p), procs[p], smart)
      ensures AtEnd(queues, p, procs[p].level)
    {
      ghost var was, boosts := procs[Front(queues)], globalTimer >= BOOST_TICKS;
      FrontIs();
      hide *;
      p := Dispatch();
      ghost var r := procs[p];
      HandleAll(events, p, was, boosts, r);
      EndTurn(p, was, boosts, r, TicksOf(events, p));
    }

    // What happens between the pick and the enqueue.
    method HandleAll(events: seq<Event>, p: Ptr, ghost was: Proc, ghost boosts: bool, ghost r: Proc)
      requires Valid() && p in procs && !IsQueued(queues, p) && procs[p] == r && Chosen(was, boosts, r)
      requires Arrive(p) !in events
      modifies this`queues, this`procs, this`globalTimer, this`procNum
      ensures Valid() && p in procs && !IsQueued(queues, p) && procs[p] == TickedBy(r, TicksOf(events, p))
    {
      hide *;
      AtStart(events, p, r);
      HasSlice(was, boosts, r);
      for i := 0 to |events|
        invariant Valid() && p in procs && !IsQueued(queues, p) && procs[p] == TickedBy(r, TicksOf(events[..i], p))
      {
        HandleAway(events[i], p, r, TicksOf(events[..i], p));
        TicksNext(events, i, p);
      }
      assert events[..|events|] == events;
    }

    lemma FrontIs()
      requires Valid() && InOrder(queues) != []
      ensures Front(queues) in procs
    {
      FrontQueued(queues, procs);
    }

    // An event while p is out of the queues.
    method HandleAway(e: Event, p: Ptr, ghost r: Proc, ghost n: nat)
      requires Valid() && p in procs && !IsQueued(queues, p) && procs[p] == TickedBy(r, n) && r.slice > 0
      requires e != Arrive(p)
      modifies this`queues, this`procs, this`globalTimer, this`procNum
      ensures Valid() && p in procs && !IsQueued(queues, p)
      ensures procs[p] == TickedBy(r, if e == Tick(p, true) then n + 1 else n)
    {
      hide Valid, IsQueued, TickedBy, InOrder, Front;
      TickedMore(r, n);
      var other := Handle(e);
    }

    // The enqueue that ends a turn.
    method EndTurn(p: Ptr, ghost was: Proc, ghost boosts: bool, ghost r: Proc, ghost n: nat)
      requires Valid() && p in procs && !IsQueued(queues, p) && procs[p] == TickedBy(r, n) && Chosen(was, boosts, r)
      modifies this`queues, this`procs, this`procNum
      ensures Valid() && p in procs && TurnOf(was, boosts, n, procs[p], smart)
      ensures AtEnd(queues, p, procs[p].level)
    {
      hide IsQueued, Levelled, TurnOf;
      Enqueue(p);
      TurnDone(was, boosts, r, n, procs[p], smart);
    }

    // Any sequence of arrivals, ticks and picks; picked has the outcome of every pick, Null if nobody was
    // waiting. Whatever arrives later, the process at position k of level 0 is dispatched at exactly the
    // pick number k + 1; and if the first event is a pick that boosts, the same holds of every waiting
    // process in the order of the levels.
    method Run(events: seq<Event>) returns (picked: seq<Ptr>)
      requires Valid()
      modifies this`queues, this`procs, this`globalTimer, this`procNum
      ensures Valid() && |picked| == Picks(events) && InTurn(old(queues)[0], picked)
      ensures events != [] && events[0] == Pick && old(globalTimer) >= BOOST_TICKS ==>
        InTurn(InOrder(old(queues)), picked)
    {
      ghost var q0, boosts := queues, events != [] && events[0] == Pick && globalTimer >= BOOST_TICKS;
      ghost var line := if boosts then InOrder(q0) else q0[0];
      picked := [];
      for i := 0 to |events|
        invariant Valid() && InTurn(line, picked) && |picked| == Picks(events[..i]) && (i == 0 ==> picked == [])
        invariant i == 0 && boosts ==> queues == q0 && globalTimer >= BOOST_TICKS
        invariant i > 0 || !boosts ==> |picked| <= |line| ==> line[|picked|..] <= queues[0]
      {
        ghost var was, had := queues, picked;
        assert |queues| == MLFQ_LEVELS;
        var p := Handle(events[i]);
        hide InTurn, InOrder, Front, Valid, Picks;
        if events[i] == Pick {
          picked := picked + [p];
        }
        PicksNext(events, i);
        Advanced(line, had, was, queues, events[i] == Pick, p, picked, i == 0 && boosts);
      }
      assert events[..|events|] == events;
      if boosts { FrontLine(q0, picked); }
    }
  }
}
