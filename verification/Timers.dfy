// The delta-encoded timer list of kern/schedule/sched.c.
module Timers {

  datatype Timer = Timer(addr: int)   // a timer_t by its address

  const WORD: int := 0x1_0000_0000

  // 32-bit addition and subtraction
  function Word(x: int): int { x % WORD }

  lemma WordFits(x: int)
    requires 0 <= x < WORD
    ensures Word(x) == x
  {
  }

  // When each queued timer is due, and how many timers were added before it.
  datatype Due = Due(at: int, stamp: int)

  ghost predicate Queued(list: seq<Timer>, due: map<Timer, Due>) {
    && (forall i :: 0 <= i < |list| ==> list[i] in due)
    && (forall i, j :: 0 <= i < j < |list| ==> Earlier(due[list[i]], due[list[j]]))
  }

  // By deadline, ties in the order of adding.
  predicate Earlier(a: Due, b: Due) {
    a.at < b.at || (a.at == b.at && a.stamp < b.stamp)
  }

  // The time the delta of position i counts from.
  ghost function Since(list: seq<Timer>, due: map<Timer, Due>, now: int, i: nat): int {
    if 0 < i <= |list| then When(due, list[i - 1]) else now
  }

  ghost function When(due: map<Timer, Due>, t: Timer): int {
    if t in due then due[t].at else 0
  }

  // Each timer stores how much later it is due than the one before it.
  ghost predicate Deltas(list: seq<Timer>, expires: map<Timer, int>, due: map<Timer, Due>, now: int)
    requires Queued(list, due)
  {
    forall i {:trigger list[i]} :: 0 <= i < |list| ==>
      list[i] in expires && expires[list[i]] == due[list[i]].at - Since(list, due, now, i)
  }

  // Every queued timer is due within one word of time.
  ghost predicate Soon(list: seq<Timer>, due: map<Timer, Due>, now: int, stamps: int)
    requires Queued(list, due)
  {
    forall i :: 0 <= i < |list| ==> now <= due[list[i]].at < now + WORD && due[list[i]].stamp < stamps
  }

  lemma NoTwice(list: seq<Timer>, due: map<Timer, Due>, i: nat, j: nat)
    requires Queued(list, due) && i < |list| && j < |list| && list[i] == list[j]
    ensures i == j
  {
    assert i < j ==> Earlier(due[list[i]], due[list[j]]);
    assert j < i ==> Earlier(due[list[j]], due[list[i]]);
  }

  // The list with t put in at position k.
  function Inserted(list: seq<Timer>, k: nat, t: Timer): seq<Timer>
    requires k <= |list|
  {
    list[..k] + [t] + list[k..]
  }

  function Without(list: seq<Timer>, k: nat): seq<Timer>
    requires k < |list|
  {
    list[..k] + list[k + 1..]
  }

  lemma InsertedQueued(list: seq<Timer>, due: map<Timer, Due>, k: nat, t: Timer, d: Due)
    requires Queued(list, due) && k <= |list| && t !in list
    requires forall i :: 0 <= i < k ==> Earlier(due[list[i]], d)
    requires forall i :: k <= i < |list| ==> Earlier(d, due[list[i]])
    ensures Queued(Inserted(list, k, t), due[t := d])
  {
    var s, due' := Inserted(list, k, t), due[t := d];
    forall i | 0 <= i < |s| ensures s[i] in due' && due'[s[i]] == if i < k then due[list[i]] else if i == k then d
      else due[list[i - 1]] {
      assert i != k ==> s[i] == list[if i < k then i else i - 1];
    }
  }

  lemma WithoutQueued(list: seq<Timer>, due: map<Timer, Due>, k: nat)
    requires Queued(list, due) && k < |list|
    ensures Queued(Without(list, k), due)
  {
    var s := Without(list, k);
    forall i | 0 <= i < |s| ensures s[i] == list[if i < k then i else i + 1] {
    }
  }

  // Only the fields of t and u may differ.
  ghost predicate Kept(e: map<Timer, int>, e': map<Timer, int>, t: Timer, u: Timer) {
    forall x :: x in e && x != t && x != u ==> x in e' && e'[x] == e[x]
  }

  lemma KeptSet(e: map<Timer, int>, e': map<Timer, int>, t: Timer, u: Timer, v: int)
    requires Kept(e, e', t, t)
    ensures Kept(e, e'[u := v], t, u)
    ensures u != t && u in e ==> u in e' && e'[u] == e[u]
  {
  }

  // What the timer at position i stores.
  lemma Stored(list: seq<Timer>, expires: map<Timer, int>, due: map<Timer, Due>, now: int, stamps: int, i: nat)
    requires Queued(list, due) && Deltas(list, expires, due, now) && Soon(list, due, now, stamps) && i < |list|
    ensures list[i] in due && list[i] in expires && expires[list[i]] == due[list[i]].at - Since(list, due, now, i)
    ensures When(due, list[i]) == due[list[i]].at
    ensures now <= due[list[i]].at < now + WORD && Since(list, due, now, i) >= now
    ensures i > 0 ==> Since(list, due, now, i) <= due[list[i]].at
    ensures Since(list, due, now, i + 1) == due[list[i]].at
  {
  }

  // Only the delta of the timer behind the new one has changed, by the part the new one took over.
  lemma InsertedDeltas(list: seq<Timer>, e: map<Timer, int>, e': map<Timer, int>, due: map<Timer, Due>, now: int,
                       stamps: int, k: nat, t: Timer, at: int)
    requires Queued(list, due) && Deltas(list, e, due, now) && Soon(list, due, now, stamps)
    requires k <= |list| && t !in list && now <= at < now + WORD
    requires t in e' && e'[t] == at - Since(list, due, now, k)
    requires k < |list| ==> list[k] in e' && e'[list[k]] == When(due, list[k]) - at
    requires Kept(e, e', t, if k < |list| then list[k] else t)
    requires forall j :: 0 <= j < k ==> When(due, list[j]) <= at
    requires k < |list| ==> at < When(due, list[k])
    ensures var list', due' := Inserted(list, k, t), due[t := Due(at, stamps)];
      Queued(list', due') && Deltas(list', e', due', now) && Soon(list', due', now, stamps + 1)
  {
    var d := Due(at, stamps);
    var list', due' := Inserted(list, k, t), due[t := d];
    assert Queued(list', due') by {
      forall i | k <= i < |list| ensures Earlier(d, due[list[i]]) {
        assert i > k ==> Earlier(due[list[k]], due[list[i]]);
      }
      InsertedQueued(list, due, k, t, d);
    }
    forall i | 0 <= i < |list'|
      ensures list'[i] in e' && e'[list'[i]] == due'[list'[i]].at - Since(list', due', now, i)
      ensures now <= due'[list'[i]].at < now + WORD && due'[list'[i]].stamp < stamps + 1
    {
      SinceInserted(list, due, now, k, t, d, i);
      if i != k {
        var j := if i < k then i else i - 1;
        Stored(list, e, due, now, stamps, j);
        OtherTimer(list, due, k, j);
        hide Queued, Deltas, Soon, Since, Inserted;
      }
    }
  }

  lemma OtherTimer(list: seq<Timer>, due: map<Timer, Due>, k: nat, j: nat)
    requires Queued(list, due) && j < |list|
    ensures k < |list| && k != j ==> list[j] != list[k]
  {
    if k < |list| && list[j] == list[k] { NoTwice(list, due, k, j); }
  }

  // How the timers and the times their deltas count from move when t is put in.
  lemma SinceInserted(list: seq<Timer>, due: map<Timer, Due>, now: int, k: nat, t: Timer, d: Due, i: nat)
    requires Queued(list, due) && k <= |list| && t !in list && i <= |list|
    requires Queued(Inserted(list, k, t), due[t := d])
    ensures Inserted(list, k, t)[i] == if i < k then list[i] else if i == k then t else list[i - 1]
    ensures i < k ==> Inserted(list, k, t)[i] != t && due[t := d][list[i]] == due[list[i]]
    ensures i > k ==> Inserted(list, k, t)[i] != t && due[t := d][list[i - 1]] == due[list[i - 1]]
    ensures Since(Inserted(list, k, t), due[t := d], now, i) ==
      if i <= k then Since(list, due, now, i) else if i == k + 1 then d.at else Since(list, due, now, i - 1)
  {
    var s := Inserted(list, k, t);
    assert i > 0 ==> s[i - 1] == if i - 1 < k then list[i - 1] else if i - 1 == k then t else list[i - 2];
    assert i < k ==> list[i] in list;
    assert i > k ==> list[i - 1] in list;
    assert 0 < i <= k ==> list[i - 1] in list;
    assert i > k + 1 ==> list[i - 2] in list;
  }

  lemma SinceWithout(list: seq<Timer>, due: map<Timer, Due>, now: int, k: nat, i: nat)
    requires k < |list| && i < |list| - 1
    ensures Without(list, k)[i] == list[if i < k then i else i + 1]
    ensures Since(Without(list, k), due, now, i) == if i <= k then Since(list, due, now, i)
      else Since(list, due, now, i + 1)
  {
    var s := Without(list, k);
    assert i > 0 ==> s[i - 1] == list[if i - 1 < k then i - 1 else i];
  }

  // The timer behind the one taken off has got its delta on top.
  lemma WithoutDeltas(list: seq<Timer>, e: map<Timer, int>, e': map<Timer, int>, due: map<Timer, Due>, now: int,
                      stamps: int, k: nat)
    requires Queued(list, due) && Deltas(list, e, due, now) && Soon(list, due, now, stamps) && k < |list|
    requires Kept(e, e', list[k], if k + 1 < |list| then list[k + 1] else list[k])
    requires k + 1 < |list| ==> list[k + 1] in e' && list[k] in e && list[k + 1] in e
    requires k + 1 < |list| ==> e'[list[k + 1]] == e[list[k + 1]] + e[list[k]]
    ensures var s := Without(list, k); Queued(s, due) && Deltas(s, e', due, now) && Soon(s, due, now, stamps)
  {
    var s := Without(list, k);
    WithoutQueued(list, due, k);
    forall i | 0 <= i < |s|
      ensures s[i] in e' && e'[s[i]] == due[s[i]].at - Since(s, due, now, i)
      ensures now <= due[s[i]].at < now + WORD && due[s[i]].stamp < stamps
    {
      var j := if i < k then i else i + 1;
      SinceWithout(list, due, now, k, i);
      Stored(list, e, due, now, stamps, j);
      Stored(list, e, due, now, stamps, k);
      OtherTimer(list, due, k, j);
      OtherTimer(list, due, k + 1, j);
    }
  }

  // One tick: only the first delta counts from now.
  lemma Ticked(list: seq<Timer>, e: map<Timer, int>, e': map<Timer, int>, due: map<Timer, Due>, now: int, stamps: int)
    requires Queued(list, due) && Deltas(list, e, due, now) && Soon(list, due, now, stamps)
    requires list != [] ==> due[list[0]].at > now
    requires list == [] ==> e' == e
    requires list != [] ==> list[0] in e && e' == e[list[0] := e[list[0]] - 1]
    ensures Deltas(list, e', due, now + 1) && Soon(list, due, now + 1, stamps)
  {
    forall i | 0 <= i < |list|
      ensures list[i] in e' && e'[list[i]] == due[list[i]].at - Since(list, due, now + 1, i)
      ensures now + 1 <= due[list[i]].at < now + 1 + WORD && due[list[i]].stamp < stamps
    {
      Stored(list, e, due, now, stamps, i);
      OtherTimer(list, due, 0, i);
      assert i > 0 ==> Earlier(due[list[0]], due[list[i]]);
    }
  }

  ghost predicate AllDue(due: map<Timer, Due>, now: int, fired: seq<Timer>) {
    forall i :: 0 <= i < |fired| ==> fired[i] in due && due[fired[i]].at == now
  }

  lemma AllDueConcat(due: map<Timer, Due>, now: int, s: seq<Timer>, t: seq<Timer>)
    requires AllDue(due, now, s) && AllDue(due, now, t)
    ensures AllDue(due, now, s + t)
  {
  }

  // After a tick that fired the timers of s, a queued timer has fired or is due later.
  lemma FiredOrLater(due: map<Timer, Due>, now: int, s: seq<Timer>, list: seq<Timer>, t: Timer)
    requires Queued(list, due) && AllDue(due, now, s) && (list != [] ==> due[list[0]].at > now) && t in s + list
    ensures t in due && (t in s <==> due[t].at == now)
    ensures t in list <==> due[t].at > now
  {
    forall i | 0 <= i < |list| ensures due[list[i]].at > now {
      assert i > 0 ==> Earlier(due[list[0]], due[list[i]]);
    }
  }

  lemma Moved(s: seq<Timer>, fired: seq<Timer>, l: seq<Timer>)
    requires s == fired + l && l != []
    ensures s == fired + [l[0]] + l[1..]
  {
  }

  function IndexOf(list: seq<Timer>, t: Timer): (i: nat)
    requires t in list
    ensures i < |list| && list[i] == t
  {
    if list[0] == t then 0 else 1 + IndexOf(list[1..], t)
  }

  // ---- timers without deltas ----

  // What a caller knows: the tick count and, for each pending timer, when it is due.
  datatype Clock = Clock(now: int, stamps: int, pending: map<Timer, Due>)

  datatype Event = AddTimer(t: Timer, delay: int) | DelTimer(t: Timer) | OneTick

  // add_timer asserts that the delay is positive and the timer not yet linked; such a call is passed over.
  ghost function After(c: Clock, e: Event): Clock {
    match e
    case AddTimer(t, n) =>
      if t !in c.pending && 0 < n < WORD then
        c.(stamps := c.stamps + 1, pending := c.pending[t := Due(c.now + n, c.stamps)])
      else c
    case DelTimer(t) => c.(pending := c.pending - {t})
    case OneTick =>
      Clock(c.now + 1, c.stamps, map t | t in c.pending && c.pending[t].at != c.now + 1 :: c.pending[t])
  }

  ghost function AfterAll(c: Clock, events: seq<Event>): Clock {
    if events == [] then c else After(AfterAll(c, events[..|events| - 1]), events[|events| - 1])
  }

  // The timers fired at e: at a tick those due then, in the order of adding.
  ghost predicate Fires(c: Clock, e: Event, fired: seq<Timer>) {
    && (forall t :: t in fired <==> e.OneTick? && t in c.pending && c.pending[t].at == c.now + 1)
    && (forall i, j :: 0 <= i < j < |fired| && fired[i] in c.pending && fired[j] in c.pending ==>
          c.pending[fired[i]].stamp < c.pending[fired[j]].stamp)
  }

  function Ticks(events: seq<Event>): nat {
    if events == [] then 0
    else Ticks(events[..|events| - 1]) + if events[|events| - 1].OneTick? then 1 else 0
  }

  predicate Names(e: Event, t: Timer) { !e.OneTick? && e.t == t }

  // Whatever else is added, deleted or fired meanwhile, a pending timer keeps its deadline until it is reached,
  // and is gone from then on.
  lemma {:induction false} StaysUntilDue(c: Clock, events: seq<Event>, t: Timer)
    requires t in c.pending && c.now < c.pending[t].at && forall e :: e in events ==> !Names(e, t)
    ensures AfterAll(c, events).now == c.now + Ticks(events)
    ensures var c' := AfterAll(c, events);
            if c'.now < c.pending[t].at then t in c'.pending && c'.pending[t] == c.pending[t] else t !in c'.pending
  {
    if events != [] {
      var before := events[..|events| - 1];
      assert forall e :: e in before ==> e in events;
      StaysUntilDue(c, before, t);
      assert !Names(events[|events| - 1], t);
    }
  }

  ghost function Pending(list: seq<Timer>, due: map<Timer, Due>): map<Timer, Due> {
    map t | t in list && t in due :: due[t]
  }

  lemma PendingInserted(list: seq<Timer>, due: map<Timer, Due>, k: nat, t: Timer, d: Due)
    requires k <= |list| && t !in list
    ensures Pending(Inserted(list, k, t), due[t := d]) == Pending(list, due)[t := d]
  {
    assert list == list[..k] + list[k..];
    assert forall u :: u in Inserted(list, k, t) <==> u in list || u == t;
  }

  lemma PendingWithout(list: seq<Timer>, due: map<Timer, Due>, t: Timer)
    requires Queued(list, due) && t in list
    ensures Pending(Without(list, IndexOf(list, t)), due) == Pending(list, due) - {t}
  {
    var k := IndexOf(list, t);
    forall j: nat | j < |list| && j != k ensures list[j] != t {
      if list[j] == t { NoTwice(list, due, k, j); }
    }
    hide *;
    WithoutMembers(list, k, t);
    PendingFewer(list, Without(list, k), due, t);
  }

  lemma WithoutMembers(list: seq<Timer>, k: nat, t: Timer)
    requires k < |list| && list[k] == t && forall j: nat :: j < |list| && j != k ==> list[j] != t
    ensures forall u :: u in Without(list, k) <==> u in list && u != t
  {
    assert list == list[..k] + [t] + list[k + 1..];
  }

  lemma PendingFewer(list: seq<Timer>, s: seq<Timer>, due: map<Timer, Due>, t: Timer)
    requires forall u :: u in s <==> u in list && u != t
    ensures Pending(s, due) == Pending(list, due) - {t}
  {
  }

  lemma PendingMembers(list: seq<Timer>, due: map<Timer, Due>, t: Timer)
    requires Queued(list, due)
    ensures t in Pending(list, due) <==> t in list
  {
  }

  lemma DelTimerMeans(now: int, stamps: int, p: map<Timer, Due>, t: Timer)
    ensures After(Clock(now, stamps, p), DelTimer(t)) == Clock(now, stamps, if t in p then p - {t} else p)
  {
  }

  lemma AddTimerMeans(list: seq<Timer>, due: map<Timer, Due>, list': seq<Timer>, due': map<Timer, Due>, k: nat,
                      now: int, stamps: int, t: Timer, n: int)
    requires k <= |list| && t !in list && 0 < n < WORD
    requires list' == Inserted(list, k, t) && due' == due[t := Due(now + n, stamps)]
    ensures t !in Pending(list, due)
    ensures Clock(now, stamps + 1, Pending(list', due')) == After(Clock(now, stamps, Pending(list, due)),
        AddTimer(t, n))
  {
    PendingInserted(list, due, k, t, Due(now + n, stamps));
  }

  lemma PendingAfterAdd(c: Clock, t: Timer, n: int)
    requires t !in c.pending && 0 < n < WORD
    ensures var c' := After(c, AddTimer(t, n)); c'.now == c.now && t in c'.pending && c'.pending[t].at == c.now + n
  {
  }

  lemma TickMeans(now: int, stamps: int, p: map<Timer, Due>, p': map<Timer, Due>, fired: seq<Timer>)
    requires p' == map t | t in p && p[t].at != now + 1 :: p[t]
    requires forall t :: t in fired <==> t in p && p[t].at == now + 1
    requires forall i, j :: 0 <= i < j < |fired| && fired[i] in p && fired[j] in p ==> Earlier(p[fired[i]], p[fired[j]])
    ensures After(Clock(now, stamps, p), OneTick) == Clock(now + 1, stamps, p')
    ensures Fires(Clock(now, stamps, p), OneTick, fired)
  {
  }

  // What a tick leaves pending and what it fires, in terms of the deadlines.
  lemma PendingTicked(was: seq<Timer>, due: map<Timer, Due>, now: int, fired: seq<Timer>, list: seq<Timer>)
    requires Queued(was, due) && Queued(list, due) && was == fired + list && AllDue(due, now, fired)
    requires list != [] ==> due[list[0]].at > now
    ensures var p := Pending(was, due);
            && Pending(list, due) == (map t | t in p && p[t].at != now :: p[t])
            && (forall t :: t in fired <==> t in p && p[t].at == now)
            && (forall i, j :: 0 <= i < j < |fired| && fired[i] in p && fired[j] in p ==>
                  Earlier(p[fired[i]], p[fired[j]]))
  {
    forall t | t in was ensures t in due && (t in fired <==> due[t].at == now) && (t in list <==> due[t].at > now) {
      FiredOrLater(due, now, fired, list, t);
    }
    forall i, j | 0 <= i < j < |fired| ensures fired[i] in due && fired[j] in due &&
      Earlier(due[fired[i]], due[fired[j]]) {
      assert was[i] == fired[i] && was[j] == fired[j];
    }
  }

  lemma TickedView(c: Clock, was: seq<Timer>, due: map<Timer, Due>, now: int, stamps: int, fired: seq<Timer>,
                   list: seq<Timer>)
    requires c == Clock(now, stamps, Pending(was, due))
    requires Queued(was, due) && Queued(list, due) && was == fired + list && AllDue(due, now + 1, fired)
    requires list != [] ==> due[list[0]].at > now + 1
    ensures After(c, OneTick) == Clock(now + 1, stamps, Pending(list, due)) && Fires(c, OneTick, fired)
  {
    PendingTicked(was, due, now + 1, fired, list);
    TickMeans(now, stamps, Pending(was, due), Pending(list, due), fired);
  }

  // The delta of a timer that is not queued does not matter.
  lemma Unqueued(list: seq<Timer>, e: map<Timer, int>, due: map<Timer, Due>, now: int, t: Timer, n: int)
    requires Queued(list, due) && Deltas(list, e, due, now) && t !in list
    ensures Deltas(list, e[t := n], due, now)
  {
  }

  // What fired at each of the first events.
  ghost predicate LogUpTo(c: Clock, events: seq<Event>, log: seq<seq<Timer>>) {
    |log| <= |events| && forall i :: 0 <= i < |log| ==> Fires(AfterAll(c, events[..i]), events[i], log[i])
  }

  lemma NoneYet(c: Clock, events: seq<Event>)
    ensures AfterAll(c, events[..0]) == c && LogUpTo(c, events, [])
  {
  }

  lemma OneMore(c: Clock, events: seq<Event>, log: seq<seq<Timer>>, fired: seq<Timer>)
    requires LogUpTo(c, events, log) && |log| < |events|
    requires Fires(AfterAll(c, events[..|log|]), events[|log|], fired)
    ensures LogUpTo(c, events, log + [fired])
    ensures AfterAll(c, events[..|log| + 1]) == After(AfterAll(c, events[..|log|]), events[|log|])
  {
    hide After, Fires;
    assert events[..|log| + 1][..|log|] == events[..|log|];
  }

  lemma LogDone(c: Clock, events: seq<Event>, log: seq<seq<Timer>>)
    requires LogUpTo(c, events, log) && |log| == |events|
    ensures events[..|log|] == events
    ensures forall i :: 0 <= i < |events| ==> Fires(AfterAll(c, events[..i]), events[i], log[i])
  {
  }

  // None of the first i timers is due later than at.
  ghost predicate NoneLater(list: seq<Timer>, due: map<Timer, Due>, i: nat, at: int) {
    i <= |list| && forall j :: 0 <= j < i ==> When(due, list[j]) <= at
  }

  lemma NoneLaterNext(list: seq<Timer>, due: map<Timer, Due>, i: nat, at: int)
    requires NoneLater(list, due, i, at) && i < |list| && When(due, list[i]) <= at
    ensures NoneLater(list, due, i + 1, at)
  {
  }

  lemma WithoutIs(list: seq<Timer>, k: nat)
    requires k < |list|
    ensures Without(list, k) == list[..k] + list[k + 1..]
  {
  }

  class TimerList {
    var list: seq<Timer>              // timer_list
    var expires: map<Timer, int>
    ghost var now: int                // ticks so far
    ghost var due: map<Timer, Due>
    ghost var stamps: int             // timers added so far

    constructor (expires: map<Timer, int>)
      ensures Valid() && list == [] && now == 0 && this.expires == expires
    {
      list, this.expires := [], expires;
      now, due, stamps := 0, map[], 0;
    }

    ghost predicate Linked()
      reads this
    {
      Queued(list, due) && Deltas(list, expires, due, now) && Soon(list, due, now, stamps)
    }

    // Between ticks the first timer is not due yet, so its delta is not 0.
    ghost predicate Valid()
      reads this
    {
      Linked() && (list != [] ==> When(due, list[0]) > now)
    }

    lemma Parts()
      requires Linked()
      ensures Queued(list, due) && Deltas(list, expires, due, now) && Soon(list, due, now, stamps)
      ensures Since(list, due, now, 0) == now
    {
    }

    // The walk of add_timer has passed i timers: t keeps its delay from there on, and e was before.
    ghost predicate Walking(e: map<Timer, int>, t: Timer, i: nat, at: int)
      reads this
    {
      && i <= |list| && t in expires && expires[t] == at - Since(list, due, now, i)
      && Kept(e, expires, t, t) && NoneLater(list, due, i, at) && Since(list, due, now, i) <= at < now + WORD
    }

    // It has ended there: the timer there, if any, is due later and counts from t.
    ghost predicate Walked(e: map<Timer, int>, t: Timer, i: nat, at: int)
      reads this
    {
      && i <= |list| && t in expires && expires[t] == at - Since(list, due, now, i) && NoneLater(list, due, i, at)
      && (i < |list| ==> at < When(due, list[i]) && list[i] in expires && expires[list[i]] == When(due, list[i]) - at)
      && Kept(e, expires, t, if i < |list| then list[i] else t)
    }

    // The walk of add_timer to the first timer due later than at.
    method Walk(t: Timer, ghost at: int) returns (i: nat)
      requires Linked() && t !in list && t in expires && now < at < now + WORD && expires[t] == at - now
      modifies this`expires
      ensures Walked(old(expires), t, i, at)
    {
      ghost var e := expires;
      Parts();
      WalkStart(e, t, at);
      hide *;
      i := 0;
      while i < |list|
        invariant i <= |list| && (if i < |list| then Walking(e, t, i, at) else Walked(e, t, i, at))
      {
        var on := Pass(t, i, at, e);
        if !on {
          return;
        }
        i := i + 1;
        if i == |list| { WalkedAll(e, t, at); }
      }
    }

    // One round of the walk.
    method Pass(t: Timer, i: nat, ghost at: int, ghost e: map<Timer, int>) returns (on: bool)
      requires Queued(list, due) && Deltas(list, e, due, now) && Soon(list, due, now, stamps) && t !in list
      requires i < |list| && Walking(e, t, i, at)
      modifies this`expires
      ensures if on then Walking(e, t, i + 1, at) else Walked(e, t, i, at)
    {
      var next := list[i];
      Meet(e, t, i);
      hide Queued, Deltas, Soon, Since, When, Linked, Word, Kept, NoneLater;
      on := expires[t] >= expires[next];
      if !on {
        WordFits(expires[next] - expires[t]);
        KeptSet(e, expires, t, next, expires[next] - expires[t]);
        expires := expires[next := Word(expires[next] - expires[t])];
      } else {
        WordFits(expires[t] - expires[next]);
        KeptSet(e, expires, t, t, expires[t] - expires[next]);
        NoneLaterNext(list, due, i, at);
        expires := expires[t := Word(expires[t] - expires[next])];
      }
    }

    lemma WalkedAll(e: map<Timer, int>, t: Timer, at: int)
      requires Walking(e, t, |list|, at)
      ensures Walked(e, t, |list|, at)
    {
    }

    lemma WalkStart(e: map<Timer, int>, t: Timer, at: int)
      requires e == expires && t in expires && now <= at < now + WORD && expires[t] == at - now
      ensures Walking(e, t, 0, at) && (list == [] ==> Walked(e, t, 0, at))
    {
    }

    // The walk at position i: the delta there is still the one before the walk.
    lemma Meet(e: map<Timer, int>, t: Timer, i: nat)
      requires Queued(list, due) && Deltas(list, e, due, now) && Soon(list, due, now, stamps) && i < |list|
      requires t !in list && Kept(e, expires, t, t)
      ensures list[i] != t && list[i] in expires && expires[list[i]] == When(due, list[i]) - Since(list, due, now, i)
      ensures now <= Since(list, due, now, i) <= When(due, list[i]) < now + WORD
      ensures Since(list, due, now, i + 1) == When(due, list[i])
    {
      Stored(list, e, due, now, stamps, i);
    }

    // add_timer: t will be due n ticks from now, after the timers due no later; nothing else moves.
    method Add(t: Timer) returns (ghost k: nat)
      requires Valid() && t !in list && t in expires && 0 < expires[t] < WORD
      modifies this
      ensures Valid() && now == old(now) && stamps == old(stamps) + 1
      ensures k <= |old(list)| && list == Inserted(old(list), k, t)
      ensures due == old(due)[t := Due(now + old(expires)[t], old(stamps))]
    {
      ghost var at := now + expires[t];
      var i := Walk(t, at);
      InsertedDeltas(list, old(expires), expires, due, now, stamps, i, t, at);
      list := list[..i] + [t] + list[i..];
      due := due[t := Due(at, stamps)];
      stamps := stamps + 1;
      k := i;
    }

    // The body of del_timer for a queued timer.
    method Unlink(t: Timer)
      requires Linked() && t in list
      modifies this`list, this`expires
      ensures Linked() && list == Without(old(list), IndexOf(old(list), t))
      ensures old(list)[0] == t && t in old(expires) && old(expires)[t] == 0 ==> expires == old(expires)
    {
      var i := IndexOf(list, t);
      Parts();
      ghost var e := expires;
      hide *;
      PassOn(t, i);
      WithoutDeltas(list, e, expires, due, now, stamps, i);
      list := list[..i] + list[i + 1..];
      WithoutIs(old(list), i);
      IsLinked();
    }

    // The timer behind t takes over its delta.
    method PassOn(t: Timer, i: nat)
      requires Queued(list, due) && Deltas(list, expires, due, now) && Soon(list, due, now, stamps)
      requires i < |list| && t == list[i]
      modifies this`expires
      ensures t in old(expires) && (old(expires)[t] == 0 ==> expires == old(expires))
      ensures Kept(old(expires), expires, t, if i + 1 < |list| then list[i + 1] else t)
      ensures i + 1 < |list| ==> list[i + 1] in expires && list[i + 1] in old(expires)
      ensures i + 1 < |list| ==> expires[list[i + 1]] == old(expires)[list[i + 1]] + old(expires)[t]
    {
      Stored(list, expires, due, now, stamps, i);
      if i + 1 < |list| {
        Stored(list, expires, due, now, stamps, i + 1);
        OtherTimer(list, due, i, i + 1);
      }
      hide Queued, Deltas, Soon, Since, When;
      if expires[t] != 0 && i + 1 < |list| {
        var next := list[i + 1];
        WordFits(expires[next] + expires[t]);
        expires := expires[next := Word(expires[next] + expires[t])];
      }
    }

    lemma IsLinked()
      requires Queued(list, due) && Deltas(list, expires, due, now) && Soon(list, due, now, stamps)
      ensures Linked()
    {
    }

    // del_timer: the other timers keep their deadlines.
    method Delete(t: Timer)
      requires Valid()
      modifies this`list, this`expires
      ensures Valid() && (t !in old(list) ==> list == old(list) && expires == old(expires))
      ensures t in old(list) ==> list == Without(old(list), IndexOf(old(list), t))
    {
      if t in list {
        ghost var i, s := IndexOf(list, t), list;
        assert |s| > 1 ==> Earlier(due[s[0]], due[s[1]]);
        Unlink(t);
        assert |s| > 1 ==> list[0] == s[if i == 0 then 1 else 0];
      }
    }

    // run_timer_list: exactly the timers due at this tick fire, in their order.
    method Tick() returns (fired: seq<Timer>)
      requires Valid()
      modifies this`list, this`expires, this`now
      ensures Valid() && now == old(now) + 1 && old(list) == fired + list
      ensures AllDue(due, now, fired)
    {
      Parts();
      if list != [] {
        CountDown();
        fired := FireDue();
      } else {
        Ticked(list, expires, expires, due, now, stamps);
        now := now + 1;
        fired := [];
      }
    }

    // The first delta, which is not 0, goes down by 1.
    method CountDown()
      requires Valid() && list != []
      modifies this`expires, this`now
      ensures Linked() && now == old(now) + 1
    {
      var t := list[0];
      First();
      assert expires[t] != 0;
      Ticked(list, expires, expires[t := expires[t] - 1], due, now, stamps);
      expires := expires[t := Word(expires[t] - 1)];
      now := now + 1;
    }

    lemma First()
      requires Linked() && list != []
      ensures list[0] in expires && list[0] in due && expires[list[0]] == due[list[0]].at - now
      ensures 0 <= expires[list[0]] < WORD
    {
      Stored(list, expires, due, now, stamps, 0);
    }

    // The loop over the timers whose delta is 0.
    method FireDue() returns (fired: seq<Timer>)
      requires Linked() && list != []
      modifies this`list, this`expires
      ensures Valid() && old(list) == fired + list
      ensures AllDue(due, now, fired)
    {
      fired := [];
      assert AllDue(due, now, fired);
      var t := list[0];
      First();
      hide Linked, AllDue;
      while expires[t] == 0
        invariant Linked() && list != [] && t == list[0] && t in expires && old(list) == fired + list
        invariant AllDue(due, now, fired)
        decreases |list|
      {
        ghost var l := list;
        FireFirst(t);
        AllDueConcat(due, now, fired, [t]);
        Moved(old(list), fired, l);
        fired := fired + [t];
        if list == [] {
          break;
        }
        t := list[0];
        First();
      }
      if list != [] { First(); }
    }

    method FireFirst(t: Timer)
      requires Linked() && list != [] && t == list[0] && t in expires && expires[t] == 0
      modifies this`list, this`expires
      ensures Linked() && list == old(list)[1..] && AllDue(due, now, [t])
    {
      First();
      Unlink(t);
    }

    ghost function View(): Clock
      reads this
    {
      Clock(now, stamps, Pending(list, due))
    }

    // One event does to the deltas what it means for the deadlines.
    method Handle(e: Event) returns (fired: seq<Timer>)
      requires Valid()
      modifies this
      ensures Valid() && View() == After(old(View()), e) && Fires(old(View()), e, fired)
    {
      fired := [];
      match e {
        case AddTimer(t, n) =>
          if t !in list && 0 < n < WORD {
            SetAndAdd(t, n);
          }
        case DelTimer(t) =>
          DeleteTimer(t);
        case OneTick =>
          fired := OneTickOn();
      }
    }

    // timer_init and add_timer
    method SetAndAdd(t: Timer, n: int)
      requires Valid() && t !in list && 0 < n < WORD
      modifies this
      ensures Valid() && View() == After(old(View()), AddTimer(t, n)) && t !in old(View()).pending
    {
      ghost var was, before := list, due;
      Parts();
      hide *;
      ghost var count := stamps;
      ViewIs();
      SetDelay(t, n);
      ghost var k := Add(t);
      AddTimerMeans(was, before, list, due, k, now, count, t, n);
      ViewIs();
    }

    method SetDelay(t: Timer, n: int)
      requires Valid() && t !in list
      modifies this`expires
      ensures Valid() && expires == old(expires)[t := n]
    {
      Unqueued(list, expires, due, now, t, n);
      hide Queued, Deltas, Soon;
      expires := expires[t := n];
    }

    lemma HeadLater()
      requires Valid() && list != []
      ensures list[0] in due && due[list[0]].at > now
    {
    }

    lemma ViewIs()
      ensures View() == Clock(now, stamps, Pending(list, due))
    {
    }

    method DeleteTimer(t: Timer)
      requires Valid()
      modifies this`list, this`expires
      ensures Valid() && View() == After(old(View()), DelTimer(t))
    {
      ghost var was := list;
      Parts();
      hide *;
      Delete(t);
      if t in was { PendingWithout(was, due, t); }
      PendingMembers(was, due, t);
      ViewIs();
      DelTimerMeans(now, stamps, Pending(was, due), t);
    }

    method OneTickOn() returns (fired: seq<Timer>)
      requires Valid()
      modifies this`list, this`expires, this`now
      ensures Valid() && View() == After(old(View()), OneTick) && Fires(old(View()), OneTick, fired)
    {
      ghost var c, n, was := View(), now, list;
      Parts();
      hide *;
      ViewIs();
      fired := Tick();
      Parts();
      if list != [] { HeadLater(); }
      TickedView(c, was, due, n, stamps, fired, list);
      ViewIs();
    }

    // Every run of events is a run of the clock, with every timer fired on time and in order.
    method Run(events: seq<Event>) returns (log: seq<seq<Timer>>)
      requires Valid()
      modifies this
      ensures Valid() && View() == AfterAll(old(View()), events) && |log| == |events|
      ensures forall i :: 0 <= i < |events| ==> Fires(AfterAll(old(View()), events[..i]), events[i], log[i])
    {
      log := [];
      ghost var c := View();
      hide *;
      NoneYet(c, events);
      for i := 0 to |events|
        invariant Valid() && View() == AfterAll(c, events[..i]) && |log| == i && LogUpTo(c, events, log)
      {
        var fired := Handle(events[i]);
        OneMore(c, events, log, fired);
        log := log + [fired];
      }
      LogDone(c, events, log);
    }

    // A timer set for n ticks fires at the n-th following tick and at no other, whatever other timers are
    // added and deleted meanwhile.
    method AddAndRun(t: Timer, n: int, events: seq<Event>) returns (log: seq<seq<Timer>>)
      requires Valid() && t !in list && 0 < n < WORD && forall e :: e in events ==> !Names(e, t)
      modifies this
      ensures Valid() && |log| == |events|
      ensures forall i :: 0 <= i < |events| ==> (t in log[i] <==> events[i].OneTick? && Ticks(events[..i]) + 1 == n)
      ensures t in list <==> Ticks(events) < n
    {
      ghost var c0 := View();
      SetAndAdd(t, n);
      ghost var c := View();
      PendingAfterAdd(c0, t, n);
      log := Run(events);
      forall i | 0 <= i < |events| ensures t in log[i] <==> events[i].OneTick? && Ticks(events[..i]) + 1 == n {
        assert forall e :: e in events[..i] ==> e in events;
        StaysUntilDue(c, events[..i], t);
        assert Fires(AfterAll(c, events[..i]), events[i], log[i]);
      }
      StaysUntilDue(c, events, t);
      Parts();
    }
  }
}
