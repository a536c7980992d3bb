// Circular doubly linked lists (libs/list.h), each seen as the sequence of its entries.
module Rings {
  import opened Lists

  datatype Ptr = Ptr(addr: int)

  // struct list_entry; memory maps addresses to these structs
  datatype Entry = Entry(prev: Ptr, next: Ptr)

  type Mem = map<Ptr, Entry>

  function Succ(t: seq<Ptr>, i: nat): Ptr
    requires i < |t|
  {
    if i + 1 < |t| then t[i + 1] else t[0]
  }

  function Pred(t: seq<Ptr>, i: nat): Ptr
    requires i < |t|
  {
    if i > 0 then t[i - 1] else t[|t| - 1]
  }

  // The structs of t, the list head first, are linked in a circle.
  ghost predicate Ring(m: Mem, t: seq<Ptr>) {
    && t != [] && NoRepeats(t)
    && forall i :: 0 <= i < |t| ==> LinkedAt(m, t, i)
  }

  ghost predicate LinkedAt(m: Mem, t: seq<Ptr>, i: nat)
    requires i < |t|
  {
    t[i] in m && m[t[i]] == Entry(Pred(t, i), Succ(t, i))
  }

  // Structs other than those of the ring and x are untouched.
  ghost predicate Same(m: Mem, m': Mem, t: seq<Ptr>, x: Ptr) {
    forall y :: y in m && y !in t && y != x ==> y in m' && m'[y] == m[y]
  }

  // x put in behind position i, and position i taken out.
  function With(t: seq<Ptr>, i: nat, x: Ptr): seq<Ptr>
    requires i < |t|
  {
    t[..i + 1] + [x] + t[i + 1..]
  }

  function Without(t: seq<Ptr>, i: nat): seq<Ptr>
    requires i < |t|
  {
    t[..i] + t[i + 1..]
  }

  // What __list_add writes between the consecutive entries p and n.
  function Inserted(m: Mem, x: Ptr, p: Ptr, n: Ptr): Mem
    requires p in m && n in m
  {
    var m1 := m[n := m[n].(prev := x)];
    var m2 := m1[p := m1[p].(next := x)];
    m2[x := Entry(p, n)]
  }

  lemma WithAt(t: seq<Ptr>, i: nat, x: Ptr, j: nat)
    requires i < |t| && j <= |t|
    ensures |With(t, i, x)| == |t| + 1
    ensures With(t, i, x)[j] == if j <= i then t[j] else if j == i + 1 then x else t[j - 1]
  {
  }

  lemma {:induction false} WithNoRepeats(t: seq<Ptr>, i: nat, x: Ptr)
    requires NoRepeats(t) && x !in t && i < |t|
    ensures NoRepeats(With(t, i, x)) && forall y :: y in With(t, i, x) <==> y in t || y == x
  {
    var w := With(t, i, x);
    assert t == [t[0]] + t[1..];
    if i == 0 {
      assert w[1..] == [x] + t[1..];
      assert ([x] + t[1..])[1..] == t[1..];
    } else {
      WithNoRepeats(t[1..], i - 1, x);
      assert w[1..] == With(t[1..], i - 1, x);
    }
    assert w == [t[0]] + w[1..];
  }

  lemma InsertedRing(m: Mem, t: seq<Ptr>, i: nat, x: Ptr)
    requires Ring(m, t) && i < |t| && x !in t
    ensures t[i] in m && Succ(t, i) in m
    ensures Ring(Inserted(m, x, t[i], Succ(t, i)), With(t, i, x)) && Same(m, Inserted(m, x, t[i], Succ(t, i)), t, x)
  {
    assert LinkedAt(m, t, i) && LinkedAt(m, t, if i + 1 < |t| then i + 1 else 0);
    var w, m' := With(t, i, x), Inserted(m, x, t[i], Succ(t, i));
    WithNoRepeats(t, i, x);
    forall j | 0 <= j < |w| ensures LinkedAt(m', w, j) {
      InsertedAt(m, t, i, x, j);
    }
  }

  lemma InsertedAt(m: Mem, t: seq<Ptr>, i: nat, x: Ptr, j: nat)
    requires Ring(m, t) && i < |t| && x !in t && j <= |t| && t[i] in m && Succ(t, i) in m
    ensures LinkedAt(Inserted(m, x, t[i], Succ(t, i)), With(t, i, x), j)
  {
    var k := if j <= i then j else if j == i + 1 then i else j - 1;
    assert LinkedAt(m, t, k) && t[k] in t;
    WithAt(t, i, x, j);
    if j > 0 { WithAt(t, i, x, j - 1); } else { WithAt(t, i, x, |t|); }
    if j < |t| { WithAt(t, i, x, j + 1); } else { WithAt(t, i, x, 0); }
    if k != i { Differ(t, k, i); }
    var n := if i + 1 < |t| then i + 1 else 0;
    if k != n { Differ(t, k, n); }
  }

  // What __list_del writes to the neighbours p and n.
  function Bridged(m: Mem, p: Ptr, n: Ptr): Mem
    requires p in m && n in m
  {
    var m1 := m[p := m[p].(next := n)];
    m1[n := m1[n].(prev := p)]
  }

  lemma DeletedRing(m: Mem, t: seq<Ptr>, i: nat)
    requires Ring(m, t) && 0 < i < |t|
    ensures Pred(t, i) in m && Succ(t, i) in m
    ensures var m' := Bridged(m, Pred(t, i), Succ(t, i));
      Ring(m', Without(t, i)) && Same(m, m', t, t[i]) && t[i] in m' && m'[t[i]] == m[t[i]]
    ensures t[i] !in Without(t, i) && forall y :: y in Without(t, i) <==> y in t && y != t[i]
  {
    assert LinkedAt(m, t, i - 1) && LinkedAt(m, t, if i + 1 < |t| then i + 1 else 0) && LinkedAt(m, t, i);
    Differ(t, i, i - 1);
    Differ(t, i, if i + 1 < |t| then i + 1 else 0);
    WithoutAt(t, i);
    RemovedFacts(t, t[i]);
    var w, m' := Without(t, i), Bridged(m, Pred(t, i), Succ(t, i));
    forall j | 0 <= j < |w| ensures LinkedAt(m', w, j) {
      DeletedAt(m, t, i, j);
    }
  }

  lemma DeletedAt(m: Mem, t: seq<Ptr>, i: nat, j: nat)
    requires Ring(m, t) && 0 < i < |t| && j < |t| - 1 && Pred(t, i) in m && Succ(t, i) in m
    ensures LinkedAt(Bridged(m, Pred(t, i), Succ(t, i)), Without(t, i), j)
  {
    var w, k := Without(t, i), if j < i then j else j + 1;
    assert LinkedAt(m, t, k) && w[j] == t[k] && w[0] == t[0] && w[|w| - 1] == t[if i + 1 < |t| then |t| - 1 else i - 1];
    assert j > 0 ==> w[j - 1] == t[if j - 1 < i then j - 1 else j];
    assert j + 1 < |w| ==> w[j + 1] == t[if j + 1 < i then j + 1 else j + 2];
    var n := if i + 1 < |t| then i + 1 else 0;
    if k != i - 1 { Differ(t, k, i - 1); }
    if k != n { Differ(t, k, n); }
  }

  // The memory the lists live in. Each method is told, for the proof only, the ring t and the
  // position i of the entry it is called on; the list head is at position 0.
  class ListMemory {
    var mem: Mem

    constructor (mem: Mem)
      ensures this.mem == mem
    {
      this.mem := mem;
    }

    // list_init: a list without entries
    method Init(x: Ptr)
      modifies this
      ensures Ring(mem, [x]) && mem == old(mem)[x := Entry(x, x)]
    {
      mem := mem[x := Entry(x, x)];
      assert LinkedAt(mem, [x], 0);
    }

    // __list_add
    method AddBetween(x: Ptr, p: Ptr, n: Ptr)
      requires p in mem && n in mem
      modifies this
      ensures mem == Inserted(old(mem), x, p, n)
    {
      mem := mem[n := mem[n].(prev := x)];
      mem := mem[p := mem[p].(next := x)];
      var e := if x in mem then mem[x] else Entry(p, n);
      e := e.(next := n);
      e := e.(prev := p);
      mem := mem[x := e];
    }

    // list_add_after and list_add
    method AddAfter(at: Ptr, x: Ptr, ghost t: seq<Ptr>, ghost i: nat)
      requires Ring(mem, t) && i < |t| && at == t[i] && x !in t
      modifies this
      ensures Ring(mem, With(t, i, x)) && Same(old(mem), mem, t, x)
    {
      InsertedRing(mem, t, i, x);
      assert LinkedAt(mem, t, i);
      AddBetween(x, at, mem[at].next);
    }

    // list_add_before: behind the entry before, which is the last one when called on the head
    method AddBefore(at: Ptr, x: Ptr, ghost t: seq<Ptr>, ghost i: nat)
      requires Ring(mem, t) && i < |t| && at == t[i] && x !in t
      modifies this
      ensures Ring(mem, With(t, if i > 0 then i - 1 else |t| - 1, x)) && Same(old(mem), mem, t, x)
    {
      ghost var j := if i > 0 then i - 1 else |t| - 1;
      InsertedRing(mem, t, j, x);
      assert LinkedAt(mem, t, i) && Succ(t, j) == at;
      AddBetween(x, mem[at].prev, at);
    }

    // list_del: the entries behind the head are those before, without x
    method Delete(x: Ptr, ghost t: seq<Ptr>, ghost i: nat)
      requires Ring(mem, t) && 0 < i < |t| && x == t[i]
      modifies this
      ensures Ring(mem, Without(t, i)) && Same(old(mem), mem, t, x) && x !in Without(t, i)
      ensures Without(t, i)[1..] == Removed(t[1..], x) && x in mem
    {
      DeletedRing(mem, t, i);
      assert LinkedAt(mem, t, i);
      EntriesWithout(t, i);
      var p, n := mem[x].prev, mem[x].next;
      mem := mem[p := mem[p].(next := n)];
      mem := mem[n := mem[n].(prev := p)];
    }

    // list_del_init: x becomes a list of its own
    method DeleteInit(x: Ptr, ghost t: seq<Ptr>, ghost i: nat)
      requires Ring(mem, t) && 0 < i < |t| && x == t[i]
      modifies this
      ensures Ring(mem, Without(t, i)) && Ring(mem, [x]) && Same(old(mem), mem, t, x)
      ensures Without(t, i)[1..] == Removed(t[1..], x)
    {
      Delete(x, t, i);
      ghost var m, w := mem, Without(t, i);
      Init(x);
      forall j | 0 <= j < |w| ensures LinkedAt(mem, w, j) {
        assert LinkedAt(m, w, j) && w[j] in w;
      }
    }

    // list_empty, list_next and list_prev
    method IsEmpty(head: Ptr, ghost t: seq<Ptr>) returns (r: bool)
      requires Ring(mem, t) && head == t[0]
      ensures r <==> t[1..] == []
    {
      assert LinkedAt(mem, t, 0);
      if |t| > 1 { Differ(t, 0, 1); }
      r := mem[head].next == head;
    }

    method Next(x: Ptr, ghost t: seq<Ptr>, ghost i: nat) returns (r: Ptr)
      requires Ring(mem, t) && i < |t| && x == t[i]
      ensures r == Succ(t, i)
    {
      assert LinkedAt(mem, t, i);
      r := mem[x].next;
    }

    method Prev(x: Ptr, ghost t: seq<Ptr>, ghost i: nat) returns (r: Ptr)
      requires Ring(mem, t) && i < |t| && x == t[i]
      ensures r == Pred(t, i)
    {
      assert LinkedAt(mem, t, i);
      r := mem[x].prev;
    }
  }

  lemma EntriesWithout(t: seq<Ptr>, i: nat)
    requires NoRepeats(t) && 0 < i < |t|
    ensures Without(t, i)[1..] == Removed(t[1..], t[i])
  {
    WithoutAt(t[1..], i - 1);
    hide Removed, NoRepeats;
    TailWithout(t, i);
  }

  lemma TailWithout(t: seq<Ptr>, i: nat)
    requires 0 < i < |t|
    ensures Without(t, i)[1..] == t[1..][..i - 1] + t[1..][i - 1 + 1..]
  {
  }

  // Adding in front of and behind all entries, in terms of the entries alone.
  lemma EntriesWith(t: seq<Ptr>, x: Ptr)
    requires t != []
    ensures With(t, 0, x)[1..] == [x] + t[1..] && With(t, |t| - 1, x)[1..] == t[1..] + [x]
  {
  }
}
