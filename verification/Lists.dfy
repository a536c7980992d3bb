// Kernel lists (list_add, list_add_before, list_del) seen as the sequence of their entries.
module Lists {

  ghost predicate NoRepeats<T>(s: seq<T>) {
    s != [] ==> s[0] !in s[1..] && NoRepeats(s[1..])
  }

  // list_del: the sequence without p.
  function Removed<T(==)>(s: seq<T>, p: T): (r: seq<T>)
    ensures p !in s ==> r == s
  {
    if s == [] then [] else if s[0] == p then s[1..] else [s[0]] + Removed(s[1..], p)
  }

  lemma {:induction false} RemovedFacts<T>(s: seq<T>, p: T)
    requires NoRepeats(s)
    ensures NoRepeats(Removed(s, p)) && (forall q :: q in Removed(s, p) <==> q in s && q != p)
    ensures p in s ==> |Removed(s, p)| == |s| - 1
  {
    if s != [] {
      var rest := s[1..];
      assert s == [s[0]] + rest;
      RemovedFacts(rest, p);
      assert s[0] != p ==> Removed(s, p)[1..] == Removed(rest, p);
    }
  }

  // list_add_before the head: p at the end.
  lemma {:induction false} AppendedFacts<T>(s: seq<T>, p: T)
    requires NoRepeats(s) && p !in s
    ensures NoRepeats(s + [p]) && forall q :: q in s + [p] <==> q in s || q == p
  {
    if s != [] {
      assert s == [s[0]] + s[1..] && (s + [p])[1..] == s[1..] + [p];
      AppendedFacts(s[1..], p);
    } else {
      assert s + [p] == [p];
    }
  }

  // Where the entries of a list without repeats stand.
  lemma {:induction false} DistinctAt<T>(s: seq<T>, i: nat, j: nat)
    requires NoRepeats(s) && i < j < |s|
    ensures s[i] != s[j]
  {
    if i > 0 { DistinctAt(s[1..], i - 1, j - 1); } else { assert s[j] == s[1..][j - 1]; }
  }

  lemma Differ<T>(s: seq<T>, i: nat, j: nat)
    requires NoRepeats(s) && i < |s| && j < |s| && i != j
    ensures s[i] != s[j]
  {
    if i < j { DistinctAt(s, i, j); } else { DistinctAt(s, j, i); }
  }

  lemma {:induction false} WithoutAt<T>(s: seq<T>, j: nat)
    requires NoRepeats(s) && j < |s|
    ensures s[..j] + s[j + 1..] == Removed(s, s[j]) && NoRepeats(Removed(s, s[j]))
  {
    RemovedFacts(s, s[j]);
    if j > 0 {
      var t := s[1..];
      WithoutAt(t, j - 1);
      Differ(s, 0, j);
      assert Removed(s, s[j]) == [s[0]] + Removed(t, t[j - 1]);
      hide Removed, NoRepeats;
      Shifted(s, j);
    }
  }

  lemma Shifted<T>(s: seq<T>, j: nat)
    requires 0 < j < |s|
    ensures s[..j] + s[j + 1..] == [s[0]] + (s[1..][..j - 1] + s[1..][j - 1 + 1..])
  {
  }
}
