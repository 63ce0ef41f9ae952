/** The skill list of the application form and the toggle that a skill
    checkbox performs on it: a skill that is present is filtered out, a
    skill that is absent is appended. */
module Skills {

  /** No skill occurs twice. */
  predicate NoDuplicates(s: seq<string>) {
    forall i, j | 0 <= i < j < |s| :: s[i] != s[j]
  }

  /** `s` with every occurrence of `v` dropped and the rest kept in order
      (the array `filter` with `skill !== v`). */
  function RemoveAll(s: seq<string>, v: string): (r: seq<string>)
    ensures v !in r
    ensures |r| <= |s|
  {
    if s == [] then []
    else (if s[0] == v then [] else [s[0]]) + RemoveAll(s[1..], v)
  }

  /** Filtering drops exactly the occurrences of `v`: every other element
      keeps its number of occurrences. */
  lemma {:induction false} RemoveAllCount(s: seq<string>, v: string, x: string)
    ensures multiset(RemoveAll(s, v))[x] == if x == v then 0 else multiset(s)[x]
  {
    if s != [] {
      assert s == [s[0]] + s[1..];
      RemoveAllCount(s[1..], v, x);
    }
  }

  /** The filtered list is shorter by the number of occurrences of `v`. */
  lemma {:induction false} RemoveAllLength(s: seq<string>, v: string)
    ensures |RemoveAll(s, v)| == |s| - multiset(s)[v]
  {
    if s != [] {
      assert s == [s[0]] + s[1..];
      RemoveAllLength(s[1..], v);
    }
  }

  /** Filtering distributes over concatenation, so the survivors keep the
      relative order they had. */
  lemma {:induction false} RemoveAllAppend(a: seq<string>, b: seq<string>, v: string)
    ensures RemoveAll(a + b, v) == RemoveAll(a, v) + RemoveAll(b, v)
  {
    if a == [] {
      assert a + b == b;
    } else {
      var head := if a[0] == v then [] else [a[0]];
      assert (a + b)[0] == a[0];
      assert (a + b)[1..] == a[1..] + b;
      assert RemoveAll(a + b, v) == head + RemoveAll(a[1..] + b, v);
      RemoveAllAppend(a[1..], b, v);
      assert RemoveAll(a, v) == head + RemoveAll(a[1..], v);
    }
  }

  /** Filtering out a value that does not occur changes nothing. */
  lemma {:induction false} RemoveAllAbsent(s: seq<string>, v: string)
    requires v !in s
    ensures RemoveAll(s, v) == s
  {
    if s != [] {
      RemoveAllAbsent(s[1..], v);
    }
  }

  lemma ConsNoDuplicates(x: string, s: seq<string>)
    requires NoDuplicates(s) && x !in s
    ensures NoDuplicates([x] + s)
  {
    var r := [x] + s;
    forall i, j | 0 <= i < j < |r| ensures r[i] != r[j] {
      assert r[j] == s[j - 1];
      if i > 0 {
        assert r[i] == s[i - 1];
      }
    }
  }

  lemma {:induction false} RemoveAllKeepsNoDuplicates(s: seq<string>, v: string)
    requires NoDuplicates(s)
    ensures NoDuplicates(RemoveAll(s, v))
  {
    if s != [] {
      var tail := s[1..];
      assert NoDuplicates(tail);
      RemoveAllKeepsNoDuplicates(tail, v);
      if s[0] != v {
        assert s[0] !in tail;
        RemoveAllCount(tail, v, s[0]);
        assert s[0] !in RemoveAll(tail, v);
        ConsNoDuplicates(s[0], RemoveAll(tail, v));
      }
    }
  }

  /** What a skill checkbox does to the list. */
  function ToggleSkill(s: seq<string>, v: string): (r: seq<string>)
    ensures v in r <==> v !in s
    ensures forall x | x != v :: multiset(r)[x] == multiset(s)[x]
    ensures v !in s ==> r == s + [v]
    ensures v in s ==> |r| < |s|
  {
    if v in s then
      assert multiset(s)[v] > 0;
      RemoveAllLength(s, v);
      assert forall x | x != v :: multiset(RemoveAll(s, v))[x] == multiset(s)[x] by {
        forall x | x != v ensures multiset(RemoveAll(s, v))[x] == multiset(s)[x] {
          RemoveAllCount(s, v, x);
        }
      }
      RemoveAll(s, v)
    else s + [v]
  }

  /** Membership flips for `v` and for nothing else: the list behaves as a
      set under toggling. */
  lemma ToggleMembership(s: seq<string>, v: string, x: string)
    ensures x in ToggleSkill(s, v) <==> (if x == v then x !in s else x in s)
  {
    var r := ToggleSkill(s, v);
    if x != v {
      assert x in r <==> multiset(r)[x] > 0;
      assert x in s <==> multiset(s)[x] > 0;
    }
  }

  /** Removing a present skill keeps the others in their original order:
      the result is the filter of the list, and filtering is order-preserving
      (RemoveAllAppend). */
  lemma {:induction false} ToggleOffKeepsOrder(a: seq<string>, v: string, b: seq<string>)
    requires v !in a && v !in b
    ensures ToggleSkill(a + [v] + b, v) == a + b
  {
    var s := a + [v] + b;
    assert s[|a|] == v;
    assert ToggleSkill(s, v) == RemoveAll(s, v);
    RemoveAllAppend(a + [v], b, v);
    RemoveAllAppend(a, [v], v);
    RemoveAllAbsent(a, v);
    RemoveAllAbsent(b, v);
    assert RemoveAll([v], v) == [];
    assert RemoveAll(a + [v], v) == a;
    assert a + [] == a;
  }

  /** Checking and then unchecking a box restores the list. */
  lemma ToggleTwiceRestores(s: seq<string>, v: string)
    requires v !in s
    ensures ToggleSkill(ToggleSkill(s, v), v) == s
  {
    assert ToggleSkill(s, v) == s + [v];
    RemoveAllAppend(s, [v], v);
    RemoveAllAbsent(s, v);
    assert RemoveAll([v], v) == [];
  }

  /** A duplicate-free list stays duplicate-free. */
  lemma TogglePreservesNoDuplicates(s: seq<string>, v: string)
    requires NoDuplicates(s)
    ensures NoDuplicates(ToggleSkill(s, v))
  {
    if v in s {
      RemoveAllKeepsNoDuplicates(s, v);
    } else {
      var r := s + [v];
      forall i, j | 0 <= i < j < |r| ensures r[i] != r[j] {
        if j == |s| {
          assert r[i] == s[i];
        }
      }
    }
  }
}
