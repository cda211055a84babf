/**
 * Array operations the source writes with `filter`, `includes` and
 * `Array.from(new Set(...))`, on sequences. Each is defined from the back
 * (last element appended or dropped), the way a left-to-right loop builds it.
 */
module Lists {

  /** No element occurs twice. */
  predicate NoDup<T(==)>(s: seq<T>) {
    forall i, j :: 0 <= i < j < |s| ==> s[i] != s[j]
  }

  /** `s.filter(y => y !== x)`: every occurrence of x removed, order kept. */
  function RemoveAll<T(==)>(s: seq<T>, x: T): (r: seq<T>)
    ensures |r| <= |s| && x !in r
  {
    if s == [] then []
    else if s[|s| - 1] == x then RemoveAll(s[..|s| - 1], x)
    else RemoveAll(s[..|s| - 1], x) + [s[|s| - 1]]
  }

  /** `s.filter(y => !t.includes(y))`: the elements of s not in t, order kept. */
  function Without<T(==)>(s: seq<T>, t: seq<T>): (r: seq<T>)
    ensures |r| <= |s|
    ensures forall y :: y in r ==> y !in t
  {
    if s == [] then []
    else if s[|s| - 1] in t then Without(s[..|s| - 1], t)
    else Without(s[..|s| - 1], t) + [s[|s| - 1]]
  }

  /** `Array.from(new Set(s))`: the first occurrence of every element, in order. */
  function Dedup<T(==)>(s: seq<T>): (r: seq<T>)
    ensures |r| <= |s|
    ensures r == [] <==> s == []
  {
    if s == [] then []
    else if s[|s| - 1] in Dedup(s[..|s| - 1]) then Dedup(s[..|s| - 1])
    else Dedup(s[..|s| - 1]) + [s[|s| - 1]]
  }

  lemma {:induction false} RemoveAllMembers<T>(s: seq<T>, x: T, y: T)
    ensures y in RemoveAll(s, x) <==> y in s && y != x
    decreases |s|
  {
    if s != [] {
      RemoveAllMembers(s[..|s| - 1], x, y);
      assert s == s[..|s| - 1] + [s[|s| - 1]];
    }
  }

  /** `filter` keeps the survivors in their order. */
  lemma {:induction false} RemoveAllOrdered<T>(s: seq<T>, x: T)
    ensures IsSubsequence(RemoveAll(s, x), s)
    decreases |s|
  {
    if s != [] {
      var init, z := s[..|s| - 1], s[|s| - 1];
      RemoveAllOrdered(init, x);
      SnocOrdered(RemoveAll(init, x), init, z, z != x);
      assert init + [z] == s;
    }
  }

  /** `filter` keeps every other element as often as it occurs, and x never. */
  lemma {:induction false} RemoveAllCount<T>(s: seq<T>, x: T)
    ensures multiset(RemoveAll(s, x)) == multiset(s)[x := 0]
    decreases |s|
  {
    if s != [] {
      var init, z := s[..|s| - 1], s[|s| - 1];
      RemoveAllCount(init, x);
      assert s == init + [z];
      assert multiset(s) == multiset(init) + multiset{z};
    }
  }

  /** Removing an element that does not occur changes nothing. */
  lemma {:induction false} RemoveAbsent<T>(s: seq<T>, x: T)
    requires x !in s
    ensures RemoveAll(s, x) == s
    decreases |s|
  {
    if s != [] {
      RemoveAbsent(s[..|s| - 1], x);
      assert s == s[..|s| - 1] + [s[|s| - 1]];
    }
  }

  lemma {:induction false} RemoveAllNoDup<T>(s: seq<T>, x: T)
    requires NoDup(s)
    ensures NoDup(RemoveAll(s, x))
    decreases |s|
  {
    if s != [] {
      var s', z := s[..|s| - 1], s[|s| - 1];
      assert NoDup(s');
      RemoveAllNoDup(s', x);
      assert z !in s' by {
        forall k | 0 <= k < |s'| ensures s'[k] != z { assert s'[k] == s[k]; }
      }
      RemoveAllMembers(s', x, z);
    }
  }

  lemma {:induction false} WithoutMembers<T>(s: seq<T>, t: seq<T>, y: T)
    ensures y in Without(s, t) <==> y in s && y !in t
    decreases |s|
  {
    if s != [] {
      WithoutMembers(s[..|s| - 1], t, y);
      assert s == s[..|s| - 1] + [s[|s| - 1]];
    }
  }

  lemma {:induction false} WithoutNoDup<T>(s: seq<T>, t: seq<T>)
    requires NoDup(s)
    ensures NoDup(Without(s, t))
    decreases |s|
  {
    if s != [] {
      var s', z := s[..|s| - 1], s[|s| - 1];
      assert NoDup(s');
      WithoutNoDup(s', t);
      assert z !in s' by {
        forall k | 0 <= k < |s'| ensures s'[k] != z { assert s'[k] == s[k]; }
      }
      WithoutMembers(s', t, z);
    }
  }

  /** `filter` by `Without` keeps the survivors in their order. */
  lemma {:induction false} WithoutOrdered<T>(s: seq<T>, t: seq<T>)
    ensures IsSubsequence(Without(s, t), s)
    decreases |s|
  {
    if s != [] {
      var init, z := s[..|s| - 1], s[|s| - 1];
      WithoutOrdered(init, t);
      SnocOrdered(Without(init, t), init, z, z !in t);
      assert init + [z] == s;
    }
  }

  /** `filter` by `Without` keeps every element outside t as often as it occurs, and the others never. */
  lemma {:induction false} WithoutCount<T>(s: seq<T>, t: seq<T>, y: T)
    ensures multiset(Without(s, t))[y] == if y in t then 0 else multiset(s)[y]
    decreases |s|
  {
    if s != [] {
      var init, z := s[..|s| - 1], s[|s| - 1];
      WithoutCount(init, t, y);
      assert s == init + [z];
      assert multiset(s) == multiset(init) + multiset{z};
    }
  }

  /** Filtering by `Without` distributes over concatenation. */
  lemma {:induction false} WithoutConcat<T>(a: seq<T>, b: seq<T>, t: seq<T>)
    ensures Without(a + b, t) == Without(a, t) + Without(b, t)
    decreases |b|
  {
    if b == [] {
      assert a + b == a;
    } else {
      var b' := b[..|b| - 1];
      assert (a + b)[..|a + b| - 1] == a + b';
      WithoutConcat(a, b', t);
    }
  }

  /** Removing elements none of which occurs changes nothing. */
  lemma {:induction false} WithoutDisjoint<T>(s: seq<T>, t: seq<T>)
    requires forall y :: y in s ==> y !in t
    ensures Without(s, t) == s
    decreases |s|
  {
    if s != [] {
      WithoutDisjoint(s[..|s| - 1], t);
      assert s == s[..|s| - 1] + [s[|s| - 1]];
    }
  }

  /** Removing every element leaves nothing. */
  lemma {:induction false} WithoutAll<T>(s: seq<T>, t: seq<T>)
    requires forall y :: y in s ==> y in t
    ensures Without(s, t) == []
    decreases |s|
  {
    if s != [] {
      WithoutAll(s[..|s| - 1], t);
    }
  }

  lemma {:induction false} DedupMembers<T>(s: seq<T>, y: T)
    ensures y in Dedup(s) <==> y in s
    decreases |s|
  {
    if s != [] {
      DedupMembers(s[..|s| - 1], y);
      assert s == s[..|s| - 1] + [s[|s| - 1]];
    }
  }

  lemma {:induction false} DedupIsNoDup<T>(s: seq<T>)
    ensures NoDup(Dedup(s))
    decreases |s|
  {
    if s != [] {
      DedupIsNoDup(s[..|s| - 1]);
    }
  }

  /** A duplicate-free sequence is its own deduplication. */
  lemma {:induction false} DedupNoDup<T>(s: seq<T>)
    requires NoDup(s)
    ensures Dedup(s) == s
    decreases |s|
  {
    if s != [] {
      var s', z := s[..|s| - 1], s[|s| - 1];
      assert NoDup(s') by {
        forall i, j | 0 <= i < j < |s'| ensures s'[i] != s'[j] {
          assert s'[i] == s[i] && s'[j] == s[j];
        }
      }
      DedupNoDup(s');
      assert z !in s' by {
        forall k | 0 <= k < |s'| ensures s'[k] != z { assert s'[k] == s[k]; }
      }
      assert s == s' + [z];
      DedupSnoc(s', z);
      DedupMembers(s', z);
    }
  }

  lemma DedupSnoc<T>(s: seq<T>, x: T)
    ensures Dedup(s + [x]) == if x in Dedup(s) then Dedup(s) else Dedup(s) + [x]
  {
    assert (s + [x])[..|s|] == s;
  }

  lemma WithoutSingleton<T>(x: T, t: seq<T>)
    ensures Without([x], t) == if x in t then [] else [x]
  {
    assert [x][..0] == [];
  }

  /**
   * Deduplicating a concatenation keeps the deduplication of the first part
   * in front and appends, in order, the new elements the second part brings.
   */
  lemma {:induction false} DedupConcat<T>(a: seq<T>, b: seq<T>)
    ensures Dedup(a + b) == Dedup(a) + Without(Dedup(b), a)
    decreases |b|
  {
    if b == [] {
      assert a + b == a;
    } else {
      var b', x := b[..|b| - 1], b[|b| - 1];
      assert b == b' + [x];
      assert a + b == (a + b') + [x];
      DedupConcat(a, b');
      DedupConcatStep(a, b', x);
    }
  }

  /** One more element at the end of the second part. */
  lemma DedupConcatStep<T>(a: seq<T>, b: seq<T>, x: T)
    requires Dedup(a + b) == Dedup(a) + Without(Dedup(b), a)
    ensures Dedup((a + b) + [x]) == Dedup(a) + Without(Dedup(b + [x]), a)
  {
    var ab, da, db := a + b, Dedup(a), Dedup(b);
    var w := Without(db, a);
    DedupSnoc(ab, x);
    DedupSnoc(b, x);
    DedupMembers(ab, x);
    DedupMembers(b, x);
    if x in b {
      assert x in Dedup(ab);
    } else {
      WithoutSnoc(db, a, x);
      if x !in a {
        AppendAssoc(da, w, [x]);
      }
    }
  }

  lemma AppendAssoc<T>(a: seq<T>, b: seq<T>, c: seq<T>)
    ensures (a + b) + c == a + (b + c)
  {
  }

  lemma WithoutSnoc<T>(s: seq<T>, t: seq<T>, x: T)
    ensures Without(s + [x], t) == if x in t then Without(s, t) else Without(s, t) + [x]
  {
    assert (s + [x])[..|s|] == s;
  }

  /** Concatenating two duplicate-free, disjoint lists gives a duplicate-free list. */
  lemma NoDupConcat<T>(a: seq<T>, b: seq<T>)
    requires NoDup(a) && NoDup(b)
    requires forall x :: x in a ==> x !in b
    ensures NoDup(a + b)
  {
    var c := a + b;
    forall i, j | 0 <= i < j < |c| ensures c[i] != c[j] {
      if j < |a| {
        assert c[i] == a[i] && c[j] == a[j];
      } else if i >= |a| {
        assert c[i] == b[i - |a|] && c[j] == b[j - |a|];
      } else {
        assert c[i] == a[i] && c[j] == b[j - |a|];
        assert a[i] in a;
      }
    }
  }

  /** Dropping the last element of a duplicate-free list leaves a duplicate-free list without it. */
  lemma NoDupInit<T>(s: seq<T>)
    requires NoDup(s) && s != []
    ensures NoDup(s[..|s| - 1]) && s[|s| - 1] !in s[..|s| - 1]
  {
    var init := s[..|s| - 1];
    forall i, j | 0 <= i < j < |init| ensures init[i] != init[j] {
      assert init[i] == s[i] && init[j] == s[j];
    }
    forall k | 0 <= k < |init| ensures init[k] != s[|s| - 1] {
      assert init[k] == s[k];
    }
  }

  /** Equal concatenations with equally long heads have equal heads and equal tails. */
  lemma PrefixCancel<T>(a: seq<T>, x: seq<T>, b: seq<T>, y: seq<T>)
    requires a + x == b + y && |a| == |b|
    ensures a == b && x == y
  {
    assert a == (a + x)[..|a|];
    assert b == (b + y)[..|b|];
    assert x == (a + x)[|a|..];
    assert y == (b + y)[|b|..];
  }

  // ------------------------------------------------------------ subsequences

  /** `s` is `t` with some elements dropped, the rest in order. */
  predicate IsSubsequence<T(==)>(s: seq<T>, t: seq<T>)
    decreases |t|
  {
    if s == [] then true
    else if t == [] then false
    else if s[|s| - 1] == t[|t| - 1] then IsSubsequence(s[..|s| - 1], t[..|t| - 1])
    else IsSubsequence(s, t[..|t| - 1])
  }

  /** A filter step: the survivors of `s + [z]` are those of `s`, with z appended when it is kept. */
  lemma SnocOrdered<T>(r: seq<T>, s: seq<T>, z: T, keep: bool)
    requires IsSubsequence(r, s)
    ensures IsSubsequence(if keep then r + [z] else r, s + [z])
  {
    if keep {
      assert (r + [z])[..|r|] == r;
      assert (s + [z])[..|s|] == s;
    } else {
      SubsequenceExtend(r, s, z);
    }
  }

  lemma SubsequenceExtend<T>(s: seq<T>, t: seq<T>, x: T)
    requires IsSubsequence(s, t)
    ensures IsSubsequence(s, t + [x])
    decreases |t|, 1
  {
    assert (t + [x])[..|t|] == t;
    if s != [] && s[|s| - 1] == x {
      SubsequenceWeaken(s, t);
    }
  }

  /** Dropping the last element of a subsequence keeps it a subsequence. */
  lemma {:induction false} SubsequenceWeaken<T>(s: seq<T>, t: seq<T>)
    requires s != [] && IsSubsequence(s, t)
    ensures IsSubsequence(s[..|s| - 1], t)
    decreases |t|, 0
  {
    var s', t' := s[..|s| - 1], t[..|t| - 1];
    if s[|s| - 1] != t[|t| - 1] {
      SubsequenceWeaken(s, t');
      SubsequenceExtend(s', t', t[|t| - 1]);
      assert t' + [t[|t| - 1]] == t;
    } else {
      SubsequenceExtend(s', t', t[|t| - 1]);
      assert t' + [t[|t| - 1]] == t;
    }
  }
}
