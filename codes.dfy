/**
 * `generatePossibleCodes` (app/actions.ts): a partial targeting filter is
 * expanded into every `pair-rel-sub-level` code it admits, in pair-major,
 * level-minor order. The method mirrors the nested loops of the source; the
 * back-recursive functions below are its specification, and the lemmas state
 * what the generated list contains, how long it is, that it has no duplicates
 * and when it is empty.
 */
module Codes {
  import opened Wrappers
  import opened Text
  import opened Lists
  import opened Constants
  import opened Types

  /** The code string `${pair}-${rel}-${sub}-${level}`. */
  function Code(pair: string, rel: string, sub: string, level: string): string {
    pair + ("-" + (rel + ("-" + (sub + ("-" + level)))))
  }

  /** The gender pairs in scope: the given one verbatim, else all four. */
  function PairAxis(f: CodeFilters): seq<string> {
    if Present(f.gender) then [f.gender.value] else PairValues()
  }

  /** The levels in scope: the given one verbatim, else L1..L5. */
  function LevelAxis(f: CodeFilters): seq<string> {
    if Present(f.level) then [f.level.value] else IntimacyLevels
  }

  /** The relations in scope: the given one verbatim, else every registry key. */
  function RelAxis(f: CodeFilters): seq<string> {
    if Present(f.relation) then [f.relation.value] else RelationKeys()
  }

  /**
   * The sub-relations of `rel` that survive the sub filter: all of them, just
   * the filtered one if `rel` owns it, or none. An unknown key has none.
   */
  function KeptSubs(f: CodeFilters, rel: string): seq<string> {
    var subs := SubsOf(rel);
    if Present(f.sub) then (if f.sub.value in subs then [f.sub.value] else []) else subs
  }

  // ------------------------------------------------------------ specification

  function LevelCodes(pair: string, rel: string, sub: string, levels: seq<string>): seq<string>
    decreases |levels|
  {
    if levels == [] then []
    else LevelCodes(pair, rel, sub, levels[..|levels| - 1]) + [Code(pair, rel, sub, levels[|levels| - 1])]
  }

  function SubCodes(pair: string, rel: string, subs: seq<string>, levels: seq<string>): seq<string>
    decreases |subs|
  {
    if subs == [] then []
    else SubCodes(pair, rel, subs[..|subs| - 1], levels) + LevelCodes(pair, rel, subs[|subs| - 1], levels)
  }

  /** The relations in scope, each with the sub-relations it keeps. */
  function Scope(f: CodeFilters, rels: seq<string>): seq<(string, seq<string>)>
    decreases |rels|
  {
    if rels == [] then []
    else Scope(f, rels[..|rels| - 1]) + [(rels[|rels| - 1], KeptSubs(f, rels[|rels| - 1]))]
  }

  function RelCodes(pair: string, scope: seq<(string, seq<string>)>, levels: seq<string>): seq<string>
    decreases |scope|
  {
    if scope == [] then []
    else
      var e := scope[|scope| - 1];
      RelCodes(pair, scope[..|scope| - 1], levels) + SubCodes(pair, e.0, e.1, levels)
  }

  function PairCodes(pairs: seq<string>, scope: seq<(string, seq<string>)>, levels: seq<string>): seq<string>
    decreases |pairs|
  {
    if pairs == [] then []
    else PairCodes(pairs[..|pairs| - 1], scope, levels) + RelCodes(pairs[|pairs| - 1], scope, levels)
  }

  /** The codes the filter admits, in the order the nested loops emit them. */
  function PossibleCodes(f: CodeFilters): seq<string> {
    PairCodes(PairAxis(f), Scope(f, RelAxis(f)), LevelAxis(f))
  }

  // ------------------------------------------------------------- the generator

  /** `generatePossibleCodes`: the cartesian product, pushed code by code. */
  method GeneratePossibleCodes(filters: CodeFilters) returns (codes: seq<string>)
    ensures codes == PossibleCodes(filters)
  {
    var pairs := if Present(filters.gender) then [filters.gender.value] else PairValues();
    var levels := if Present(filters.level) then [filters.level.value] else IntimacyLevels;
    var rels: seq<string> := [];
    if Present(filters.relation) {
      rels := [filters.relation.value];
    } else {
      rels := RelationKeys();
    }
    codes := PushPairCodes(filters, pairs, rels, levels);
  }

  /** The outer `pairs.forEach(...)`, starting from no codes. */
  method PushPairCodes(filters: CodeFilters, pairs: seq<string>, rels: seq<string>, levels: seq<string>)
    returns (codes: seq<string>)
    ensures codes == PairCodes(pairs, Scope(filters, rels), levels)
  {
    ghost var scope := Scope(filters, rels);
    codes := [];
    var i := 0;
    while i < |pairs|
      invariant 0 <= i <= |pairs|
      invariant codes == PairCodes(pairs[..i], scope, levels)
    {
      codes := PushRelCodes(codes, filters, pairs[i], rels, levels);
      PairCodesStep(pairs, scope, levels, i);
      i := i + 1;
    }
    assert pairs[..i] == pairs;
  }

  /** The inner `rels.forEach(...)` for one gender pair. */
  method PushRelCodes(codes: seq<string>, filters: CodeFilters, pair: string, rels: seq<string>, levels: seq<string>)
    returns (out: seq<string>)
    ensures out == codes + RelCodes(pair, Scope(filters, rels), levels)
  {
    out := codes;
    var j := 0;
    while j < |rels|
      invariant 0 <= j <= |rels|
      invariant out == codes + RelCodes(pair, Scope(filters, rels[..j]), levels)
    {
      var rel := rels[j];
      var subs := RelationSubs(filters, rel);
      ghost var done := RelCodes(pair, Scope(filters, rels[..j]), levels);
      out := PushSubCodes(out, pair, rel, subs, levels);
      ScopeStep(filters, rels, j);
      RelCodesSnoc(pair, Scope(filters, rels[..j]), (rel, subs), levels);
      AppendAssoc(codes, done, SubCodes(pair, rel, subs, levels));
      j := j + 1;
    }
    assert rels[..j] == rels;
  }

  /**
   * The body of `rels.forEach`: look the relation up (an unknown key keeps
   * nothing) and narrow its subs to the sub filter.
   */
  method RelationSubs(filters: CodeFilters, rel: string) returns (subs: seq<string>)
    ensures subs == KeptSubs(filters, rel)
  {
    subs := [];
    var relDef := LookupRelation(rel);
    if relDef.Some? {
      subs := SubValues(relDef.value);
      if Present(filters.sub) {
        if filters.sub.value in subs {
          subs := [filters.sub.value];
        } else {
          subs := [];
        }
      }
    }
    SubsOfMatch(rel);
  }

  /** The inner `subs.forEach(sub => ...)` for one pair and relation. */
  method PushSubCodes(codes: seq<string>, pair: string, rel: string, subs: seq<string>, levels: seq<string>)
    returns (out: seq<string>)
    ensures out == codes + SubCodes(pair, rel, subs, levels)
  {
    out := codes;
    var k := 0;
    while k < |subs|
      invariant 0 <= k <= |subs|
      invariant out == codes + SubCodes(pair, rel, subs[..k], levels)
    {
      ghost var done := SubCodes(pair, rel, subs[..k], levels);
      out := PushLevelCodes(out, pair, rel, subs[k], levels);
      SubCodesStep(pair, rel, subs, levels, k);
      AppendAssoc(codes, done, LevelCodes(pair, rel, subs[k], levels));
      k := k + 1;
    }
    assert subs[..k] == subs;
  }

  /** The innermost `levels.forEach(level => codes.push(...))`. */
  method PushLevelCodes(codes: seq<string>, pair: string, rel: string, sub: string, levels: seq<string>)
    returns (out: seq<string>)
    ensures out == codes + LevelCodes(pair, rel, sub, levels)
  {
    out := codes;
    var m := 0;
    while m < |levels|
      invariant 0 <= m <= |levels|
      invariant out == codes + LevelCodes(pair, rel, sub, levels[..m])
    {
      var code := Code(pair, rel, sub, levels[m]);
      LevelCodesStep(pair, rel, sub, levels, m);
      AppendAssoc(codes, LevelCodes(pair, rel, sub, levels[..m]), [code]);
      out := out + [code];
      m := m + 1;
    }
    assert levels[..m] == levels;
  }

  // ------------------------------------------------ one step of each function

  lemma LevelCodesStep(pair: string, rel: string, sub: string, levels: seq<string>, m: nat)
    requires m < |levels|
    ensures LevelCodes(pair, rel, sub, levels[..m + 1]) ==
              LevelCodes(pair, rel, sub, levels[..m]) + [Code(pair, rel, sub, levels[m])]
  {
    assert levels[..m + 1][..m] == levels[..m];
  }

  lemma SubCodesStep(pair: string, rel: string, subs: seq<string>, levels: seq<string>, k: nat)
    requires k < |subs|
    ensures SubCodes(pair, rel, subs[..k + 1], levels) ==
              SubCodes(pair, rel, subs[..k], levels) + LevelCodes(pair, rel, subs[k], levels)
  {
    assert subs[..k + 1][..k] == subs[..k];
  }

  lemma ScopeStep(f: CodeFilters, rels: seq<string>, j: nat)
    requires j < |rels|
    ensures Scope(f, rels[..j + 1]) == Scope(f, rels[..j]) + [(rels[j], KeptSubs(f, rels[j]))]
  {
    assert rels[..j + 1][..j] == rels[..j];
  }

  lemma RelCodesSnoc(pair: string, scope: seq<(string, seq<string>)>, e: (string, seq<string>), levels: seq<string>)
    ensures RelCodes(pair, scope + [e], levels) == RelCodes(pair, scope, levels) + SubCodes(pair, e.0, e.1, levels)
  {
    assert (scope + [e])[..|scope|] == scope;
  }

  lemma PairCodesStep(pairs: seq<string>, scope: seq<(string, seq<string>)>, levels: seq<string>, i: nat)
    requires i < |pairs|
    ensures PairCodes(pairs[..i + 1], scope, levels) == PairCodes(pairs[..i], scope, levels) + RelCodes(pairs[i], scope, levels)
  {
    assert pairs[..i + 1][..i] == pairs[..i];
  }

  // ----------------------------------------------------------------- the axes

  /** A kept sub belongs to a registry relation, and the kept subs are distinct and dash-free. */
  lemma KeptSubsFacts(f: CodeFilters, rel: string)
    ensures KeptSubs(f, rel) != [] ==> rel in RelationKeys() && '-' !in rel
    ensures NoDup(KeptSubs(f, rel))
    ensures forall s :: s in KeptSubs(f, rel) ==> s in SubsOf(rel) && '-' !in s
  {
    SubsOfNoDup(rel);
    forall s | s in SubsOf(rel) ensures '-' !in s {
      SubDashFree(rel, s);
    }
    RelationKeysShape();
  }

  /** The gender pairs in scope: the given one, or M-M, F-F, M-F, F-M. */
  lemma PairAxisShape(f: CodeFilters)
    ensures PairAxis(f) == if Present(f.gender) then [f.gender.value] else ["M-M", "F-F", "M-F", "F-M"]
  {
    GenderPairsShape();
  }

  /** The relations in scope: the given one, or B, Fa, Lo. */
  lemma RelAxisShape(f: CodeFilters)
    ensures RelAxis(f) == if Present(f.relation) then [f.relation.value] else ["B", "Fa", "Lo"]
  {
    RelationKeysShape();
  }

  /** The levels in scope: the given one, or L1..L5. */
  lemma LevelAxisShape(f: CodeFilters)
    ensures LevelAxis(f) == if Present(f.level) then [f.level.value] else ["L1", "L2", "L3", "L4", "L5"]
  {
    IntimacyLevelsShape();
  }

  /** Every axis is non-empty apart from relations and duplicate-free, and the pairs in scope are equally long. */
  lemma AxesFacts(f: CodeFilters)
    ensures NoDup(PairAxis(f)) && |PairAxis(f)| >= 1
    ensures SameWidth(PairAxis(f))
    ensures NoDup(RelAxis(f))
    ensures NoDup(LevelAxis(f)) && |LevelAxis(f)| >= 1
  {
    PairAxisFacts(f);
    RelAxisNoDup(f);
    LevelAxisFacts(f);
  }

  lemma PairAxisFacts(f: CodeFilters)
    ensures NoDup(PairAxis(f)) && |PairAxis(f)| >= 1
    ensures SameWidth(PairAxis(f))
  {
    GenderPairsShape();
  }

  lemma RelAxisNoDup(f: CodeFilters)
    ensures NoDup(RelAxis(f))
  {
    RelationKeysShape();
  }

  lemma LevelAxisFacts(f: CodeFilters)
    ensures NoDup(LevelAxis(f)) && |LevelAxis(f)| >= 1
  {
    IntimacyLevelsShape();
  }

  // ---------------------------------------------------------- code structure

  /**
   * Two codes with equally long pairs and dash-free relation and sub tokens
   * are equal only if all four fields are.
   */
  lemma CodeInjective(p: string, r: string, s: string, l: string, p2: string, r2: string, s2: string, l2: string)
    requires |p| == |p2|
    requires '-' !in r && '-' !in r2 && '-' !in s && '-' !in s2
    requires Code(p, r, s, l) == Code(p2, r2, s2, l2)
    ensures p == p2 && r == r2 && s == s2 && l == l2
  {
    var t, t2 := r + ("-" + (s + ("-" + l))), r2 + ("-" + (s2 + ("-" + l2)));
    PrefixCancel(p, "-" + t, p2, "-" + t2);
    PrefixCancel("-", t, "-", t2);
    SepCancel(r, s + ("-" + l), r2, s2 + ("-" + l2), '-');
    SepCancel(s, l, s2, l2, '-');
  }

  /** Codes that agree on pair, relation and sub agree on the level. */
  lemma LevelInjective(p: string, r: string, s: string, l: string, l2: string)
    requires Code(p, r, s, l) == Code(p, r, s, l2)
    ensures l == l2
  {
    PrefixCancel(p, "-" + (r + ("-" + (s + ("-" + l)))), p, "-" + (r + ("-" + (s + ("-" + l2)))));
    PrefixCancel("-", r + ("-" + (s + ("-" + l))), "-", r + ("-" + (s + ("-" + l2))));
    PrefixCancel(r, "-" + (s + ("-" + l)), r, "-" + (s + ("-" + l2)));
    PrefixCancel("-", s + ("-" + l), "-", s + ("-" + l2));
    PrefixCancel(s, "-" + l, s, "-" + l2);
    PrefixCancel("-", l, "-", l2);
  }

  /** `rel-sub-level` splits into rel, sub and the pieces of the level. */
  lemma TailSplit(r: string, s: string, l: string)
    requires '-' !in r && '-' !in s
    ensures Split(r + ("-" + (s + ("-" + l))), '-') == [r, s] + Split(l, '-')
  {
    var x := s + ("-" + l);
    AppendAssoc(r, "-", x);
    SplitAtSeparator(r, x, '-');
    AppendAssoc(s, "-", l);
    SplitAtSeparator(s, l, '-');
    SplitWithoutSeparator(r, '-');
    SplitWithoutSeparator(s, '-');
    AppendAssoc([r], [s], Split(l, '-'));
  }

  /**
   * A code built from registry values splits on '-' into exactly five tokens:
   * the two genders, the relation, the sub and the level.
   */
  lemma RegistryCodeSplit(p: string, r: string, s: string, l: string)
    requires p in PairValues() && r in RelationKeys() && s in SubsOf(r) && l in IntimacyLevels
    ensures Split(Code(p, r, s, l), '-') == [p[..1], p[2..], r, s, l]
    ensures p == p[..1] + "-" + p[2..]
  {
    RegistryPairSplit(p);
    RelationKeysShape();
    SubDashFree(r, s);
    IntimacyLevelsShape();
    FiveTokens(p[..1], p[2..], r, s, l);
  }

  /** `g1-g2-rel-sub-level` with five dash-free tokens splits back into them. */
  lemma FiveTokens(g1: string, g2: string, r: string, s: string, l: string)
    requires '-' !in g1 && '-' !in g2 && '-' !in r && '-' !in s && '-' !in l
    ensures Split(Code(g1 + "-" + g2, r, s, l), '-') == [g1, g2, r, s, l]
  {
    var t := r + ("-" + (s + ("-" + l)));
    var g2t := g2 + ("-" + t);
    assert Code(g1 + "-" + g2, r, s, l) == (g1 + "-" + g2) + ("-" + t);
    AppendAssoc(g1 + "-", g2, "-" + t);
    AppendAssoc(g1, "-", g2t);
    SplitAtSeparator(g1, g2t, '-');
    AppendAssoc(g2, "-", t);
    SplitAtSeparator(g2, t, '-');
    SplitWithoutSeparator(g1, '-');
    SplitWithoutSeparator(g2, '-');
    TailSplit(r, s, l);
    SplitWithoutSeparator(l, '-');
    assert [g1] + ([g2] + ([r, s] + [l])) == [g1, g2, r, s, l];
  }

  /** A registry gender pair is two one-letter, dash-free tokens around a '-'. */
  lemma RegistryPairSplit(p: string)
    requires p in PairValues()
    ensures |p| == 3 && p == p[..1] + "-" + p[2..]
    ensures '-' !in p[..1] && '-' !in p[2..]
  {
    GenderPairsShape();
    assert p[..1] == [p[0]] && p[2..] == [p[2]];
  }

  // ---------------------------------------------------------------- membership

  lemma {:induction false} LevelCodesMembers(p: string, r: string, s: string, levels: seq<string>, c: string)
    ensures c in LevelCodes(p, r, s, levels) <==> exists l :: l in levels && c == Code(p, r, s, l)
    decreases |levels|
  {
    if levels != [] {
      var init, last := levels[..|levels| - 1], levels[|levels| - 1];
      assert levels == init + [last];
      LevelCodesMembers(p, r, s, init, c);
    }
  }

  lemma {:induction false} SubCodesMembers(p: string, r: string, subs: seq<string>, levels: seq<string>, c: string)
    ensures c in SubCodes(p, r, subs, levels) <==>
              exists s, l :: s in subs && l in levels && c == Code(p, r, s, l)
    decreases |subs|
  {
    if subs != [] {
      var init, last := subs[..|subs| - 1], subs[|subs| - 1];
      assert subs == init + [last];
      SubCodesMembers(p, r, init, levels, c);
      LevelCodesMembers(p, r, last, levels, c);
    }
  }

  lemma {:induction false} RelCodesMembers(p: string, scope: seq<(string, seq<string>)>, levels: seq<string>, c: string)
    ensures c in RelCodes(p, scope, levels) <==>
              exists e, s, l :: e in scope && s in e.1 && l in levels && c == Code(p, e.0, s, l)
    decreases |scope|
  {
    if scope != [] {
      var init, last := scope[..|scope| - 1], scope[|scope| - 1];
      assert scope == init + [last];
      RelCodesMembers(p, init, levels, c);
      SubCodesMembers(p, last.0, last.1, levels, c);
    }
  }

  lemma {:induction false} PairCodesMembers(pairs: seq<string>, scope: seq<(string, seq<string>)>, levels: seq<string>, c: string)
    ensures c in PairCodes(pairs, scope, levels) <==>
              exists p, e, s, l :: p in pairs && e in scope && s in e.1 && l in levels && c == Code(p, e.0, s, l)
    decreases |pairs|
  {
    if pairs != [] {
      var init, last := pairs[..|pairs| - 1], pairs[|pairs| - 1];
      assert pairs == init + [last];
      PairCodesMembers(init, scope, levels, c);
      RelCodesMembers(last, scope, levels, c);
    }
  }

  /** The scope lists each relation in scope once, in order, with the subs it keeps. */
  lemma {:induction false} ScopeShape(f: CodeFilters, rels: seq<string>)
    ensures |Scope(f, rels)| == |rels|
    ensures forall i :: 0 <= i < |rels| ==> Scope(f, rels)[i] == (rels[i], KeptSubs(f, rels[i]))
    decreases |rels|
  {
    if rels != [] {
      ScopeShape(f, rels[..|rels| - 1]);
    }
  }

  lemma ScopeMembers(f: CodeFilters, rels: seq<string>, e: (string, seq<string>))
    ensures e in Scope(f, rels) <==> e.0 in rels && e.1 == KeptSubs(f, e.0)
  {
    ScopeShape(f, rels);
    if e.0 in rels && e.1 == KeptSubs(f, e.0) {
      var i :| 0 <= i < |rels| && rels[i] == e.0;
      assert Scope(f, rels)[i] == e;
    }
  }

  /**
   * A code is generated exactly when it is `pair-rel-sub-level` for a pair,
   * relation and level in scope and a sub that the relation owns and the sub
   * filter keeps.
   */
  lemma PossibleCodesMembers(f: CodeFilters, c: string)
    ensures c in PossibleCodes(f) <==>
              exists p, r, s, l :: p in PairAxis(f) && r in RelAxis(f) && s in KeptSubs(f, r) && l in LevelAxis(f) &&
                c == Code(p, r, s, l)
  {
    var scope := Scope(f, RelAxis(f));
    PairCodesMembers(PairAxis(f), scope, LevelAxis(f), c);
    if c in PossibleCodes(f) {
      var p, e, s, l :| p in PairAxis(f) && e in scope && s in e.1 && l in LevelAxis(f) && c == Code(p, e.0, s, l);
      ScopeMembers(f, RelAxis(f), e);
    }
    forall p, r, s, l | p in PairAxis(f) && r in RelAxis(f) && s in KeptSubs(f, r) && l in LevelAxis(f) &&
        c == Code(p, r, s, l)
      ensures c in PossibleCodes(f)
    {
      ScopeMembers(f, RelAxis(f), (r, KeptSubs(f, r)));
    }
  }

  /** Every generated code is built from a sub that its relation owns in the registry. */
  lemma PossibleCodesWellFormed(f: CodeFilters, c: string)
    requires c in PossibleCodes(f)
    ensures exists p, r, s, l :: r in RelationKeys() && s in SubsOf(r) && c == Code(p, r, s, l)
  {
    PossibleCodesMembers(f, c);
    var p, r, s, l :| p in PairAxis(f) && r in RelAxis(f) && s in KeptSubs(f, r) && l in LevelAxis(f) &&
      c == Code(p, r, s, l);
    KeptSubsFacts(f, r);
  }

  // -------------------------------------------------------------------- length

  /** The number of sub-relations in a scope. */
  function SubsTotal(scope: seq<(string, seq<string>)>): nat
    decreases |scope|
  {
    if scope == [] then 0 else SubsTotal(scope[..|scope| - 1]) + |scope[|scope| - 1].1|
  }

  lemma {:induction false} LevelCodesLength(p: string, r: string, s: string, levels: seq<string>)
    ensures |LevelCodes(p, r, s, levels)| == |levels|
    decreases |levels|
  {
    if levels != [] {
      LevelCodesLength(p, r, s, levels[..|levels| - 1]);
    }
  }

  lemma {:induction false} SubCodesLength(p: string, r: string, subs: seq<string>, levels: seq<string>)
    ensures |SubCodes(p, r, subs, levels)| == |subs| * |levels|
    decreases |subs|
  {
    if subs != [] {
      SubCodesLength(p, r, subs[..|subs| - 1], levels);
      LevelCodesLength(p, r, subs[|subs| - 1], levels);
      StepProduct(|subs|, |levels|);
    }
  }

  lemma {:induction false} RelCodesLength(p: string, scope: seq<(string, seq<string>)>, levels: seq<string>)
    ensures |RelCodes(p, scope, levels)| == SubsTotal(scope) * |levels|
    decreases |scope|
  {
    if scope != [] {
      var init, last := scope[..|scope| - 1], scope[|scope| - 1];
      assert RelCodes(p, scope, levels) == RelCodes(p, init, levels) + SubCodes(p, last.0, last.1, levels);
      assert SubsTotal(scope) == SubsTotal(init) + |last.1|;
      RelCodesLength(p, init, levels);
      SubCodesLength(p, last.0, last.1, levels);
      SumProduct(SubsTotal(init), |last.1|, |levels|);
    }
  }

  lemma {:induction false} PairCodesLength(pairs: seq<string>, scope: seq<(string, seq<string>)>, levels: seq<string>)
    ensures |PairCodes(pairs, scope, levels)| == |pairs| * (SubsTotal(scope) * |levels|)
    decreases |pairs|
  {
    if pairs != [] {
      PairCodesLength(pairs[..|pairs| - 1], scope, levels);
      RelCodesLength(pairs[|pairs| - 1], scope, levels);
      StepProduct(|pairs|, SubsTotal(scope) * |levels|);
    }
  }

  lemma StepProduct(n: nat, m: nat)
    requires n >= 1
    ensures (n - 1) * m + m == n * m
  {
  }

  lemma SumProduct(a: nat, b: nat, m: nat)
    ensures a * m + b * m == (a + b) * m
  {
  }

  /** The number of sub-relations kept over the relations in scope. */
  function KeptCount(f: CodeFilters): nat {
    SubsTotal(Scope(f, RelAxis(f)))
  }

  /** The list has |pairs| x |kept subs| x |levels| entries. */
  lemma PossibleCodesLength(f: CodeFilters)
    ensures |PossibleCodes(f)| == |PairAxis(f)| * (KeptCount(f) * |LevelAxis(f)|)
  {
    PairCodesLength(PairAxis(f), Scope(f, RelAxis(f)), LevelAxis(f));
  }

  // ------------------------------------------------------------- no duplicates

  /** All gender pairs in scope have the same length. */
  predicate SameWidth(pairs: seq<string>) {
    forall a, b :: a in pairs && b in pairs ==> |a| == |b|
  }

  /** Distinct relations, each with distinct dash-free subs and, when it keeps any, a dash-free key. */
  predicate WellScoped(scope: seq<(string, seq<string>)>) {
    (forall i, j :: 0 <= i < j < |scope| ==> scope[i].0 != scope[j].0) &&
    (forall e :: e in scope ==> NoDup(e.1) && (e.1 != [] ==> '-' !in e.0)) &&
    (forall e, s :: e in scope && s in e.1 ==> '-' !in s)
  }

  lemma WellScopedInit(scope: seq<(string, seq<string>)>)
    requires WellScoped(scope) && scope != []
    ensures WellScoped(scope[..|scope| - 1])
    ensures forall e :: e in scope[..|scope| - 1] ==> e.0 != scope[|scope| - 1].0
  {
    var init := scope[..|scope| - 1];
    forall i, j | 0 <= i < j < |init| ensures init[i].0 != init[j].0 {
      assert init[i] == scope[i] && init[j] == scope[j];
    }
    forall e | e in init ensures e.0 != scope[|scope| - 1].0 {
      var k :| 0 <= k < |init| && init[k] == e;
      assert scope[k] == e;
    }
  }

  lemma {:induction false} LevelCodesNoDup(p: string, r: string, s: string, levels: seq<string>)
    requires NoDup(levels)
    ensures NoDup(LevelCodes(p, r, s, levels))
    decreases |levels|
  {
    if levels != [] {
      var init, last := levels[..|levels| - 1], levels[|levels| - 1];
      NoDupInit(levels);
      LevelCodesNoDup(p, r, s, init);
      var c := Code(p, r, s, last);
      if c in LevelCodes(p, r, s, init) {
        LevelCodesMembers(p, r, s, init, c);
        var l :| l in init && c == Code(p, r, s, l);
        LevelInjective(p, r, s, l, last);
      }
      NoDupConcat(LevelCodes(p, r, s, init), [c]);
    }
  }

  lemma {:induction false} SubCodesNoDup(p: string, r: string, subs: seq<string>, levels: seq<string>)
    requires NoDup(subs) && NoDup(levels)
    requires subs != [] ==> '-' !in r
    requires forall s :: s in subs ==> '-' !in s
    ensures NoDup(SubCodes(p, r, subs, levels))
    decreases |subs|
  {
    if subs != [] {
      var init, last := subs[..|subs| - 1], subs[|subs| - 1];
      NoDupInit(subs);
      SubCodesNoDup(p, r, init, levels);
      LevelCodesNoDup(p, r, last, levels);
      forall c | c in SubCodes(p, r, init, levels) ensures c !in LevelCodes(p, r, last, levels) {
        SubCodesMembers(p, r, init, levels, c);
        var s, l :| s in init && l in levels && c == Code(p, r, s, l);
        if c in LevelCodes(p, r, last, levels) {
          LevelCodesMembers(p, r, last, levels, c);
          var l2 :| l2 in levels && c == Code(p, r, last, l2);
          CodeInjective(p, r, s, l, p, r, last, l2);
        }
      }
      NoDupConcat(SubCodes(p, r, init, levels), LevelCodes(p, r, last, levels));
    }
  }

  lemma {:induction false} RelCodesNoDup(p: string, scope: seq<(string, seq<string>)>, levels: seq<string>)
    requires WellScoped(scope) && NoDup(levels)
    ensures NoDup(RelCodes(p, scope, levels))
    decreases |scope|
  {
    if scope != [] {
      var init, last := scope[..|scope| - 1], scope[|scope| - 1];
      WellScopedInit(scope);
      RelCodesNoDup(p, init, levels);
      assert last in scope;
      SubCodesNoDup(p, last.0, last.1, levels);
      var tail := SubCodes(p, last.0, last.1, levels);
      forall c | c in RelCodes(p, init, levels) ensures c !in tail {
        RelCodesMembers(p, init, levels, c);
        var e, s, l :| e in init && s in e.1 && l in levels && c == Code(p, e.0, s, l);
        assert e in scope;
        if c in tail {
          SubCodesMembers(p, last.0, last.1, levels, c);
          var s2, l2 :| s2 in last.1 && l2 in levels && c == Code(p, last.0, s2, l2);
          CodeInjective(p, e.0, s, l, p, last.0, s2, l2);
        }
      }
      NoDupConcat(RelCodes(p, init, levels), tail);
    }
  }

  lemma {:induction false} PairCodesNoDup(pairs: seq<string>, scope: seq<(string, seq<string>)>, levels: seq<string>)
    requires NoDup(pairs) && WellScoped(scope) && NoDup(levels)
    requires SameWidth(pairs)
    ensures NoDup(PairCodes(pairs, scope, levels))
    decreases |pairs|
  {
    if pairs != [] {
      var init, last := pairs[..|pairs| - 1], pairs[|pairs| - 1];
      NoDupInit(pairs);
      assert forall a :: a in init ==> a in pairs;
      PairCodesNoDup(init, scope, levels);
      RelCodesNoDup(last, scope, levels);
      PairCodesDisjoint(init, last, scope, levels);
      NoDupConcat(PairCodes(init, scope, levels), RelCodes(last, scope, levels));
    }
  }

  /** The codes of a new pair of the same width share nothing with those of the earlier pairs. */
  lemma PairCodesDisjoint(init: seq<string>, last: string, scope: seq<(string, seq<string>)>, levels: seq<string>)
    requires last !in init
    requires forall a :: a in init ==> |a| == |last|
    requires WellScoped(scope)
    ensures forall c :: c in PairCodes(init, scope, levels) ==> c !in RelCodes(last, scope, levels)
  {
    forall c | c in PairCodes(init, scope, levels) ensures c !in RelCodes(last, scope, levels) {
      PairCodesMembers(init, scope, levels, c);
      var p, e, s, l :| p in init && e in scope && s in e.1 && l in levels && c == Code(p, e.0, s, l);
      if c in RelCodes(last, scope, levels) {
        RelCodesMembers(last, scope, levels, c);
        var e2, s2, l2 :| e2 in scope && s2 in e2.1 && l2 in levels && c == Code(last, e2.0, s2, l2);
        CodeInjective(p, e.0, s, l, last, e2.0, s2, l2);
      }
    }
  }

  /** The scope of a duplicate-free list of relations is well scoped. */
  lemma ScopeWellScoped(f: CodeFilters, rels: seq<string>)
    requires NoDup(rels)
    ensures WellScoped(Scope(f, rels))
  {
    var scope := Scope(f, rels);
    ScopeShape(f, rels);
    forall e | e in scope ensures NoDup(e.1) && (e.1 != [] ==> '-' !in e.0) {
      ScopeMembers(f, rels, e);
      KeptSubsFacts(f, e.0);
    }
    forall e, s | e in scope && s in e.1 ensures '-' !in s {
      ScopeMembers(f, rels, e);
      KeptSubsFacts(f, e.0);
    }
  }

  /** The generated codes are pairwise distinct. */
  lemma PossibleCodesNoDup(f: CodeFilters)
    ensures NoDup(PossibleCodes(f))
  {
    var pairs, rels, levels := PairAxis(f), RelAxis(f), LevelAxis(f);
    AxesFacts(f);
    ScopeWellScoped(f, rels);
    PairCodesNoDup(pairs, Scope(f, rels), levels);
  }

  // ------------------------------------------------------------------ emptiness

  /** A scope holds no sub-relations exactly when every relation in it keeps none. */
  lemma {:induction false} ScopeEmpty(f: CodeFilters, rels: seq<string>)
    ensures SubsTotal(Scope(f, rels)) == 0 <==> forall r :: r in rels ==> KeptSubs(f, r) == []
    decreases |rels|
  {
    if rels != [] {
      var init, last := rels[..|rels| - 1], rels[|rels| - 1];
      ScopeEmpty(f, init);
      assert Scope(f, rels)[..|Scope(f, rels)| - 1] == Scope(f, init);
      assert forall r :: r in rels <==> r in init || r == last;
    }
  }

  lemma ProductZero(a: nat, b: nat, c: nat)
    requires a >= 1 && c >= 1
    ensures a * (b * c) == 0 <==> b == 0
  {
    if b > 0 {
      assert b * c >= 1;
      assert a * (b * c) >= b * c;
    }
  }

  /**
   * No code is generated exactly when no relation in scope keeps a sub:
   * the pair and level axes are never empty.
   */
  lemma PossibleCodesEmpty(f: CodeFilters)
    ensures PossibleCodes(f) == [] <==> KeptCount(f) == 0
    ensures KeptCount(f) == 0 <==> forall r :: r in RelAxis(f) ==> KeptSubs(f, r) == []
  {
    PossibleCodesLength(f);
    AxesNonEmpty(f);
    ProductZero(|PairAxis(f)|, KeptCount(f), |LevelAxis(f)|);
    assert |PossibleCodes(f)| == 0 <==> KeptCount(f) == 0;
    ScopeEmpty(f, RelAxis(f));
  }

  /** There is always at least one pair and one level in scope. */
  lemma AxesNonEmpty(f: CodeFilters)
    ensures |PairAxis(f)| >= 1 && |LevelAxis(f)| >= 1
  {
    AxesFacts(f);
  }

  /** A relation key outside RELATION_MAP yields no codes, whatever else is given. */
  lemma UnknownRelationEmpty(f: CodeFilters)
    requires Present(f.relation) && f.relation.value !in RelationKeys()
    ensures PossibleCodes(f) == []
  {
    RelationKeysMatch();
    LookupShape(f.relation.value);
    PossibleCodesEmpty(f);
  }

  /** A relation together with a sub it does not own yields no codes. */
  lemma UnownedSubEmpty(f: CodeFilters)
    requires Present(f.relation) && Present(f.sub) && f.sub.value !in SubsOf(f.relation.value)
    ensures PossibleCodes(f) == []
  {
    PossibleCodesEmpty(f);
  }

  /**
   * With a sub but no relation, the codes are those of the sub's owning
   * relation, one per pair and level; a sub no relation owns yields none.
   */
  lemma SubWithoutRelation(f: CodeFilters)
    requires Present(f.sub) && !Present(f.relation)
    ensures OwnerOf(f.sub.value).None? ==> PossibleCodes(f) == []
    ensures OwnerOf(f.sub.value).Some? ==> |PossibleCodes(f)| == |PairAxis(f)| * |LevelAxis(f)|
    ensures forall c :: c in PossibleCodes(f) <==>
              exists p, l :: p in PairAxis(f) && l in LevelAxis(f) && OwnerOf(f.sub.value).Some? &&
                c == Code(p, OwnerOf(f.sub.value).value, f.sub.value, l)
  {
    SubOnlyCount(f);
    PossibleCodesEmpty(f);
    PossibleCodesLength(f);
    forall c ensures c in PossibleCodes(f) <==>
        exists p, l :: p in PairAxis(f) && l in LevelAxis(f) && OwnerOf(f.sub.value).Some? &&
          c == Code(p, OwnerOf(f.sub.value).value, f.sub.value, l)
    {
      SubOnlyMembers(f, c);
    }
  }

  /** With a sub but no relation, the scope keeps one sub if some relation owns it, else none. */
  lemma SubOnlyCount(f: CodeFilters)
    requires Present(f.sub) && !Present(f.relation)
    ensures KeptCount(f) == if OwnerOf(f.sub.value).Some? then 1 else 0
  {
    var s := f.sub.value;
    var owner := OwnerOf(s);
    assert RelAxis(f) == RelationKeys();
    forall r | r in RelAxis(f) ensures KeptSubs(f, r) == if owner == Some(r) then [s] else [] {
      OwnerKeeps(f, r);
    }
    if owner.Some? {
      OwnerKeeps(f, owner.value);
      KeptSubsFacts(f, owner.value);
    }
    RelAxisNoDup(f);
    OwnerTotal(f, RelAxis(f), s, owner);
  }

  /** With a sub but no relation, a code is generated exactly when it names the sub's owner and the sub. */
  lemma SubOnlyMembers(f: CodeFilters, c: string)
    requires Present(f.sub) && !Present(f.relation)
    ensures c in PossibleCodes(f) <==>
              exists p, l :: p in PairAxis(f) && l in LevelAxis(f) && OwnerOf(f.sub.value).Some? &&
                c == Code(p, OwnerOf(f.sub.value).value, f.sub.value, l)
  {
    var s := f.sub.value;
    var owner := OwnerOf(s);
    PossibleCodesMembers(f, c);
    if c in PossibleCodes(f) {
      var p, r, s', l :| p in PairAxis(f) && r in RelAxis(f) && s' in KeptSubs(f, r) && l in LevelAxis(f) &&
        c == Code(p, r, s', l);
      OwnerKeeps(f, r);
    }
    if owner.Some? && exists p, l :: p in PairAxis(f) && l in LevelAxis(f) && c == Code(p, owner.value, s, l) {
      var p, l :| p in PairAxis(f) && l in LevelAxis(f) && c == Code(p, owner.value, s, l);
      OwnerKeeps(f, owner.value);
      KeptSubsFacts(f, owner.value);
      assert owner.value in RelAxis(f);
    }
  }

  /** Under a sub filter, only the sub's owner keeps anything, and it keeps just that sub. */
  lemma OwnerKeeps(f: CodeFilters, r: string)
    requires Present(f.sub)
    ensures KeptSubs(f, r) == if OwnerOf(f.sub.value) == Some(r) then [f.sub.value] else []
  {
    var s := f.sub.value;
    if s in SubsOf(r) {
      SubValuesUnique(r, OwnerOf(s).value, s);
    }
  }

  /** When at most one relation keeps a single sub and the rest keep none, the scope holds that one sub. */
  lemma {:induction false} OwnerTotal(f: CodeFilters, rels: seq<string>, s: string, owner: Option<string>)
    requires NoDup(rels)
    requires forall r :: r in rels ==> KeptSubs(f, r) == if owner == Some(r) then [s] else []
    ensures SubsTotal(Scope(f, rels)) == if owner.Some? && owner.value in rels then 1 else 0
    decreases |rels|
  {
    if rels != [] {
      var init, last := rels[..|rels| - 1], rels[|rels| - 1];
      NoDupInit(rels);
      assert forall r :: r in init ==> r in rels;
      OwnerTotal(f, init, s, owner);
      var scope := Scope(f, rels);
      assert scope == Scope(f, init) + [(last, KeptSubs(f, last))];
      assert scope[..|scope| - 1] == Scope(f, init);
      assert SubsTotal(scope) == SubsTotal(Scope(f, init)) + |KeptSubs(f, last)|;
      assert |KeptSubs(f, last)| == if owner == Some(last) then 1 else 0;
      assert forall r :: r in rels <==> r in init || r == last;
    }
  }

  // ------------------------------------------------------------------- examples

  lemma AllLevels(p: string, r: string, s: string)
    ensures LevelCodes(p, r, s, IntimacyLevels) ==
              [Code(p, r, s, "L1"), Code(p, r, s, "L2"), Code(p, r, s, "L3"), Code(p, r, s, "L4"), Code(p, r, s, "L5")]
  {
    IntimacyLevelsShape();
    var c1, c2, c3, c4, c5 := Code(p, r, s, "L1"), Code(p, r, s, "L2"), Code(p, r, s, "L3"), Code(p, r, s, "L4"), Code(p, r, s, "L5");
    assert ["L1"][..0] == [];
    assert LevelCodes(p, r, s, ["L1"]) == [c1];
    assert ["L1", "L2"][..1] == ["L1"];
    assert LevelCodes(p, r, s, ["L1", "L2"]) == [c1, c2];
    assert ["L1", "L2", "L3"][..2] == ["L1", "L2"];
    assert LevelCodes(p, r, s, ["L1", "L2", "L3"]) == [c1, c2, c3];
    assert ["L1", "L2", "L3", "L4"][..3] == ["L1", "L2", "L3"];
    assert LevelCodes(p, r, s, ["L1", "L2", "L3", "L4"]) == [c1, c2, c3, c4];
    assert ["L1", "L2", "L3", "L4", "L5"][..4] == ["L1", "L2", "L3", "L4"];
  }

  /** The scope over three relations, entry by entry. */
  lemma ScopeOfThree(f: CodeFilters, a: string, b: string, c: string)
    ensures Scope(f, [a, b, c]) == [(a, KeptSubs(f, a)), (b, KeptSubs(f, b)), (c, KeptSubs(f, c))]
  {
    assert [a][..0] == [];
    assert Scope(f, [a]) == [(a, KeptSubs(f, a))];
    assert [a, b][..1] == [a];
    assert Scope(f, [a, b]) == [(a, KeptSubs(f, a)), (b, KeptSubs(f, b))];
    assert [a, b, c][..2] == [a, b];
  }

  lemma PairCodesOfFour(a: string, b: string, c: string, d: string, scope: seq<(string, seq<string>)>, levels: seq<string>)
    ensures PairCodes([a, b, c, d], scope, levels) ==
              RelCodes(a, scope, levels) + RelCodes(b, scope, levels) + RelCodes(c, scope, levels) + RelCodes(d, scope, levels)
  {
    assert [a][..0] == [];
    assert PairCodes([a], scope, levels) == RelCodes(a, scope, levels);
    assert [a, b][..1] == [a];
    assert PairCodes([a, b], scope, levels) == RelCodes(a, scope, levels) + RelCodes(b, scope, levels);
    assert [a, b, c][..2] == [a, b];
    assert PairCodes([a, b, c], scope, levels) ==
             RelCodes(a, scope, levels) + RelCodes(b, scope, levels) + RelCodes(c, scope, levels);
    assert [a, b, c, d][..3] == [a, b, c];
  }

  lemma RelCodesOfThree(p: string, e1: (string, seq<string>), e2: (string, seq<string>), e3: (string, seq<string>), levels: seq<string>)
    ensures RelCodes(p, [e1, e2, e3], levels) ==
              SubCodes(p, e1.0, e1.1, levels) + SubCodes(p, e2.0, e2.1, levels) + SubCodes(p, e3.0, e3.1, levels)
  {
    assert [e1][..0] == [];
    assert RelCodes(p, [e1], levels) == SubCodes(p, e1.0, e1.1, levels);
    assert [e1, e2][..1] == [e1];
    assert RelCodes(p, [e1, e2], levels) == SubCodes(p, e1.0, e1.1, levels) + SubCodes(p, e2.0, e2.1, levels);
    assert [e1, e2, e3][..2] == [e1, e2];
  }

  lemma SubCodesOfOne(p: string, r: string, s: string, levels: seq<string>)
    ensures SubCodes(p, r, [s], levels) == LevelCodes(p, r, s, levels)
  {
    assert [s][..0] == [];
  }

  lemma ScopeOfOne(f: CodeFilters, a: string)
    ensures Scope(f, [a]) == [(a, KeptSubs(f, a))]
  {
    assert [a][..0] == [];
  }

  lemma PairCodesOfOne(p: string, scope: seq<(string, seq<string>)>, levels: seq<string>)
    ensures PairCodes([p], scope, levels) == RelCodes(p, scope, levels)
  {
    assert [p][..0] == [];
  }

  lemma RelCodesOfOne(p: string, e: (string, seq<string>), levels: seq<string>)
    ensures RelCodes(p, [e], levels) == SubCodes(p, e.0, e.1, levels)
  {
    assert [e][..0] == [];
  }

  lemma SubsTotalOfThree(e1: (string, seq<string>), e2: (string, seq<string>), e3: (string, seq<string>))
    ensures SubsTotal([e1, e2, e3]) == |e1.1| + |e2.1| + |e3.1|
  {
    SubsTotalSnoc([], e1);
    assert [] + [e1] == [e1];
    SubsTotalSnoc([e1], e2);
    assert [e1] + [e2] == [e1, e2];
    SubsTotalSnoc([e1, e2], e3);
    assert [e1, e2] + [e3] == [e1, e2, e3];
  }

  lemma SubsTotalSnoc(scope: seq<(string, seq<string>)>, e: (string, seq<string>))
    ensures SubsTotal(scope + [e]) == SubsTotal(scope) + |e.1|
  {
    assert (scope + [e])[..|scope|] == scope;
  }

  /** `{sub: 'Ar'}`: the twenty Friend/Area codes, pair-major and level-minor. */
  lemma SubArExample()
    ensures PossibleCodes(CodeFilters(None, None, Some("Ar"), None)) ==
              AreaCodes("M-M") + AreaCodes("F-F") + AreaCodes("M-F") + AreaCodes("F-M")
    ensures AreaCodes("M-M")[0] == "M-M-B-Ar-L1" && AreaCodes("F-M")[4] == "F-M-B-Ar-L5"
    ensures |PossibleCodes(CodeFilters(None, None, Some("Ar"), None))| == 20
  {
    SubArCodes();
    AreaCodesEnds();
  }

  lemma SubArCodes()
    ensures PossibleCodes(CodeFilters(None, None, Some("Ar"), None)) ==
              AreaCodes("M-M") + AreaCodes("F-F") + AreaCodes("M-F") + AreaCodes("F-M")
  {
    SubArAxes();
    PairCodesOfFour("M-M", "F-F", "M-F", "F-M", AreaScope(), IntimacyLevels);
    AreaRelCodes("M-M");
    AreaRelCodes("F-F");
    AreaRelCodes("M-F");
    AreaRelCodes("F-M");
  }

  lemma AreaCodesEnds()
    ensures AreaCodes("M-M")[0] == "M-M-B-Ar-L1" && AreaCodes("F-M")[4] == "F-M-B-Ar-L5"
  {
  }

  /** Under `{sub: 'Ar'}` all four pairs, the Friend/Area scope and every level are in play. */
  lemma SubArAxes()
    ensures PossibleCodes(CodeFilters(None, None, Some("Ar"), None)) ==
              PairCodes(["M-M", "F-F", "M-F", "F-M"], AreaScope(), IntimacyLevels)
  {
    PairAxisShape(CodeFilters(None, None, Some("Ar"), None));
  }

  /** Under `{sub: 'Ar'}` only Friend keeps a sub, and it keeps Ar. */
  function AreaScope(): (r: seq<(string, seq<string>)>)
    ensures r == Scope(CodeFilters(None, None, Some("Ar"), None), RelAxis(CodeFilters(None, None, Some("Ar"), None)))
  {
    var f := CodeFilters(None, None, Some("Ar"), None);
    assert KeptSubs(f, "B") == ["Ar"];
    assert KeptSubs(f, "Fa") == [] && KeptSubs(f, "Lo") == [];
    RelAxisShape(f);
    ScopeOfThree(f, "B", "Fa", "Lo");
    [("B", ["Ar"]), ("Fa", []), ("Lo", [])]
  }

  lemma AreaRelCodes(p: string)
    ensures RelCodes(p, AreaScope(), IntimacyLevels) == AreaCodes(p)
  {
    RelCodesOfThree(p, ("B", ["Ar"]), ("Fa", []), ("Lo", []), IntimacyLevels);
    assert SubCodes(p, "Fa", [], IntimacyLevels) == [] && SubCodes(p, "Lo", [], IntimacyLevels) == [];
    SubCodesOfOne(p, "B", "Ar", IntimacyLevels);
    AllLevels(p, "B", "Ar");
    AreaSpelling(p);
  }

  lemma AreaSpelling(p: string)
    ensures AreaCodes(p) ==
              [Code(p, "B", "Ar", "L1"), Code(p, "B", "Ar", "L2"), Code(p, "B", "Ar", "L3"), Code(p, "B", "Ar", "L4"), Code(p, "B", "Ar", "L5")]
  {
    assert "-" + ("B" + ("-" + ("Ar" + ("-" + "L1")))) == "-B-Ar-L1";
    assert "-" + ("B" + ("-" + ("Ar" + ("-" + "L2")))) == "-B-Ar-L2";
    assert "-" + ("B" + ("-" + ("Ar" + ("-" + "L3")))) == "-B-Ar-L3";
    assert "-" + ("B" + ("-" + ("Ar" + ("-" + "L4")))) == "-B-Ar-L4";
    assert "-" + ("B" + ("-" + ("Ar" + ("-" + "L5")))) == "-B-Ar-L5";
  }

  /** The Friend/Area codes of one pair, L1..L5. */
  function AreaCodes(p: string): (r: seq<string>)
    ensures |r| == 5
  {
    [p + "-B-Ar-L1", p + "-B-Ar-L2", p + "-B-Ar-L3", p + "-B-Ar-L4", p + "-B-Ar-L5"]
  }

  /** `{relation: 'B', sub: 'Br'}`: Br belongs to Family, so nothing is generated. */
  lemma FriendBrotherExample()
    ensures PossibleCodes(CodeFilters(None, Some("B"), Some("Br"), None)) == []
  {
    UnownedSubEmpty(CodeFilters(None, Some("B"), Some("Br"), None));
  }

  /**
   * `{gender: 'M-M', relation: 'Fa', sub: 'Si'}` yields the five M-M sister
   * codes, although Sister declares only F-F and M-F as its pairs.
   */
  lemma ValidPairsIgnoredExample()
    ensures PossibleCodes(CodeFilters(Some("M-M"), Some("Fa"), Some("Si"), None)) ==
              ["M-M-Fa-Si-L1", "M-M-Fa-Si-L2", "M-M-Fa-Si-L3", "M-M-Fa-Si-L4", "M-M-Fa-Si-L5"]
    ensures LookupRelation("Fa").Some? && LookupRelation("Fa").value.subs[1] == SubRelation("Sister (Si)", "Si", Some(["F-F", "M-F"]))
  {
    SisterCodes();
    AllLevels("M-M", "Fa", "Si");
    SisterSpelling();
    LookupShape("Fa");
  }

  lemma SisterCodes()
    ensures PossibleCodes(CodeFilters(Some("M-M"), Some("Fa"), Some("Si"), None)) == LevelCodes("M-M", "Fa", "Si", IntimacyLevels)
  {
    var f := CodeFilters(Some("M-M"), Some("Fa"), Some("Si"), None);
    assert KeptSubs(f, "Fa") == ["Si"];
    assert PairAxis(f) == ["M-M"] && RelAxis(f) == ["Fa"] && LevelAxis(f) == IntimacyLevels;
    ScopeOfOne(f, "Fa");
    PairCodesOfOne("M-M", [("Fa", ["Si"])], IntimacyLevels);
    RelCodesOfOne("M-M", ("Fa", ["Si"]), IntimacyLevels);
    SubCodesOfOne("M-M", "Fa", "Si", IntimacyLevels);
  }

  lemma SisterSpelling()
    ensures [Code("M-M", "Fa", "Si", "L1"), Code("M-M", "Fa", "Si", "L2"), Code("M-M", "Fa", "Si", "L3"),
             Code("M-M", "Fa", "Si", "L4"), Code("M-M", "Fa", "Si", "L5")] ==
            ["M-M-Fa-Si-L1", "M-M-Fa-Si-L2", "M-M-Fa-Si-L3", "M-M-Fa-Si-L4", "M-M-Fa-Si-L5"]
  {
    assert Code("M-M", "Fa", "Si", "L1") == "M-M-Fa-Si-L1";
    assert Code("M-M", "Fa", "Si", "L2") == "M-M-Fa-Si-L2";
    assert Code("M-M", "Fa", "Si", "L3") == "M-M-Fa-Si-L3";
    assert Code("M-M", "Fa", "Si", "L4") == "M-M-Fa-Si-L4";
    assert Code("M-M", "Fa", "Si", "L5") == "M-M-Fa-Si-L5";
  }

  /** With no filter at all, 4 pairs x 18 subs x 5 levels = 360 codes. */
  lemma UnfilteredCount()
    ensures |PossibleCodes(CodeFilters(None, None, None, None))| == 360
  {
    UnfilteredCountOf(CodeFilters(None, None, None, None));
  }

  lemma UnfilteredCountOf(f: CodeFilters)
    requires f == CodeFilters(None, None, None, None)
    ensures |PossibleCodes(f)| == 360
  {
    UnfilteredAxes(f);
    PossibleCodesLength(f);
  }

  /** With no filter: 4 pairs, 18 kept subs and 5 levels. */
  lemma UnfilteredAxes(f: CodeFilters)
    requires f == CodeFilters(None, None, None, None)
    ensures |PairAxis(f)| == 4 && KeptCount(f) == 18 && |LevelAxis(f)| == 5
  {
    UnfilteredKept();
    PairAxisShape(f);
    LevelAxisShape(f);
  }

  /** With no filter, the scope keeps all 4 + 10 + 4 sub-relations. */
  lemma UnfilteredKept()
    ensures KeptCount(CodeFilters(None, None, None, None)) == 18
  {
    var f := CodeFilters(None, None, None, None);
    RelAxisShape(f);
    ScopeOfThree(f, "B", "Fa", "Lo");
    SubsTotalOfThree(("B", SubsOf("B")), ("Fa", SubsOf("Fa")), ("Lo", SubsOf("Lo")));
    SubsSizes();
  }
}
