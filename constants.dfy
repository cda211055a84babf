/**
 * The static targeting taxonomy: gender pairs, the relation -> sub-relation
 * tree (each sub-relation optionally restricted to some gender pairs) and the
 * intimacy levels. Pure data; the lemmas state its structural invariants.
 */
module Constants {
  import opened Wrappers
  import opened Lists

  datatype GenderPair = GenderPair(title: string, value: string)

  /** A sub-relation; `validPairs` is the optional list of gender pairs it is meant for. */
  datatype SubRelation = SubRelation(title: string, value: string, validPairs: Option<seq<string>>)

  datatype RelationDef = RelationDef(title: string, subs: seq<SubRelation>)

  const GenderPairs: seq<GenderPair> := [
    GenderPair("Male-Male", "M-M"),
    GenderPair("Female-Female", "F-F"),
    GenderPair("Male-Female", "M-F"),
    GenderPair("Female-Male", "F-M")
  ]

  /** RELATION_MAP, as its entries in declaration (and `Object.keys`) order. */
  const RelationMap: seq<(string, RelationDef)> := [
    ("B", RelationDef("Friend (B)", [
      SubRelation("Area/Hometown (Ar)", "Ar", None),
      SubRelation("School (Sc)", "Sc", None),
      SubRelation("Work/Org (Or)", "Or", None),
      SubRelation("Daily/Social (Dc)", "Dc", None)
    ])),
    ("Fa", RelationDef("Family (Fa)", [
      SubRelation("Brother (Br)", "Br", Some(["M-M", "F-M"])),
      SubRelation("Sister (Si)", "Si", Some(["F-F", "M-F"])),
      SubRelation("Brother-Sister (Bs)", "Bs", Some(["M-F"])),
      SubRelation("Sister-Brother (Sb)", "Sb", Some(["F-M"])),
      SubRelation("Cousin (Co)", "Co", None),
      SubRelation("Father-Son (Fs)", "Fs", Some(["M-M"])),
      SubRelation("Father-Daughter (Fd)", "Fd", Some(["M-F"])),
      SubRelation("Mother-Son (Ms)", "Ms", Some(["F-M"])),
      SubRelation("Mother-Daughter (Md)", "Md", Some(["F-F"])),
      SubRelation("Grandparent (Gp)", "Gp", None)
    ])),
    ("Lo", RelationDef("Lover (Lo)", [
      SubRelation("Sweet/Lover (Sw)", "Sw", Some(["M-F", "F-M"])),
      SubRelation("Girlfriend (Gw)", "Gw", Some(["M-F", "F-M"])),
      SubRelation("Husband-Wife (Hw)", "Hw", Some(["M-F"])),
      SubRelation("Partner-Wife (Pw)", "Pw", Some(["F-M"]))
    ]))
  ]

  const IntimacyLevels: seq<string> := ["L1", "L2", "L3", "L4", "L5"]

  /** `GENDER_PAIRS.map(g => g.value)`, as the literal list; `PairValuesMatch` ties it to the records. */
  function PairValues(): seq<string> {
    ["M-M", "F-F", "M-F", "F-M"]
  }

  /** `Object.keys(RELATION_MAP)`, as the literal list; `RelationKeysMatch` ties it to the map. */
  function RelationKeys(): seq<string> {
    ["B", "Fa", "Lo"]
  }

  /** `RELATION_MAP[key]`: the definition stored under that key, if any. */
  function LookupRelation(key: string): Option<RelationDef> {
    LookupFrom(RelationMap, key)
  }

  function LookupFrom(entries: seq<(string, RelationDef)>, key: string): Option<RelationDef> {
    if entries == [] then None
    else if entries[0].0 == key then Some(entries[0].1)
    else LookupFrom(entries[1..], key)
  }

  /** `relDef.subs.map(s => s.value)` */
  function SubValues(def: RelationDef): seq<string> {
    seq(|def.subs|, k requires 0 <= k < |def.subs| => def.subs[k].value)
  }

  const FriendSubs: seq<string> := ["Ar", "Sc", "Or", "Dc"]
  const FamilySubs: seq<string> := ["Br", "Si", "Bs", "Sb", "Co", "Fs", "Fd", "Ms", "Md", "Gp"]
  const LoverSubs: seq<string> := ["Sw", "Gw", "Hw", "Pw"]

  /**
   * The sub values of the relation under `key`, or none for an unknown key,
   * as literal lists; `SubsOfMatch` ties them to `RELATION_MAP`.
   */
  function SubsOf(key: string): seq<string> {
    if key == "B" then FriendSubs
    else if key == "Fa" then FamilySubs
    else if key == "Lo" then LoverSubs
    else []
  }

  // ---------------------------------------------------------------- invariants

  /** Four gender pairs, in the order M-M, F-F, M-F, F-M; each is two one-letter tokens joined by '-'. */
  lemma GenderPairsShape()
    ensures PairValues() == ["M-M", "F-F", "M-F", "F-M"]
    ensures forall p :: p in PairValues() ==>
              |p| == 3 && p[1] == '-' && (p[0] == 'M' || p[0] == 'F') && (p[2] == 'M' || p[2] == 'F')
    ensures NoDup(PairValues())
  {
  }

  /** `RELATION_MAP[key]` finds exactly the three declared keys. */
  lemma LookupShape(key: string)
    ensures LookupRelation(key) ==
      if key == "B" then Some(RelationMap[0].1)
      else if key == "Fa" then Some(RelationMap[1].1)
      else if key == "Lo" then Some(RelationMap[2].1)
      else None
  {
    var e0 := RelationMap;
    var e1 := e0[1..];
    var e2 := e1[1..];
    var e3 := e2[1..];
    assert e0[0].0 == "B" && e1[0].0 == "Fa" && e2[0].0 == "Lo" && e3 == [];
    assert e1[0].1 == RelationMap[1].1 && e2[0].1 == RelationMap[2].1;
    assert LookupFrom(e0, key) == if key == "B" then Some(e0[0].1) else LookupFrom(e1, key);
    assert LookupFrom(e1, key) == if key == "Fa" then Some(e1[0].1) else LookupFrom(e2, key);
    assert LookupFrom(e2, key) == if key == "Lo" then Some(e2[0].1) else LookupFrom(e3, key);
    assert LookupFrom(e3, key) == None;
  }

  lemma FriendShape()
    ensures SubValues(RelationMap[0].1) == FriendSubs
  {
    var b := SubValues(RelationMap[0].1);
    assert |b| == 4 && b[0] == "Ar" && b[1] == "Sc" && b[2] == "Or" && b[3] == "Dc";
  }

  lemma FamilyShape()
    ensures SubValues(RelationMap[1].1) == FamilySubs
  {
    var f := SubValues(RelationMap[1].1);
    assert |f| == 10 && f[0] == "Br" && f[1] == "Si" && f[2] == "Bs" && f[3] == "Sb" && f[4] == "Co";
    assert f[5] == "Fs" && f[6] == "Fd" && f[7] == "Ms" && f[8] == "Md" && f[9] == "Gp";
  }

  lemma LoverShape()
    ensures SubValues(RelationMap[2].1) == LoverSubs
  {
    var l := SubValues(RelationMap[2].1);
    assert |l| == 4 && l[0] == "Sw" && l[1] == "Gw" && l[2] == "Hw" && l[3] == "Pw";
  }

  /** The gender-pair values are the `value` fields of GENDER_PAIRS, in order. */
  lemma PairValuesMatch()
    ensures |PairValues()| == |GenderPairs|
    ensures forall k :: 0 <= k < |GenderPairs| ==> PairValues()[k] == GenderPairs[k].value
  {
  }

  /** The relation keys are the keys of RELATION_MAP, in declaration order. */
  lemma RelationKeysMatch()
    ensures |RelationKeys()| == |RelationMap|
    ensures forall k :: 0 <= k < |RelationMap| ==> RelationKeys()[k] == RelationMap[k].0
    ensures forall key :: LookupRelation(key).Some? <==> key in RelationKeys()
  {
    forall key ensures LookupRelation(key).Some? <==> key in RelationKeys() {
      LookupShape(key);
    }
  }

  /** The sub values of every key are those RELATION_MAP stores under it: B has 4, Fa 10, Lo 4, any other key none. */
  lemma SubsOfMatch(key: string)
    ensures SubsOf(key) == match LookupRelation(key) case None => [] case Some(def) => SubValues(def)
  {
    LookupShape(key);
    if key == "B" { FriendShape(); }
    else if key == "Fa" { FamilyShape(); }
    else if key == "Lo" { LoverShape(); }
  }

  /** The relation keys are B, Fa, Lo in declaration order, with 4, 10 and 4 sub-relations. */
  lemma RelationsShape()
    ensures RelationKeys() == ["B", "Fa", "Lo"]
    ensures SubsOf("B") == ["Ar", "Sc", "Or", "Dc"]
    ensures SubsOf("Fa") == ["Br", "Si", "Bs", "Sb", "Co", "Fs", "Fd", "Ms", "Md", "Gp"]
    ensures SubsOf("Lo") == ["Sw", "Gw", "Hw", "Pw"]
    ensures |SubsOf("B")| == 4 && |SubsOf("Fa")| == 10 && |SubsOf("Lo")| == 4
  {
  }

  /** How many sub-relations each relation declares. */
  lemma SubsSizes()
    ensures |SubsOf("B")| == 4 && |SubsOf("Fa")| == 10 && |SubsOf("Lo")| == 4
  {
    RelationsShape();
  }

  /** The eighteen literal sub values are pairwise distinct. */
  lemma RegistrySubsNoDup()
    ensures NoDup(FriendSubs + FamilySubs + LoverSubs)
  {
  }

  /** The eighteen sub values, relation by relation. */
  function AllSubValues(): seq<string> {
    SubsOf("B") + SubsOf("Fa") + SubsOf("Lo")
  }

  /** Sub-relation values are unique across the whole registry. */
  lemma AllSubValuesNoDup()
    ensures NoDup(AllSubValues())
  {
    RelationsShape();
    RegistrySubsNoDup();
  }

  /** Each sub value belongs to exactly one relation. */
  lemma SubValuesUnique(r1: string, r2: string, s: string)
    requires s in SubsOf(r1) && s in SubsOf(r2)
    ensures r1 == r2
  {
    if r1 != r2 {
      LiteralSubsDisjoint(s);
    }
  }

  /** No sub value appears in two of the three literal lists. */
  lemma LiteralSubsDisjoint(s: string)
    ensures s in FriendSubs ==> s !in FamilySubs && s !in LoverSubs
    ensures s in FamilySubs ==> s !in LoverSubs
  {
  }

  /** The relation that owns a sub value, if any. */
  function OwnerOf(sub: string): (r: Option<string>)
    ensures r.Some? ==> sub in SubsOf(r.value)
    ensures r.None? ==> forall key :: sub !in SubsOf(key)
  {
    if sub in FriendSubs then Some("B")
    else if sub in FamilySubs then Some("Fa")
    else if sub in LoverSubs then Some("Lo")
    else None
  }

  /** Every `validPairs` entry is one of the four gender-pair values. */
  lemma ValidPairsAreGenderPairs()
    ensures forall e, k, p ::
              e in RelationMap && 0 <= k < |e.1.subs| && e.1.subs[k].validPairs.Some? &&
              p in e.1.subs[k].validPairs.value
              ==> p in PairValues()
  {
  }

  /** `validPairs` is absent exactly on Ar, Sc, Or, Dc, Co and Gp. */
  lemma ValidPairsOptional()
    ensures forall e, k :: e in RelationMap && 0 <= k < |e.1.subs| ==>
              (e.1.subs[k].validPairs.None? <==> e.1.subs[k].value in ["Ar", "Sc", "Or", "Dc", "Co", "Gp"])
  {
  }

  /** The intimacy levels are L1..L5 in this order, all distinct. */
  lemma IntimacyLevelsShape()
    ensures IntimacyLevels == ["L1", "L2", "L3", "L4", "L5"]
    ensures NoDup(IntimacyLevels)
  {
  }

  /** No relation key, sub value or level contains '-'. */
  lemma NoDashInTokens()
    ensures forall key :: key in RelationKeys() ==> '-' !in key
    ensures forall key, s :: s in SubsOf(key) ==> '-' !in s
    ensures forall l :: l in IntimacyLevels ==> '-' !in l
  {
    RelationKeysShape();
    forall key, s | s in SubsOf(key) ensures '-' !in s {
      SubDashFree(key, s);
    }
  }

  /** The relation keys, in order, distinct and dash-free. */
  lemma RelationKeysShape()
    ensures RelationKeys() == ["B", "Fa", "Lo"]
    ensures NoDup(RelationKeys())
    ensures forall key :: key in RelationKeys() ==> '-' !in key
  {
  }

  /** A sub value contains no '-'. */
  lemma SubDashFree(key: string, s: string)
    requires s in SubsOf(key)
    ensures '-' !in s
  {
  }

  /** The sub values of each relation are distinct. */
  lemma SubsOfNoDup(key: string)
    ensures NoDup(SubsOf(key))
  {
  }
}
