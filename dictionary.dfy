/** The feature dictionary: the raw id space `dict` (feature key -> id) that
    the bag builder fills, and the compacted id space `dictChi`
    (raw id -> compacted id) that the chi-squared filter fills when it
    re-maps the surviving features. */
module Dictionaries {
  import opened FeatureKeys
  import opened MuseTypes
  import opened HashMaps

  ghost predicate Injective<K>(m: map<K, int>) {
    forall a, b :: a in m && b in m && m[a] == m[b] ==> a == b
  }

  /** The ids handed out so far: pairwise distinct and within `1..|m|`. */
  ghost predicate IsNumbering<K>(m: map<K, int>) {
    Injective(m) && forall k :: k in m ==> 1 <= m[k] <= |m|
  }

  /** `big` keeps every entry of `small`. */
  ghost predicate Extends<K>(big: map<K, int>, small: map<K, int>) {
    forall k :: k in small ==> k in big && big[k] == small[k]
  }

  /** The id set `{1, ..., n}`. */
  function IdRange(n: nat): (r: set<int>)
    ensures forall id :: id in r <==> 1 <= id <= n
    ensures |r| == n
  {
    if n == 0 then {} else IdRange(n - 1) + {n}
  }

  /** The map after a lookup-or-insert of `k`. */
  function Insert<K>(m: map<K, int>, k: K): map<K, int> {
    if k in m then m else m[k := |m| + 1]
  }

  /** Lookup-or-insert: a present key yields its id; a new key gets the id
      `size() + 1`. */
  function LookupOrInsert<K>(m: map<K, int>, k: K): (r: (map<K, int>, int))
    ensures k in r.0 && r.0[k] == r.1
    ensures r.0.Keys == m.Keys + {k}
    ensures forall k' :: k' in m ==> r.0[k'] == m[k']
  {
    var m' := Insert(m, k);
    (m', m'[k])
  }

  /** The keys of a bag with a positive count. */
  function PositiveKeys(m: map<int, int>): set<int> {
    set k | k in m && m[k] > 0
  }

  /** The positive keys of all the bags. */
  function AllPositiveKeys(bags: seq<BagOfBigrams>): (r: set<int>)
    ensures forall i :: 0 <= i < |bags| ==> PositiveKeys(bags[i].bob) <= r
    ensures forall k :: k in r ==> exists i :: 0 <= i < |bags| && k in PositiveKeys(bags[i].bob)
  {
    if bags == [] then {}
    else AllPositiveKeys(bags[..|bags| - 1]) + PositiveKeys(bags[|bags| - 1].bob)
  }

  /** The positive keys of one more bag. */
  lemma AllPositiveKeysStep(bags: seq<BagOfBigrams>, j: int)
    requires 0 <= j < |bags|
    ensures forall x :: x in AllPositiveKeys(bags[..j + 1]) <==>
              x in AllPositiveKeys(bags[..j]) || x in PositiveKeys(bags[j].bob)
  {
    assert bags[..j + 1][..j] == bags[..j];
  }

  /** The first `j` bags of `bs` are the compactions of those of `original`
      under `chi`, with their labels; the others are untouched. */
  ghost predicate BagsRemapped(bs: seq<BagOfBigrams>, original: seq<BagOfBigrams>, j: int, chi: map<int, int>) {
    && |bs| == |original|
    && (forall i :: 0 <= i < j && i < |bs| ==>
          bs[i].classLabel == original[i].classLabel && IsCompaction(bs[i].bob, original[i].bob, chi))
    && (forall i :: 0 <= i < |bs| && j <= i ==> bs[i] == original[i])
  }

  /** Compacting bag `j` under an extension of the renaming extends the
      prefix of remapped bags by one. */
  lemma BagsRemappedStep(bs: seq<BagOfBigrams>, original: seq<BagOfBigrams>, j: int,
                         before: map<int, int>, chi: map<int, int>, newMap: map<int, int>)
    requires 0 <= j < |bs|
    requires BagsRemapped(bs, original, j, before)
    requires Extends(chi, before)
    requires IsCompaction(newMap, original[j].bob, chi)
    ensures BagsRemapped(bs[j := BagOfBigrams(newMap, bs[j].classLabel)], original, j + 1, chi)
  {
    forall i | 0 <= i < j
      ensures IsCompaction(bs[i].bob, original[i].bob, chi)
    {
      CompactionStable(bs[i].bob, original[i].bob, before, chi);
    }
  }

  /** `out` is a bag after compaction of `m`: the zero entries are gone and
      every surviving entry is re-keyed through the renaming `ren`, keeping
      its count; nothing else is in `out`. */
  ghost predicate IsCompaction(out: map<int, int>, m: map<int, int>, ren: map<int, int>) {
    && (forall k :: k in m && m[k] > 0 ==> k in ren && ren[k] in out && out[ren[k]] == m[k])
    && (forall id :: id in out ==> exists k :: k in m && m[k] > 0 && k in ren && ren[k] == id)
  }

  // ---------------------------------------------------------------------
  // Properties of the numbering

  /** Lookup-or-insert keeps a numbering: a present key leaves the map as it
      is; a new key gets id `size() + 1`, the map grows by exactly one and
      every other key keeps its id. */
  lemma LookupOrInsertNumbering<K>(m: map<K, int>, k: K)
    requires IsNumbering(m)
    ensures k in m ==> LookupOrInsert(m, k) == (m, m[k])
    ensures k !in m ==> LookupOrInsert(m, k).1 == |m| + 1 && |LookupOrInsert(m, k).0| == |m| + 1
    ensures IsNumbering(LookupOrInsert(m, k).0)
    ensures Extends(LookupOrInsert(m, k).0, m)
  {
  }

  lemma {:induction false} InjectiveValues<K>(m: map<K, int>)
    requires Injective(m)
    ensures |m.Values| == |m|
    decreases |m|
  {
    if m != map[] {
      var k :| k in m;
      var rest := m - {k};
      assert |rest| == |m| - 1;
      forall v | v in m.Values ensures v in rest.Values + {m[k]} {
        var k' :| k' in m && m[k'] == v;
        if k' != k {
          assert k' in rest;
        }
      }
      assert m.Values == rest.Values + {m[k]};
      assert m[k] !in rest.Values;
      InjectiveValues(rest);
    }
  }

  /** The ids of a numbering are exactly `1..|m|`. */
  lemma NumberingIsDense<K>(m: map<K, int>)
    requires IsNumbering(m)
    ensures m.Values == IdRange(|m|)
  {
    var vs, range := m.Values, IdRange(|m|);
    assert vs <= range;
    InjectiveValues(m);
    assert range * vs == vs;
    assert |range - vs| == 0;
  }

  /** A compaction stays one when the renaming is extended beyond it. */
  lemma CompactionStable(out: map<int, int>, m: map<int, int>, ren: map<int, int>, ren': map<int, int>)
    requires IsCompaction(out, m, ren)
    requires Extends(ren', ren)
    ensures IsCompaction(out, m, ren')
  {
    forall id | id in out ensures exists k :: k in m && m[k] > 0 && k in ren' && ren'[k] == id {
      var k :| k in m && m[k] > 0 && k in ren && ren[k] == id;
      assert k in ren' && ren'[k] == id;
    }
  }

  /** Under an injective renaming a bag has exactly one compaction. */
  lemma CompactionUnique(o1: map<int, int>, o2: map<int, int>, m: map<int, int>, ren: map<int, int>)
    requires Injective(ren)
    requires IsCompaction(o1, m, ren) && IsCompaction(o2, m, ren)
    ensures o1 == o2
  {
    forall id | id in o1 ensures id in o2 && o2[id] == o1[id] {
      var k :| k in m && m[k] > 0 && k in ren && ren[k] == id;
    }
    forall id | id in o2 ensures id in o1 {
      var k :| k in m && m[k] > 0 && k in ren && ren[k] == id;
    }
  }

  /** The renaming restricted to the positive keys of a bag. */
  function RenamingOn(m: map<int, int>, ren: map<int, int>): (r: map<int, int>)
    requires PositiveKeys(m) <= ren.Keys
    ensures r.Keys == PositiveKeys(m)
    ensures forall k :: k in r ==> r[k] == ren[k]
  {
    map k | k in PositiveKeys(m) :: ren[k]
  }

  /** The keys of a compaction are the ids the renaming gives its positive keys. */
  lemma CompactionKeys(out: map<int, int>, m: map<int, int>, ren: map<int, int>)
    requires IsCompaction(out, m, ren)
    ensures PositiveKeys(m) <= ren.Keys
    ensures out.Keys == RenamingOn(m, ren).Values
  {
    assert forall k :: k in PositiveKeys(m) ==> k in ren;
    var r := RenamingOn(m, ren);
    forall id | id in out ensures id in r.Values {
      var k :| k in m && m[k] > 0 && k in ren && ren[k] == id;
      assert r[k] == id;
    }
    forall id | id in r.Values ensures id in out {
      if forall k :: k in r ==> r[k] != id {
        assert false;
      }
      var k :| k in r && r[k] == id;
    }
  }

  /** A compaction under a numbering holds one entry per positive entry of
      the bag, with keys among the ids of the numbering. */
  lemma CompactionShape(out: map<int, int>, m: map<int, int>, ren: map<int, int>)
    requires IsNumbering(ren)
    requires IsCompaction(out, m, ren)
    ensures forall id :: id in out ==> 1 <= id <= |ren| && out[id] > 0
    ensures |out| == |PositiveKeys(m)|
  {
    forall id | id in out ensures 1 <= id <= |ren| && out[id] > 0 {
      var k :| k in m && m[k] > 0 && k in ren && ren[k] == id;
    }
    CompactionKeys(out, m, ren);
    var r := RenamingOn(m, ren);
    assert Injective(r);
    InjectiveValues(r);
  }

  // ---------------------------------------------------------------------
  // The dictionary

  class Dictionary {
    var dict: map<FeatureKey, int>
    var dictChi: map<int, int>

    ghost predicate Valid()
      reads this
    {
      IsNumbering(dict) && IsNumbering(dictChi)
    }

    constructor ()
      ensures Valid()
      ensures dict == map[] && dictChi == map[]
    {
      dict, dictChi := map[], map[];
    }

    /** Clears both id spaces. */
    method Reset()
      modifies this
      ensures Valid()
      ensures dict == map[] && dictChi == map[]
      ensures Size() == 0
    {
      dict, dictChi := map[], map[];
    }

    /** The id of a feature key, inserting it with the next id when new. */
    method GetWord(word: FeatureKey) returns (id: int)
      requires Valid()
      modifies this
      ensures Valid()
      ensures dict == LookupOrInsert(old(dict), word).0 && id == LookupOrInsert(old(dict), word).1
      ensures dictChi == old(dictChi)
    {
      ghost var r := LookupOrInsert(dict, word);
      LookupOrInsertNumbering(dict, word);
      if word in dict {
        id := dict[word];
      } else {
        id := |dict| + 1;
        dict := dict[word := id];
      }
      assert dict == r.0 && id == r.1;
    }

    /** The compacted id of a raw id, inserting it with the next compacted id
      when new. */
    method GetWordChi(word: int) returns (id: int)
      requires Valid()
      modifies this
      ensures Valid()
      ensures dictChi == LookupOrInsert(old(dictChi), word).0 && id == LookupOrInsert(old(dictChi), word).1
      ensures dict == old(dict)
    {
      ghost var r := LookupOrInsert(dictChi, word);
      LookupOrInsertNumbering(dictChi, word);
      if word in dictChi {
        id := dictChi[word];
      } else {
        id := |dictChi| + 1;
        dictChi := dictChi[word := id];
      }
      assert dictChi == r.0 && id == r.1;
    }

    /** The number of features: the compacted space once it holds anything,
      the raw space otherwise.  The ids of that space are exactly `1..n`. */
    function Size(): (n: nat)
      reads this
      requires Valid()
      ensures n == 0 <==> dict == map[] && dictChi == map[]
      ensures dictChi != map[] ==> n == |dictChi| && dictChi.Values == IdRange(n)
      ensures dictChi == map[] ==> n == |dict| && dict.Values == IdRange(n)
    {
      NumberingIsDense(dict);
      NumberingIsDense(dictChi);
      if dictChi != map[] then |dictChi| else |dict|
    }

    /** Compacts every bag: drops its zero entries and re-keys the others
      through `getWordChi`. */
    method Remap(bags: array<BagOfBigrams>)
      requires Valid()
      modifies this, bags
      ensures Valid()
      ensures dict == old(dict)
      ensures Extends(dictChi, old(dictChi))
      ensures forall x :: x in dictChi <==> x in old(dictChi) || x in AllPositiveKeys(old(bags[..]))
      ensures forall j :: 0 <= j < bags.Length ==>
                bags[j].classLabel == old(bags[j]).classLabel
                && IsCompaction(bags[j].bob, old(bags[j]).bob, dictChi)
    {
      ghost var original, chi0 := bags[..], dictChi;
      var j := 0;
      while j < bags.Length
        invariant 0 <= j <= bags.Length
        invariant Valid()
        invariant dict == old(dict) && chi0 == old(dictChi)
        invariant Extends(dictChi, chi0)
        invariant forall x :: x in dictChi <==> x in chi0 || x in AllPositiveKeys(original[..j])
        invariant BagsRemapped(bags[..], original, j, dictChi)
      {
        ghost var before := dictChi;
        var newMap := RemapBag(bags[j].bob);
        AllPositiveKeysStep(original, j);
        BagsRemappedStep(bags[..], original, j, before, dictChi, newMap);
        bags[j] := BagOfBigrams(newMap, bags[j].classLabel);
        j := j + 1;
      }
      assert original[..bags.Length] == original;
    }

    /** The body of `remap` for one bag: a fresh map holding, for each
      positive entry of `oldMap`, `getWordChi(key) -> value`. */
    method RemapBag(oldMap: map<int, int>) returns (newMap: map<int, int>)
      requires Valid()
      modifies this
      ensures Valid()
      ensures dict == old(dict)
      ensures Extends(dictChi, old(dictChi))
      ensures forall x :: x in dictChi <==> x in old(dictChi) || x in PositiveKeys(oldMap)
      ensures IsCompaction(newMap, oldMap, dictChi)
    {
      ghost var chi0 := dictChi;
      newMap := map[];
      var todo := oldMap.Keys;
      ghost var done: set<int> := {};
      while todo != {}
        invariant forall x :: x in todo <==> x in oldMap && x !in done
        invariant Valid() && dict == old(dict) && chi0 == old(dictChi)
        invariant RemapInv(oldMap, chi0, done, newMap, dictChi)
        decreases |todo|
      {
        NonEmptyHasMember(todo);
        var k :| k in todo;
        if oldMap[k] > 0 {
          RemapInvAdd(oldMap, chi0, done, newMap, dictChi, k);
          var id := GetWordChi(k);
          newMap := newMap[id := oldMap[k]];
        } else {
          RemapInvSkip(oldMap, chi0, done, newMap, dictChi, k);
        }
        todo := todo - {k};
        done := done + {k};
      }
      RemapInvDone(oldMap, chi0, newMap, dictChi);
    }
  }

  // ---------------------------------------------------------------------
  // The loop of `remap` on one bag

  /** The entries of `m` with keys in `done` that are compacted into `out`
      through `ren`. */
  ghost predicate CompactsForward(out: map<int, int>, m: map<int, int>, done: set<int>, ren: map<int, int>) {
    forall k :: k in done && k in m && m[k] > 0 ==> k in ren && ren[k] in out && out[ren[k]] == m[k]
  }

  /** Every entry of `out` comes from a positive entry of `m` with key in `done`. */
  ghost predicate CompactsBack(out: map<int, int>, m: map<int, int>, done: set<int>, ren: map<int, int>) {
    forall id :: id in out ==> exists k :: k in done && k in m && m[k] > 0 && k in ren && ren[k] == id
  }

  /** `out` is the compaction of the entries of `m` whose keys are in `done`. */
  ghost predicate IsPartialCompaction(out: map<int, int>, m: map<int, int>, done: set<int>, ren: map<int, int>) {
    CompactsForward(out, m, done, ren) && CompactsBack(out, m, done, ren)
  }

  lemma CompactionStepForward(out: map<int, int>, m: map<int, int>, done: set<int>, ren: map<int, int>, k: int)
    requires IsNumbering(ren)
    requires CompactsForward(out, m, done, ren)
    requires k in m && m[k] > 0
    ensures var (ren', id) := LookupOrInsert(ren, k);
            CompactsForward(out[id := m[k]], m, done + {k}, ren')
  {
    LookupOrInsertNumbering(ren, k);
    var (ren', id) := LookupOrInsert(ren, k);
    forall k' | k' in done && k' in m && m[k'] > 0 && k' != k
      ensures ren'[k'] != id
    {
    }
  }

  lemma CompactionStepBack(out: map<int, int>, m: map<int, int>, done: set<int>, ren: map<int, int>, k: int)
    requires IsNumbering(ren)
    requires CompactsBack(out, m, done, ren)
    requires k in m && m[k] > 0
    ensures var (ren', id) := LookupOrInsert(ren, k);
            CompactsBack(out[id := m[k]], m, done + {k}, ren')
  {
    LookupOrInsertNumbering(ren, k);
    var (ren', id) := LookupOrInsert(ren, k);
    forall i | i in out && i != id
      ensures exists k' :: k' in done + {k} && k' in m && m[k'] > 0 && k' in ren' && ren'[k'] == i
    {
      var k' :| k' in done && k' in m && m[k'] > 0 && k' in ren && ren[k'] == i;
      assert ren'[k'] == i;
    }
  }

  /** What holds after the keys `done` of `oldMap` have been processed,
      starting from the compacted space `chi0`. */
  ghost predicate RemapInv(oldMap: map<int, int>, chi0: map<int, int>, done: set<int>, newMap: map<int, int>, chi: map<int, int>) {
    && IsNumbering(chi)
    && Extends(chi, chi0)
    && (forall x :: x in chi <==> x in chi0 || (x in done && x in oldMap && oldMap[x] > 0))
    && IsPartialCompaction(newMap, oldMap, done, chi)
  }

  /** A positive entry joins the new map under its compacted id. */
  lemma RemapInvAdd(oldMap: map<int, int>, chi0: map<int, int>, done: set<int>, newMap: map<int, int>, chi: map<int, int>, k: int)
    requires RemapInv(oldMap, chi0, done, newMap, chi)
    requires k in oldMap && oldMap[k] > 0
    ensures var (chi', id) := LookupOrInsert(chi, k);
            RemapInv(oldMap, chi0, done + {k}, newMap[id := oldMap[k]], chi')
  {
    LookupOrInsertNumbering(chi, k);
    CompactionStepForward(newMap, oldMap, done, chi, k);
    CompactionStepBack(newMap, oldMap, done, chi, k);
  }

  /** An entry that is not positive is skipped. */
  lemma RemapInvSkip(oldMap: map<int, int>, chi0: map<int, int>, done: set<int>, newMap: map<int, int>, chi: map<int, int>, k: int)
    requires RemapInv(oldMap, chi0, done, newMap, chi)
    requires k in oldMap && oldMap[k] <= 0
    ensures RemapInv(oldMap, chi0, done + {k}, newMap, chi)
  {
    assert CompactsBack(newMap, oldMap, done + {k}, chi) by {
      forall id | id in newMap
        ensures exists k' :: k' in done + {k} && k' in oldMap && oldMap[k'] > 0 && k' in chi && chi[k'] == id
      {
        var k' :| k' in done && k' in oldMap && oldMap[k'] > 0 && k' in chi && chi[k'] == id;
      }
    }
  }

  /** Once every key is processed the new map is the compaction of `oldMap`. */
  lemma RemapInvDone(oldMap: map<int, int>, chi0: map<int, int>, newMap: map<int, int>, chi: map<int, int>)
    requires RemapInv(oldMap, chi0, oldMap.Keys, newMap, chi)
    ensures IsNumbering(chi)
    ensures Extends(chi, chi0)
    ensures forall x :: x in chi <==> x in chi0 || x in PositiveKeys(oldMap)
    ensures IsCompaction(newMap, oldMap, chi)
  {
  }
}
