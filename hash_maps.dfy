/** The hppc primitive hash-map operations the source uses, on Dafny maps:
    `get` (absent keys read as 0), `putOrAdd`, and the two summaries the
    model states its results with (the tally of a sequence, the total of a
    map's values). */
module HashMaps {

  /** `map.get(k)`: absent keys read as the default value 0. */
  function Get<K>(m: map<K, int>, k: K): int {
    if k in m then m[k] else 0
  }

  /** `map.get(k)` on a map with `double` values. */
  function GetReal<K>(m: map<K, real>, k: K): real {
    if k in m then m[k] else 0.0
  }

  /** `map.putOrAdd(k, putValue, increment)`. */
  function PutOrAdd<K>(m: map<K, int>, k: K, putValue: int, increment: int): (r: map<K, int>)
    ensures r.Keys == m.Keys + {k}
    ensures forall k' :: k' in m && k' != k ==> r[k'] == m[k']
    ensures r[k] == if k in m then m[k] + increment else putValue
  {
    if k in m then m[k := m[k] + increment] else m[k := putValue]
  }

  /** The map that `putOrAdd(x, 1, 1)` builds from an empty map, applied to the
      elements of `s` in order. */
  function Tally<K>(s: seq<K>): map<K, int> {
    if s == [] then map[] else PutOrAdd(Tally(s[..|s| - 1]), s[|s| - 1], 1, 1)
  }

  /** A non-empty key set has a key to visit next: the step every loop over
      the keys of a hash container takes. */
  lemma NonEmptyHasMember(s: set<int>)
    requires s != {}
    ensures exists x :: x in s
  {
    if forall x :: x !in s {
      assert false;
    }
  }

  /** The sum of a map's values. */
  ghost function Total<K>(m: map<K, int>): int
    decreases |m|
  {
    if m == map[] then 0
    else
      var k :| k in m;
      m[k] + Total(m - {k})
  }

  // ---------------------------------------------------------------------
  // Properties

  /** The tally holds exactly the elements of the sequence, each with its
      number of occurrences. */
  lemma {:induction false} TallyCounts<K>(s: seq<K>, x: K)
    ensures x in Tally(s) <==> x in s
    ensures Get(Tally(s), x) == multiset(s)[x]
  {
    if s != [] {
      var init, last := s[..|s| - 1], s[|s| - 1];
      assert s == init + [last];
      TallyCounts(init, x);
    }
  }

  /** The total does not depend on which key is taken out first. */
  lemma {:induction false} TotalRemove<K>(m: map<K, int>, k: K)
    requires k in m
    ensures Total(m) == m[k] + Total(m - {k})
    decreases |m|
  {
    var k' :| k' in m && Total(m) == m[k'] + Total(m - {k'});
    if k' != k {
      var m1 := m - {k'};
      var m2 := m - {k};
      assert m1.Keys == m.Keys - {k'};
      assert |m1| == |m| - 1;
      assert |m2| == |m| - 1;
      TotalRemove(m1, k);
      TotalRemove(m2, k');
      assert m1 - {k} == m2 - {k'};
    }
  }

  lemma TotalPutOrAddOne<K>(m: map<K, int>, k: K)
    ensures Total(PutOrAdd(m, k, 1, 1)) == Total(m) + 1
  {
    var r := PutOrAdd(m, k, 1, 1);
    TotalRemove(r, k);
    if k in m {
      TotalRemove(m, k);
      assert r - {k} == m - {k};
    } else {
      assert r - {k} == m;
    }
  }

  /** The counts of a tally add up to the length of the sequence. */
  lemma {:induction false} TallyTotal<K>(s: seq<K>)
    ensures Total(Tally(s)) == |s|
  {
    if s != [] {
      TallyTotal(s[..|s| - 1]);
      TotalPutOrAddOne(Tally(s[..|s| - 1]), s[|s| - 1]);
    }
  }
}
