/** The chi-squared feature filter of `filterChiSquared`: per-feature
    presence counts, per-(class, feature) observed counts, the class sizes,
    the score of each feature (the largest statistic over the classes that
    reaches the limit), and the zeroing of the entries of weak features.

    The score is computed in exact `real` arithmetic: the source's `double`
    rounding is not modelled. */
module ChiSquared {
  import opened HashMaps
  import opened MuseTypes
  import BagBuilding

  /** Bag `b` holds feature `f`: its entry is positive (`word.value > 0`). */
  predicate Holds(b: BagOfBigrams, f: int) {
    f in b.bob && b.bob[f] > 0
  }

  /** The number of bags that hold feature `f`, whatever its count. */
  function Presence(bags: seq<BagOfBigrams>, f: int): nat {
    if bags == [] then 0
    else Presence(bags[..|bags| - 1], f) + (if Holds(bags[|bags| - 1], f) then 1 else 0)
  }

  /** The number of bags of class `c` that hold feature `f`. */
  function Observed(bags: seq<BagOfBigrams>, c: int, f: int): nat {
    if bags == [] then 0
    else
      var b := bags[|bags| - 1];
      Observed(bags[..|bags| - 1], c, f) + (if b.classLabel == c && Holds(b, f) then 1 else 0)
  }

  /** The number of bags of class `c`. */
  function ClassCount(bags: seq<BagOfBigrams>, c: int): nat {
    if bags == [] then 0
    else ClassCount(bags[..|bags| - 1], c) + (if bags[|bags| - 1].classLabel == c then 1 else 0)
  }

  /** The class labels that occur. */
  function Labels(bags: seq<BagOfBigrams>): set<int> {
    set i | 0 <= i < |bags| :: bags[i].classLabel
  }

  /** The statistic of one (class, feature) pair: with `expected` the class
      probability `classCount / n` times the presence of the feature,
      `(observed - expected)^2 / expected`. */
  function ChiStat(observed: int, classCount: int, presence: int, n: int): (r: real)
    requires classCount > 0 && presence > 0 && n > 0
    ensures r >= 0.0
  {
    var prob := classCount as real / n as real;
    var expected := prob * presence as real;
    PositiveProduct(prob, presence as real);
    var chi := observed as real - expected;
    NonNegativeQuotient(chi * chi, expected);
    chi * chi / expected
  }

  lemma PositiveProduct(a: real, b: real)
    requires a > 0.0 && b > 0.0
    ensures a * b > 0.0
  {
  }

  lemma NonNegativeQuotient(a: real, b: real)
    requires a >= 0.0 && b > 0.0
    ensures a / b >= 0.0
  {
  }

  /** The statistic of class `c` and feature `f` over `bags`; a pair with an
      absent class or feature reads as 0, and never arises. */
  function Chi(bags: seq<BagOfBigrams>, c: int, f: int): (r: real)
    ensures r >= 0.0
  {
    if ClassCount(bags, c) > 0 && Presence(bags, f) > 0 then
      ChiStat(Observed(bags, c, f), ClassCount(bags, c), Presence(bags, f), |bags|)
    else 0.0
  }

  /** What class `c` contributes to the score of `f`: its statistic when it
      reaches the limit, nothing otherwise. */
  function Qual(bags: seq<BagOfBigrams>, limit: real, c: int, f: int): real {
    if Chi(bags, c, f) >= limit then Chi(bags, c, f) else 0.0
  }

  /** `v` is the largest contribution over the classes `cs`, or 0 when none
      is positive. */
  ghost predicate IsBestOver(bags: seq<BagOfBigrams>, limit: real, cs: set<int>, f: int, v: real) {
    && v >= 0.0
    && (forall c :: c in cs ==> Qual(bags, limit, c, f) <= v)
    && (v == 0.0 || exists c :: c in cs && Qual(bags, limit, c, f) == v)
  }

  /** The score `chiSquare.get(f)` of feature `f`: the best contribution over
      all classes for a present feature, 0 (absent) otherwise. */
  ghost predicate IsScore(bags: seq<BagOfBigrams>, limit: real, f: int, v: real) {
    if Presence(bags, f) == 0 then v == 0.0 else IsBestOver(bags, limit, Labels(bags), f, v)
  }

  /** Feature `f` survives the filter: its score is not below the limit. */
  ghost predicate Strong(bags: seq<BagOfBigrams>, limit: real, f: int) {
    limit <= 0.0 || (Presence(bags, f) > 0 && exists c :: c in Labels(bags) && Chi(bags, c, f) >= limit)
  }

  /** A bag after the zeroing pass: the same keys, the entries of features
      that are not strong set to 0. */
  ghost function Zeroed(m: map<int, int>, bags: seq<BagOfBigrams>, limit: real): map<int, int> {
    map k | k in m :: if Strong(bags, limit, k) then m[k] else 0
  }

  /** Every bag after the zeroing pass. */
  ghost function ZeroedBags(bags: seq<BagOfBigrams>, limit: real): (r: seq<BagOfBigrams>)
    ensures |r| == |bags|
  {
    seq(|bags|, i requires 0 <= i < |bags| => BagOfBigrams(Zeroed(bags[i].bob, bags, limit), bags[i].classLabel))
  }

  // ---------------------------------------------------------------------
  // Counting

  /** `featureCount` and `observed` after the bags `done` and, of bag `b`,
      the keys in `keys`. */
  ghost predicate Counted(done: seq<BagOfBigrams>, b: BagOfBigrams, keys: set<int>,
                          featureCount: map<int, int>, observed: map<(int, int), int>) {
    && (forall f :: Get(featureCount, f) == Presence(done, f) + (if f in keys && Holds(b, f) then 1 else 0))
    && (forall f :: f in featureCount ==> featureCount[f] >= 1)
    && (forall c, f :: Get(observed, (c, f)) ==
          Observed(done, c, f) + (if f in keys && Holds(b, f) && b.classLabel == c then 1 else 0))
    && (forall key :: key in observed ==> observed[key] >= 1)
  }

  lemma CountedAdd(done: seq<BagOfBigrams>, b: BagOfBigrams, keys: set<int>,
                   featureCount: map<int, int>, observed: map<(int, int), int>, k: int)
    requires Counted(done, b, keys, featureCount, observed)
    requires k in b.bob && k !in keys && b.bob[k] > 0
    ensures Counted(done, b, keys + {k}, PutOrAdd(featureCount, k, 1, 1), PutOrAdd(observed, (b.classLabel, k), 1, 1))
  {
    var fc, ob := PutOrAdd(featureCount, k, 1, 1), PutOrAdd(observed, (b.classLabel, k), 1, 1);
    forall f ensures Get(fc, f) == Presence(done, f) + (if f in keys + {k} && Holds(b, f) then 1 else 0) {
      assert Get(featureCount, f) == Presence(done, f) + (if f in keys && Holds(b, f) then 1 else 0);
    }
    forall c, f ensures Get(ob, (c, f)) ==
                          Observed(done, c, f) + (if f in keys + {k} && Holds(b, f) && b.classLabel == c then 1 else 0) {
      assert Get(observed, (c, f)) ==
               Observed(done, c, f) + (if f in keys && Holds(b, f) && b.classLabel == c then 1 else 0);
    }
  }

  lemma CountedSkip(done: seq<BagOfBigrams>, b: BagOfBigrams, keys: set<int>,
                    featureCount: map<int, int>, observed: map<(int, int), int>, k: int)
    requires Counted(done, b, keys, featureCount, observed)
    requires k in b.bob && k !in keys && b.bob[k] <= 0
    ensures Counted(done, b, keys + {k}, featureCount, observed)
  {
  }

  lemma CountedNext(done: seq<BagOfBigrams>, b: BagOfBigrams, keys: set<int>,
                    featureCount: map<int, int>, observed: map<(int, int), int>)
    requires forall x :: x in b.bob ==> x in keys
    requires Counted(done, b, keys, featureCount, observed)
    ensures Counted(done + [b], b, {}, featureCount, observed)
  {
    assert (done + [b])[..|done|] == done;
  }

  /** The counting loop (presence per feature, presence per class and
      feature): each bag counts once for every feature it holds. */
  method CountFeatures(bags: array<BagOfBigrams>)
    returns (featureCount: map<int, int>, observed: map<(int, int), int>)
    ensures forall f :: Get(featureCount, f) == Presence(bags[..], f)
    ensures forall f :: f in featureCount <==> Presence(bags[..], f) > 0
    ensures forall c, f :: Get(observed, (c, f)) == Observed(bags[..], c, f)
    ensures forall c, f :: (c, f) in observed <==> Observed(bags[..], c, f) > 0
  {
    featureCount, observed := map[], map[];
    var i := 0;
    while i < bags.Length
      invariant 0 <= i <= bags.Length
      invariant Counted(bags[..i], BagOfBigrams(map[], 0), {}, featureCount, observed)
    {
      var b := bags[i];
      var todo := b.bob.Keys;
      ghost var keys: set<int> := {};
      while todo != {}
        invariant forall x :: x in todo <==> x in b.bob && x !in keys
        invariant Counted(bags[..i], b, keys, featureCount, observed)
        decreases |todo|
      {
        NonEmptyHasMember(todo);
        var k :| k in todo;
        if b.bob[k] > 0 {
          CountedAdd(bags[..i], b, keys, featureCount, observed, k);
          featureCount := PutOrAdd(featureCount, k, 1, 1);
          observed := PutOrAdd(observed, (b.classLabel, k), 1, 1);
        } else {
          CountedSkip(bags[..i], b, keys, featureCount, observed, k);
        }
        todo := todo - {k};
        keys := keys + {k};
      }
      CountedNext(bags[..i], b, keys, featureCount, observed);
      assert bags[..i + 1] == bags[..i] + [b];
      i := i + 1;
    }
    assert bags[..i] == bags[..];
  }

  /** The class loop (`classProb.putOrAdd(label, 1, 1)`): the number of bags
      of each class. */
  method CountClasses(bags: array<BagOfBigrams>) returns (classCount: map<int, int>)
    ensures forall c :: Get(classCount, c) == ClassCount(bags[..], c)
    ensures forall c :: c in classCount <==> c in Labels(bags[..])
  {
    classCount := map[];
    var i := 0;
    while i < bags.Length
      invariant 0 <= i <= bags.Length
      invariant forall c :: Get(classCount, c) == ClassCount(bags[..i], c)
      invariant forall c :: c in classCount <==> c in Labels(bags[..i])
    {
      var c := bags[i].classLabel;
      assert bags[..i + 1][..i] == bags[..i];
      assert forall x :: x in Labels(bags[..i + 1]) <==> x in Labels(bags[..i]) || x == c by {
        forall x | x in Labels(bags[..i + 1]) ensures x in Labels(bags[..i]) || x == c {
          var t :| 0 <= t < i + 1 && bags[..i + 1][t].classLabel == x;
          if t < i {
            assert bags[..i][t].classLabel == x;
          }
        }
        forall x | x in Labels(bags[..i]) ensures x in Labels(bags[..i + 1]) {
          var t :| 0 <= t < i && bags[..i][t].classLabel == x;
          assert bags[..i + 1][t].classLabel == x;
        }
        assert bags[..i + 1][i].classLabel == c;
      }
      classCount := PutOrAdd(classCount, c, 1, 1);
      i := i + 1;
    }
    assert bags[..i] == bags[..];
  }

  // ---------------------------------------------------------------------
  // Scoring

  /** The score loop state: the classes in `done` are scored for every
      feature, and the class `c`, when present, for the features in `fs`. */
  ghost predicate Scored(bags: seq<BagOfBigrams>, limit: real, features: set<int>, done: set<int>,
                         c: int, fs: set<int>, chiSquare: map<int, real>) {
    && (forall f :: f in chiSquare ==> f in features)
    && (forall f :: f in features ==>
          IsBestOver(bags, limit, if f in fs then done + {c} else done, f, GetReal(chiSquare, f)))
  }

  /** One feature of one class: the update `if (newChi >= chi_limit && newChi
      > chiSquare.get(f)) chiSquare.put(f, newChi)` keeps the best score. */
  lemma ScoredStep(bags: seq<BagOfBigrams>, limit: real, features: set<int>, done: set<int>,
                   c: int, fs: set<int>, chiSquare: map<int, real>, f: int)
    requires Scored(bags, limit, features, done, c, fs, chiSquare)
    requires f in features && f !in fs
    ensures var newChi := Chi(bags, c, f);
            var next := if newChi >= limit && newChi > GetReal(chiSquare, f) then chiSquare[f := newChi] else chiSquare;
            Scored(bags, limit, features, done, c, fs + {f}, next)
  {
    var v := GetReal(chiSquare, f);
    var newChi := Chi(bags, c, f);
    assert IsBestOver(bags, limit, done, f, v);
    if newChi >= limit && newChi > v {
      assert Qual(bags, limit, c, f) == newChi;
    } else {
      assert Qual(bags, limit, c, f) <= v;
      if v != 0.0 {
        var c' :| c' in done && Qual(bags, limit, c', f) == v;
        assert c' in done + {c};
      }
    }
  }

  lemma ScoredNext(bags: seq<BagOfBigrams>, limit: real, features: set<int>, done: set<int>,
                   c: int, chiSquare: map<int, real>)
    requires Scored(bags, limit, features, done, c, features, chiSquare)
    ensures Scored(bags, limit, features, done + {c}, c, {}, chiSquare)
  {
  }

  /** The score loops: for every class and every counted feature, the
      statistic from the counts, kept when it reaches the limit and beats
      the feature's score so far.  The counts handed in are those of `bags`. */
  method ScoreFeatures(ghost bags: seq<BagOfBigrams>, classCount: map<int, int>, featureCount: map<int, int>,
                       observed: map<(int, int), int>, n: int, limit: real)
    returns (chiSquare: map<int, real>)
    requires n == |bags|
    requires forall f :: Get(featureCount, f) == Presence(bags, f)
    requires forall f :: f in featureCount <==> Presence(bags, f) > 0
    requires forall c, f :: Get(observed, (c, f)) == Observed(bags, c, f)
    requires forall c :: Get(classCount, c) == ClassCount(bags, c)
    requires forall c :: c in classCount <==> c in Labels(bags)
    ensures forall f :: IsScore(bags, limit, f, GetReal(chiSquare, f))
  {
    chiSquare := map[];
    var classes := classCount.Keys;
    ghost var done: set<int> := {};
    while classes != {}
      invariant forall x :: x in classes <==> x in Labels(bags) && x !in done
      invariant forall x :: x in done ==> x in Labels(bags)
      invariant Scored(bags, limit, featureCount.Keys, done, 0, {}, chiSquare)
      decreases |classes|
    {
      NonEmptyHasMember(classes);
      var c :| c in classes;
      LabelCounted(bags, c);
      var features := featureCount.Keys;
      ghost var fs: set<int> := {};
      while features != {}
        invariant forall x :: x in features <==> x in featureCount && x !in fs
        invariant Scored(bags, limit, featureCount.Keys, done, c, fs, chiSquare)
        decreases |features|
      {
        NonEmptyHasMember(features);
        var f :| f in features;
        var newChi := ChiStat(Get(observed, (c, f)), classCount[c], featureCount[f], n);
        assert newChi == Chi(bags, c, f);
        ScoredStep(bags, limit, featureCount.Keys, done, c, fs, chiSquare, f);
        if newChi >= limit && newChi > GetReal(chiSquare, f) {
          chiSquare := chiSquare[f := newChi];
        }
        features := features - {f};
        fs := fs + {f};
      }
      ScoredNext(bags, limit, featureCount.Keys, done, c, chiSquare);
      classes := classes - {c};
      done := done + {c};
    }
    forall f ensures IsScore(bags, limit, f, GetReal(chiSquare, f)) {
      assert forall x :: x in done <==> x in Labels(bags);
      assert done == Labels(bags);
    }
  }

  // ---------------------------------------------------------------------
  // Zeroing

  /** The entry rule of the zeroing pass. */
  function ZeroedValue(chiSquare: map<int, real>, limit: real, k: int, value: int): int {
    if GetReal(chiSquare, k) < limit then 0 else value
  }

  /** The zeroing pass over one bag: every entry whose feature scores below
      the limit (an absent score reads as 0) becomes 0, the others stay. */
  method ZeroBag(m: map<int, int>, chiSquare: map<int, real>, limit: real) returns (out: map<int, int>)
    ensures out.Keys == m.Keys
    ensures forall k :: k in out ==> out[k] == ZeroedValue(chiSquare, limit, k, m[k])
  {
    out := m;
    var todo := m.Keys;
    ghost var done: set<int> := {};
    while todo != {}
      invariant forall x :: x in todo <==> x in m && x !in done
      invariant out.Keys == m.Keys
      invariant forall k :: k in out ==> out[k] == if k in done then ZeroedValue(chiSquare, limit, k, m[k]) else m[k]
      decreases |todo|
    {
      NonEmptyHasMember(todo);
      var k :| k in todo;
      if GetReal(chiSquare, k) < limit {
        out := out[k := 0];
      }
      todo := todo - {k};
      done := done + {k};
    }
  }

  /** The zeroing pass over every bag; labels stay as they are. */
  method ZeroWeakFeatures(bags: array<BagOfBigrams>, chiSquare: map<int, real>, limit: real)
    modifies bags
    ensures forall j :: 0 <= j < bags.Length ==>
              && bags[j].classLabel == old(bags[j]).classLabel
              && bags[j].bob.Keys == old(bags[j]).bob.Keys
              && forall k :: k in bags[j].bob ==> bags[j].bob[k] == ZeroedValue(chiSquare, limit, k, old(bags[j]).bob[k])
  {
    ghost var original := bags[..];
    var j := 0;
    while j < bags.Length
      invariant 0 <= j <= bags.Length
      invariant forall i :: j <= i < bags.Length ==> bags[i] == original[i]
      invariant forall i :: 0 <= i < j ==>
                  && bags[i].classLabel == original[i].classLabel
                  && bags[i].bob.Keys == original[i].bob.Keys
                  && forall k :: k in bags[i].bob ==> bags[i].bob[k] == ZeroedValue(chiSquare, limit, k, original[i].bob[k])
    {
      var out := ZeroBag(bags[j].bob, chiSquare, limit);
      bags[j] := BagOfBigrams(out, bags[j].classLabel);
      j := j + 1;
    }
  }

  // ---------------------------------------------------------------------
  // Properties

  /** A class occurs exactly when it has a positive size, so the expected
      count of every occurring class and present feature is positive. */
  lemma {:induction false} LabelCounted(bags: seq<BagOfBigrams>, c: int)
    ensures c in Labels(bags) <==> ClassCount(bags, c) > 0
  {
    if bags != [] {
      var init := bags[..|bags| - 1];
      LabelCounted(init, c);
      if c in Labels(bags) {
        var t :| 0 <= t < |bags| && bags[t].classLabel == c;
        if t < |init| {
          assert init[t].classLabel == c;
        }
      }
      if c in Labels(init) {
        var t :| 0 <= t < |init| && init[t].classLabel == c;
        assert bags[t].classLabel == c;
      }
    }
  }

  lemma ExpectedPositive(bags: seq<BagOfBigrams>, c: int, f: int)
    requires c in Labels(bags) && Presence(bags, f) > 0
    ensures (ClassCount(bags, c) as real / |bags| as real) * Presence(bags, f) as real > 0.0
  {
    LabelCounted(bags, c);
    PresenceBound(bags, f);
    PositiveProduct(ClassCount(bags, c) as real / |bags| as real, Presence(bags, f) as real);
  }

  lemma {:induction false} PresenceBound(bags: seq<BagOfBigrams>, f: int)
    ensures Presence(bags, f) <= |bags|
  {
    if bags != [] {
      PresenceBound(bags[..|bags| - 1], f);
    }
  }

  /** Presence counts bags, not occurrences: it is the number of bag indices
      whose entry for `f` is positive. */
  lemma {:induction false} PresenceCountsHolders(bags: seq<BagOfBigrams>, f: int)
    ensures Presence(bags, f) == |set i | 0 <= i < |bags| && Holds(bags[i], f)|
  {
    if bags != [] {
      var n := |bags| - 1;
      var init := bags[..n];
      PresenceCountsHolders(init, f);
      var before := set i | 0 <= i < n && Holds(init[i], f);
      var after := set i | 0 <= i < |bags| && Holds(bags[i], f);
      assert before == set i | 0 <= i < n && Holds(bags[i], f);
      if Holds(bags[n], f) {
        assert after == before + {n};
      } else {
        assert after == before;
      }
    }
  }

  /** `Σ_{c in cs} observed(c, f)`. */
  function SumObserved(bags: seq<BagOfBigrams>, cs: seq<int>, f: int): nat {
    if cs == [] then 0 else SumObserved(bags, cs[..|cs| - 1], f) + Observed(bags, cs[|cs| - 1], f)
  }

  lemma {:induction false} SumObservedStep(bags: seq<BagOfBigrams>, b: BagOfBigrams, cs: seq<int>, f: int)
    ensures SumObserved(bags + [b], cs, f) ==
              SumObserved(bags, cs, f) + (if Holds(b, f) then multiset(cs)[b.classLabel] else 0)
  {
    assert (bags + [b])[..|bags|] == bags;
    if cs != [] {
      var init := cs[..|cs| - 1];
      SumObservedStep(bags, b, init, f);
      assert cs == init + [cs[|cs| - 1]];
    }
  }

  /** Every bag holding `f` has exactly one class: summed over the distinct
      classes, the observed counts of `f` give its presence. */
  lemma {:induction false} ObservedSumsToPresence(bags: seq<BagOfBigrams>, cs: seq<int>, f: int)
    requires forall i, j :: 0 <= i < j < |cs| ==> cs[i] != cs[j]
    requires Labels(bags) <= set c | c in cs
    ensures SumObserved(bags, cs, f) == Presence(bags, f)
  {
    if bags == [] {
      ZeroObserved(cs, f);
    } else {
      var init, b := bags[..|bags| - 1], bags[|bags| - 1];
      assert Labels(init) <= Labels(bags) by {
        forall x | x in Labels(init) ensures x in Labels(bags) {
          var t :| 0 <= t < |init| && init[t].classLabel == x;
          assert bags[t].classLabel == x;
        }
      }
      ObservedSumsToPresence(init, cs, f);
      assert bags == init + [b];
      SumObservedStep(init, b, cs, f);
      assert b.classLabel in Labels(bags);
      DistinctOnce(cs, b.classLabel);
    }
  }

  lemma {:induction false} ZeroObserved(cs: seq<int>, f: int)
    ensures SumObserved([], cs, f) == 0
  {
    if cs != [] {
      ZeroObserved(cs[..|cs| - 1], f);
    }
  }

  lemma {:induction false} DistinctOnce(cs: seq<int>, c: int)
    requires forall i, j :: 0 <= i < j < |cs| ==> cs[i] != cs[j]
    requires c in cs
    ensures multiset(cs)[c] == 1
  {
    var last := cs[|cs| - 1];
    var init := cs[..|cs| - 1];
    assert cs == init + [last];
    if c == last {
      assert c !in init;
    } else {
      DistinctOnce(init, c);
    }
  }

  /** The score is unique: whatever order the classes are visited in, the
      loops end with the same score. */
  lemma ScoreUnique(bags: seq<BagOfBigrams>, limit: real, f: int, v1: real, v2: real)
    requires IsScore(bags, limit, f, v1) && IsScore(bags, limit, f, v2)
    ensures v1 == v2
  {
    if Presence(bags, f) > 0 {
      if v1 != 0.0 {
        var c :| c in Labels(bags) && Qual(bags, limit, c, f) == v1;
      }
      if v2 != 0.0 {
        var c :| c in Labels(bags) && Qual(bags, limit, c, f) == v2;
      }
    }
  }

  /** A feature's score reaches the limit exactly when the feature is
      strong: the limit is not positive, or some class's statistic reaches it. */
  lemma ScoreSurvival(bags: seq<BagOfBigrams>, limit: real, f: int, v: real)
    requires IsScore(bags, limit, f, v)
    ensures v >= limit <==> Strong(bags, limit, f)
  {
    if Presence(bags, f) > 0 {
      if v >= limit && limit > 0.0 {
        var c :| c in Labels(bags) && Qual(bags, limit, c, f) == v;
        assert Chi(bags, c, f) >= limit;
      }
      if limit > 0.0 && Strong(bags, limit, f) {
        var c :| c in Labels(bags) && Chi(bags, c, f) >= limit;
        assert Qual(bags, limit, c, f) <= v;
      }
    }
  }

  /** With the score the loops computed, the zeroing pass zeroes exactly the
      entries of the features that are not strong. */
  lemma ZeroingKeepsStrong(bags: seq<BagOfBigrams>, limit: real, chiSquare: map<int, real>,
                           out: map<int, int>, m: map<int, int>)
    requires forall f :: IsScore(bags, limit, f, GetReal(chiSquare, f))
    requires out.Keys == m.Keys
    requires forall k :: k in out ==> out[k] == ZeroedValue(chiSquare, limit, k, m[k])
    ensures out == Zeroed(m, bags, limit)
  {
    forall k | k in m ensures out[k] == if Strong(bags, limit, k) then m[k] else 0 {
      ScoreSurvival(bags, limit, k, GetReal(chiSquare, k));
    }
  }

  /** After zeroing, a bag's positive entries are its positive entries of
      strong features, with their counts. */
  lemma ZeroedPositive(m: map<int, int>, bags: seq<BagOfBigrams>, limit: real, k: int)
    ensures k in Zeroed(m, bags, limit) && Zeroed(m, bags, limit)[k] > 0 <==>
              k in m && m[k] > 0 && Strong(bags, limit, k)
    ensures k in Zeroed(m, bags, limit) && Zeroed(m, bags, limit)[k] > 0 ==> Zeroed(m, bags, limit)[k] == m[k]
  {
  }

  /** A feature that a bag holds and that is strong is held by some bag
      after zeroing, and only such features are: the features the filter
      keeps are the present strong ones. */
  lemma ZeroedBagsKeep(bags: seq<BagOfBigrams>, limit: real, k: int)
    ensures (exists i :: 0 <= i < |bags| && Holds(ZeroedBags(bags, limit)[i], k)) <==>
              Presence(bags, k) > 0 && Strong(bags, limit, k)
  {
    PresenceCountsHolders(bags, k);
    var holders := set i | 0 <= i < |bags| && Holds(bags[i], k);
    if Presence(bags, k) > 0 && Strong(bags, limit, k) {
      NonEmptyHasMember(holders);
      var i :| i in holders;
      assert Holds(ZeroedBags(bags, limit)[i], k);
    }
    if exists i :: 0 <= i < |bags| && Holds(ZeroedBags(bags, limit)[i], k) {
      var i :| 0 <= i < |bags| && Holds(ZeroedBags(bags, limit)[i], k);
      assert i in holders;
    }
  }

  /** Two samples of different classes whose bags hold the same features:
      each feature occurs in one bag of each class, exactly as often as the
      class frequency predicts, so its statistic is 0 for both classes and
      any positive limit filters every feature out. */
  lemma SharedFeaturesFiltered(a: BagOfBigrams, b: BagOfBigrams, limit: real)
    requires limit > 0.0 && a.classLabel != b.classLabel
    requires forall f :: Holds(a, f) <==> Holds(b, f)
    ensures forall f :: !Strong([a, b], limit, f)
  {
    var bags := [a, b];
    assert bags[..1] == [a] && [a][..0] == [];
    forall f ensures !Strong(bags, limit, f) {
      assert Presence(bags, f) == Presence([a], f) + (if Holds(b, f) then 1 else 0);
      assert Presence([a], f) == if Holds(a, f) then 1 else 0;
      if Presence(bags, f) > 0 {
        forall c | c in Labels(bags) ensures Chi(bags, c, f) < limit {
          assert c == a.classLabel || c == b.classLabel;
          assert ClassCount(bags, c) == ClassCount([a], c) + (if c == b.classLabel then 1 else 0);
          assert ClassCount([a], c) == if c == a.classLabel then 1 else 0;
          assert Observed(bags, c, f) == Observed([a], c, f) + (if c == b.classLabel then 1 else 0);
          assert Observed([a], c, f) == if c == a.classLabel then 1 else 0;
          assert ChiStat(1, 1, 2, 2) == 0.0;
        }
      }
    }
  }

  /** The two bags of `BagBuilding.TwoSampleBags` lose every feature. */
  lemma TwoSampleBagsFiltered(limit: real)
    requires limit > 0.0
    ensures forall f :: !Strong([BagOfBigrams(map[1 := 1, 2 := 2, 3 := 1], 0), BagOfBigrams(map[1 := 2, 2 := 1, 3 := 1], 1)], limit, f)
  {
    SharedFeaturesFiltered(BagOfBigrams(map[1 := 1, 2 := 2, 3 := 1], 0), BagOfBigrams(map[1 := 2, 2 := 1, 3 := 1], 1), limit);
  }

  /** Two samples of one variate each, of classes 0 and 1, with words
      `[0, 1, 1]` and `[0, 0, 1]` and window length 2
      (`BagBuilding.TwoSampleParams`): both emit the unigrams of masked
      words 0 and 1 and the bigram (0, 1), so the bags built for them hold
      the same three features and any positive limit filters all three out. */
  lemma SharedFeaturesScenario(limit: real)
    requires limit > 0.0
    ensures BagBuilding.TwoSampleParams().EligibleWindowsNonNegative()
    ensures var P := BagBuilding.TwoSampleParams();
            var dict := BagBuilding.Register(map[], BagBuilding.AllKeys(P, 2));
            var bags := [BagBuilding.SampleBag(P, P.Start(0), dict, 0), BagBuilding.SampleBag(P, P.Start(1), dict, 1)];
            forall f :: !Strong(bags, limit, f)
  {
    TwoSampleBagsFiltered(limit);
    BagBuilding.TwoSampleBags();
  }
}
