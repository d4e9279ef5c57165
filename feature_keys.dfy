/** The feature keys of the bag of bigrams.  The source identifies a feature
    by a string, `w_d_m` for a unigram and `w_d_mPrev_w_d_m` for a bigram,
    where `w` is the window-length index, `d` the variate and `m` a masked
    word, all rendered as decimals.  The model uses the datatype below; the
    rendering is given too, with the proof that it is injective, so that the
    datatype identifies exactly the features the strings do. */
module FeatureKeys {
  import opened Wrappers

  datatype FeatureKey =
    | Uni(w: nat, d: nat, m: nat)
    | Bi(w: nat, d: nat, mPrev: nat, m: nat)

  const DIGITS: string := "0123456789"

  /** `String.valueOf(n)` for a non-negative `n`. */
  function Decimal(n: nat): (s: string)
    ensures |s| >= 1
    ensures forall i :: 0 <= i < |s| ==> s[i] in DIGITS
  {
    if n < 10 then [DIGITS[n]] else Decimal(n / 10) + [DIGITS[n % 10]]
  }

  /** Parts glued with `_`, as the source's `+ "_" +` concatenations do. */
  function Join(parts: seq<string>): string
    requires |parts| >= 1
  {
    if |parts| == 1 then parts[0] else parts[0] + "_" + Join(parts[1..])
  }

  /** The string key the source builds for a feature. */
  function Render(k: FeatureKey): string {
    match k
    case Uni(w, d, m) => Join([Decimal(w), Decimal(d), Decimal(m)])
    case Bi(w, d, p, m) =>
      Join([Decimal(w), Decimal(d), Decimal(p)]) + "_" + Join([Decimal(w), Decimal(d), Decimal(m)])
  }

  // ---------------------------------------------------------------------
  // Reading a key back

  /** The `_`-separated fields of a string. */
  function Fields(s: string): (r: seq<string>)
    ensures |r| >= 1
  {
    if s == [] then [[]]
    else
      var rest := Fields(s[1..]);
      if s[0] == '_' then [[]] + rest else [[s[0]] + rest[0]] + rest[1..]
  }

  function DigitValue(c: char): nat {
    if c == '0' then 0 else if c == '1' then 1 else if c == '2' then 2
    else if c == '3' then 3 else if c == '4' then 4 else if c == '5' then 5
    else if c == '6' then 6 else if c == '7' then 7 else if c == '8' then 8 else 9
  }

  predicate IsDecimal(s: string) {
    |s| >= 1 && forall i :: 0 <= i < |s| ==> s[i] in DIGITS
  }

  function DecimalValue(s: string): nat
    requires IsDecimal(s)
  {
    if |s| == 1 then DigitValue(s[0])
    else DecimalValue(s[..|s| - 1]) * 10 + DigitValue(s[|s| - 1])
  }

  /** The feature a string key names, if it has the shape of one. */
  function Parse(s: string): Option<FeatureKey> {
    ParseFields(Fields(s))
  }

  /** The feature named by the fields of a key. */
  function ParseFields(f: seq<string>): Option<FeatureKey> {
    if |f| == 3 && IsDecimal(f[0]) && IsDecimal(f[1]) && IsDecimal(f[2]) then
      Some(Uni(DecimalValue(f[0]), DecimalValue(f[1]), DecimalValue(f[2])))
    else if |f| == 6 && IsDecimal(f[0]) && IsDecimal(f[1]) && IsDecimal(f[2])
            && IsDecimal(f[5]) && f[3] == f[0] && f[4] == f[1] then
      Some(Bi(DecimalValue(f[0]), DecimalValue(f[1]), DecimalValue(f[2]), DecimalValue(f[5])))
    else None
  }

  // ---------------------------------------------------------------------
  // Properties

  lemma {:induction false} DecimalRoundTrip(n: nat)
    ensures IsDecimal(Decimal(n)) && DecimalValue(Decimal(n)) == n
  {
    if n >= 10 {
      DecimalRoundTrip(n / 10);
      var s := Decimal(n);
      assert s[..|s| - 1] == Decimal(n / 10);
    }
  }

  predicate NoSeparator(s: string) {
    forall i :: 0 <= i < |s| ==> s[i] != '_'
  }

  lemma {:induction false} FieldsOfPlain(a: string)
    requires NoSeparator(a)
    ensures Fields(a) == [a]
  {
    if a != [] {
      FieldsOfPlain(a[1..]);
      assert [a[0]] + a[1..] == a;
    }
  }

  lemma {:induction false} FieldsOfSeparated(a: string, b: string)
    requires NoSeparator(a)
    ensures Fields(a + "_" + b) == [a] + Fields(b)
  {
    if a == [] {
      assert a + "_" + b == "_" + b;
      assert ("_" + b)[1..] == b;
    } else {
      assert (a + "_" + b)[1..] == a[1..] + "_" + b;
      FieldsOfSeparated(a[1..], b);
      assert [a[0]] + a[1..] == a;
    }
  }

  lemma {:induction false} FieldsOfJoin(parts: seq<string>)
    requires |parts| >= 1
    requires forall i :: 0 <= i < |parts| ==> NoSeparator(parts[i])
    ensures Fields(Join(parts)) == parts
  {
    if |parts| == 1 {
      FieldsOfPlain(parts[0]);
    } else {
      FieldsOfSeparated(parts[0], Join(parts[1..]));
      FieldsOfJoin(parts[1..]);
    }
  }

  lemma DecimalIsPlain(n: nat)
    ensures NoSeparator(Decimal(n))
  {
    var s := Decimal(n);
    forall i | 0 <= i < |s| ensures s[i] != '_' {
      assert s[i] in DIGITS;
    }
  }

  /** The fields of a rendered key: three decimals for a unigram, six for a
      bigram. */
  function KeyFields(k: FeatureKey): seq<string> {
    match k
    case Uni(w, d, m) => [Decimal(w), Decimal(d), Decimal(m)]
    case Bi(w, d, p, m) => [Decimal(w), Decimal(d), Decimal(p), Decimal(w), Decimal(d), Decimal(m)]
  }

  lemma RenderIsJoin(k: FeatureKey)
    ensures Render(k) == Join(KeyFields(k))
  {
    match k
    case Uni(w, d, m) =>
    case Bi(w, d, p, m) =>
      var left, right := [Decimal(w), Decimal(d), Decimal(p)], [Decimal(w), Decimal(d), Decimal(m)];
      assert KeyFields(k) == left + right;
      JoinAppend(left, right);
  }

  lemma {:induction false} JoinAppend(p: seq<string>, q: seq<string>)
    requires |p| >= 1 && |q| >= 1
    ensures Join(p + q) == Join(p) + "_" + Join(q)
  {
    if |p| == 1 {
      assert (p + q)[1..] == q;
    } else {
      assert (p + q)[1..] == p[1..] + q;
      JoinAppend(p[1..], q);
    }
  }

  lemma FieldsOfRender(k: FeatureKey)
    ensures Fields(Render(k)) == KeyFields(k)
  {
    var parts := KeyFields(k);
    forall i | 0 <= i < |parts| ensures NoSeparator(parts[i]) {
      match k
      case Uni(w, d, m) => DecimalIsPlain(w); DecimalIsPlain(d); DecimalIsPlain(m);
      case Bi(w, d, p, m) => DecimalIsPlain(w); DecimalIsPlain(d); DecimalIsPlain(p); DecimalIsPlain(m);
    }
    RenderIsJoin(k);
    FieldsOfJoin(parts);
  }

  /** Every rendered key reads back as the feature it was rendered from. */
  lemma ParseRender(k: FeatureKey)
    ensures Parse(Render(k)) == Some(k)
  {
    FieldsOfRender(k);
    var f := KeyFields(k);
    assert Parse(Render(k)) == ParseFields(f);
    match k
    case Uni(w, d, m) =>
      DecimalRoundTrip(w); DecimalRoundTrip(d); DecimalRoundTrip(m);
    case Bi(w, d, p, m) =>
      DecimalRoundTrip(w); DecimalRoundTrip(d); DecimalRoundTrip(p); DecimalRoundTrip(m);
  }

  /** Distinct features have distinct string keys, so a dictionary keyed by
      the datatype assigns ids exactly as one keyed by the strings. */
  lemma RenderInjective(k1: FeatureKey, k2: FeatureKey)
    ensures Render(k1) == Render(k2) ==> k1 == k2
  {
    ParseRender(k1);
    ParseRender(k2);
  }
}
