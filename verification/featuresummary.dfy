/** The feature report of utils/check_features.py: the names the classifier
    uses are the first `n_features_in_` saved names; each is called
    categorical when it holds an underscore and does not end in one of the
    numeric suffixes, and the categorical ones are grouped under the name
    before their last underscore. */
module FeatureSummary {
  import opened Text
  import Features

  /** The suffixes that mark a name with an underscore as numeric. */
  const NumericSuffixes := ["_years", "_sec", "_score", "_count", "_code"]

  /** The test of the partition loop. */
  predicate IsCategorical(f: string) {
    HasChar(f, '_') && !EndsWith(f, "_years") && !EndsWith(f, "_sec") &&
    !EndsWith(f, "_score") && !EndsWith(f, "_count") && !EndsWith(f, "_code")
  }

  /** A name is categorical exactly when it holds an underscore and ends in
      none of the numeric suffixes; so a name without an underscore, and a
      name such as "domain_age_years", is numeric. */
  lemma CategoricalRule(f: string)
    ensures IsCategorical(f) <==>
      HasChar(f, '_') && forall k :: 0 <= k < |NumericSuffixes| ==> !EndsWith(f, NumericSuffixes[k])
  {
    if !IsCategorical(f) && HasChar(f, '_') {
      if EndsWith(f, "_years") { assert EndsWith(f, NumericSuffixes[0]); }
      else if EndsWith(f, "_sec") { assert EndsWith(f, NumericSuffixes[1]); }
      else if EndsWith(f, "_score") { assert EndsWith(f, NumericSuffixes[2]); }
      else if EndsWith(f, "_count") { assert EndsWith(f, NumericSuffixes[3]); }
      else { assert EndsWith(f, NumericSuffixes[4]); }
    }
  }

  // ---------------------------------------------------------------- partition

  /** The names of `fs` whose test result is `categorical`, in order. */
  function Select(fs: seq<string>, categorical: bool): (r: seq<string>)
    ensures |r| <= |fs|
  {
    if fs == [] then []
    else
      var f := fs[|fs| - 1];
      Select(fs[..|fs| - 1], categorical) + (if IsCategorical(f) == categorical then [f] else [])
  }

  /** The partition loop: every name is appended to exactly one list. */
  method Partition(modelFeatures: seq<string>) returns (categorical: seq<string>, numerical: seq<string>)
    ensures categorical == Select(modelFeatures, true)
    ensures numerical == Select(modelFeatures, false)
  {
    categorical, numerical := [], [];
    for i := 0 to |modelFeatures|
      invariant categorical == Select(modelFeatures[..i], true)
      invariant numerical == Select(modelFeatures[..i], false)
    {
      var feat := modelFeatures[i];
      assert modelFeatures[..i + 1][..i] == modelFeatures[..i];
      if IsCategorical(feat) {
        categorical := categorical + [feat];
      } else {
        numerical := numerical + [feat];
      }
    }
    assert modelFeatures[..|modelFeatures|] == modelFeatures;
  }

  /** The two lists share out the names: their lengths add up to the number
      of names and together they hold each name as often as the input. */
  lemma {:induction false} PartitionCounts(fs: seq<string>)
    ensures |Select(fs, true)| + |Select(fs, false)| == |fs|
    ensures multiset(Select(fs, true)) + multiset(Select(fs, false)) == multiset(fs)
  {
    if fs != [] {
      var init, f := fs[..|fs| - 1], fs[|fs| - 1];
      PartitionCounts(init);
      assert fs == init + [f];
      assert multiset(fs) == multiset(init) + multiset{f};
      if IsCategorical(f) {
        assert Select(fs, true) == Select(init, true) + [f];
        assert Select(fs, false) == Select(init, false) + [];
      } else {
        assert Select(fs, true) == Select(init, true) + [];
        assert Select(fs, false) == Select(init, false) + [f];
      }
    }
  }

  /** A name is in a list exactly when it is one of the names and its test
      result matches the list. */
  lemma {:induction false} SelectMembers(fs: seq<string>, categorical: bool, f: string)
    ensures f in Select(fs, categorical) <==> f in fs && IsCategorical(f) == categorical
  {
    if fs != [] {
      var init := fs[..|fs| - 1];
      SelectMembers(init, categorical, f);
      assert fs == init + [fs[|fs| - 1]];
    }
  }

  /** `xs` is `ys` with some elements left out, in the same order. */
  predicate Subsequence(xs: seq<string>, ys: seq<string>)
    decreases |ys|
  {
    if xs == [] then true
    else if ys == [] then false
    else if xs[|xs| - 1] == ys[|ys| - 1] then Subsequence(xs[..|xs| - 1], ys[..|ys| - 1])
    else Subsequence(xs, ys[..|ys| - 1])
  }

  /** Each list keeps the order the names came in. */
  lemma {:induction false} SelectKeepsOrder(fs: seq<string>, categorical: bool)
    ensures Subsequence(Select(fs, categorical), fs)
  {
    if fs != [] {
      var init, f := fs[..|fs| - 1], fs[|fs| - 1];
      SelectKeepsOrder(init, categorical);
      var rest := Select(init, categorical);
      if IsCategorical(f) == categorical {
        assert (rest + [f])[..|rest + [f]| - 1] == rest;
      } else {
        assert Select(fs, categorical) == rest + [] == rest;
        SubsequenceGrow(rest, init, f);
      }
    }
  }

  /** Adding an element to the end of the longer sequence keeps a subsequence one. */
  lemma {:induction false} SubsequenceGrow(xs: seq<string>, ys: seq<string>, y: string)
    requires Subsequence(xs, ys)
    ensures Subsequence(xs, ys + [y])
    decreases |ys|, 1
  {
    assert (ys + [y])[..|ys|] == ys;
    if xs != [] && xs[|xs| - 1] == y {
      SubsequenceShrink(xs, ys);
    }
  }

  /** Dropping the last element of a subsequence keeps it a subsequence. */
  lemma {:induction false} SubsequenceShrink(xs: seq<string>, ys: seq<string>)
    requires xs != [] && Subsequence(xs, ys)
    ensures Subsequence(xs[..|xs| - 1], ys)
    decreases |ys|, 0
  {
    var init := ys[..|ys| - 1];
    if xs[|xs| - 1] == ys[|ys| - 1] {
      SubsequenceGrow(xs[..|xs| - 1], init, ys[|ys| - 1]);
      assert init + [ys[|ys| - 1]] == ys;
    } else {
      SubsequenceShrink(xs, init);
      SubsequenceGrow(xs[..|xs| - 1], init, ys[|ys| - 1]);
      assert init + [ys[|ys| - 1]] == ys;
    }
  }

  // ---------------------------------------------------------------- grouping

  /** The position of the last `c` in `s`, if any. */
  function LastIndexOf(s: string, c: char): (r: Option<nat>)
    ensures r.None? <==> !HasChar(s, c)
    ensures r.Some? ==> r.value < |s| && s[r.value] == c && !HasChar(s[r.value + 1..], c)
  {
    if s == [] then None
    else if s[|s| - 1] == c then Some(|s| - 1)
    else
      var init := s[..|s| - 1];
      assert s == init + [s[|s| - 1]];
      match LastIndexOf(init, c)
      case None => None
      case Some(k) =>
        assert s[k + 1..] == init[k + 1..] + [s[|s| - 1]];
        Some(k)
  }

  /** `f.rsplit('_', 1)[0]`: the name before the last underscore (the whole
      name when it has none). */
  function Base(f: string): string {
    match LastIndexOf(f, '_')
    case None => f
    case Some(k) => f[..k]
  }

  /** `f.split('_')[-1]`: the text after the last underscore. */
  function Suffix(f: string): string {
    LastPiece(f, '_')
  }

  /** The printed base and suffix put back together with an underscore give
      the feature name again. */
  lemma BaseSuffix(f: string)
    requires HasChar(f, '_')
    ensures Base(f) + "_" + Suffix(f) == f
  {
    var k := LastIndexOf(f, '_').value;
    var p, t := f[..k], f[k + 1..];
    assert f == p + ['_'] + t;
    SplitLast(p, '_', t);
  }

  /** The groups after `feats` have been added in order: each base maps to
      its names, in the order they came. */
  function Grouped(feats: seq<string>): map<string, seq<string>> {
    if feats == [] then map[]
    else
      var g := Grouped(feats[..|feats| - 1]);
      var f := feats[|feats| - 1];
      var b := Base(f);
      g[b := (if b in g then g[b] else []) + [f]]
  }

  /** The names of `feats` whose base is `b`, in order. */
  function WithBase(feats: seq<string>, b: string): (r: seq<string>)
    ensures Subsequence(r, feats)
  {
    if feats == [] then []
    else
      var init, f := feats[..|feats| - 1], feats[|feats| - 1];
      var r := WithBase(init, b);
      if Base(f) == b then
        assert (r + [f])[..|r + [f]| - 1] == r;
        r + [f]
      else
        SubsequenceGrow(r, init, f);
        assert init + [f] == feats;
        r
  }

  /** The grouping loop over a `defaultdict(list)`: a missing base starts as
      an empty list. */
  method GroupByBase(categorical: seq<string>) returns (grouped: map<string, seq<string>>)
    ensures grouped == Grouped(categorical)
  {
    grouped := map[];
    for i := 0 to |categorical|
      invariant grouped == Grouped(categorical[..i])
    {
      var feat := categorical[i];
      assert categorical[..i + 1][..i] == categorical[..i];
      var base := Base(feat);
      if base in grouped {
        grouped := grouped[base := grouped[base] + [feat]];
      } else {
        assert [] + [feat] == [feat];
        grouped := grouped[base := [feat]];
      }
    }
    assert categorical[..|categorical|] == categorical;
  }

  /** There is a group for exactly the bases that occur, and each group holds
      the names with that base in their input order. */
  lemma {:induction false} GroupedContents(feats: seq<string>, b: string)
    ensures b in Grouped(feats) <==> exists i :: 0 <= i < |feats| && Base(feats[i]) == b
    ensures b in Grouped(feats) ==> Grouped(feats)[b] == WithBase(feats, b)
    ensures b !in Grouped(feats) ==> WithBase(feats, b) == []
  {
    if feats != [] {
      var init, f := feats[..|feats| - 1], feats[|feats| - 1];
      GroupedContents(init, b);
      assert forall i :: 0 <= i < |init| ==> init[i] == feats[i];
    }
  }

  /** A feature is listed under a base exactly when it is one of the names
      and that is its base. */
  lemma GroupMembers(feats: seq<string>, b: string, f: string)
    requires b in Grouped(feats)
    ensures f in Grouped(feats)[b] <==> f in feats && Base(f) == b
  {
    GroupedContents(feats, b);
    WithBaseMembers(feats, b, f);
  }

  lemma {:induction false} WithBaseMembers(feats: seq<string>, b: string, f: string)
    ensures f in WithBase(feats, b) <==> f in feats && Base(f) == b
  {
    if feats != [] {
      var init := feats[..|feats| - 1];
      WithBaseMembers(init, b, f);
      assert feats == init + [feats[|feats| - 1]];
    }
  }

  // ---------------------------------------------------------------- the report

  /** The whole report: the first `nIn` names, split, and the categorical
      ones grouped. */
  method Summarise(features: seq<string>, nIn: nat)
    returns (numerical: seq<string>, categorical: seq<string>, grouped: map<string, seq<string>>)
    ensures var considered := Features.TruncateFeatures(features, nIn);
      numerical == Select(considered, false) && categorical == Select(considered, true) &&
      grouped == Grouped(categorical)
  {
    var modelFeatures := Features.TruncateFeatures(features, nIn);
    categorical, numerical := Partition(modelFeatures);
    grouped := GroupByBase(categorical);
  }

  /** Only the first `nIn` names are reported on, and every one of them is
      reported exactly once. */
  lemma ReportCoversConsidered(features: seq<string>, nIn: nat)
    ensures var considered := Features.TruncateFeatures(features, nIn);
      |considered| == (if |features| < nIn then |features| else nIn) &&
      |Select(considered, true)| + |Select(considered, false)| == |considered| &&
      multiset(Select(considered, true)) + multiset(Select(considered, false)) == multiset(considered)
  {
    Features.TruncateFeaturesProperties(features, nIn);
    PartitionCounts(Features.TruncateFeatures(features, nIn));
  }
}
