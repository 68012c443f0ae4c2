/** Admission scoring (src/admission-control.ts:226-343, 397-424, 518-544, 669-752): the longest common
    subsequence behind the support score, weight normalization, and the decision. Numbers are reals;
    tokenizing, the utility, novelty and recency scores are inputs. */
module Admission {
  // f names strictly increasing positions of s whose elements are z.
  ghost predicate Embeds<T>(z: seq<T>, s: seq<T>, f: seq<nat>) {
    && |f| == |z|
    && (forall k :: 0 <= k < |f| ==> f[k] < |s| && s[f[k]] == z[k])
    && (forall a, b :: 0 <= a < b < |f| ==> f[a] < f[b])
  }

  ghost predicate Subsequence<T(!new)>(z: seq<T>, s: seq<T>) {
    exists f: seq<nat> :: Embeds(z, s, f)
  }

  ghost predicate Common<T(!new)>(z: seq<T>, left: seq<T>, right: seq<T>) {
    Subsequence(z, left) && Subsequence(z, right)
  }

  import C = Common

  // ---------------------------------------------------------------- longest common subsequence

  // n is the length of a longest common subsequence.
  ghost predicate IsLongest<T(!new)>(n: nat, left: seq<T>, right: seq<T>) {
    && (exists z :: Common(z, left, right) && |z| == n)
    && (forall z :: Common(z, left, right) ==> |z| <= n)
  }

  // The table entry for the first i and j elements.
  function Cell<T(==)>(left: seq<T>, right: seq<T>, i: nat, j: nat): nat
    requires i <= |left| && j <= |right|
    decreases i + j
  {
    if i == 0 || j == 0 then 0
    else if left[i - 1] == right[j - 1] then Cell(left, right, i - 1, j - 1) + 1
    else
      var up, across := Cell(left, right, i - 1, j), Cell(left, right, i, j - 1);
      if up >= across then up else across
  }

  lemma EmbedsWider<T>(z: seq<T>, s: seq<T>, i: nat, f: seq<nat>)
    requires i < |s| && Embeds(z, s[..i], f)
    ensures Embeds(z, s[..i + 1], f)
  {
  }

  lemma EmbedsLast<T>(z: seq<T>, s: seq<T>, i: nat, f: seq<nat>)
    requires i < |s| && Embeds(z, s[..i], f)
    ensures Embeds(z + [s[i]], s[..i + 1], f + [i])
  {
  }

  // An embedding that misses the last element fits into the rest.
  lemma EmbedsNarrower<T>(z: seq<T>, s: seq<T>, i: nat, f: seq<nat>)
    requires i < |s| && Embeds(z, s[..i + 1], f)
    ensures z == [] || f[|f| - 1] != i ==> Embeds(z, s[..i], f)
    ensures z != [] ==> Embeds(z[..|z| - 1], s[..i], f[..|f| - 1])
    ensures z != [] && f[|f| - 1] == i ==> z[|z| - 1] == s[i]
  {
    if z != [] {
      var n := |f| - 1;
      assert forall k :: 0 <= k < n ==> f[k] < f[n];
    }
  }

  // Every common subsequence fits under the table entry.
  lemma {:induction false} CellIsUpperBound<T(!new)>(left: seq<T>, right: seq<T>, i: nat, j: nat, z: seq<T>,
                                              f: seq<nat>, g: seq<nat>)
    requires i <= |left| && j <= |right|
    requires Embeds(z, left[..i], f) && Embeds(z, right[..j], g)
    ensures |z| <= Cell(left, right, i, j)
    decreases i + j
  {
    if z != [] {
      var n := |z| - 1;
      assert f[n] < i && g[n] < j;
      EmbedsNarrower(z, left, i - 1, f);
      EmbedsNarrower(z, right, j - 1, g);
      if left[i - 1] == right[j - 1] {
        CellIsUpperBound(left, right, i - 1, j - 1, z[..n], f[..n], g[..n]);
      } else if f[n] != i - 1 {
        CellIsUpperBound(left, right, i - 1, j, z, f, g);
      } else {
        CellIsUpperBound(left, right, i, j - 1, z, f, g);
      }
    }
  }

  // Some common subsequence reaches it.
  lemma {:induction false} CellIsReached<T(!new)>(left: seq<T>, right: seq<T>, i: nat, j: nat) returns (z: seq<T>,
                                           f: seq<nat>, g: seq<nat>)
    requires i <= |left| && j <= |right|
    ensures Embeds(z, left[..i], f) && Embeds(z, right[..j], g) && |z| == Cell(left, right, i, j)
    decreases i + j
  {
    if i == 0 || j == 0 {
      z, f, g := [], [], [];
    } else if left[i - 1] == right[j - 1] {
      z, f, g := CellIsReached(left, right, i - 1, j - 1);
      EmbedsLast(z, left, i - 1, f);
      EmbedsLast(z, right, j - 1, g);
      z, f, g := z + [left[i - 1]], f + [i - 1], g + [j - 1];
    } else if Cell(left, right, i - 1, j) >= Cell(left, right, i, j - 1) {
      z, f, g := CellIsReached(left, right, i - 1, j);
      EmbedsWider(z, left, i - 1, f);
    } else {
      z, f, g := CellIsReached(left, right, i, j - 1);
      EmbedsWider(z, right, j - 1, g);
    }
  }

  lemma WholeEmbeds<T>(z: seq<T>, s: seq<T>, f: seq<nat>)
    ensures Embeds(z, s[..|s|], f) <==> Embeds(z, s, f)
  {
    assert s[..|s|] == s;
  }

  lemma CommonIsBounded<T(!new)>(left: seq<T>, right: seq<T>, z: seq<T>)
    requires Common(z, left, right)
    ensures |z| <= Cell(left, right, |left|, |right|)
  {
    var f :| Embeds(z, left, f);
    var g :| Embeds(z, right, g);
    WholeEmbeds(z, left, f);
    WholeEmbeds(z, right, g);
    CellIsUpperBound(left, right, |left|, |right|, z, f, g);
  }

  lemma CellIsLongest<T(!new)>(left: seq<T>, right: seq<T>)
    ensures IsLongest(Cell(left, right, |left|, |right|), left, right)
  {
    var z, f, g := CellIsReached(left, right, |left|, |right|);
    WholeEmbeds(z, left, f);
    WholeEmbeds(z, right, g);
    assert Common(z, left, right);
    forall z | Common(z, left, right) ensures |z| <= Cell(left, right, |left|, |right|) {
      CommonIsBounded(left, right, z);
    }
  }

  ghost predicate RowFilled(dp: array2<nat>, left: seq<string>, right: seq<string>, i: nat, upTo: nat)
    requires dp.Length0 == |left| + 1 && dp.Length1 == |right| + 1 && i <= |left| && upTo <= |right| + 1
    reads dp
  {
    forall j :: 0 <= j < upTo ==> dp[i, j] == Cell(left, right, i, j)
  }

  // The table of lcsLength, filled row by row.
  method LcsLength(left: seq<string>, right: seq<string>) returns (n: nat)
    ensures IsLongest(n, left, right)
  {
    CellIsLongest(left, right);
    if left == [] || right == [] { return 0; }
    var dp := new nat[|left| + 1, |right| + 1]((_, _) => 0);
    var i := 1;
    while i <= |left|
      invariant 1 <= i <= |left| + 1
      invariant RowFilled(dp, left, right, i - 1, |right| + 1)
      invariant forall a :: i <= a <= |left| ==> dp[a, 0] == 0
    {
      var j := 1;
      while j <= |right|
        invariant 1 <= j <= |right| + 1
        invariant RowFilled(dp, left, right, i - 1, |right| + 1)
        invariant RowFilled(dp, left, right, i, j)
        invariant forall a :: i <= a <= |left| ==> dp[a, 0] == 0
      {
        if left[i - 1] == right[j - 1] {
          dp[i, j] := dp[i - 1, j - 1] + 1;
        } else {
          dp[i, j] := if dp[i - 1, j] >= dp[i, j - 1] then dp[i - 1, j] else dp[i, j - 1];
        }
        j := j + 1;
      }
      i := i + 1;
    }
    return dp[|left|, |right|];
  }

  lemma LongestIsUnique<T(!new)>(m: nat, n: nat, left: seq<T>, right: seq<T>)
    requires IsLongest(m, left, right) && IsLongest(n, left, right)
    ensures m == n
  {
  }

  lemma LongestIsSymmetric<T(!new)>(n: nat, left: seq<T>, right: seq<T>)
    requires IsLongest(n, left, right)
    ensures IsLongest(n, right, left)
  {
    var z :| Common(z, left, right) && |z| == n;
    assert Common(z, right, left);
    forall z | Common(z, right, left) ensures |z| <= n { assert Common(z, left, right); }
  }

  lemma {:induction false} Climbs(f: seq<nat>, k: nat)
    requires k < |f| && forall a, b :: 0 <= a < b < |f| ==> f[a] < f[b]
    ensures k <= f[k]
  {
    if k > 0 { Climbs(f, k - 1); }
  }

  lemma {:induction false} EmbeddingIsLong<T>(z: seq<T>, s: seq<T>, f: seq<nat>, k: nat)
    requires Embeds(z, s, f) && k < |f|
    ensures k <= f[k]
    ensures f[k] + |f| - 1 - k < |s|
    decreases |f| - k
  {
    Climbs(f, k);
    if k + 1 < |f| { EmbeddingIsLong(z, s, f, k + 1); }
  }

  // A subsequence is no longer than the whole, and as long only if it is the whole.
  lemma SubsequenceSize<T(!new)>(z: seq<T>, s: seq<T>)
    requires Subsequence(z, s)
    ensures |z| <= |s| && (|z| == |s| ==> z == s)
  {
    var f :| Embeds(z, s, f);
    if z != [] {
      forall k | 0 <= k < |f| ensures k <= f[k] && f[k] + |f| - 1 - k < |s| { EmbeddingIsLong(z, s, f, k); }
      assert f[0] + |f| - 1 < |s|;
      if |z| == |s| {
        forall k | 0 <= k < |z| ensures z[k] == s[k] { assert f[k] == k; }
      }
    }
  }

  lemma WholeIsSubsequence<T(!new)>(s: seq<T>)
    ensures Subsequence(s, s)
  {
    assert Embeds(s, s, seq(|s|, k => k));
  }

  // ---------------------------------------------------------------- the support score

  function Harmonic(precision: real, recall: real): real {
    if precision + recall == 0.0 then 0.0 else 2.0 * precision * recall / (precision + recall)
  }

  // rougeLikeF1 in terms of the length of a longest common subsequence.
  function F1(left: seq<string>, right: seq<string>, lcs: nat): real {
    if left == [] || right == [] || lcs == 0 then 0.0
    else
      var precision, recall := lcs as real / |left| as real, lcs as real / |right| as real;
      Harmonic(precision, recall)
  }

  function Support(left: seq<string>, right: seq<string>): real {
    F1(left, right, Cell(left, right, |left|, |right|))
  }

  lemma Cancelled(c: real, a: real, b: real)
    requires c != 0.0 && c * a == c * b
    ensures a == b
  {
    assert c * (a - b) == 0.0;
  }

  lemma Scaled(h: real, p: real, q: real, l: real, r: real, c: real)
    requires c > 0.0 && p * l == c && q * r == c && h * (p + q) == 2.0 * p * q
    ensures h * (l + r) == 2.0 * c
  {
    assert (p + q) * (l * r) == c * (l + r) by {
      assert p * (l * r) == (p * l) * r && q * (l * r) == (q * r) * l;
    }
    assert 2.0 * p * q * (l * r) == 2.0 * c * c by {
      assert p * q * (l * r) == (p * l) * (q * r);
    }
    assert h * ((p + q) * (l * r)) == (h * (p + q)) * (l * r);
    assert h * (c * (l + r)) == 2.0 * c * c;
    assert c * (h * (l + r)) == c * (2.0 * c);
    Cancelled(c, h * (l + r), 2.0 * c);
  }

  lemma Divided(h: real, d: real, n: real)
    requires d != 0.0 && h * d == n
    ensures h == n / d
  {
  }

  lemma HarmonicIs(c: real, l: real, r: real)
    requires c > 0.0 && l > 0.0 && r > 0.0
    ensures Harmonic(c / l, c / r) == 2.0 * c / (l + r)
  {
    var p, q := c / l, c / r;
    assert p > 0.0 && q > 0.0 && p * l == c && q * r == c;
    var h := 2.0 * p * q / (p + q);
    assert h * (p + q) == 2.0 * p * q;
    Scaled(h, p, q, l, r, c);
    Divided(h, l + r, 2.0 * c);
  }

  lemma SupportIs(left: seq<string>, right: seq<string>, lcs: nat)
    requires IsLongest(lcs, left, right)
    ensures Support(left, right) == F1(left, right, lcs)
  {
    CellIsLongest(left, right);
    LongestIsUnique(lcs, Cell(left, right, |left|, |right|), left, right);
  }

  method RougeLikeF1(left: seq<string>, right: seq<string>) returns (f1: real)
    ensures f1 == Support(left, right)
  {
    var lcs := LcsLength(left, right);
    SupportIs(left, right, lcs);
    if left == [] || right == [] || lcs == 0 { return 0.0; }
    return Harmonic(lcs as real / |left| as real, lcs as real / |right| as real);
  }

  lemma RatioIsOne(a: real, b: real)
    requires b > 0.0 && 0.0 <= a <= b
    ensures 0.0 <= a / b <= 1.0 && (a / b == 1.0 <==> a == b)
  {
  }

  // Twice the shared length over the total length; 1 exactly for equal nonempty token lists.
  lemma F1Measures(left: seq<string>, right: seq<string>, n: nat)
    requires IsLongest(n, left, right)
    ensures left != [] && right != [] ==> F1(left, right, n) == 2.0 * n as real / (|left| + |right|) as real
    ensures 0.0 <= F1(left, right, n) <= 1.0
    ensures F1(left, right, n) == 1.0 <==> left == right && left != []
    ensures IsLongest(n, right, left) && F1(right, left, n) == F1(left, right, n)
  {
    LongestIsSymmetric(n, left, right);
    var z :| Common(z, left, right) && |z| == n;
    SubsequenceSize(z, left);
    SubsequenceSize(z, right);
    if left == right {
      WholeIsSubsequence(left);
      assert Common(left, left, right);
    }
    if left != [] && right != [] {
      if n > 0 {
        HarmonicIs(n as real, |left| as real, |right| as real);
        HarmonicIs(n as real, |right| as real, |left| as real);
      }
      RatioIsOne(2.0 * n as real, (|left| + |right|) as real);
    }
  }

  function Clamp01(x: real): real {
    if x < 0.0 then 0.0 else if x > 1.0 then 1.0 else x
  }

  lemma OneMoreToken(seen: set<string>, token: string, conversation: set<string>)
    ensures token in seen ==> seen + {token} == seen
    ensures token !in seen ==> |seen + {token}| == |seen| + 1
    ensures token !in seen ==>
      |(seen + {token}) * conversation| == |seen * conversation| + (if token in conversation then 1 else 0)
  {
    if token !in seen {
      assert (seen + {token}) * conversation ==
        if token in conversation then seen * conversation + {token} else seen * conversation;
    }
    if token in seen { assert seen + {token} == seen; }
  }

  // The distinct tokens, and how many of them the conversation has.
  method Supported(candidate: seq<string>, conversation: set<string>) returns (unique: nat, supported: nat)
    ensures unique == |C.Elems(candidate)| && supported == |C.Elems(candidate) * conversation|
  {
    var seen: set<string> := {};
    unique, supported := 0, 0;
    for i := 0 to |candidate|
      invariant seen == C.Elems(candidate[..i]) && unique == |seen| && supported == |seen * conversation|
    {
      C.ElemsPrefix(candidate, i);
      OneMoreToken(seen, candidate[i], conversation);
      if candidate[i] !in seen {
        seen := seen + {candidate[i]};
        unique := unique + 1;
        if candidate[i] in conversation { supported := supported + 1; }
      }
    }
    assert candidate[..|candidate|] == candidate;
  }

  lemma SharedTokens(tokens: set<string>, conversation: set<string>)
    ensures |tokens * conversation| <= |tokens|
    ensures |tokens * conversation| == |tokens| <==> forall t :: t in tokens ==> t in conversation
    ensures |tokens * conversation| == 0 <==> forall t :: t in tokens ==> t !in conversation
  {
    assert tokens == (tokens * conversation) + (tokens - conversation);
    assert |tokens| == |tokens * conversation| + |tokens - conversation|;
    assert |tokens - conversation| == 0 <==> tokens - conversation == {};
  }

  lemma TimesBack(a: real, b: real)
    requires b > 0.0
    ensures a / b * b == a
  {
  }

  // The loop over the spans.
  method BestSupport(candidate: seq<string>, spans: seq<seq<string>>) returns (best: real)
    requires candidate != []
    ensures 0.0 <= best <= 1.0 && forall s :: s in spans ==> Support(candidate, s) <= best
    ensures best == 0.0 || exists s :: s in spans && Support(candidate, s) == best
    ensures best == 1.0 <==> candidate in spans
  {
    best := 0.0;
    for i := 0 to |spans|
      invariant 0.0 <= best <= 1.0
      invariant forall s :: s in spans[..i] ==> Support(candidate, s) <= best
      invariant best == 0.0 || exists s :: s in spans && Support(candidate, s) == best
      invariant best == 1.0 <==> candidate in spans[..i]
    {
      assert spans[..i + 1] == spans[..i] + [spans[i]];
      var f1 := RougeLikeF1(candidate, spans[i]);
      CellIsLongest(candidate, spans[i]);
      F1Measures(candidate, spans[i], Cell(candidate, spans[i], |candidate|, |spans[i]|));
      if f1 > best { best := f1; }
    }
    assert spans[..|spans|] == spans;
  }

  // scoreConfidenceSupport: full support is a span that says exactly the candidate's tokens, all of them
  // known to the conversation.
  method ScoreConfidenceSupport(candidate: seq<string>, spans: seq<seq<string>>, conversation: set<string>)
    returns (score: real, best: real, coverage: real)
    ensures 0.0 <= score <= 1.0 && 0.0 <= best <= 1.0 && 0.0 <= coverage <= 1.0
    ensures candidate != [] ==>
      coverage * |C.Elems(candidate)| as real == |C.Elems(candidate) * conversation| as real
    ensures candidate != [] ==> score == Clamp01(0.7 * best + 0.55 * coverage - 0.25)
    ensures candidate != [] ==> forall s :: s in spans ==> Support(candidate, s) <= best
    ensures best == 0.0 || exists s :: s in spans && Support(candidate, s) == best
    ensures score == 1.0 <==> candidate != [] && candidate in spans && forall t :: t in candidate ==> t in conversation
    ensures best == 0.0 && (forall t :: t in candidate ==> t !in conversation) ==> score == 0.0
  {
    if candidate == [] { return 0.0, 0.0, 0.0; }
    best := BestSupport(candidate, spans);
    var unique, supported := Supported(candidate, conversation);
    SharedTokens(C.Elems(candidate), conversation);
    assert candidate[0] in C.Elems(candidate);
    coverage := supported as real / unique as real;
    RatioIsOne(supported as real, unique as real);
    TimesBack(supported as real, unique as real);
    assert coverage == 0.0 <==> supported == 0;
    score := Clamp01(best * 0.7 + coverage * 0.3 - (1.0 - coverage) * 0.25);
  }

  // ---------------------------------------------------------------- weights, score and decision

  // Utility, confidence, novelty, recency and type prior; both the features and their weights.
  datatype Five = Five(utility: real, confidence: real, novelty: real, recency: real, typePrior: real) {
    function Sum(): real { utility + confidence + novelty + recency + typePrior }

    predicate AtLeast(low: real) {
      utility >= low && confidence >= low && novelty >= low && recency >= low && typePrior >= low
    }

    predicate AtMost(high: real) {
      utility <= high && confidence <= high && novelty <= high && recency <= high && typePrior <= high
    }
  }

  // A field that is missing or not a finite number is None.
  datatype RawFive = RawFive(
    utility: C.Option<real>, confidence: C.Option<real>, novelty: C.Option<real>, recency: C.Option<real>,
    typePrior: C.Option<real>)

  datatype Preset = Balanced | Conservative | HighRecall

  function PresetWeights(p: Preset): Five {
    match p
    case Balanced => Five(0.1, 0.1, 0.1, 0.1, 0.6)
    case Conservative => Five(0.16, 0.16, 0.18, 0.08, 0.42)
    case HighRecall => Five(0.08, 0.1, 0.08, 0.14, 0.6)
  }

  function PresetThresholds(p: Preset): (real, real) {
    match p
    case Balanced => (0.45, 0.6)
    case Conservative => (0.52, 0.68)
    case HighRecall => (0.34, 0.52)
  }

  function ClampOr(x: C.Option<real>, fallback: real): real {
    if x.None? then fallback else Clamp01(x.value)
  }

  function Clamped(raw: RawFive, defaults: Five): Five {
    Five(ClampOr(raw.utility, defaults.utility), ClampOr(raw.confidence, defaults.confidence),
         ClampOr(raw.novelty, defaults.novelty), ClampOr(raw.recency, defaults.recency),
         ClampOr(raw.typePrior, defaults.typePrior))
  }

  function Over(w: Five, total: real): Five
    requires total > 0.0
  {
    Five(w.utility / total, w.confidence / total, w.novelty / total, w.recency / total, w.typePrior / total)
  }

  function NormalizeWeights(raw: C.Option<RawFive>, defaults: Five): Five {
    if raw.None? then defaults
    else
      var w := Clamped(raw.value, defaults);
      if w.Sum() <= 0.0 then defaults else Over(w, w.Sum())
  }

  // The part of the normalized configuration the decision reads.
  datatype Config = Config(weights: Five, reject: real, admit: real)

  function Normalize(preset: Preset, weights: C.Option<RawFive>, reject: C.Option<real>,
                     admit: C.Option<real>): Config {
    var low := ClampOr(reject, PresetThresholds(preset).0);
    var high := ClampOr(admit, PresetThresholds(preset).1);
    Config(NormalizeWeights(weights, PresetWeights(preset)), low, if high >= low then high else low)
  }

  function Score(f: Five, w: Five): real {
    f.utility * w.utility + f.confidence * w.confidence + f.novelty * w.novelty + f.recency * w.recency
      + f.typePrior * w.typePrior
  }

  datatype Decision = Reject | Add | UpdateOrMerge

  function Decide(c: Config, f: Five, maxSimilarity: real): Decision {
    var score := Score(f, c.weights);
    if score < c.reject then Reject
    else if score >= c.admit && maxSimilarity < 0.55 then Add
    else UpdateOrMerge
  }

  lemma Shares(part: real, total: real)
    requires total > 0.0 && part >= 0.0
    ensures part / total >= 0.0
  {
  }

  lemma Together(w: Five, total: real)
    requires total > 0.0 && w.Sum() == total
    ensures 1.0 ==
      w.utility / total + w.confidence / total + w.novelty / total + w.recency / total + w.typePrior / total
  {
  }

  // Whatever the raw configuration says, the weights are a convex combination.
  lemma WeightsAreConvex(preset: Preset, raw: C.Option<RawFive>)
    ensures var w := NormalizeWeights(raw, PresetWeights(preset)); w.AtLeast(0.0) && w.Sum() == 1.0
  {
    var d := PresetWeights(preset);
    if raw.Some? {
      var w := Clamped(raw.value, d);
      if w.Sum() > 0.0 {
        Shares(w.utility, w.Sum());
        Shares(w.confidence, w.Sum());
        Shares(w.novelty, w.Sum());
        Shares(w.recency, w.Sum());
        Shares(w.typePrior, w.Sum());
        Together(w, w.Sum());
      }
    }
  }

  lemma Weigh(x: real, low: real, high: real, w: real)
    requires low <= x <= high && w >= 0.0
    ensures low * w <= x * w <= high * w
  {
  }

  function Constant(k: real): Five {
    Five(k, k, k, k, k)
  }

  lemma Spread(k: real, w: Five)
    requires w.Sum() == 1.0
    ensures Score(Constant(k), w) == k
  {
    assert Score(Constant(k), w) == k * w.Sum();
  }

  lemma Added(a: real, b: real, c: real, d: real, e: real, a': real, b': real, c': real, d': real, e': real)
    requires a <= a' && b <= b' && c <= c' && d <= d' && e <= e'
    ensures a + b + c + d + e <= a' + b' + c' + d' + e'
  {
  }

  lemma Ordered(f: Five, g: Five, w: Five)
    requires f.utility * w.utility <= g.utility * w.utility
      && f.confidence * w.confidence <= g.confidence * w.confidence
    requires f.novelty * w.novelty <= g.novelty * w.novelty && f.recency * w.recency <= g.recency * w.recency
    requires f.typePrior * w.typePrior <= g.typePrior * w.typePrior
    ensures Score(f, w) <= Score(g, w)
  {
    Added(f.utility * w.utility, f.confidence * w.confidence, f.novelty * w.novelty, f.recency * w.recency,
          f.typePrior * w.typePrior,
          g.utility * w.utility, g.confidence * w.confidence, g.novelty * w.novelty, g.recency * w.recency,
          g.typePrior * w.typePrior);
  }

  // The score lies between the smallest and the largest feature; features in range give a score in range.
  lemma ScoreIsBetween(f: Five, w: Five, low: real, high: real)
    requires w.AtLeast(0.0) && w.Sum() == 1.0 && f.AtLeast(low) && f.AtMost(high)
    ensures low <= Score(f, w) <= high
  {
    Weigh(f.utility, low, high, w.utility);
    Weigh(f.confidence, low, high, w.confidence);
    Weigh(f.novelty, low, high, w.novelty);
    Weigh(f.recency, low, high, w.recency);
    Weigh(f.typePrior, low, high, w.typePrior);
    Ordered(Constant(low), f, w);
    Ordered(f, Constant(high), w);
    Spread(low, w);
    Spread(high, w);
  }

  lemma Distributes(x: real, d: real, w: real)
    ensures (x + d) * w == x * w + d * w
  {
  }

  // Each feature counts with its own weight: more of it by d adds d times that weight, and no features score 0.
  lemma FeaturesHaveTheirWeights(f: Five, w: Five, d: real)
    ensures Score(Constant(0.0), w) == 0.0
    ensures Score(f.(utility := f.utility + d), w) == Score(f, w) + d * w.utility
    ensures Score(f.(confidence := f.confidence + d), w) == Score(f, w) + d * w.confidence
    ensures Score(f.(novelty := f.novelty + d), w) == Score(f, w) + d * w.novelty
    ensures Score(f.(recency := f.recency + d), w) == Score(f, w) + d * w.recency
    ensures Score(f.(typePrior := f.typePrior + d), w) == Score(f, w) + d * w.typePrior
  {
    Distributes(f.utility, d, w.utility);
    Distributes(f.confidence, d, w.confidence);
    Distributes(f.novelty, d, w.novelty);
    Distributes(f.recency, d, w.recency);
    Distributes(f.typePrior, d, w.typePrior);
  }

  // What a field of the configuration counts as: the default when it is missing, else itself, held in range.
  ghost predicate CountsAs(field: C.Option<real>, fallback: real, r: real) {
    && (field.None? ==> r == fallback)
    && (field.Some? && 0.0 <= field.value <= 1.0 ==> r == field.value)
    && (field.Some? && field.value < 0.0 ==> r == 0.0) && (field.Some? && field.value > 1.0 ==> r == 1.0)
  }

  lemma ClampOrCounts(field: C.Option<real>, fallback: real)
    ensures CountsAs(field, fallback, ClampOr(field, fallback))
  {
  }

  // What the fields of the weights count as, each in its own place.
  ghost predicate Given(raw: RawFive, d: Five, given: Five) {
    && CountsAs(raw.utility, d.utility, given.utility) && CountsAs(raw.confidence, d.confidence, given.confidence)
    && CountsAs(raw.novelty, d.novelty, given.novelty) && CountsAs(raw.recency, d.recency, given.recency)
    && CountsAs(raw.typePrior, d.typePrior, given.typePrior)
  }

  ghost predicate Proportional(w: Five, given: Five, total: real) {
    && w.utility * total == given.utility && w.confidence * total == given.confidence
    && w.novelty * total == given.novelty && w.recency * total == given.recency
    && w.typePrior * total == given.typePrior
  }

  lemma SharesBack(given: Five, total: real)
    requires total > 0.0
    ensures Proportional(Over(given, total), given, total)
  {
    TimesBack(given.utility, total);
    TimesBack(given.confidence, total);
    TimesBack(given.novelty, total);
    TimesBack(given.recency, total);
    TimesBack(given.typePrior, total);
  }

  lemma ClampedIsGiven(raw: RawFive, d: Five)
    ensures Given(raw, d, Clamped(raw, d))
  {
  }

  lemma NormalizedKeep(raw: RawFive, d: Five) returns (given: Five)
    ensures Given(raw, d, given)
    ensures var w := NormalizeWeights(C.Some(raw), d);
      if given.Sum() > 0.0 then Proportional(w, given, given.Sum()) else w == d
  {
    given := Clamped(raw, d);
    ClampedIsGiven(raw, d);
    if given.Sum() > 0.0 { SharesBack(given, given.Sum()); }
  }

  // The weights stand to each other as the fields that were given do; when these all count as nothing, or none
  // is given, they are the preset's.
  lemma WeightsKeepProportions(preset: Preset, raw: C.Option<RawFive>) returns (given: Five, total: real)
    ensures total == given.utility + given.confidence + given.novelty + given.recency + given.typePrior
    ensures var w := NormalizeWeights(raw, PresetWeights(preset));
      if raw.None? then w == PresetWeights(preset)
      else
        && Given(raw.value, PresetWeights(preset), given)
        && if total > 0.0 then Proportional(w, given, total) else w == PresetWeights(preset)
  {
    given := PresetWeights(preset);
    if raw.Some? {
      given := NormalizedKeep(raw.value, given);
    }
    total := given.Sum();
  }

  // The lower threshold is the one given; the upper too, unless it lies below the lower.
  lemma ThresholdsAre(preset: Preset, weights: C.Option<RawFive>, reject: C.Option<real>, admit: C.Option<real>)
    returns (upper: real)
    ensures var c := Normalize(preset, weights, reject, admit);
      && CountsAs(reject, PresetThresholds(preset).0, c.reject)
      && CountsAs(admit, PresetThresholds(preset).1, upper)
      && c.admit >= c.reject && c.admit >= upper && (c.admit == upper || c.admit == c.reject)
      && c.weights == NormalizeWeights(weights, PresetWeights(preset))
  {
    upper := ClampOr(admit, PresetThresholds(preset).1);
    ClampOrCounts(reject, PresetThresholds(preset).0);
  }

  lemma ScoreIsInRange(preset: Preset, weights: C.Option<RawFive>, f: Five)
    requires f.AtLeast(0.0) && f.AtMost(1.0)
    ensures 0.0 <= Score(f, NormalizeWeights(weights, PresetWeights(preset))) <= 1.0
  {
    WeightsAreConvex(preset, weights);
    ScoreIsBetween(f, NormalizeWeights(weights, PresetWeights(preset)), 0.0, 1.0);
  }

  // For every raw configuration and features in range: the score is in range, the thresholds are ordered,
  // and a candidate at or above the admit threshold is never rejected.
  lemma AdmissionIsSound(preset: Preset, weights: C.Option<RawFive>, reject: C.Option<real>, admit: C.Option<real>,
                         f: Five, maxSimilarity: real)
    requires f.AtLeast(0.0) && f.AtMost(1.0)
    ensures var c := Normalize(preset, weights, reject, admit);
      && 0.0 <= Score(f, c.weights) <= 1.0
      && 0.0 <= c.reject <= c.admit <= 1.0
      && (Decide(c, f, maxSimilarity) == Add <==> Score(f, c.weights) >= c.admit && maxSimilarity < 0.55)
      && (Decide(c, f, maxSimilarity) == Reject <==> Score(f, c.weights) < c.reject)
  {
    ScoreIsInRange(preset, weights, f);
  }

  function Rank(d: Decision): nat {
    match d
    case Reject => 0
    case UpdateOrMerge => 1
    case Add => 2
  }

  ghost predicate Better(f: Five, g: Five) {
    && f.utility <= g.utility && f.confidence <= g.confidence && f.novelty <= g.novelty
    && f.recency <= g.recency && f.typePrior <= g.typePrior
  }

  // Raising features, or lowering the similarity to what is stored, never makes the decision worse.
  lemma DecisionIsMonotone(preset: Preset, weights: C.Option<RawFive>, reject: C.Option<real>, admit: C.Option<real>,
                           f: Five, g: Five, similar: real, lessSimilar: real)
    requires Better(f, g) && lessSimilar <= similar
    ensures var c := Normalize(preset, weights, reject, admit);
      Rank(Decide(c, f, similar)) <= Rank(Decide(c, g, lessSimilar))
  {
    WeightsAreConvex(preset, weights);
    var w := NormalizeWeights(weights, PresetWeights(preset));
    Weigh(f.utility, f.utility, g.utility, w.utility);
    Weigh(f.confidence, f.confidence, g.confidence, w.confidence);
    Weigh(f.novelty, f.novelty, g.novelty, w.novelty);
    Weigh(f.recency, f.recency, g.recency, w.recency);
    Weigh(f.typePrior, f.typePrior, g.typePrior, w.typePrior);
    Ordered(f, g, w);
  }
}
