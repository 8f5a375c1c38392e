/**
 Epoch scores, exponential moving averages and weights
 (src/dolores_subnet/scoring.py). Task values and scores are in micro-units: a task
 value is a real, and a rounded score or average is an integer.
 */
module Scoring {
  import opened Rounding

  type Hotkey = string
  type Ema = map<Hotkey, int>

  const MICRO := 1_000_000

  /******* Top-k *******/

  function Clip(x: real): (c: real)
    ensures c >= 0.0 && c >= x && (c == 0.0 || c == x)
  {
    if x < 0.0 then 0.0 else x
  }

  function Clipped(values: seq<real>): (cs: seq<real>)
    ensures |cs| == |values|
    ensures forall i :: 0 <= i < |cs| ==> cs[i] == Clip(values[i])
  {
    seq(|values|, i requires 0 <= i < |values| => Clip(values[i]))
  }

  function Sum(s: seq<real>): real {
    if s == [] then 0.0 else s[0] + Sum(s[1..])
  }

  ghost predicate Descending(s: seq<real>) {
    forall i, j :: 0 <= i < j < |s| ==> s[i] >= s[j]
  }

  function Insert(x: real, s: seq<real>): seq<real> {
    if s == [] || x >= s[0] then [x] + s else [s[0]] + Insert(x, s[1..])
  }

  /** `sorted(..., reverse=True)`. */
  function SortDescending(s: seq<real>): seq<real> {
    if s == [] then [] else Insert(s[0], SortDescending(s[1..]))
  }

  lemma {:induction false} InsertKeepsItems(x: real, s: seq<real>)
    ensures multiset(Insert(x, s)) == multiset{x} + multiset(s)
  {
    if s != [] && x < s[0] {
      InsertKeepsItems(x, s[1..]);
      assert s == [s[0]] + s[1..];
    }
  }

  lemma {:induction false} SortKeepsItems(s: seq<real>)
    ensures multiset(SortDescending(s)) == multiset(s)
  {
    if s != [] {
      SortKeepsItems(s[1..]);
      InsertKeepsItems(s[0], SortDescending(s[1..]));
      assert s == [s[0]] + s[1..];
    }
  }

  lemma {:induction false} InsertKeepsDescending(x: real, s: seq<real>)
    requires Descending(s)
    ensures Descending(Insert(x, s))
  {
    if s != [] && x < s[0] {
      InsertKeepsDescending(x, s[1..]);
      InsertKeepsItems(x, s[1..]);
      var r := Insert(x, s[1..]);
      forall i | 0 <= i < |r| ensures r[i] <= s[0] {
        assert r[i] in multiset(r);
        assert r[i] == x || r[i] in s[1..];
      }
    }
  }

  lemma {:induction false} SortIsDescending(s: seq<real>)
    ensures Descending(SortDescending(s))
  {
    if s != [] {
      SortIsDescending(s[1..]);
      InsertKeepsDescending(s[0], SortDescending(s[1..]));
    }
  }

  function Take(s: seq<real>, k: nat): seq<real> {
    if k < |s| then s[..k] else s
  }

  /** The unrounded sum of the k best clipped values. */
  function TopKSum(values: seq<real>, k: nat): real {
    Sum(Take(SortDescending(Clipped(values)), k))
  }

  function TopKScore(r: Rounder, values: seq<real>, k: nat): int {
    r.nearest(TopKSum(values, k))
  }

  /** A choice of at most k of the clipped values, each used at most as often as it occurs. */
  ghost predicate IsPick(pick: seq<real>, values: seq<real>, k: nat) {
    |pick| <= k && multiset(pick) <= multiset(Clipped(values))
  }

  lemma {:induction false} SumRemove(s: seq<real>, i: nat)
    requires i < |s|
    ensures Sum(s) == s[i] + Sum(s[..i] + s[i + 1..])
    ensures multiset(s) == multiset{s[i]} + multiset(s[..i] + s[i + 1..])
  {
    assert s == s[..i] + [s[i]] + s[i + 1..];
    if i > 0 {
      SumRemove(s[1..], i - 1);
      assert s[1..][..i - 1] + s[1..][i..] == (s[..i] + s[i + 1..])[1..];
    } else {
      assert s[..0] + s[1..] == s[1..];
    }
  }

  lemma CancelSubset(x: real, a: multiset<real>, b: multiset<real>)
    requires multiset{x} + a <= multiset{x} + b
    ensures a <= b
  {
    forall v ensures a[v] <= b[v] {
      assert (multiset{x} + a)[v] <= (multiset{x} + b)[v];
    }
  }

  /** A pick can give up one item, no larger than the head, and still fit in the tail. */
  lemma GiveUpOne(sorted: seq<real>, pick: seq<real>) returns (i: nat)
    requires Descending(sorted) && pick != [] && multiset(pick) <= multiset(sorted)
    ensures i < |pick| && sorted != [] && pick[i] <= sorted[0]
    ensures multiset(pick[..i] + pick[i + 1..]) <= multiset(sorted[1..])
  {
    assert pick[0] in multiset(pick);
    assert pick[0] in sorted;
    assert sorted == [sorted[0]] + sorted[1..];
    i := if sorted[0] in pick then IndexOf(pick, sorted[0]) else 0;
    SumRemove(pick, i);
    var rest := pick[..i] + pick[i + 1..];
    if sorted[0] in pick {
      CancelSubset(sorted[0], multiset(rest), multiset(sorted[1..]));
    } else {
      assert sorted[0] !in multiset(pick);
      forall v ensures multiset(rest)[v] <= multiset(sorted[1..])[v] {
        assert multiset(pick)[v] <= multiset(sorted)[v];
      }
    }
  }

  /** In a descending list of nonnegative numbers, the first k beat any k of them. */
  lemma {:induction false} PrefixIsBest(sorted: seq<real>, pick: seq<real>, k: nat)
    requires Descending(sorted) && forall i :: 0 <= i < |sorted| ==> sorted[i] >= 0.0
    requires |pick| <= k && multiset(pick) <= multiset(sorted)
    ensures Sum(pick) <= Sum(Take(sorted, k))
    decreases k
  {
    if pick == [] {
      SumNonnegative(Take(sorted, k));
    } else {
      var i := GiveUpOne(sorted, pick);
      SumRemove(pick, i);
      PrefixIsBest(sorted[1..], pick[..i] + pick[i + 1..], k - 1);
      assert Take(sorted, k)[1..] == Take(sorted[1..], k - 1);
    }
  }

  ghost function IndexOf(s: seq<real>, x: real): (i: nat)
    requires x in s
    ensures i < |s| && s[i] == x
  {
    var i :| 0 <= i < |s| && s[i] == x; i
  }

  lemma {:induction false} SumNonnegative(s: seq<real>)
    requires forall i :: 0 <= i < |s| ==> s[i] >= 0.0
    ensures Sum(s) >= 0.0
  {
    if s != [] { SumNonnegative(s[1..]); }
  }

  lemma SortedClippedIsNonnegative(values: seq<real>)
    ensures forall v :: v in SortDescending(Clipped(values)) ==> v >= 0.0
  {
    var cs := Clipped(values);
    SortKeepsItems(cs);
    forall v | v in SortDescending(cs) ensures v >= 0.0 {
      assert v in multiset(SortDescending(cs));
      assert v in cs;
    }
  }

  /** The top-k sum is the maximum over all picks of at most k clipped values. */
  lemma TopKIsMaximum(values: seq<real>, k: nat)
    ensures forall pick :: IsPick(pick, values, k) ==> Sum(pick) <= TopKSum(values, k)
    ensures exists pick :: IsPick(pick, values, k) && Sum(pick) == TopKSum(values, k)
  {
    var sorted := SortDescending(Clipped(values));
    SortIsDescending(Clipped(values));
    SortKeepsItems(Clipped(values));
    SortedClippedIsNonnegative(values);
    assert forall i :: 0 <= i < |sorted| ==> sorted[i] in sorted;
    forall pick | IsPick(pick, values, k) ensures Sum(pick) <= TopKSum(values, k) {
      PrefixIsBest(sorted, pick, k);
    }
    var best := Take(sorted, k);
    assert sorted == best + sorted[|best|..];
    assert IsPick(best, values, k);
  }

  /** More clipped values to choose from never lowers the top-k sum. */
  lemma TopKGrowsWithChoice(a: seq<real>, b: seq<real>, k: nat)
    requires multiset(Clipped(a)) <= multiset(Clipped(b))
    ensures TopKSum(a, k) <= TopKSum(b, k)
  {
    TopKIsMaximum(a, k);
    TopKIsMaximum(b, k);
    var pick :| IsPick(pick, a, k) && Sum(pick) == TopKSum(a, k);
    assert IsPick(pick, b, k);
  }

  /** The head of a list occurs in any permutation of it, and the rest is a permutation of the tail. */
  lemma FindHead(a: seq<real>, b: seq<real>) returns (i: nat)
    requires a != [] && multiset(a) == multiset(b)
    ensures i < |b| && b[i] == a[0] && multiset(a[1..]) == multiset(b[..i] + b[i + 1..])
  {
    assert a[0] in multiset(a);
    i := IndexOf(b, a[0]);
    SumRemove(b, i);
    assert a == [a[0]] + a[1..];
    CancelSubset(a[0], multiset(a[1..]), multiset(b[..i] + b[i + 1..]));
    CancelSubset(a[0], multiset(b[..i] + b[i + 1..]), multiset(a[1..]));
  }

  lemma ClippedRemove(values: seq<real>, i: nat)
    requires i < |values|
    ensures multiset(Clipped(values))
         == multiset{Clip(values[i])} + multiset(Clipped(values[..i] + values[i + 1..]))
  {
    var cs := Clipped(values);
    SumRemove(cs, i);
    assert Clipped(values[..i] + values[i + 1..]) == cs[..i] + cs[i + 1..];
  }

  lemma ClippedHead(values: seq<real>)
    requires values != []
    ensures multiset(Clipped(values)) == multiset{Clip(values[0])} + multiset(Clipped(values[1..]))
  {
    ClippedRemove(values, 0);
    assert values[..0] + values[1..] == values[1..];
  }

  lemma {:induction false} ClippedOfPermutation(a: seq<real>, b: seq<real>)
    requires multiset(a) == multiset(b)
    ensures multiset(Clipped(a)) == multiset(Clipped(b))
    decreases |a|
  {
    assert |multiset(a)| == |multiset(b)|;
    if a == [] {
      assert b == [];
    } else {
      var i := FindHead(a, b);
      var rest := b[..i] + b[i + 1..];
      ClippedOfPermutation(a[1..], rest);
      ClippedHead(a);
      ClippedRemove(b, i);
      assert multiset(Clipped(a)) == multiset{Clip(a[0])} + multiset(Clipped(rest));
    }
  }

  /** The rounded score does not depend on the order of the values. */
  lemma TopKScoreIsPermutationInvariant(r: Rounder, a: seq<real>, b: seq<real>, k: nat)
    requires multiset(a) == multiset(b)
    ensures TopKScore(r, a, k) == TopKScore(r, b, k)
  {
    ClippedOfPermutation(a, b);
    TopKGrowsWithChoice(a, b, k);
    TopKGrowsWithChoice(b, a, k);
  }

  /** Submitting one more task never lowers the rounded score. */
  lemma TopKScoreNeverFallsWhenAdding(r: Rounder, values: seq<real>, extra: real, k: nat)
    requires r.Valid()
    ensures TopKScore(r, values, k) <= TopKScore(r, values + [extra], k)
  {
    assert Clipped(values + [extra]) == Clipped(values) + [Clip(extra)];
    TopKGrowsWithChoice(values, values + [extra], k);
    RoundIsMonotone(r, TopKSum(values, k), TopKSum(values + [extra], k));
  }

  /** A pick that uses the raised value can use its new size instead. */
  lemma RaisePick(pick: seq<real>, low: real, high: real, shared: multiset<real>) returns (better: seq<real>)
    requires low <= high && low in pick && multiset(pick) <= multiset{low} + shared
    ensures |better| == |pick| && Sum(pick) <= Sum(better) && multiset(better) <= multiset{high} + shared
  {
    var j := IndexOf(pick, low);
    better := pick[j := high];
    var others := pick[..j] + pick[j + 1..];
    SumRemove(pick, j);
    SumRemove(better, j);
    assert better[..j] + better[j + 1..] == others;
    CancelSubset(low, multiset(others), shared);
  }

  /** A pick that does not use it never needed it. */
  lemma PickWithout(pick: multiset<real>, low: real, shared: multiset<real>)
    requires low !in pick && pick <= multiset{low} + shared
    ensures pick <= shared
  {
  }

  /** Swapping one clipped value for a larger one leaves a pick at least as good. */
  lemma PickSurvivesRaise(before: seq<real>, after: seq<real>, i: nat, pick: seq<real>, k: nat)
    requires |before| == |after| && i < |before| && Clip(before[i]) <= Clip(after[i])
    requires before[..i] + before[i + 1..] == after[..i] + after[i + 1..]
    requires IsPick(pick, before, k)
    ensures exists better :: IsPick(better, after, k) && Sum(pick) <= Sum(better)
  {
    var low, high := Clip(before[i]), Clip(after[i]);
    var shared := multiset(Clipped(before[..i] + before[i + 1..]));
    ClippedRemove(before, i);
    ClippedRemove(after, i);
    if low in pick {
      var better := RaisePick(pick, low, high, shared);
      assert IsPick(better, after, k);
    } else {
      PickWithout(multiset(pick), low, shared);
      assert IsPick(pick, after, k);
    }
  }

  /** Raising one task value never lowers the rounded score. */
  lemma TopKScoreNeverFallsWhenRaising(r: Rounder, values: seq<real>, i: nat, raised: real, k: nat)
    requires r.Valid() && i < |values| && values[i] <= raised
    ensures TopKScore(r, values, k) <= TopKScore(r, values[i := raised], k)
  {
    var after := values[i := raised];
    TopKIsMaximum(values, k);
    TopKIsMaximum(after, k);
    var pick :| IsPick(pick, values, k) && Sum(pick) == TopKSum(values, k);
    PickSurvivesRaise(values, after, i, pick, k);
    RoundIsMonotone(r, TopKSum(values, k), TopKSum(after, k));
  }

  /** With task values at most one and at most k counted, the score is within [0, k]. */
  lemma TopKScoreIsWithinQuota(r: Rounder, values: seq<real>, k: nat)
    requires r.Valid() && forall i :: 0 <= i < |values| ==> values[i] <= MICRO as real
    ensures 0 <= TopKScore(r, values, k) <= k * MICRO
  {
    TopKIsMaximum(values, k);
    var pick :| IsPick(pick, values, k) && Sum(pick) == TopKSum(values, k);
    forall i | 0 <= i < |pick| ensures 0.0 <= pick[i] <= MICRO as real {
      assert pick[i] in multiset(pick);
      assert pick[i] in Clipped(values);
    }
    SumNonnegative(pick);
    SumAtMost(pick, MICRO);
    assert |pick| * MICRO <= k * MICRO;
    NearestKeepsIntegerBounds(Sum(pick), TopKScore(r, values, k), 0, k * MICRO);
  }

  lemma {:induction false} SumAtMost(s: seq<real>, bound: int)
    requires forall i :: 0 <= i < |s| ==> s[i] <= bound as real
    ensures Sum(s) <= (|s| * bound) as real
  {
    if s != [] {
      SumAtMost(s[1..], bound);
      assert |s| * bound == bound + |s[1..]| * bound;
    }
  }

  function TopKScores(r: Rounder, values: map<Hotkey, seq<real>>, k: nat): (scores: map<Hotkey, int>)
    ensures scores.Keys == values.Keys
  {
    map h | h in values :: TopKScore(r, values[h], k)
  }

  /** A score is nearest to the best sum any choice of at most k clipped values can reach. */
  lemma EpochScoreIsTheBestPick(r: Rounder, values: map<Hotkey, seq<real>>, k: nat, h: Hotkey)
    requires r.Valid() && h in values
    ensures exists pick ::
      && IsPick(pick, values[h], k) && Nearest(Sum(pick), TopKScores(r, values, k)[h])
      && forall other :: IsPick(other, values[h], k) ==> Sum(other) <= Sum(pick)
  {
    TopKIsMaximum(values[h], k);
    var pick :| IsPick(pick, values[h], k) && Sum(pick) == TopKSum(values[h], k);
    assert Nearest(Sum(pick), TopKScores(r, values, k)[h]);
  }

  /** `top_k_epoch_scores`: one dictionary entry per loop iteration. */
  method TopKEpochScores(r: Rounder, values: map<Hotkey, seq<real>>, k: nat) returns (scores: map<Hotkey, int>)
    ensures scores == TopKScores(r, values, k)
  {
    scores := map[];
    ghost var all := TopKScores(r, values, k);
    var left := values.Keys;
    while left != {}
      invariant left <= values.Keys
      invariant scores.Keys == values.Keys - left
      invariant forall h :: h in scores ==> scores[h] == all[h]
      decreases left
    {
      var miner :| miner in left;
      scores := scores[miner := TopKScore(r, values[miner], k)];
      left := left - {miner};
    }
  }

  /******* Moving average *******/

  function Get(m: map<Hotkey, int>, h: Hotkey): int {
    if h in m then m[h] else 0
  }

  function UpdateEma(r: Rounder, alpha: real, previous: Ema, scores: map<Hotkey, int>, infraOnly: set<Hotkey>)
    : (updated: Ema)
    ensures updated.Keys == previous.Keys + scores.Keys
  {
    map h | h in previous.Keys + scores.Keys ::
      if h in infraOnly then r.nearest(Get(previous, h) as real)
      else r.blend(alpha, Get(scores, h), Get(previous, h))
  }

  /** `update_ema_scores`: fills the updated dictionary miner by miner. */
  method UpdateEmaScores(r: Rounder, alpha: real, previous: Ema, scores: map<Hotkey, int>, infraOnly: set<Hotkey>)
    returns (updated: Ema)
    ensures updated == UpdateEma(r, alpha, previous, scores, infraOnly)
  {
    updated := map[];
    ghost var all := UpdateEma(r, alpha, previous, scores, infraOnly);
    var left := previous.Keys + scores.Keys;
    while left != {}
      invariant left <= previous.Keys + scores.Keys
      invariant updated.Keys == previous.Keys + scores.Keys - left
      invariant forall h :: h in updated ==> updated[h] == all[h]
      decreases left
    {
      var miner :| miner in left;
      if miner in infraOnly {
        updated := updated[miner := r.nearest(Get(previous, miner) as real)];
      } else {
        updated := updated[miner := r.blend(alpha, Get(scores, miner), Get(previous, miner))];
      }
      left := left - {miner};
    }
  }

  /** What one epoch hands to the average. */
  datatype EpochScores = EpochScores(scores: map<Hotkey, int>, infraOnly: set<Hotkey>)

  /** The stored averages after some epochs, each a call of `update_ema_scores` on the one before. */
  function Averages(r: Rounder, alpha: real, start: Ema, epochs: seq<EpochScores>): Ema {
    if epochs == [] then start
    else
      var last := epochs[|epochs| - 1];
      UpdateEma(r, alpha, Averages(r, alpha, start, epochs[..|epochs| - 1]), last.scores, last.infraOnly)
  }

  /** Folding may stop anywhere and go on from there. */
  lemma {:induction false} AveragesSplit(r: Rounder, alpha: real, start: Ema, epochs: seq<EpochScores>, i: nat)
    requires i <= |epochs|
    ensures Averages(r, alpha, start, epochs) == Averages(r, alpha, Averages(r, alpha, start, epochs[..i]), epochs[i..])
  {
    if i == |epochs| {
      assert epochs[..i] == epochs;
    } else {
      var front := epochs[..|epochs| - 1];
      AveragesSplit(r, alpha, start, front, i);
      assert front[..i] == epochs[..i] && epochs[i..][..|epochs| - 1 - i] == front[i..];
    }
  }

  /** One miner's average in exact arithmetic, never rounded, starting from zero. */
  function ExactEma(alpha: real, epochs: seq<EpochScores>, h: Hotkey): real {
    if epochs == [] then 0.0
    else
      var exact, last := ExactEma(alpha, epochs[..|epochs| - 1], h), epochs[|epochs| - 1];
      if h in last.infraOnly then exact else Weighted(alpha, Get(last.scores, h) as real, exact)
  }

  /** Any miner, listed or not: its average is kept when nothing was measured and blended otherwise. */
  lemma UpdateEmaIsOneStep(r: Rounder, alpha: real, previous: Ema, epoch: EpochScores, h: Hotkey)
    requires r.Valid()
    ensures var after := Get(UpdateEma(r, alpha, previous, epoch.scores, epoch.infraOnly), h);
      if h in epoch.infraOnly then after == Get(previous, h)
      else Nearest(Weighted(alpha, Get(epoch.scores, h) as real, Get(previous, h) as real), after)
  {
    RoundOfInteger(r, Get(previous, h));
    assert Weighted(alpha, 0.0, 0.0) == 0.0;
  }

  function Share(part: real, x: real): real {
    part * x
  }

  lemma WeightedEnds(alpha: real, x: real)
    ensures Weighted(alpha, x, 0.0) == Share(alpha, x)
    ensures Weighted(alpha, 0.0, x) == Share(1.0 - alpha, x)
    ensures Weighted(alpha, x, x) == x
  {
    assert alpha * x + (1.0 - alpha) * x == x;
  }

  /** What alpha means: a first score counts alpha, a zero score leaves the complement, an equal score nothing. */
  lemma AlphaIsTheShareOfTheNewScore(r: Rounder, alpha: real, previous: Ema, epoch: EpochScores, h: Hotkey)
    requires r.Valid() && h !in epoch.infraOnly
    ensures var score, before := Get(epoch.scores, h), Get(previous, h);
      var after := Get(UpdateEma(r, alpha, previous, epoch.scores, epoch.infraOnly), h);
      && (before == 0 ==> Nearest(Share(alpha, score as real), after))
      && (score == 0 ==> Nearest(Share(1.0 - alpha, before as real), after))
      && (score == before ==> after == before)
  {
    UpdateEmaIsOneStep(r, alpha, previous, epoch, h);
    WeightedEnds(alpha, Get(previous, h) as real);
    WeightedEnds(alpha, Get(epoch.scores, h) as real);
  }

  lemma Product(x: real, y: real)
    requires x >= 0.0 && y >= 0.0
    ensures x * y >= 0.0
  {
  }

  /** |error| <= 0.5 / alpha, multiplied out. */
  ghost predicate WithinDrift(alpha: real, error: real) {
    -0.5 <= alpha * error <= 0.5
  }

  lemma DriftAsQuotient(alpha: real, error: real)
    requires alpha > 0.0
    ensures WithinDrift(alpha, error) <==> -(0.5 / alpha) <= error <= 0.5 / alpha
  {
  }

  /** Rounding at every epoch never drifts: the error stays within half a micro-unit over alpha. */
  lemma {:induction false} EmaDriftIsBounded(r: Rounder, alpha: real, epochs: seq<EpochScores>, h: Hotkey)
    requires r.Valid() && 0.0 < alpha <= 1.0
    ensures WithinDrift(alpha, Get(Averages(r, alpha, map[], epochs), h) as real - ExactEma(alpha, epochs, h))
  {
    if epochs == [] {
      assert alpha * 0.0 == 0.0;
    } else {
      var front, last := epochs[..|epochs| - 1], epochs[|epochs| - 1];
      var before, exact := Averages(r, alpha, map[], front), ExactEma(alpha, front, h);
      EmaDriftIsBounded(r, alpha, front, h);
      UpdateEmaIsOneStep(r, alpha, before, last, h);
      if h !in last.infraOnly {
        BlendDrift(alpha, Get(last.scores, h), Get(before, h), exact, Get(Averages(r, alpha, map[], epochs), h));
      }
    }
  }

  lemma BlendDrift(alpha: real, score: int, prev: int, exact: real, next: int)
    requires 0.0 < alpha <= 1.0 && WithinDrift(alpha, prev as real - exact)
    requires Nearest(Weighted(alpha, score as real, prev as real), next)
    ensures WithinDrift(alpha, next as real - Weighted(alpha, score as real, exact))
  {
    var x, y := Weighted(alpha, score as real, prev as real), Weighted(alpha, score as real, exact);
    WeightedDifference(alpha, score as real, prev as real, exact);
    var residue, error := next as real - x, prev as real - exact;
    DriftSum(alpha, residue, error);
    SameDrift(alpha, residue + (1.0 - alpha) * error, next as real - y);
  }

  lemma SameDrift(alpha: real, a: real, b: real)
    requires a == b && WithinDrift(alpha, a)
    ensures WithinDrift(alpha, b)
  {
  }

  lemma WeightedDifference(alpha: real, score: real, prev: real, exact: real)
    ensures Weighted(alpha, score, prev) - Weighted(alpha, score, exact) == (1.0 - alpha) * (prev - exact)
  {
  }

  /** A residue of half a unit and the shrunken old error stay within the bound together. */
  lemma DriftSum(alpha: real, residue: real, error: real)
    requires 0.0 < alpha <= 1.0 && -0.5 <= residue <= 0.5 && WithinDrift(alpha, error)
    ensures WithinDrift(alpha, residue + (1.0 - alpha) * error)
  {
    WeightedIsBetween(alpha, residue + 0.5, alpha * error + 0.5, 1.0);
    DriftAlgebra(alpha, residue, error);
  }

  lemma DriftAlgebra(alpha: real, residue: real, error: real)
    ensures alpha * (residue + (1.0 - alpha) * error)
         == Weighted(alpha, residue + 0.5, alpha * error + 0.5) - 0.5
  {
  }

  /** Scores within [0, quota] keep every stored average within [0, quota] for ever. */
  lemma {:induction false} EmaStaysWithinQuota(r: Rounder, alpha: real, epochs: seq<EpochScores>, quota: nat, h: Hotkey)
    requires r.Valid() && 0.0 <= alpha <= 1.0
    requires forall i :: 0 <= i < |epochs| ==> 0 <= Get(epochs[i].scores, h) <= quota * MICRO
    ensures 0 <= Get(Averages(r, alpha, map[], epochs), h) <= quota * MICRO
  {
    if epochs != [] {
      var front, last := epochs[..|epochs| - 1], epochs[|epochs| - 1];
      var before := Averages(r, alpha, map[], front);
      EmaStaysWithinQuota(r, alpha, front, quota, h);
      UpdateEmaIsOneStep(r, alpha, before, last, h);
      if h !in last.infraOnly {
        BlendIsBetween(alpha, Get(last.scores, h), Get(before, h), quota * MICRO,
                       Get(Averages(r, alpha, map[], epochs), h));
      }
    }
  }

  lemma BlendIsBetween(alpha: real, score: int, prev: int, top: int, next: int)
    requires 0.0 <= alpha <= 1.0 && 0 <= score <= top && 0 <= prev <= top
    requires Nearest(Weighted(alpha, score as real, prev as real), next)
    ensures 0 <= next <= top
  {
    WeightedIsBetween(alpha, score as real, prev as real, top as real);
    NearestKeepsIntegerBounds(Weighted(alpha, score as real, prev as real), next, 0, top);
  }

  lemma WeightedIsBetween(alpha: real, x: real, y: real, top: real)
    requires 0.0 <= alpha <= 1.0 && 0.0 <= x <= top && 0.0 <= y <= top
    ensures 0.0 <= Weighted(alpha, x, y) <= top
  {
    Product(alpha, top - x);
    Product(1.0 - alpha, top - y);
    Product(alpha, x);
    Product(1.0 - alpha, y);
    assert alpha * (top - x) + (1.0 - alpha) * (top - y) == top - (alpha * x + (1.0 - alpha) * y);
  }

  /******* Idle miners *******/

  const EMA_ALPHA := 0.3

  /** With the configured alpha a first score of ten micro-units leaves three, whatever the rounder. */
  lemma FirstScoreCountsThreeTenths(r: Rounder, epoch: EpochScores, h: Hotkey, tenth: int)
    requires r.Valid() && h !in epoch.infraOnly && Get(epoch.scores, h) == 10 * tenth
    ensures Get(UpdateEma(r, EMA_ALPHA, map[], epoch.scores, epoch.infraOnly), h) == 3 * tenth
  {
    AlphaIsTheShareOfTheNewScore(r, EMA_ALPHA, map[], epoch, h);
  }

  /** A zero-score epoch: two or more shrink but stay positive, one stays one, zero stays zero. */
  lemma DecayStep(prev: int, next: int)
    requires prev >= 0 && Nearest(Weighted(EMA_ALPHA, 0.0, prev as real), next)
    ensures prev >= 2 ==> 1 <= next < prev
    ensures prev <= 1 ==> next == prev
  {
  }

  /** The miner scores nothing, or nothing about it is measured. */
  predicate Idle(epoch: EpochScores, h: Hotkey) {
    h in epoch.infraOnly || Get(epoch.scores, h) == 0
  }

  function MeasuredEpochs(epochs: seq<EpochScores>, h: Hotkey): nat {
    if epochs == [] then 0
    else MeasuredEpochs(epochs[..|epochs| - 1], h) + (if h in epochs[|epochs| - 1].infraOnly then 0 else 1)
  }

  /** One idle epoch: nothing changes unless it was measured, and then a positive average falls to one at least. */
  lemma IdleStep(r: Rounder, previous: Ema, epoch: EpochScores, h: Hotkey)
    requires r.Valid() && Idle(epoch, h) && Get(previous, h) >= 0
    ensures var before := Get(previous, h);
      var after := Get(UpdateEma(r, EMA_ALPHA, previous, epoch.scores, epoch.infraOnly), h);
      if h in epoch.infraOnly || before <= 1 then after == before else 1 <= after < before
  {
    UpdateEmaIsOneStep(r, EMA_ALPHA, previous, epoch, h);
    if h !in epoch.infraOnly {
      DecayStep(Get(previous, h), Get(UpdateEma(r, EMA_ALPHA, previous, epoch.scores, epoch.infraOnly), h));
    }
  }

  /**
   A miner with a positive average that only idles keeps a positive average. It never rises, and each
   measured epoch costs it at least one micro-unit until one is left.
   */
  lemma {:induction false} IdleAverageStaysPositive(r: Rounder, start: Ema, epochs: seq<EpochScores>, h: Hotkey)
    requires r.Valid() && Get(start, h) >= 1
    requires forall i :: 0 <= i < |epochs| ==> Idle(epochs[i], h)
    ensures 1 <= Get(Averages(r, EMA_ALPHA, start, epochs), h) <= Get(start, h)
    ensures || Get(Averages(r, EMA_ALPHA, start, epochs), h) == 1
            || Get(Averages(r, EMA_ALPHA, start, epochs), h) <= Get(start, h) - MeasuredEpochs(epochs, h)
  {
    if epochs != [] {
      var front, last := epochs[..|epochs| - 1], epochs[|epochs| - 1];
      IdleAverageStaysPositive(r, start, front, h);
      IdleStep(r, Averages(r, EMA_ALPHA, start, front), last, h);
    }
  }

  /** Once it was measured often enough its average is exactly one micro-unit. */
  lemma IdleAverageSettlesAtOne(r: Rounder, start: Ema, epochs: seq<EpochScores>, h: Hotkey)
    requires r.Valid() && Get(start, h) >= 1
    requires forall i :: 0 <= i < |epochs| ==> Idle(epochs[i], h)
    requires MeasuredEpochs(epochs, h) >= Get(start, h)
    ensures Get(Averages(r, EMA_ALPHA, start, epochs), h) == 1
  {
    IdleAverageStaysPositive(r, start, epochs, h);
  }

  /******* Weights *******/

  function Raw(ema: Ema, h: Hotkey): (r: real)
    ensures r >= 0.0
  {
    Clip(Get(ema, h) as real)
  }

  /** Dictionary keys keep the first occurrence of each active hotkey. */
  function Dedup(hs: seq<Hotkey>): (r: seq<Hotkey>)
    ensures forall h :: h in r <==> h in hs
    ensures forall i, j :: 0 <= i < j < |r| ==> r[i] != r[j]
  {
    if hs == [] then []
    else
      var front := Dedup(hs[..|hs| - 1]);
      var last := hs[|hs| - 1];
      assert hs == hs[..|hs| - 1] + [last];
      if last in front then front else front + [last]
  }

  /** Scores summed in the order the dictionary lists them. */
  function Total(ema: Ema, keys: seq<Hotkey>): (t: real)
    ensures t >= 0.0
  {
    if keys == [] then 0.0 else Raw(ema, keys[0]) + Total(ema, keys[1..])
  }

  function NormalizeActive(ema: Ema, active: seq<Hotkey>): (weights: map<Hotkey, real>)
    ensures forall h :: h in weights <==> h in active
  {
    var total := Total(ema, Dedup(active));
    map h | h in active :: if total <= 0.0 then 0.0 else Raw(ema, h) / total
  }

  lemma {:induction false} TotalRemove(ema: Ema, keys: seq<Hotkey>, i: nat)
    requires i < |keys|
    ensures Total(ema, keys) == Raw(ema, keys[i]) + Total(ema, keys[..i] + keys[i + 1..])
  {
    if i == 0 {
      assert keys[..0] + keys[1..] == keys[1..];
    } else {
      TotalRemove(ema, keys[1..], i - 1);
      assert keys[1..][..i - 1] + keys[1..][i..] == (keys[..i] + keys[i + 1..])[1..];
    }
  }

  /** Two duplicate-free listings of the same keys have the same total. */
  lemma {:induction false} TotalIsOrderFree(ema: Ema, a: seq<Hotkey>, b: seq<Hotkey>)
    requires forall h :: h in a <==> h in b
    requires forall i, j :: 0 <= i < j < |a| ==> a[i] != a[j]
    requires forall i, j :: 0 <= i < j < |b| ==> b[i] != b[j]
    ensures Total(ema, a) == Total(ema, b)
    decreases |a|
  {
    if a == [] {
      assert forall i :: 0 <= i < |b| ==> b[i] in b;
    } else {
      assert a[0] in a;
      var i :| 0 <= i < |b| && b[i] == a[0];
      var rest := b[..i] + b[i + 1..];
      forall h ensures h in a[1..] <==> h in rest {
        if h in a[1..] { assert h in b && h != a[0]; }
        if h in rest { assert h in b && h != b[i]; assert h in a; }
      }
      TotalRemove(ema, b, i);
      TotalIsOrderFree(ema, a[1..], rest);
    }
  }

  /** Weights depend on which hotkeys are active, not on their order or repetition. */
  lemma WeightsAreOrderFree(ema: Ema, a: seq<Hotkey>, b: seq<Hotkey>)
    requires forall h :: h in a <==> h in b
    ensures NormalizeActive(ema, a) == NormalizeActive(ema, b)
  {
    TotalIsOrderFree(ema, Dedup(a), Dedup(b));
  }

  function WeightSum(weights: map<Hotkey, real>, keys: seq<Hotkey>): real
    requires forall h :: h in keys ==> h in weights
  {
    if keys == [] then 0.0 else weights[keys[0]] + WeightSum(weights, keys[1..])
  }

  lemma {:induction false} WeightSumScales(ema: Ema, weights: map<Hotkey, real>, total: real, keys: seq<Hotkey>)
    requires total > 0.0 && forall h :: h in keys ==> h in weights && weights[h] == Raw(ema, h) / total
    ensures WeightSum(weights, keys) == Total(ema, keys) / total
  {
    if keys != [] {
      assert keys[0] in keys;
      WeightSumScales(ema, weights, total, keys[1..]);
      AddQuotients(Raw(ema, keys[0]), Total(ema, keys[1..]), total);
    }
  }

  lemma AddQuotients(x: real, y: real, z: real)
    requires z > 0.0
    ensures x / z + y / z == (x + y) / z
  {
  }

  /** Some active miner has a positive average. */
  ghost predicate AnyPositive(ema: Ema, active: seq<Hotkey>) {
    exists h :: h in active && Get(ema, h) > 0
  }

  /** The weights sum to one, or are all zero when no active miner has a positive average. */
  lemma WeightsSumToOne(ema: Ema, active: seq<Hotkey>)
    ensures var weights := NormalizeActive(ema, active);
      if AnyPositive(ema, active)
      then WeightSum(weights, Dedup(active)) == 1.0
           && forall h :: h in active ==> (weights[h] > 0.0 <==> Get(ema, h) > 0)
      else forall h :: h in weights ==> weights[h] == 0.0
  {
    var keys := Dedup(active);
    var total := Total(ema, keys);
    if AnyPositive(ema, active) {
      var h :| h in active && Get(ema, h) > 0;
      TotalDominates(ema, keys, h);
      assert total > 0.0;
      WeightSumScales(ema, NormalizeActive(ema, active), total, keys);
      SelfQuotient(total);
      forall g | g in active
        ensures NormalizeActive(ema, active)[g] > 0.0 <==> Get(ema, g) > 0
      {
        PositiveQuotient(Raw(ema, g), total);
      }
    } else {
      TotalOfZeros(ema, keys);
    }
  }

  function PositivePart(n: int): int {
    if n > 0 then n else 0
  }

  function Times(x: real, y: real): real {
    x * y
  }

  lemma CrossProducts(a: real, b: real, total: real)
    requires total > 0.0
    ensures Times(a / total, b) == Times(b / total, a)
  {
    var x, y := a / total, b / total;
    assert a == x * total && b == y * total;
    assert x * (y * total) == y * (x * total);
  }

  /** Weights are in proportion to the positive averages: with `WeightsSumToOne` that is what they are. */
  lemma WeightsAreProportional(ema: Ema, active: seq<Hotkey>, g: Hotkey, h: Hotkey)
    requires g in active && h in active
    ensures Times(NormalizeActive(ema, active)[g], PositivePart(Get(ema, h)) as real)
         == Times(NormalizeActive(ema, active)[h], PositivePart(Get(ema, g)) as real)
  {
    var total := Total(ema, Dedup(active));
    if total > 0.0 {
      CrossProducts(PositivePart(Get(ema, g)) as real, PositivePart(Get(ema, h)) as real, total);
    } else {
      assert Times(0.0, PositivePart(Get(ema, h)) as real) == Times(0.0, PositivePart(Get(ema, g)) as real);
    }
  }

  lemma SelfQuotient(x: real)
    requires x > 0.0
    ensures x / x == 1.0
  {
  }

  lemma PositiveQuotient(x: real, y: real)
    requires y > 0.0
    ensures x / y > 0.0 <==> x > 0.0
  {
  }

  lemma {:induction false} TotalDominates(ema: Ema, keys: seq<Hotkey>, h: Hotkey)
    requires h in keys
    ensures Total(ema, keys) >= Raw(ema, h)
  {
    if h != keys[0] { TotalDominates(ema, keys[1..], h); }
  }

  lemma {:induction false} TotalOfZeros(ema: Ema, keys: seq<Hotkey>)
    requires forall h :: h in keys ==> Raw(ema, h) == 0.0
    ensures Total(ema, keys) == 0.0
  {
    if keys != [] {
      assert keys[0] in keys;
      TotalOfZeros(ema, keys[1..]);
    }
  }

  /** A miner once above zero keeps a positive weight while active, however long it idles. */
  lemma IdleMinerKeepsPositiveWeight(r: Rounder, start: Ema, epochs: seq<EpochScores>, active: seq<Hotkey>, h: Hotkey)
    requires r.Valid() && Get(start, h) >= 1 && h in active
    requires forall i :: 0 <= i < |epochs| ==> Idle(epochs[i], h)
    ensures NormalizeActive(Averages(r, EMA_ALPHA, start, epochs), active)[h] > 0.0
  {
    IdleAverageStaysPositive(r, start, epochs, h);
    WeightsSumToOne(Averages(r, EMA_ALPHA, start, epochs), active);
  }
}
