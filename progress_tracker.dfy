/**
 * The statistics and achievements panel (frontend/src/components/ProgressTracker.js):
 * integer folds over the spell history and the threshold-gated achievement list.
 */
module ProgressTracker {

  import opened Wrappers

  /** The two fields of a history entry that the panel reads. */
  datatype SpellEntry = SpellEntry(effectiveness: int, damage: int)

  /** `reduce((sum, s) => sum + s.effectiveness, 0)`. */
  function EffectivenessSum(h: seq<SpellEntry>): int {
    if |h| == 0 then 0 else EffectivenessSum(h[..|h| - 1]) + h[|h| - 1].effectiveness
  }

  /** `totalDamageDealt`: `reduce((sum, s) => sum + s.damage, 0)`. */
  function TotalDamage(h: seq<SpellEntry>): (t: int)
    ensures (forall i :: 0 <= i < |h| ==> h[i].damage >= 0) ==> t >= 0
  {
    if |h| == 0 then 0 else TotalDamage(h[..|h| - 1]) + h[|h| - 1].damage
  }

  /** The totals of a history split in two are the sums of the totals of the parts. */
  lemma {:induction false} SumsDistribute(a: seq<SpellEntry>, b: seq<SpellEntry>)
    ensures TotalDamage(a + b) == TotalDamage(a) + TotalDamage(b)
    ensures EffectivenessSum(a + b) == EffectivenessSum(a) + EffectivenessSum(b)
  {
    if |b| == 0 {
      assert a + b == a;
    } else {
      assert (a + b)[..|a + b| - 1] == a + b[..|b| - 1];
      SumsDistribute(a, b[..|b| - 1]);
    }
  }

  /** When every effectiveness lies in [lo, hi], the sum lies in [n*lo, n*hi]. */
  lemma {:induction false} EffectivenessSumBounds(h: seq<SpellEntry>, lo: int, hi: int)
    requires forall i :: 0 <= i < |h| ==> lo <= h[i].effectiveness <= hi
    ensures |h| * lo <= EffectivenessSum(h) <= |h| * hi
  {
    if |h| > 0 {
      EffectivenessSumBounds(h[..|h| - 1], lo, hi);
    }
  }

  /** `Math.round`: the integer nearest to `x`, halves rounded up. */
  function JsRound(x: real): (r: int)
    ensures r as real - 0.5 <= x < r as real + 0.5
  {
    (x + 0.5).Floor
  }

  /** `averageEffectiveness`: 0 for an empty history, otherwise the mean rounded
      to the nearest integer. */
  function AverageEffectiveness(h: seq<SpellEntry>): (a: int)
    ensures |h| == 0 ==> a == 0
    ensures |h| > 0 ==>
      a as real - 0.5 <= EffectivenessSum(h) as real / |h| as real < a as real + 0.5
  {
    if |h| > 0 then JsRound(EffectivenessSum(h) as real / |h| as real) else 0
  }

  /** The rounded mean in integer arithmetic: `floor((2*sum + n) / (2*n))`. */
  lemma AverageInIntegers(h: seq<SpellEntry>)
    requires |h| > 0
    ensures AverageEffectiveness(h) == (2 * EffectivenessSum(h) + |h|) / (2 * |h|)
  {
    var s, n := EffectivenessSum(h), |h|;
    var q, m := (2 * s + n) / (2 * n), (2 * s + n) % (2 * n);
    assert 2 * s + n == q * (2 * n) + m && 0 <= m < 2 * n;
    var x := s as real / n as real;
    assert x * n as real == s as real;
    assert (2 * s + n) as real == (q * (2 * n)) as real + m as real;
    assert q as real <= x + 0.5 < q as real + 1.0 by {
      assert (x + 0.5) * (2 * n) as real == (2 * s + n) as real;
      RealBetween(x + 0.5, (2 * n) as real, q, m as real);
    }
  }

  lemma RealBetween(y: real, k: real, q: int, m: real)
    requires k > 0.0 && 0.0 <= m < k && y * k == q as real * k + m
    ensures q as real <= y < q as real + 1.0
  {
    var d := y - q as real;
    assert d * k == m;
    if d < 0.0 { NonNegativeProduct(-d, k); assert false; }
    if d >= 1.0 { NonNegativeProduct(d - 1.0, k); assert false; }
  }

  lemma NonNegativeProduct(a: real, b: real)
    requires a >= 0.0 && b >= 0.0
    ensures a * b >= 0.0
  {
  }

  lemma PositiveProduct(a: real, b: real)
    requires a > 0.0 && b > 0.0
    ensures a * b > 0.0
  {
  }

  /** The judge scores effectiveness 1 to 10, so the displayed average stays in that range. */
  lemma AverageWithinScale(h: seq<SpellEntry>)
    requires |h| > 0
    requires forall i :: 0 <= i < |h| ==> 1 <= h[i].effectiveness <= 10
    ensures 1 <= AverageEffectiveness(h) <= 10
  {
    EffectivenessSumBounds(h, 1, 10);
    var s, n := EffectivenessSum(h), |h|;
    assert (n * 10) as real == 10.0 * n as real;
    MeanWithin(s as real, n as real, 1.0, 10.0);
  }

  /** A total between `lo*n` and `hi*n` has its mean between `lo` and `hi`. */
  lemma MeanWithin(s: real, n: real, lo: real, hi: real)
    requires n > 0.0 && lo * n <= s <= hi * n
    ensures lo <= s / n <= hi
  {
    var x := s / n;
    assert x * n == s;
    if x < lo {
      PositiveProduct(lo - x, n);
      Distribute(lo, x, n);
      assert false;
    }
    if x > hi {
      PositiveProduct(x - hi, n);
      Distribute(x, hi, n);
      assert false;
    }
  }

  lemma Distribute(a: real, b: real, c: real)
    ensures (a - b) * c == a * c - b * c
  {
  }

  function Max(a: int, b: int): int {
    if a >= b then a else b
  }

  /** `highestDamage`: `reduce((max, s) => Math.max(max, s.damage), 0)`. It is at
      least 0 and every entry's damage, and it is one of the damages unless it is 0. */
  function HighestDamage(h: seq<SpellEntry>): (m: int)
    ensures m >= 0
    ensures forall i :: 0 <= i < |h| ==> h[i].damage <= m
    ensures m == 0 || exists i :: 0 <= i < |h| && h[i].damage == m
  {
    if |h| == 0 then 0
    else
      var p := HighestDamage(h[..|h| - 1]);
      assert forall i :: 0 <= i < |h| - 1 ==> h[..|h| - 1][i] == h[i];
      Max(p, h[|h| - 1].damage)
  }

  /** With no negative damage, the highest single hit is at most the total. */
  lemma {:induction false} HighestAtMostTotal(h: seq<SpellEntry>)
    requires forall i :: 0 <= i < |h| ==> h[i].damage >= 0
    ensures 0 <= HighestDamage(h) <= TotalDamage(h)
  {
    if |h| > 0 {
      var p := h[..|h| - 1];
      assert forall i :: 0 <= i < |p| ==> p[i] == h[i];
      HighestAtMostTotal(p);
    }
  }

  /** The badges, in the order the panel pushes them. */
  datatype Achievement = FirstVictory | HalfWay | MasterWizard | SpellCaster | EffectiveWizard | HeavyHitter

  function Rank(a: Achievement): nat {
    match a
    case FirstVictory => 0
    case HalfWay => 1
    case MasterWizard => 2
    case SpellCaster => 3
    case EffectiveWizard => 4
    case HeavyHitter => 5
  }

  /** The figures the badges are judged on: the tracker's props and the three
      statistics it derives from the history. */
  datatype Stats = Stats(defeatedCount: nat, totalCreatures: int, totalSpells: nat,
                         averageEffectiveness: int, highestDamage: int)

  function StatsOf(defeatedCount: nat, totalCreatures: int, h: seq<SpellEntry>): Stats {
    Stats(defeatedCount, totalCreatures, |h|, AverageEffectiveness(h), HighestDamage(h))
  }

  /** The threshold of each badge. `totalCreatures / 2` is a JavaScript number
      division, so it is a real here. */
  predicate Earns(a: Achievement, st: Stats) {
    match a
    case FirstVictory => st.defeatedCount >= 1
    case HalfWay => st.defeatedCount as real >= st.totalCreatures as real / 2.0
    case MasterWizard => st.defeatedCount >= st.totalCreatures
    case SpellCaster => st.totalSpells >= 10
    case EffectiveWizard => st.averageEffectiveness >= 7
    case HeavyHitter => st.highestDamage >= 30
  }

  /** `earned` lists, in rank order, exactly the earned badges of rank below `k`. */
  ghost predicate EarnedBelow(earned: seq<Achievement>, k: nat, st: Stats) {
    && (forall a :: a in earned <==> Rank(a) < k && Earns(a, st))
    && (forall i, j :: 0 <= i < j < |earned| ==> Rank(earned[i]) < Rank(earned[j]))
  }

  /** Pushing an earned badge of the next rank keeps the list exact and ordered. */
  lemma Pushed(earned: seq<Achievement>, a: Achievement, st: Stats)
    requires EarnedBelow(earned, Rank(a), st) && Earns(a, st)
    ensures EarnedBelow(earned + [a], Rank(a) + 1, st)
  {
    var next := earned + [a];
    forall b ensures b in next <==> Rank(b) < Rank(a) + 1 && Earns(b, st) {
      if Rank(b) == Rank(a) { RankInjective(a, b); }
    }
    forall i, j | 0 <= i < j < |next| ensures Rank(next[i]) < Rank(next[j]) {
      if j == |earned| { assert earned[i] in earned; }
    }
  }

  /** Skipping an unearned badge of the next rank keeps the list exact one rank further. */
  lemma Skipped(earned: seq<Achievement>, a: Achievement, st: Stats)
    requires EarnedBelow(earned, Rank(a), st) && !Earns(a, st)
    ensures EarnedBelow(earned, Rank(a) + 1, st)
  {
    forall b ensures b in earned <==> Rank(b) < Rank(a) + 1 && Earns(b, st) {
      if Rank(b) == Rank(a) { RankInjective(a, b); }
    }
  }

  lemma RankInjective(a: Achievement, b: Achievement)
    requires Rank(a) == Rank(b)
    ensures a == b
  {
  }

  /** The badge the tracker considers `k`-th. */
  function BadgeOfRank(k: nat): (a: Achievement)
    requires k < 6
    ensures Rank(a) == k
  {
    [FirstVictory, HalfWay, MasterWizard, SpellCaster, EffectiveWizard, HeavyHitter][k]
  }

  /** The list after the first `k` conditional pushes. */
  function FirstPushes(st: Stats, k: nat): seq<Achievement>
    requires k <= 6
  {
    if k == 0 then []
    else
      var a := BadgeOfRank(k - 1);
      FirstPushes(st, k - 1) + if Earns(a, st) then [a] else []
  }

  /** After `k` pushes the list holds exactly the earned badges of rank below `k`, in order. */
  lemma {:induction false} FirstPushesExact(st: Stats, k: nat)
    requires k <= 6
    ensures EarnedBelow(FirstPushes(st, k), k, st)
  {
    if k > 0 {
      FirstPushesExact(st, k - 1);
      var a := BadgeOfRank(k - 1);
      if Earns(a, st) {
        Pushed(FirstPushes(st, k - 1), a, st);
      } else {
        Skipped(FirstPushes(st, k - 1), a, st);
      }
    }
  }

  /** After all six pushes the list holds exactly the earned badges, in order. */
  lemma AllPushesExact(st: Stats, earned: seq<Achievement>)
    requires earned == FirstPushes(st, 6)
    ensures forall a :: a in earned <==> Earns(a, st)
    ensures forall i, j :: 0 <= i < j < |earned| ==> Rank(earned[i]) < Rank(earned[j])
  {
    FirstPushesExact(st, 6);
  }

  /** The `achievements` array: exactly the earned badges, each once, in the fixed order. */
  method Achievements(defeatedCount: nat, totalCreatures: int, h: seq<SpellEntry>)
    returns (earned: seq<Achievement>)
    ensures forall a :: a in earned <==> Earns(a, StatsOf(defeatedCount, totalCreatures, h))
    ensures forall i, j :: 0 <= i < j < |earned| ==> Rank(earned[i]) < Rank(earned[j])
  {
    var totalSpells := |h|;
    var averageEffectiveness := AverageEffectiveness(h);
    var highestDamage := HighestDamage(h);
    ghost var st := Stats(defeatedCount, totalCreatures, totalSpells, averageEffectiveness, highestDamage);
    earned := [];
    if defeatedCount >= 1 {
      earned := earned + [FirstVictory];
    }
    assert earned == FirstPushes(st, 1);
    if defeatedCount as real >= totalCreatures as real / 2.0 {
      earned := earned + [HalfWay];
    }
    assert earned == FirstPushes(st, 2);
    if defeatedCount >= totalCreatures {
      earned := earned + [MasterWizard];
    }
    assert earned == FirstPushes(st, 3);
    if totalSpells >= 10 {
      earned := earned + [SpellCaster];
    }
    assert earned == FirstPushes(st, 4);
    if averageEffectiveness >= 7 {
      earned := earned + [EffectiveWizard];
    }
    assert earned == FirstPushes(st, 5);
    if highestDamage >= 30 {
      earned := earned + [HeavyHitter];
    }
    assert earned == FirstPushes(st, 6);
    AllPushesExact(st, earned);
  }

  /** Half Way is `2 * defeated >= totalCreatures` in integers. */
  lemma HalfWayInIntegers(st: Stats)
    ensures Earns(HalfWay, st) <==> 2 * st.defeatedCount >= st.totalCreatures
  {
  }

  /** Defeating every creature also earns Half Way. */
  lemma MasterImpliesHalfWay(st: Stats)
    requires st.totalCreatures >= 0
    ensures Earns(MasterWizard, st) ==> Earns(HalfWay, st)
  {
  }

  /** The next-milestone panel: how many creatures remain, and whether the word
      "creature" takes a plural `s`. */
  datatype Milestone = Milestone(remaining: int, plural: bool)

  function NextMilestone(defeatedCount: nat, totalCreatures: int): (m: Option<Milestone>)
    ensures m.Some? <==> defeatedCount < totalCreatures
    ensures m.Some? ==> m.value.remaining > 0 && defeatedCount + m.value.remaining == totalCreatures
    ensures m.Some? ==> (m.value.plural <==> m.value.remaining > 1)
  {
    if defeatedCount < totalCreatures then
      var remaining := totalCreatures - defeatedCount;
      Some(Milestone(remaining, remaining != 1))
    else None
  }

  /** The milestone panel is shown exactly until Master Wizard is earned. */
  lemma MilestoneUntilMaster(st: Stats)
    ensures NextMilestone(st.defeatedCount, st.totalCreatures).None? <==> Earns(MasterWizard, st)
  {
  }
}
