/** Level budgets, and the choice of the level most in need of a compaction. */
module Planner {
  import opened Bounds
  import opened Versions
  import opened Files

  /** `trigger` counts level 0 files, `target` is the size files are cut at. */
  datatype Config = Config(trigger: nat, target: nat, fanout: nat)

  function Saturated(n: nat): (r: nat)
    ensures r <= U64_MAX && r <= n && (n <= U64_MAX ==> r == n)
  {
    if n <= U64_MAX then n else U64_MAX
  }

  function Pow(base: nat, exponent: nat): nat {
    if exponent == 0 then 1 else base * Pow(base, exponent - 1)
  }

  /** Byte budget of level 1. */
  function LevelBytes(c: Config): nat {
    Saturated(c.target * c.fanout)
  }

  /** Byte budget of a deeper level: `fanout` times bigger at every step, as far as 64 bits go. */
  function Budget(level: nat, c: Config): nat
    requires level > 0
  {
    var steps := (if level <= U32_MAX then level else U32_MAX) - 1;
    Saturated(LevelBytes(c) * Saturated(Pow(c.fanout, steps)))
  }

  /** How far past its limit a level is. */
  datatype Score = Finite(r: real) | Infinite

  function Ratio(value: nat, limit: nat): Score {
    if limit == 0 then Infinite else Finite(value as real / limit as real)
  }

  predicate Above(a: Score, b: Score) {
    b.Finite? && (a.Infinite? || a.r > b.r)
  }

  function ScoreOf(files: seq<File>, level: nat, c: Config): Score {
    if level == 0 then Ratio(|AtLevel(files, 0)|, c.trigger) else Ratio(BytesAt(files, level), Budget(level, c))
  }

  /** Level 0 is due by its number of files, unless its trigger is off; a deeper level once it is past its budget. */
  predicate Due(files: seq<File>, level: nat, c: Config) {
    if level == 0 then c.trigger > 0 && |AtLevel(files, 0)| >= c.trigger
    else Budget(level, c) == 0 || BytesAt(files, level) > Budget(level, c)
  }

  lemma DueByScore(files: seq<File>, level: nat, c: Config)
    ensures level > 0 ==> (Due(files, level, c) <==> Above(ScoreOf(files, level, c), Finite(1.0)))
    ensures level == 0 && Due(files, level, c) ==> !Above(Finite(1.0), ScoreOf(files, level, c))
  {
    if level > 0 && Budget(level, c) > 0 {
      AboveOne(BytesAt(files, level), Budget(level, c));
    } else if level == 0 && c.trigger > 0 {
      AboveOne(|AtLevel(files, 0)|, c.trigger);
    }
  }

  lemma Quotient(value: real, limit: real)
    requires limit > 0.0
    ensures (value / limit) * limit == value
  {
  }

  lemma Scales(a: real, b: real, n: real)
    requires n > 0.0
    ensures a > b <==> a * n > b * n
  {
    var d := a - b;
    assert a * n == b * n + d * n;
    if d > 0.0 {
      assert d * n > 0.0;
    } else {
      assert (-d) * n >= 0.0;
    }
  }

  lemma AboveOne(value: nat, limit: nat)
    requires limit > 0
    ensures value as real / limit as real > 1.0 <==> value > limit
    ensures value as real / limit as real >= 1.0 <==> value >= limit
  {
    var v, n := value as real, limit as real;
    Quotient(v, n);
    Scales(v / n, 1.0, n);
    Scales(1.0, v / n, n);
  }

  /** The level furthest past its limit, if any is past it. */
  method Plan(files: seq<File>, c: Config) returns (chosen: Option<nat>)
    ensures chosen.None? ==> forall level | 0 <= level <= DeepestLevel(files) :: !Due(files, level, c)
    ensures chosen.Some? ==> chosen.value <= DeepestLevel(files) && Due(files, chosen.value, c)
    ensures chosen.Some? ==> forall level | 0 <= level <= DeepestLevel(files) && Due(files, level, c) ::
                               !Above(ScoreOf(files, level, c), ScoreOf(files, chosen.value, c))
  {
    hide Ratio, Budget, BytesAt;
    chosen := None;
    var best := Finite(1.0);
    var front := |AtLevel(files, 0)|;
    DueByScore(files, 0, c);
    if front >= c.trigger && c.trigger > 0 {
      best := Ratio(front, c.trigger);
      chosen := Some(0);
    }
    for level := 1 to DeepestLevel(files) + 1
      invariant chosen.Some? ==>
                  chosen.value < level && Due(files, chosen.value, c) && best == ScoreOf(files, chosen.value, c)
      invariant chosen.None? ==> best == Finite(1.0)
      invariant forall l | 0 <= l < level && Due(files, l, c) :: chosen.Some? && !Above(ScoreOf(files, l, c), best)
      invariant !Above(Finite(1.0), best)
    {
      DueByScore(files, level, c);
      var score := Ratio(BytesAt(files, level), Budget(level, c));
      if Above(score, best) {
        best := score;
        chosen := Some(level);
      }
    }
  }

  // ---- Budgets outgrow every size ----

  /** Levels past this one have the largest budget there is. */
  const DEEPEST: nat := 66

  lemma {:induction false} PowGrows(base: nat, e: nat)
    requires base >= 2
    ensures Pow(base, e) >= Pow(2, e) >= 1
  {
    if e > 0 {
      PowGrows(base, e - 1);
      var small, big := Pow(2, e - 1), Pow(base, e - 1);
      assert base * big >= 2 * big;
    }
  }

  lemma {:induction false} PowAscends(e: nat, more: nat)
    requires e <= more
    ensures Pow(2, e) <= Pow(2, more)
    decreases more
  {
    if e < more {
      PowAscends(e, more - 1);
    }
  }

  lemma {:induction false} PowAdds(a: nat, b: nat)
    ensures Pow(2, a + b) == Pow(2, a) * Pow(2, b)
    decreases a
  {
    if a > 0 {
      PowAdds(a - 1, b);
    }
  }

  lemma SixtyFour()
    ensures Pow(2, 64) > U64_MAX
  {
    assert Pow(2, 8) == 256 && Pow(2, 16) == 65536;
    PowAdds(16, 16);
    PowAdds(32, 32);
  }

  lemma BudgetIsFull(level: nat, c: Config)
    requires c.target >= 1 && c.fanout >= 2 && level >= DEEPEST
    ensures Budget(level, c) == U64_MAX
  {
    hide Pow;
    var steps := (if level <= U32_MAX then level else U32_MAX) - 1;
    SixtyFour();
    PowAscends(64, steps);
    PowGrows(c.fanout, steps);
    assert c.target * c.fanout >= 1;
    assert LevelBytes(c) >= 1;
    AtLeast(LevelBytes(c), U64_MAX);
  }

  lemma AtLeast(a: nat, b: nat)
    requires a >= 1
    ensures a * b >= b
  {
  }

  /** No budget is empty, so a level due has files. */
  lemma BudgetIsPositive(level: nat, c: Config)
    requires c.target >= 1 && c.fanout >= 2 && level > 0
    ensures Budget(level, c) >= 1
  {
    hide Pow;
    var steps := (if level <= U32_MAX then level else U32_MAX) - 1;
    PowGrows(c.fanout, steps);
    assert c.target * c.fanout >= 1;
    AtLeast(LevelBytes(c), Saturated(Pow(c.fanout, steps)));
  }
}
