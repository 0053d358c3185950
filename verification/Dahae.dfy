/**
 The score of an integration piece: structural components, a laziness penalty and the effective
 score, over the reals with rounding of halves to the even neighbour.

 Logarithms and square root are parameters with the laws the bounds need; so is what the name
 heuristics find in an action's name.
 */
module Dahae {
  import opened Wrappers

  /** An action with what its name and schema show. */
  datatype Action = Action(tokens: seq<string>, verb: Option<string>, compound: bool, required: nat, typed: bool)

  datatype Math = Math(log2: real -> real, log10: real -> real, sqrt: real -> real)

  ghost predicate Lawful(m: Math) {
    && (forall x: real :: 0.0 < x <= 1.0 ==> m.log2(x) <= 0.0)
    && (forall x: real :: x >= 1.0 ==> m.log10(x) >= 0.0)
    && (forall x: real :: x >= 0.0 ==> m.sqrt(x) >= 0.0)
  }

  datatype Score = Score(dahae: int, laziness: int, effective: int)

  function Capped(x: real): real { if x < 1.0 then x else 1.0 }

  // ------------------------------------------------------------------
  // Rounding
  // ------------------------------------------------------------------

  function Round(x: real): int {
    var f := x.Floor;
    var d := x - f as real;
    if d < 0.5 then f else if d > 0.5 then f + 1 else if f % 2 == 0 then f else f + 1
  }

  /** The nearest integer; of two equally near ones, the even one. */
  lemma RoundIsNearest(x: real, r: int)
    ensures r == Round(x) <==>
            && r as real - 0.5 <= x <= r as real + 0.5
            && (x == r as real + 0.5 || x == r as real - 0.5 ==> r % 2 == 0)
  {
    assert x.Floor as real <= x < x.Floor as real + 1.0;
  }

  lemma RoundMonotone(x: real, y: real)
    requires x <= y
    ensures Round(x) <= Round(y)
  {
    RoundIsNearest(x, Round(x));
    RoundIsNearest(y, Round(y));
  }

  lemma RoundInteger(n: int)
    ensures Round(n as real) == n
  {
    RoundIsNearest(n as real, n);
  }

  // ------------------------------------------------------------------
  // Components
  // ------------------------------------------------------------------

  function Verbs(actions: seq<Action>): set<string> {
    set a | a in actions && a.verb.Some? :: a.verb.value
  }

  function Breadth(actions: seq<Action>): real {
    if actions == [] then 0.0 else Capped(|Verbs(actions)| as real / 8.0)
  }

  function TotalRequired(actions: seq<Action>): nat {
    if actions == [] then 0 else actions[0].required + TotalRequired(actions[1..])
  }

  function MeanRequired(actions: seq<Action>): real
    requires actions != []
  {
    TotalRequired(actions) as real / |actions| as real
  }

  function Richness(actions: seq<Action>): real {
    if actions == [] then 0.0 else Capped(MeanRequired(actions) / 6.0)
  }

  function CountCompound(actions: seq<Action>): nat {
    if actions == [] then 0 else (if actions[0].compound then 1 else 0) + CountCompound(actions[1..])
  }

  function Compression(actions: seq<Action>): real {
    if actions == [] then 0.0 else CountCompound(actions) as real / |actions| as real
  }

  function Symmetry(hasActions: bool, hasTriggers: bool): real {
    if hasActions && hasTriggers then 1.0 else if hasActions || hasTriggers then 0.5 else 0.0
  }

  function Adoption(m: Math, usage: int): real {
    if usage <= 0 then 0.0 else Capped(m.log10(1.0 + usage as real) / 4.0)
  }

  function CountUntyped(actions: seq<Action>): nat {
    if actions == [] then 0 else (if actions[0].typed then 0 else 1) + CountUntyped(actions[1..])
  }

  function EmptyRatio(actions: seq<Action>): real {
    if actions == [] then 0.0 else CountUntyped(actions) as real / |actions| as real
  }

  function AllTokens(actions: seq<Action>): seq<string> {
    if actions == [] then [] else actions[0].tokens + AllTokens(actions[1..])
  }

  function Occurrences(tokens: seq<string>, t: string): nat { multiset(tokens)[t] }

  /** Each token once, in the order of its last occurrence. */
  function Distinct(tokens: seq<string>): seq<string> {
    if tokens == [] then []
    else if tokens[0] in tokens[1..] then Distinct(tokens[1..])
    else [tokens[0]] + Distinct(tokens[1..])
  }

  function PlogP(m: Math, tokens: seq<string>, t: string): real
    requires tokens != []
  {
    var p := Occurrences(tokens, t) as real / |tokens| as real;
    p * m.log2(p)
  }

  function SumPlogP(m: Math, tokens: seq<string>, ts: seq<string>): real
    requires tokens != []
  {
    if ts == [] then 0.0 else PlogP(m, tokens, ts[0]) + SumPlogP(m, tokens, ts[1..])
  }

  function Entropy(m: Math, actions: seq<Action>): real {
    var tokens := AllTokens(actions);
    if tokens == [] then 0.0 else -SumPlogP(m, tokens, Distinct(tokens))
  }

  function SumSquares(actions: seq<Action>, mean: real): real {
    if actions == [] then 0.0
    else (actions[0].required as real - mean) * (actions[0].required as real - mean) + SumSquares(actions[1..], mean)
  }

  /** Coefficient of variation, capped at one. */
  function Variation(m: Math, actions: seq<Action>): real {
    if |actions| < 2 then 0.0
    else
      var mean := MeanRequired(actions);
      if mean == 0.0 then 0.0
      else Capped(m.sqrt(SumSquares(actions, mean) / |actions| as real) / mean)
  }

  // ------------------------------------------------------------------
  // Scores
  // ------------------------------------------------------------------

  function DahaeRaw(m: Math, actions: seq<Action>, hasTriggers: bool, usage: int): real {
    0.30 * Breadth(actions) + 0.25 * Richness(actions) + 0.20 * Compression(actions)
    + 0.15 * Symmetry(actions != [], hasTriggers) + 0.10 * Adoption(m, usage)
  }

  function LazinessRaw(m: Math, actions: seq<Action>): real {
    0.40 * EmptyRatio(actions) + 0.35 * (1.0 - Capped(Entropy(m, actions) / 5.0))
    + 0.25 * (1.0 - Variation(m, actions))
  }

  /** The share of the score that the laziness penalty leaves. */
  function Keep(laziness: int): real { 1.0 - laziness as real / 100.0 }

  function Times(a: real, b: real): real { a * b }

  function Effective(dahae: int, laziness: int): int {
    Round(Times(dahae as real, Keep(laziness)))
  }

  function ComputeAll(m: Math, actions: seq<Action>, hasTriggers: bool, usage: int): Score {
    var dahae := Round(DahaeRaw(m, actions, hasTriggers, usage) * 100.0);
    var laziness := if actions == [] then 50 else Round(LazinessRaw(m, actions) * 100.0);
    Score(dahae, laziness, Effective(dahae, laziness))
  }

  // ------------------------------------------------------------------
  // Bounds
  // ------------------------------------------------------------------

  predicate Unit(x: real) { 0.0 <= x <= 1.0 }

  lemma RatioUnit(n: nat, d: nat)
    requires n <= d && d > 0
    ensures Unit(n as real / d as real)
  {
  }

  lemma {:induction false} CountsAtMost(actions: seq<Action>)
    ensures CountCompound(actions) <= |actions| && CountUntyped(actions) <= |actions|
  {
    if actions != [] { CountsAtMost(actions[1..]); }
  }

  lemma {:induction false} SumSquaresNonNegative(actions: seq<Action>, mean: real)
    ensures SumSquares(actions, mean) >= 0.0
  {
    if actions != [] {
      SumSquaresNonNegative(actions[1..], mean);
      SquareNonNegative(actions[0].required as real - mean);
    }
  }

  lemma SquareNonNegative(x: real)
    ensures x * x >= 0.0
  {
    if x < 0.0 { assert x * x == (-x) * (-x); }
  }

  lemma PlogPNotPositive(m: Math, tokens: seq<string>, t: string)
    requires Lawful(m) && t in tokens
    ensures PlogP(m, tokens, t) <= 0.0
  {
    var n := Occurrences(tokens, t);
    assert 0 < n <= |multiset(tokens)| == |tokens| by {
      assert t in multiset(tokens);
      OccurrencesAtMost(tokens, t);
    }
    var p := n as real / |tokens| as real;
    assert 0.0 < p <= 1.0;
    ProductNotPositive(p, m.log2(p));
  }

  lemma {:induction false} OccurrencesAtMost(tokens: seq<string>, t: string)
    ensures Occurrences(tokens, t) <= |tokens|
  {
    if tokens != [] {
      OccurrencesAtMost(tokens[1..], t);
      assert tokens == [tokens[0]] + tokens[1..];
      assert multiset(tokens) == multiset{tokens[0]} + multiset(tokens[1..]);
    }
  }

  lemma ProductNotPositive(a: real, b: real)
    requires a > 0.0 && b <= 0.0
    ensures a * b <= 0.0
  {
  }

  lemma {:induction false} SumNotPositive(m: Math, tokens: seq<string>, ts: seq<string>)
    requires Lawful(m) && tokens != [] && forall t :: t in ts ==> t in tokens
    ensures SumPlogP(m, tokens, ts) <= 0.0
  {
    if ts != [] {
      PlogPNotPositive(m, tokens, ts[0]);
      SumNotPositive(m, tokens, ts[1..]);
    }
  }

  lemma {:induction false} DistinctWithin(tokens: seq<string>)
    ensures forall t :: t in Distinct(tokens) <==> t in tokens
  {
    if tokens != [] { DistinctWithin(tokens[1..]); }
  }

  lemma EntropyNonNegative(m: Math, actions: seq<Action>)
    requires Lawful(m)
    ensures Entropy(m, actions) >= 0.0
  {
    var tokens := AllTokens(actions);
    if tokens != [] {
      DistinctWithin(tokens);
      SumNotPositive(m, tokens, Distinct(tokens));
    }
  }

  lemma VariationUnit(m: Math, actions: seq<Action>)
    requires Lawful(m)
    ensures Unit(Variation(m, actions))
  {
    if |actions| >= 2 && MeanRequired(actions) != 0.0 {
      var mean := MeanRequired(actions);
      var n := |actions| as real;
      SumSquaresNonNegative(actions, mean);
      assert SumSquares(actions, mean) / n >= 0.0;
      var root := m.sqrt(SumSquares(actions, mean) / n);
      assert root >= 0.0 && mean > 0.0;
      assert root / mean >= 0.0;
    }
  }

  lemma ComponentsUnit(m: Math, actions: seq<Action>, hasTriggers: bool, usage: int)
    requires Lawful(m)
    ensures Unit(Breadth(actions)) && Unit(Richness(actions)) && Unit(Compression(actions))
    ensures Unit(Symmetry(actions != [], hasTriggers)) && Unit(Adoption(m, usage)) && Unit(EmptyRatio(actions))
  {
    CountsAtMost(actions);
    if actions != [] {
      RatioUnit(CountCompound(actions), |actions|);
      RatioUnit(CountUntyped(actions), |actions|);
      assert MeanRequired(actions) >= 0.0;
    }
  }

  lemma RoundPercent(x: real)
    requires Unit(x)
    ensures 0 <= Round(x * 100.0) <= 100
  {
    RoundMonotone(0.0, x * 100.0);
    RoundMonotone(x * 100.0, 100.0);
    RoundInteger(0);
    RoundInteger(100);
  }

  lemma LazinessUnit(m: Math, actions: seq<Action>)
    requires Lawful(m)
    ensures Unit(LazinessRaw(m, actions))
  {
    ComponentsUnit(m, actions, false, 0);
    EntropyNonNegative(m, actions);
    VariationUnit(m, actions);
  }

  lemma ProductMonotone(a: real, b: real, k: real)
    requires a <= b && k >= 0.0
    ensures a * k <= b * k
  {
  }

  /** The penalty only ever takes away, and never below zero. */
  lemma EffectiveBounds(dahae: int, laziness: int)
    requires 0 <= dahae && 0 <= laziness <= 100
    ensures 0 <= Effective(dahae, laziness) <= dahae
  {
    var d, k := dahae as real, Keep(laziness);
    TimesMonotone(0.0, d, 0.0, k);
    TimesMonotone(d, d, k, 1.0);
    RoundMonotone(0.0, Times(d, k));
    RoundMonotone(Times(d, k), d);
    RoundInteger(0);
    RoundInteger(dahae);
  }

  function AtMost(x: real, cap: real): real { if x < cap then x else cap }

  /** A capped ratio in points: so much a unit, up to the cap. */
  lemma CappedPoints(x: real)
    ensures 30.0 * Capped(x / 8.0) == 3.75 * AtMost(x, 8.0)
    ensures 10.0 * Capped(x / 4.0) == 2.5 * AtMost(x, 4.0)
    ensures 35.0 * (1.0 - Capped(x / 5.0)) == 7.0 * (5.0 - AtMost(x, 5.0))
  {
  }

  lemma SixthPoints(x: real)
    ensures 6.0 * (25.0 * Capped(x / 6.0)) == 25.0 * AtMost(x, 6.0)
  {
  }

  lemma Weighted(a: real, b: real, c: real, d: real, e: real)
    ensures (0.30 * a + 0.25 * b + 0.20 * c + 0.15 * d + 0.10 * e) * 100.0 ==
            30.0 * a + 25.0 * b + 20.0 * c + 15.0 * d + 10.0 * e
    ensures (0.40 * a + 0.35 * b + 0.25 * c) * 100.0 == 40.0 * a + 35.0 * b + 25.0 * c
  {
  }

  /**
   What a piece earns, in points of a hundred: 3.75 for each of up to eight different verbs, 25 for six
   required fields on average and less in proportion, 20 for compound actions throughout, 7.5 for
   having actions and as much again for having triggers too, and 2.5 for each decimal power of users.
   */
  lemma PointsEarned(m: Math, actions: seq<Action>, hasTriggers: bool, usage: nat)
    requires actions != []
    ensures 6.0 * (DahaeRaw(m, actions, hasTriggers, usage) * 100.0) ==
            6.0 * (3.75 * AtMost(|Verbs(actions)| as real, 8.0)
                   + 20.0 * (CountCompound(actions) as real / |actions| as real)
                   + (if hasTriggers then 15.0 else 7.5)
                   + (if usage == 0 then 0.0 else 2.5 * AtMost(m.log10(1.0 + usage as real), 4.0)))
            + 25.0 * AtMost(MeanRequired(actions), 6.0)
  {
    Weighted(Breadth(actions), Richness(actions), Compression(actions), Symmetry(true, hasTriggers),
             Adoption(m, usage));
    CappedPoints(|Verbs(actions)| as real);
    SixthPoints(MeanRequired(actions));
    CappedPoints(m.log10(1.0 + usage as real));
  }

  /**
   What makes a piece lazy: 40 points for actions whose fields have no type throughout, 35 for saying
   nothing with its names and 7 less for each bit of entropy, 25 for asking the same of every action.
   */
  lemma PointsOfLaziness(m: Math, actions: seq<Action>)
    requires actions != []
    ensures LazinessRaw(m, actions) * 100.0 ==
            40.0 * (CountUntyped(actions) as real / |actions| as real)
            + 7.0 * (5.0 - AtMost(Entropy(m, actions), 5.0)) + 25.0 * (1.0 - Variation(m, actions))
  {
    var a, b, c := EmptyRatio(actions), 1.0 - Capped(Entropy(m, actions) / 5.0), 1.0 - Variation(m, actions);
    Weighted(a, b, c, 0.0, 0.0);
    CappedPoints(Entropy(m, actions));
  }

  /** A verb counts once, however many actions have it; the other counts go action by action. */
  lemma CountsGoByAction(a: seq<Action>, b: seq<Action>, x: Action, v: string)
    ensures v in Verbs(a) <==> exists y :: y in a && y.verb == Some(v)
    ensures TotalRequired([x]) == x.required
    ensures CountCompound([x]) == (if x.compound then 1 else 0) && CountUntyped([x]) == (if x.typed then 0 else 1)
    ensures TotalRequired(a + b) == TotalRequired(a) + TotalRequired(b)
    ensures CountCompound(a + b) == CountCompound(a) + CountCompound(b)
    ensures CountUntyped(a + b) == CountUntyped(a) + CountUntyped(b)
  {
    assert [x][1..] == [];
    CountsConcat(a, b);
  }

  lemma {:induction false} CountsConcat(a: seq<Action>, b: seq<Action>)
    ensures TotalRequired(a + b) == TotalRequired(a) + TotalRequired(b)
    ensures CountCompound(a + b) == CountCompound(a) + CountCompound(b)
    ensures CountUntyped(a + b) == CountUntyped(a) + CountUntyped(b)
  {
    if a == [] {
      assert a + b == b;
    } else {
      CountsConcat(a[1..], b);
      assert (a + b)[1..] == a[1..] + b;
    }
  }

  /** Names whose tokens are all different have the entropy of a fair draw among them. */
  lemma UniformEntropy(m: Math, actions: seq<Action>, p: real)
    requires var tokens := AllTokens(actions);
             && tokens != [] && p == 1.0 / |tokens| as real
             && forall t :: t in tokens ==> Occurrences(tokens, t) == 1
    ensures Entropy(m, actions) == -m.log2(p)
  {
    AllDistinct(AllTokens(actions));
    UniformTokens(m, AllTokens(actions), p, m.log2(p));
  }

  lemma UniformTokens(m: Math, tokens: seq<string>, p: real, x: real)
    requires tokens != [] && p == 1.0 / |tokens| as real && x == m.log2(p)
    requires forall t :: t in tokens ==> Occurrences(tokens, t) == 1
    ensures SumPlogP(m, tokens, tokens) == x
  {
    UniformSum(m, tokens, tokens, p);
    SharesAddUp(|tokens| as real, p, x);
  }

  lemma SharesAddUp(n: real, p: real, x: real)
    requires n > 0.0 && p == 1.0 / n
    ensures Times(n, Times(p, x)) == x
  {
    Inverse(n, p);
    Cancel(n, p, x);
  }

  lemma Inverse(n: real, p: real)
    requires n > 0.0 && p == 1.0 / n
    ensures n * p == 1.0
  {
  }

  lemma Cancel(n: real, r: real, x: real)
    requires n * r == 1.0
    ensures Times(n, Times(r, x)) == x
  {
    assert n * (r * x) == (n * r) * x;
  }

  lemma {:induction false} AllDistinct(tokens: seq<string>)
    requires forall t :: t in tokens ==> Occurrences(tokens, t) == 1
    ensures Distinct(tokens) == tokens
  {
    if tokens != [] {
      assert tokens == [tokens[0]] + tokens[1..];
      assert multiset(tokens) == multiset{tokens[0]} + multiset(tokens[1..]);
      assert Occurrences(tokens, tokens[0]) == 1 + multiset(tokens[1..])[tokens[0]];
      assert tokens[0] !in multiset(tokens[1..]);
      forall t | t in tokens[1..] ensures Occurrences(tokens[1..], t) == 1 {
        assert t in tokens && t in multiset(tokens[1..]);
      }
      AllDistinct(tokens[1..]);
    }
  }

  lemma {:induction false} UniformSum(m: Math, tokens: seq<string>, ts: seq<string>, p: real)
    requires tokens != [] && p == 1.0 / |tokens| as real && forall t :: t in ts ==> Occurrences(tokens, t) == 1
    ensures SumPlogP(m, tokens, ts) == Times(|ts| as real, Times(p, m.log2(p)))
  {
    if ts != [] {
      UniformSum(m, tokens, ts[1..], p);
      assert PlogP(m, tokens, ts[0]) == Times(p, m.log2(p));
      OneMoreTerm(|ts| as real - 1.0, Times(p, m.log2(p)));
    }
  }

  lemma OneMoreTerm(k: real, q: real)
    ensures q + Times(k, q) == Times(k + 1.0, q)
  {
  }

  lemma Half(k: real)
    requires k > 0.0
    ensures k / (2.0 * k) == 0.5
  {
  }

  /** Two actions of which one asks for three times as much as the other vary by one half. */
  lemma HalfVariation(m: Math, a: Action, b: Action, square: real)
    requires a.required > 0 && b.required == 3 * a.required
    requires square == a.required as real * a.required as real && m.sqrt(square) == a.required as real
    ensures Variation(m, [a, b]) == 0.5
  {
    var k := a.required as real;
    assert [a, b][1..] == [b] && [b][1..] == [];
    assert TotalRequired([b]) == 3 * a.required && TotalRequired([a, b]) == 4 * a.required;
    assert MeanRequired([a, b]) == 2.0 * k;
    assert SumSquares([b], 2.0 * k) == square;
    assert SumSquares([a, b], 2.0 * k) == 2.0 * square;
    Half(k);
    assert SumSquares([a, b], MeanRequired([a, b])) / |[a, b]| as real == square;
  }

  /** Each token counts once in the entropy. */
  lemma {:induction false} DistinctOnce(tokens: seq<string>)
    ensures forall i, j :: 0 <= i < j < |Distinct(tokens)| ==> Distinct(tokens)[i] != Distinct(tokens)[j]
    ensures forall t :: t in Distinct(tokens) <==> t in tokens
  {
    DistinctWithin(tokens);
    if tokens != [] {
      DistinctOnce(tokens[1..]);
      DistinctWithin(tokens[1..]);
    }
  }

  /** Every score of every piece is a percentage, and the effective score is at most the plain one. */
  lemma ScoreBounds(m: Math, actions: seq<Action>, hasTriggers: bool, usage: int)
    requires Lawful(m)
    ensures var s := ComputeAll(m, actions, hasTriggers, usage);
            0 <= s.laziness <= 100 && 0 <= s.effective <= s.dahae <= 100
  {
    ComponentsUnit(m, actions, hasTriggers, usage);
    LazinessUnit(m, actions);
    RoundPercent(DahaeRaw(m, actions, hasTriggers, usage));
    RoundPercent(LazinessRaw(m, actions));
    var s := ComputeAll(m, actions, hasTriggers, usage);
    EffectiveBounds(s.dahae, s.laziness);
  }

  /** A lazier or poorer piece never ranks higher. */
  lemma EffectiveMonotone(d1: int, l1: int, d2: int, l2: int)
    requires 0 <= d1 <= d2 && 0 <= l2 <= l1 <= 100
    ensures Effective(d1, l1) <= Effective(d2, l2)
  {
    var k1, k2 := Keep(l1), Keep(l2);
    TimesMonotone(d1 as real, d2 as real, k1, k2);
    RoundMonotone(Times(d1 as real, k1), Times(d2 as real, k2));
  }

  lemma TimesMonotone(a: real, b: real, k: real, l: real)
    requires 0.0 <= a <= b && 0.0 <= k <= l
    ensures Times(a, k) <= Times(b, l)
  {
    ProductMonotone(a, b, k);
    ProductMonotone(k, l, b);
  }

  /** A piece without actions lives off its triggers and adoption: at most 18, effectively at most 9. */
  lemma TriggerOnlyCeiling(m: Math, hasTriggers: bool, usage: int)
    requires Lawful(m)
    ensures var s := ComputeAll(m, [], hasTriggers, usage); s.dahae <= 18 && s.effective <= 9 && s.laziness == 50
  {
    ComponentsUnit(m, [], hasTriggers, usage);
    var raw := DahaeRaw(m, [], hasTriggers, usage);
    assert raw * 100.0 <= 17.5;
    RoundMonotone(raw * 100.0, 17.5);
    RoundIsNearest(17.5, 18);
    assert Unit(raw);
    RoundPercent(raw);
    EffectiveMonotone(Round(raw * 100.0), 50, 18, 50);
    assert 18 as real * (1.0 - 50 as real / 100.0) == 9 as real;
    RoundInteger(9);
  }
}
