/** The threshold sweep of tools/calibrate_scope_threshold.py, over exact reals. */
module ThresholdSweep {
  import opened Encoding

  const FALSE_NEGATIVE_WEIGHT := 3.0

  datatype Scored = Scored(inScope: bool, best: real)

  // ---------- what a threshold costs ----------

  function FalseNegatives(scored: seq<Scored>, t: real): nat
  {
    if scored == [] then 0
    else
      var s := scored[|scored| - 1];
      FalseNegatives(scored[..|scored| - 1], t) + if s.inScope && s.best < t then 1 else 0
  }

  function FalsePositives(scored: seq<Scored>, t: real): nat
  {
    if scored == [] then 0
    else
      var s := scored[|scored| - 1];
      FalsePositives(scored[..|scored| - 1], t) + if !s.inScope && s.best >= t then 1 else 0
  }

  function Cost(scored: seq<Scored>, t: real): real
  {
    FALSE_NEGATIVE_WEIGHT * (FalseNegatives(scored, t) as real) + (FalsePositives(scored, t) as real)
  }

  function Abs(x: real): real { if x < 0.0 then -x else x }

  /** The distance to the nearest sample. */
  function Margin(scored: seq<Scored>, t: real): real
    requires scored != []
  {
    var here := Abs(scored[|scored| - 1].best - t);
    if |scored| == 1 then here
    else
      var rest := Margin(scored[..|scored| - 1], t);
      if here < rest then here else rest
  }

  lemma {:induction false} MarginIsNearest(scored: seq<Scored>, t: real)
    requires scored != []
    ensures forall i :: 0 <= i < |scored| ==> Margin(scored, t) <= Abs(scored[i].best - t)
    ensures exists i :: 0 <= i < |scored| && Margin(scored, t) == Abs(scored[i].best - t)
  {
    var n := |scored| - 1;
    if n > 0 {
      MarginIsNearest(scored[..n], t);
      var i :| 0 <= i < n && Margin(scored[..n], t) == Abs(scored[..n][i].best - t);
      assert forall j | 0 <= j < n :: scored[..n][j] == scored[j];
    }
  }

  // ---------- the distinct scores, sorted ----------

  predicate Increasing(c: seq<real>)
  {
    forall i, j :: 0 <= i < j < |c| ==> c[i] < c[j]
  }

  function InsertScore(x: real, c: seq<real>): (r: seq<real>)
    ensures forall y :: y in r <==> y == x || y in c
  {
    if c == [] || x < c[0] then [x] + c
    else if x == c[0] then c
    else [c[0]] + InsertScore(x, c[1..])
  }

  lemma {:induction false} InsertKeepsIncreasing(x: real, c: seq<real>)
    requires Increasing(c)
    ensures Increasing(InsertScore(x, c))
  {
    if c != [] && x > c[0] {
      InsertKeepsIncreasing(x, c[1..]);
      var rest := InsertScore(x, c[1..]);
      forall j | 0 <= j < |rest| ensures c[0] < rest[j] {
        assert rest[j] in rest;
        if rest[j] != x {
          var k :| 0 <= k < |c[1..]| && c[1..][k] == rest[j];
          assert c[k + 1] == rest[j];
        }
      }
    }
  }

  function Candidates(scored: seq<Scored>): (c: seq<real>)
    ensures c == [] <==> scored == []
  {
    if scored == [] then []
    else InsertScore(scored[|scored| - 1].best, Candidates(scored[..|scored| - 1]))
  }

  /** Every sample's score is a candidate. */
  lemma {:induction false} CandidateOf(scored: seq<Scored>, k: nat) returns (j: nat)
    requires k < |scored|
    ensures j < |Candidates(scored)| && Candidates(scored)[j] == scored[k].best
  {
    var n := |scored| - 1;
    if k < n {
      var i := CandidateOf(scored[..n], k);
      assert Candidates(scored[..n])[i] in Candidates(scored[..n]);
    }
    assert scored[k].best in Candidates(scored);
    j :| 0 <= j < |Candidates(scored)| && Candidates(scored)[j] == scored[k].best;
  }

  /** Every candidate is some sample's score. */
  lemma {:induction false} SampleOf(scored: seq<Scored>, x: real) returns (k: nat)
    requires x in Candidates(scored)
    ensures k < |scored| && scored[k].best == x
  {
    var n := |scored| - 1;
    if x == scored[n].best {
      k := n;
    } else {
      k := SampleOf(scored[..n], x);
    }
  }

  lemma {:induction false} CandidatesIncreasing(scored: seq<Scored>)
    ensures Increasing(Candidates(scored))
  {
    if scored != [] {
      CandidatesIncreasing(scored[..|scored| - 1]);
      InsertKeepsIncreasing(scored[|scored| - 1].best, Candidates(scored[..|scored| - 1]));
    }
  }

  function Mid(c: seq<real>, i: nat): real
    requires i + 1 < |c|
  {
    (c[i] + c[i + 1]) / 2.0
  }

  // ---------- the sweep ----------

  /** The result, or None for the infinite cost that is left when there is no midpoint. */
  datatype Best = Best(threshold: real, cost: real, margin: real)

  predicate AtLeastAsGood(scored: seq<Scored>, b: Best, t: real)
    requires scored != []
  {
    b.cost < Cost(scored, t) || (b.cost == Cost(scored, t) && b.margin >= Margin(scored, t))
  }

  /** A midpoint, with its own cost and margin, and no midpoint better. */
  predicate IsSwept(scored: seq<Scored>, b: Best)
  {
    var c := Candidates(scored);
    && scored != []
    && (exists i :: 0 <= i && i + 1 < |c| && b.threshold == Mid(c, i))
    && b.cost == Cost(scored, b.threshold) && b.margin == Margin(scored, b.threshold)
    && forall i :: 0 <= i && i + 1 < |c| ==> AtLeastAsGood(scored, b, Mid(c, i))
  }

  method Sweep(scored: seq<Scored>) returns (best: Option<Best>)
    ensures best == None <==> |Candidates(scored)| < 2
    ensures best.Some? ==> IsSwept(scored, best.value)
    ensures best.Some? ==> forall i :: 0 <= i && i + 1 < |Candidates(scored)| ==>
      var t := Mid(Candidates(scored), i);
      best.value.cost < Cost(scored, t) || (best.value.cost == Cost(scored, t) && best.value.margin >= Margin(scored, t))
  {
    var candidates := Candidates(scored);
    best := None;
    var i := 0;
    while i + 1 < |candidates|
      invariant i == 0 || i + 1 <= |candidates|
      invariant best == None <==> i == 0
      invariant best.Some? ==> scored != [] && exists j :: 0 <= j < i && best.value.threshold == Mid(candidates, j)
      invariant best.Some? ==> best.value.cost == Cost(scored, best.value.threshold)
                               && best.value.margin == Margin(scored, best.value.threshold)
      invariant best.Some? ==> forall j :: 0 <= j < i ==> AtLeastAsGood(scored, best.value, Mid(candidates, j))
    {
      var t := Mid(candidates, i);
      var cost, margin := Cost(scored, t), Margin(scored, t);
      if best == None || cost < best.value.cost || (cost == best.value.cost && margin > best.value.margin) {
        best := Some(Best(t, cost, margin));
      }
      i := i + 1;
    }
  }

  // ---------- why the midpoints are enough ----------

  predicate SameSide(x: real, t: real, u: real) { x < t <==> x < u }

  /** Thresholds that cut the scores at the same place cost the same. */
  lemma {:induction false} SameCutSameCost(scored: seq<Scored>, t: real, u: real)
    requires forall i :: 0 <= i < |scored| ==> SameSide(scored[i].best, t, u)
    ensures FalseNegatives(scored, t) == FalseNegatives(scored, u)
    ensures FalsePositives(scored, t) == FalsePositives(scored, u)
  {
    if scored != [] {
      SameCutSameCost(scored[..|scored| - 1], t, u);
      assert SameSide(scored[|scored| - 1].best, t, u);
    }
  }

  /** The place of a threshold among the scores: above one of them, up to the next. */
  lemma {:induction false} CutOf(c: seq<real>, t: real) returns (i: nat)
    requires |c| >= 2 && c[0] < t <= c[|c| - 1]
    ensures i + 1 < |c| && c[i] < t <= c[i + 1]
  {
    if t <= c[1] {
      i := 0;
    } else {
      var j := CutOf(c[1..], t);
      i := j + 1;
    }
  }

  lemma CostsLikeItsMidpoint(scored: seq<Scored>, i: nat, t: real)
    requires i + 1 < |Candidates(scored)| && Candidates(scored)[i] < t <= Candidates(scored)[i + 1]
    ensures Cost(scored, t) == Cost(scored, Mid(Candidates(scored), i))
  {
    var c := Candidates(scored);
    CandidatesIncreasing(scored);
    forall k | 0 <= k < |scored| ensures SameSide(scored[k].best, t, Mid(c, i)) {
      var j := CandidateOf(scored, k);
      assert j <= i || j >= i + 1;
    }
    SameCutSameCost(scored, t, Mid(c, i));
  }

  /** No sample lies nearer to a midpoint than its two neighbours. */
  lemma NoSampleNearer(scored: seq<Scored>, i: nat, k: nat)
    requires i + 1 < |Candidates(scored)| && k < |scored|
    ensures var c := Candidates(scored); Abs(scored[k].best - Mid(c, i)) >= (c[i + 1] - c[i]) / 2.0
  {
    var c := Candidates(scored);
    CandidatesIncreasing(scored);
    var j := CandidateOf(scored, k);
    assert c[j] <= c[i] || c[j] >= c[i + 1];
  }

  lemma HalfGap(c: seq<real>, i: nat)
    requires Increasing(c) && i + 1 < |c|
    ensures Abs(c[i] - Mid(c, i)) == (c[i + 1] - c[i]) / 2.0
  {
  }

  /** The tie-break is the half gap: the nearest samples are the two neighbours. */
  lemma MarginIsHalfGap(scored: seq<Scored>, i: nat)
    requires i + 1 < |Candidates(scored)|
    ensures scored != []
    ensures var c := Candidates(scored); Margin(scored, Mid(c, i)) == (c[i + 1] - c[i]) / 2.0
  {
    var c := Candidates(scored);
    var t := Mid(c, i);
    var k := SampleOf(scored, c[i]);
    MarginIsNearest(scored, t);
    CandidatesIncreasing(scored);
    HalfGap(c, i);
    assert Margin(scored, t) <= Abs(scored[k].best - t);
    var n :| 0 <= n < |scored| && Margin(scored, t) == Abs(scored[n].best - t);
    NoSampleNearer(scored, i, n);
  }

  /** Only midpoints are tried, yet no threshold above the lowest and up to the highest score is cheaper. */
  lemma SweepIsOptimalBetween(scored: seq<Scored>, b: Best, t: real)
    requires IsSwept(scored, b)
    requires var c := Candidates(scored); |c| >= 2 && c[0] < t <= c[|c| - 1]
    ensures b.cost <= Cost(scored, t)
  {
    var i := CutOf(Candidates(scored), t);
    CostsLikeItsMidpoint(scored, i, t);
    assert AtLeastAsGood(scored, b, Mid(Candidates(scored), i));
  }

  function InScope(scored: seq<Scored>): nat
  {
    if scored == [] then 0 else InScope(scored[..|scored| - 1]) + if scored[|scored| - 1].inScope then 1 else 0
  }

  lemma {:induction false} CostAtTheEnds(scored: seq<Scored>, t: real)
    ensures (forall i :: 0 <= i < |scored| ==> t <= scored[i].best) ==>
              FalseNegatives(scored, t) == 0 && FalsePositives(scored, t) == |scored| - InScope(scored)
    ensures (forall i :: 0 <= i < |scored| ==> scored[i].best < t) ==>
              FalseNegatives(scored, t) == InScope(scored) && FalsePositives(scored, t) == 0
  {
    if scored != [] {
      CostAtTheEnds(scored[..|scored| - 1], t);
      assert forall i | 0 <= i < |scored| - 1 :: scored[..|scored| - 1][i] == scored[i];
    }
  }

  lemma AtTheEnds(scored: seq<Scored>, t: real)
    requires Candidates(scored) != []
    ensures var c := Candidates(scored);
            && (t <= c[0] ==> Cost(scored, t) == AcceptAll(scored))
            && (t > c[|c| - 1] ==> Cost(scored, t) == RefuseAll(scored))
  {
    var c := Candidates(scored);
    CandidatesIncreasing(scored);
    CostAtTheEnds(scored, t);
    forall i | 0 <= i < |scored| ensures c[0] <= scored[i].best <= c[|c| - 1] {
      var j := CandidateOf(scored, i);
    }
  }

  function AcceptAll(scored: seq<Scored>): real { (|scored| - InScope(scored)) as real }

  function RefuseAll(scored: seq<Scored>): real { FALSE_NEGATIVE_WEIGHT * (InScope(scored) as real) }

  lemma NoCheaperAnywhere(scored: seq<Scored>, b: Best, t: real)
    requires IsSwept(scored, b) && b.cost <= AcceptAll(scored) && b.cost <= RefuseAll(scored)
    ensures b.cost <= Cost(scored, t)
  {
    var c := Candidates(scored);
    AtTheEnds(scored, t);
    if c[0] < t <= c[|c| - 1] {
      SweepIsOptimalBetween(scored, b, t);
    }
  }

  /** Separating at some midpoint pays: it costs no more than accepting everything, or refusing everything. */
  predicate SomeMidpointPays(scored: seq<Scored>)
  {
    var c := Candidates(scored);
    exists i :: 0 <= i && i + 1 < |c| && Cost(scored, Mid(c, i)) <= AcceptAll(scored) && Cost(scored, Mid(c, i)) <= RefuseAll(scored)
  }

  /**
   * Over all thresholds the sweep is optimal exactly when some midpoint costs no more than the number of
   * out-of-scope samples, and no more than three times the number of in-scope ones: accepting everything
   * and refusing everything are not tried.
   */
  lemma OptimalEverywhereIff(scored: seq<Scored>, b: Best)
    requires IsSwept(scored, b)
    ensures (forall t :: b.cost <= Cost(scored, t)) <==> SomeMidpointPays(scored)
  {
    var c := Candidates(scored);
    var n :| 0 <= n && n + 1 < |c| && b.threshold == Mid(c, n);
    if SomeMidpointPays(scored) {
      var i :| 0 <= i && i + 1 < |c| && Cost(scored, Mid(c, i)) <= AcceptAll(scored) && Cost(scored, Mid(c, i)) <= RefuseAll(scored);
      assert AtLeastAsGood(scored, b, Mid(c, i));
      forall t ensures b.cost <= Cost(scored, t) {
        NoCheaperAnywhere(scored, b, t);
      }
    } else {
      AtTheEnds(scored, c[0]);
      AtTheEnds(scored, c[|c| - 1] + 1.0);
      assert b.cost == Cost(scored, Mid(c, n));
      assert !(b.cost <= Cost(scored, c[0]) && b.cost <= Cost(scored, c[|c| - 1] + 1.0));
    }
  }

  /** An input on which it is not: an in-scope sample at 0.1 and an out-of-scope one at 0.9. */
  lemma SweepCanMissTheBest(b: Best)
    requires var scored := [Scored(true, 0.1), Scored(false, 0.9)]; IsSwept(scored, b)
    ensures var scored := [Scored(true, 0.1), Scored(false, 0.9)];
            b.threshold == 0.5 && b.cost == 4.0 && Cost(scored, 0.1) == 1.0 && !SomeMidpointPays(scored)
  {
    var scored := [Scored(true, 0.1), Scored(false, 0.9)];
    assert scored[..1] == [Scored(true, 0.1)] && scored[..1][..0] == [];
    assert InsertScore(0.9, []) == [0.9] && InsertScore(0.9, [0.1]) == [0.1] + InsertScore(0.9, [0.1][1..]);
    assert Candidates(scored[..1]) == [0.1] && Candidates(scored) == [0.1, 0.9];
    CostOfBoth(scored, 0.5);
    CostOfBoth(scored, 0.1);
    assert InScope(scored[..1]) == 1 && InScope(scored) == 1;
  }

  lemma CostOfBoth(scored: seq<Scored>, t: real)
    requires scored == [Scored(true, 0.1), Scored(false, 0.9)] && t <= 0.9
    ensures Cost(scored, t) == if 0.1 < t then 4.0 else 1.0
  {
    assert scored[..1] == [Scored(true, 0.1)] && scored[..1][..0] == [];
    assert FalseNegatives(scored[..1], t) == if 0.1 < t then 1 else 0;
    assert FalsePositives(scored[..1], t) == 0;
  }
}
