/** The settlement gate of packages/oracle/src/index.ts and the two writes that feed it. */
module Oracle {
  import opened Encoding

  type Id = nat

  /** Scores are stored with two decimals: 85 is 8500. */
  const TRUST_SCORE_THRESHOLD := 8500
  const FULL_SCORE := 10000

  datatype OracleRow = OracleRow(
    astPassed: bool, testsPassed: bool, securityPassed: bool,
    trustScore: Option<int>, criticalVulns: Option<int>, scoredAt: Option<int>)

  const NO_ROW := OracleRow(false, false, false, None, None, None)

  datatype ScopeCheck = ScopeCheck(contract: Id, allowed: bool, dismissed: bool)

  datatype Event =
    | Audit(astPassed: bool, testsPassed: bool, securityPassed: bool)
    | Score(trustScore: int, criticalVulns: int, scoredAt: int)

  datatype Blocker =
    | NothingRecorded | AstNotSatisfied | TestsNotPassed | SecurityFindings | ScopeRejected(count: nat)
    | NotScored | ScoreTooLow(score: int) | VulnsUnknown | VulnsPresent(found: int)

  datatype Verdict = Verdict(approved: bool, blockers: seq<Blocker>, trustScore: Option<int>, criticalVulns: Option<int>)

  // ---------- the gate ----------

  /** The gate the objective states: four signals, a score of at least 85, no critical vulnerability. */
  predicate Gate(row: Option<OracleRow>, rejected: nat)
  {
    && row.Some?
    && row.value.astPassed && row.value.testsPassed && row.value.securityPassed
    && rejected == 0
    && row.value.trustScore.Some? && row.value.trustScore.value >= TRUST_SCORE_THRESHOLD
    && row.value.criticalVulns == Some(0)
  }

  /** The two CHECK constraints of the table. */
  predicate Storable(row: OracleRow)
  {
    && (row.trustScore.Some? ==> 0 <= row.trustScore.value <= FULL_SCORE)
    && (row.criticalVulns.Some? ==> row.criticalVulns.value >= 0)
  }

  predicate Rejection(check: ScopeCheck, contract: Id)
  {
    check.contract == contract && !check.allowed && !check.dismissed
  }

  function Rejected(checks: seq<ScopeCheck>, contract: Id): (n: nat)
    ensures n == 0 <==> forall i :: 0 <= i < |checks| ==> !Rejection(checks[i], contract)
  {
    if checks == [] then 0
    else Rejected(checks[..|checks| - 1], contract) + if Rejection(checks[|checks| - 1], contract) then 1 else 0
  }

  // ---------- the writes ----------

  predicate Accepted(row: Option<OracleRow>, e: Event)
  {
    e.Score? ==>
      && 0 <= e.trustScore <= FULL_SCORE && e.criticalVulns >= 0
      && (row.Some? && row.value.scoredAt.Some? ==> row.value.scoredAt.value <= e.scoredAt)
  }

  /** One upsert: an audit always lands, a score only if the stored one is not newer. */
  function Upsert(row: Option<OracleRow>, e: Event): (r: Option<OracleRow>)
  {
    if !Accepted(row, e) then row
    else
      var before := if row.Some? then row.value else NO_ROW;
      match e
      case Audit(ast, tests, security) =>
        Some(before.(astPassed := ast, testsPassed := tests, securityPassed := security))
      case Score(score, vulns, at) =>
        Some(before.(trustScore := Some(score), criticalVulns := Some(vulns), scoredAt := Some(at)))
  }

  function AfterAll(events: seq<Event>): (r: Option<OracleRow>)
  {
    if events == [] then None else Upsert(AfterAll(events[..|events| - 1]), events[|events| - 1])
  }

  function Push(blocks: bool, b: Blocker): seq<Blocker> { if blocks then [b] else [] }

  /** What stands in the way, in the order it is looked at. */
  function BlockersOf(row: Option<OracleRow>, rejected: nat): seq<Blocker>
  {
    var r := if row.Some? then row.value else NO_ROW;
    SignalsOf(row, r) + Push(rejected > 0, ScopeRejected(rejected)) + ScoreOf(r.trustScore) + VulnsOf(r.criticalVulns)
  }

  function SignalsOf(row: Option<OracleRow>, r: OracleRow): seq<Blocker>
  {
    Push(row == None, NothingRecorded) + Push(!r.astPassed, AstNotSatisfied) + Push(!r.testsPassed, TestsNotPassed)
      + Push(!r.securityPassed, SecurityFindings)
  }

  function ScoreOf(score: Option<int>): seq<Blocker>
  {
    if score == None then [NotScored] else Push(score.value < TRUST_SCORE_THRESHOLD, ScoreTooLow(score.value))
  }

  function VulnsOf(vulns: Option<int>): seq<Blocker>
  {
    if vulns == None then [VulnsUnknown] else Push(vulns.value > 0, VulnsPresent(vulns.value))
  }

  lemma SignalsMean(row: Option<OracleRow>, r: OracleRow)
    ensures var bs := SignalsOf(row, r);
            && (NothingRecorded in bs <==> row == None) && (AstNotSatisfied in bs <==> !r.astPassed)
            && (TestsNotPassed in bs <==> !r.testsPassed) && (SecurityFindings in bs <==> !r.securityPassed)
            && (forall b :: b in bs ==> b in {NothingRecorded, AstNotSatisfied, TestsNotPassed, SecurityFindings})
  {
  }

  lemma NumbersMean(score: Option<int>, vulns: Option<int>)
    ensures NotScored in ScoreOf(score) <==> score == None
    ensures forall s :: ScoreTooLow(s) in ScoreOf(score) <==> score == Some(s) && s < 8500
    ensures forall b :: b in ScoreOf(score) ==> b.NotScored? || b.ScoreTooLow?
    ensures VulnsUnknown in VulnsOf(vulns) <==> vulns == None
    ensures forall n :: VulnsPresent(n) in VulnsOf(vulns) <==> vulns == Some(n) && n > 0
    ensures forall b :: b in VulnsOf(vulns) ==> b.VulnsUnknown? || b.VulnsPresent?
  {
  }

  lemma InParts(a: seq<Blocker>, b: seq<Blocker>, c: seq<Blocker>, d: seq<Blocker>)
    ensures forall x :: x in a + b + c + d <==> x in a || x in b || x in c || x in d
  {
  }

  lemma BlockersInParts(row: Option<OracleRow>, rejected: nat)
    ensures var r := if row.Some? then row.value else NO_ROW;
            forall x :: x in BlockersOf(row, rejected) <==>
              || x in SignalsOf(row, r) || x in Push(rejected > 0, ScopeRejected(rejected))
              || x in ScoreOf(r.trustScore) || x in VulnsOf(r.criticalVulns)
  {
    var r := if row.Some? then row.value else NO_ROW;
    InParts(SignalsOf(row, r), Push(rejected > 0, ScopeRejected(rejected)), ScoreOf(r.trustScore), VulnsOf(r.criticalVulns));
  }

  /** Each blocker stands for its own signal: missing evidence, or a failed check. */
  lemma SignalBlockersMean(row: Option<OracleRow>, rejected: nat)
    ensures var bs := BlockersOf(row, rejected);
            && (NothingRecorded in bs <==> row == None)
            && (AstNotSatisfied in bs <==> !(row.Some? && row.value.astPassed))
            && (TestsNotPassed in bs <==> !(row.Some? && row.value.testsPassed))
            && (SecurityFindings in bs <==> !(row.Some? && row.value.securityPassed))
    ensures forall n :: ScopeRejected(n) in BlockersOf(row, rejected) <==> n == rejected && n > 0
  {
    var r := if row.Some? then row.value else NO_ROW;
    BlockersInParts(row, rejected);
    SignalsMean(row, r);
    NumbersMean(r.trustScore, r.criticalVulns);
  }

  /** And so for the numbers: no score or one below 85.00, an unknown count of vulnerabilities or some. */
  lemma NumberBlockersMean(row: Option<OracleRow>, rejected: nat)
    ensures var bs, score := BlockersOf(row, rejected), if row.Some? then row.value.trustScore else None;
            && (NotScored in bs <==> score == None)
            && (forall s :: ScoreTooLow(s) in bs <==> score == Some(s) && s < 8500)
    ensures var bs, vulns := BlockersOf(row, rejected), if row.Some? then row.value.criticalVulns else None;
            && (VulnsUnknown in bs <==> vulns == None)
            && (forall n :: VulnsPresent(n) in bs <==> vulns == Some(n) && n > 0)
  {
    var r := if row.Some? then row.value else NO_ROW;
    BlockersInParts(row, rejected);
    SignalsMean(row, r);
    NumbersMean(r.trustScore, r.criticalVulns);
  }

  lemma NoBlockersIff(row: Option<OracleRow>, rejected: nat)
    requires row.Some? ==> Storable(row.value)
    ensures BlockersOf(row, rejected) == [] <==> Gate(row, rejected)
  {
  }

  /** The gate, in numbers: four signals, a score of 85.00 or more, and no critical vulnerability. */
  lemma GateMeans(row: Option<OracleRow>, rejected: nat)
    ensures Gate(row, rejected) <==>
      && row.Some? && row.value.astPassed && row.value.testsPassed && row.value.securityPassed && rejected == 0
      && row.value.trustScore.Some? && row.value.trustScore.value >= 8500 && row.value.criticalVulns == Some(0)
  {
  }

  method CollectSignals(found: bool, row: OracleRow) returns (blockers: seq<Blocker>)
    ensures blockers == SignalsOf(if found then Some(row) else None, row)
  {
    blockers := [];
    if !found { blockers := blockers + [NothingRecorded]; }
    if !row.astPassed { blockers := blockers + [AstNotSatisfied]; }
    if !row.testsPassed { blockers := blockers + [TestsNotPassed]; }
    if !row.securityPassed { blockers := blockers + [SecurityFindings]; }
  }

  method CollectNumbers(row: OracleRow) returns (blockers: seq<Blocker>)
    ensures blockers == ScoreOf(row.trustScore) + VulnsOf(row.criticalVulns)
  {
    blockers := [];
    if row.trustScore == None {
      blockers := blockers + [NotScored];
    } else if row.trustScore.value < TRUST_SCORE_THRESHOLD {
      blockers := blockers + [ScoreTooLow(row.trustScore.value)];
    }
    if row.criticalVulns == None {
      blockers := blockers + [VulnsUnknown];
    } else if row.criticalVulns.value > 0 {
      blockers := blockers + [VulnsPresent(row.criticalVulns.value)];
    }
  }

  class OracleStore {
    var rows: map<Id, OracleRow>
    var checks: seq<ScopeCheck>

    predicate Valid()
      reads this
    {
      forall c :: c in rows ==> Storable(rows[c])
    }

    function RowOf(contract: Id): Option<OracleRow>
      reads this
    {
      if contract in rows then Some(rows[contract]) else None
    }

    constructor ()
      ensures Valid() && rows == map[] && checks == []
    {
      rows, checks := map[], [];
    }

    method RecordAudit(contract: Id, ast: bool, tests: bool, security: bool)
      requires Valid()
      modifies `rows
      ensures Valid()
      ensures RowOf(contract) == Upsert(old(RowOf(contract)), Audit(ast, tests, security))
      ensures rows == old(rows)[contract := rows[contract]]
      ensures rows[contract] == (if contract in old(rows) then old(rows)[contract] else NO_ROW)
                                .(astPassed := ast, testsPassed := tests, securityPassed := security)
    {
      if contract in rows {
        rows := rows[contract := rows[contract].(astPassed := ast, testsPassed := tests, securityPassed := security)];
      } else {
        rows := rows[contract := OracleRow(ast, tests, security, None, None, None)];
      }
    }

    /** `now` stands in for an event without a stamp. A score outside the constraints throws. */
    method RecordScore(contract: Id, score: int, vulns: int, scoredAt: Option<int>, now: int) returns (threw: bool)
      requires Valid()
      modifies `rows
      ensures Valid()
      ensures threw <==> !(0 <= score <= 10000 && vulns >= 0)
      ensures RowOf(contract) ==
              Upsert(old(RowOf(contract)), Score(score, vulns, if scoredAt.Some? then scoredAt.value else now))
      ensures forall c: Id :: c != contract ==> RowOf(c) == old(RowOf(c))
      ensures var at := if scoredAt.Some? then scoredAt.value else now;
              var before := if contract in old(rows) then old(rows)[contract] else NO_ROW;
              rows == if threw || (before.scoredAt.Some? && before.scoredAt.value > at) then old(rows)
                      else old(rows)[contract := before.(trustScore := Some(score), criticalVulns := Some(vulns),
                                                         scoredAt := Some(at))]
    {
      if !(0 <= score <= FULL_SCORE && vulns >= 0) {
        return true;
      }
      var at := if scoredAt.Some? then scoredAt.value else now;
      if contract !in rows {
        rows := rows[contract := OracleRow(false, false, false, Some(score), Some(vulns), Some(at))];
      } else if rows[contract].scoredAt == None || rows[contract].scoredAt.value <= at {
        rows := rows[contract := rows[contract].(trustScore := Some(score), criticalVulns := Some(vulns), scoredAt := Some(at))];
      }
      return false;
    }

    /** The blockers are empty exactly when the stated gate holds, and an approval carries a score. */
    method Evaluate(contract: Id) returns (v: Verdict)
      requires Valid()
      ensures v.approved <==> v.blockers == []
      ensures v.approved <==> Gate(RowOf(contract), Rejected(checks, contract))
      ensures v.blockers == BlockersOf(RowOf(contract), Rejected(checks, contract))
      ensures v.trustScore == (if contract in rows then rows[contract].trustScore else None)
      ensures v.criticalVulns == (if contract in rows then rows[contract].criticalVulns else None)
      ensures v.approved ==> v.trustScore.Some? && v.trustScore.value >= 8500
    {
      var rejected := 0;
      for i := 0 to |checks|
        invariant rejected == Rejected(checks[..i], contract)
      {
        assert checks[..i + 1][..i] == checks[..i];
        if checks[i].contract == contract && !checks[i].allowed && !checks[i].dismissed {
          rejected := rejected + 1;
        }
      }
      assert checks[..|checks|] == checks;
      var found := contract in rows;
      var row := if found then rows[contract] else NO_ROW;
      var blockers := CollectSignals(found, row);
      if rejected != 0 { blockers := blockers + [ScopeRejected(rejected)]; }
      var numbers := CollectNumbers(row);
      blockers := blockers + numbers;
      assert blockers == BlockersOf(RowOf(contract), rejected) by {
        assert blockers == SignalsOf(RowOf(contract), row) + Push(rejected > 0, ScopeRejected(rejected)) + numbers;
        Associate(SignalsOf(RowOf(contract), row) + Push(rejected > 0, ScopeRejected(rejected)), ScoreOf(row.trustScore),
                  VulnsOf(row.criticalVulns));
      }
      NoBlockersIff(RowOf(contract), rejected);
      return Verdict(|blockers| == 0, blockers, row.trustScore, row.criticalVulns);
    }
  }

  // ---------- delivery order ----------

  predicate ValidScore(e: Event)
  {
    e.Score? && 0 <= e.trustScore <= FULL_SCORE && e.criticalVulns >= 0
  }

  /** The last to arrive among the valid scores with the greatest stamp. */
  function Leading(events: seq<Event>): (lead: Option<Event>)
    ensures lead.Some? ==> ValidScore(lead.value)
  {
    if events == [] then None
    else
      var before, e := Leading(events[..|events| - 1]), events[|events| - 1];
      if ValidScore(e) && (before == None || before.value.scoredAt <= e.scoredAt) then Some(e) else before
  }

  predicate IsGreatest(events: seq<Event>, e: Event)
  {
    e in events && ValidScore(e) && forall d :: d in events && ValidScore(d) ==> d.scoredAt <= e.scoredAt
  }

  lemma {:induction false} LeadingIsGreatest(events: seq<Event>)
    ensures match Leading(events)
            case None => forall e :: e in events ==> !ValidScore(e)
            case Some(lead) => IsGreatest(events, lead)
  {
    if events != [] {
      var n := |events| - 1;
      LeadingIsGreatest(events[..n]);
      assert forall e :: e in events <==> e in events[..n] || e == events[n];
    }
  }

  predicate HoldsScore(row: Option<OracleRow>, lead: Option<Event>)
    requires lead.Some? ==> lead.value.Score?
  {
    match lead
    case None => row.Some? ==> row.value.(astPassed := false, testsPassed := false, securityPassed := false) == NO_ROW
    case Some(e) =>
      && row.Some? && row.value.trustScore == Some(e.trustScore)
      && row.value.criticalVulns == Some(e.criticalVulns) && row.value.scoredAt == Some(e.scoredAt)
  }

  /** In any order, with any audits between: the score kept is that of the greatest stamp. */
  lemma {:induction false} GreatestStampWins(events: seq<Event>)
    ensures HoldsScore(AfterAll(events), Leading(events))
  {
    if events != [] {
      GreatestStampWins(events[..|events| - 1]);
    }
  }

  /** The audit signals kept are the last recorded, whatever scores arrive. */
  lemma {:induction false} LastAuditWins(events: seq<Event>, k: nat)
    requires k < |events| && events[k].Audit? && forall i :: k < i < |events| ==> events[i].Score?
    ensures AfterAll(events).Some?
    ensures var row := AfterAll(events).value;
            Audit(row.astPassed, row.testsPassed, row.securityPassed) == events[k]
  {
    var n := |events| - 1;
    if k < n {
      LastAuditWins(events[..n], k);
    }
  }

  predicate SameScores(xs: seq<Event>, ys: seq<Event>)
  {
    (forall e :: e in xs && e.Score? ==> e in ys) && (forall e :: e in ys && e.Score? ==> e in xs)
  }

  /** One event per stamp, however often it is delivered. */
  predicate DistinctStamps(events: seq<Event>)
  {
    forall d, e :: d in events && e in events && ValidScore(d) && ValidScore(e) && d.scoredAt == e.scoredAt ==> d == e
  }

  /** Two deliveries of one set of scores: order and repetition do not matter. */
  lemma DeliveryOrderIsIrrelevant(xs: seq<Event>, ys: seq<Event>)
    requires SameScores(xs, ys) && DistinctStamps(xs)
    ensures Leading(xs) == Leading(ys)
    ensures HoldsScore(AfterAll(xs), Leading(xs)) && HoldsScore(AfterAll(ys), Leading(xs))
  {
    LeadingIsGreatest(xs);
    LeadingIsGreatest(ys);
    GreatestStampWins(xs);
    GreatestStampWins(ys);
    if Leading(xs).Some? && Leading(ys).Some? {
      var d, e := Leading(xs).value, Leading(ys).value;
      assert e in xs && d in ys;
      assert d.scoredAt == e.scoredAt;
    }
  }

  // ---------- rounding ----------

  /** NUMERIC(5,2) keeps a score to the nearest hundredth, halves away from zero. */
  function Stored(score: real): int { (100.0 * score + 0.5).Floor }

  /** So the gate is passed by scores from 84.995 up, not from 85 up. */
  lemma RoundedGate(score: real)
    ensures Stored(score) >= 8500 <==> score >= 84.995
  {
  }
}
