/** Where a SETTLEMENT_COMPLETED entry comes from, and what amount it states. */
module SettlementEntries {
  import opened Encoding
  import opened Tables
  import opened Settlement
  import opened SettlementSafety
  import opened SettlementEvidence

  /** The step that began an attempt: its request, or the sweep that took it up; a payout sweep settles nothing. */
  predicate Began(s: Step, me: Attempt)
  {
    match s
    case Requested(_, c, f, n) => me.kind == Live && me.contract == c && me.freelancer == f && me.requested == n
    case SweptSettlement(_, c) => me.kind == Recovery && me.contract == c && me.requested == None
    case SweptPayout(_, _, _) => InPayout(me.pc) || me.pc == Over
    case _ => false
  }

  predicate HasOrigin(steps: seq<Step>, me: Attempt) { exists j :: 0 <= j < |steps| && Began(steps[j], me) }

  /** The row the entry released, and what it says of it: the amount its request named, or else the row's own. */
  predicate States(s: Step, row: EscrowRow, e: Release)
  {
    && row.payment == Some(e.payment) && row.contract == e.contract && row.currency == e.currency
    && match s
       case Requested(_, c, f, n) =>
         e.contract == c && e.freelancer == f && e.amount == if n.Some? then n.value else row.amount
       case SweptSettlement(_, c) => e.contract == c && e.amount == row.amount
       case _ => false
  }

  ghost predicate StatedBy(steps: seq<Step>, escrow: seq<EscrowRow>, e: Release)
  {
    exists j: nat, i: nat :: j < |steps| && i < |escrow| && States(steps[j], escrow[i], e)
  }

  ghost predicate EntriesOk(steps: seq<Step>, x: World)
  {
    && (forall a :: a in x.attempts ==> HasOrigin(steps, x.attempts[a]))
    && (forall n :: 0 <= n < |x.shared.db.ledger| ==> StatedBy(steps, x.shared.db.escrow, x.shared.db.ledger[n]))
  }

  lemma BeganStays(s: Step, w: Shared, me: Attempt, move: Move)
    requires Began(s, me)
    ensures Began(s, Learn(me, move).(pc := Decide(w, me, move).pc))
  {
    if s.SweptPayout? && InPayout(me.pc) {
      PayoutStaysPayout(w, me, move);
    }
  }

  lemma PayoutStaysPayout(w: Shared, me: Attempt, move: Move)
    requires InPayout(me.pc)
    ensures var pc := DecidePayout(w, me, move).pc; InPayout(pc) || pc == Over
  {
  }

  lemma OriginStays(steps: seq<Step>, s: Step, w: Shared, me: Attempt, move: Move)
    requires HasOrigin(steps, me)
    ensures HasOrigin(steps + [s], Learn(me, move).(pc := Decide(w, me, move).pc))
  {
    var j :| 0 <= j < |steps| && Began(steps[j], me);
    BeganStays(steps[j], w, me, move);
    assert (steps + [s])[j] == steps[j];
  }

  lemma OriginExtends(steps: seq<Step>, s: Step, me: Attempt)
    requires HasOrigin(steps, me)
    ensures HasOrigin(steps + [s], me)
  {
    var j :| 0 <= j < |steps| && Began(steps[j], me);
    assert (steps + [s])[j] == steps[j];
  }

  lemma BegunHasOrigin(steps: seq<Step>, s: Step, w: Shared)
    requires Begun(w, s).Some?
    ensures HasOrigin(steps + [s], Begun(w, s).value)
  {
    assert Began((steps + [s])[|steps|], Begun(w, s).value);
  }

  lemma StatedExtends(steps: seq<Step>, s: Step, e: seq<EscrowRow>, f: seq<EscrowRow>, entry: Release)
    requires StatedBy(steps, e, entry) && EscrowGrows(e, f) && NotPending(e)
    ensures StatedBy(steps + [s], f, entry)
  {
    var j: nat, i: nat :| j < |steps| && i < |e| && States(steps[j], e[i], entry);
    assert RowKept(e[i], f[i]) && (steps + [s])[j] == steps[j];
    assert States((steps + [s])[j], f[i], entry);
  }

  /** A row that has a payment has left PENDING. */
  predicate NotPending(escrow: seq<EscrowRow>)
  {
    forall i :: 0 <= i < |escrow| && escrow[i].payment.Some? ==> escrow[i].status != Pending
  }

  lemma WriteKeepsNotPending(w: Shared, write: Write)
    requires NotPending(w.db.escrow)
    ensures NotPending(Perform(w, write).db.escrow)
  {
    if write.WritesOracle? || write.ClaimsRow? || write.FailsRow? || write.WritesPayout? || write.Mints? {
      assert Perform(w, write).db.escrow == w.db.escrow;
    }
  }

  /** What a commit writes, from the attempt that commits. */
  lemma EntryIsStated(steps: seq<Step>, s: Step, w: Shared, me: Attempt)
    requires HasOrigin(steps, me) && me.pc.Committing? && PcOk(w, me.contract, me.pc)
    ensures var x := Perform(w, Settles(EntryOf(w, me))); StatedBy(steps + [s], x.db.escrow, EntryOf(w, me))
  {
    var e := EntryOf(w, me);
    var x := Perform(w, Settles(e));
    WriteGrows(w, Settles(e));
    var j :| 0 <= j < |steps| && Began(steps[j], me);
    assert (steps + [s])[j] == steps[j];
    var i := me.pc.held.row;
    assert RowKept(w.db.escrow[i], x.db.escrow[i]);
    assert States((steps + [s])[j], x.db.escrow[i], e);
  }

  lemma AttemptsKeepOrigin(steps: seq<Step>, w: World, s: Step)
    requires forall a :: a in w.attempts ==> HasOrigin(steps, w.attempts[a])
    ensures forall a :: a in Apply(w, s).attempts ==> HasOrigin(steps + [s], Apply(w, s).attempts[a])
  {
    var x := Apply(w, s);
    forall a | a in x.attempts ensures HasOrigin(steps + [s], x.attempts[a]) {
      if s.Act? && s.a == a {
        OriginStays(steps, s, w.shared, w.attempts[a], s.move);
      } else if a in w.attempts && x.attempts[a] == w.attempts[a] {
        OriginExtends(steps, s, w.attempts[a]);
      } else {
        BegunHasOrigin(steps, s, w.shared);
      }
    }
  }

  lemma LedgerKeepsStated(steps: seq<Step>, w: World, s: Step)
    requires Ok(w) && EntriesOk(steps, w) && NotPending(w.shared.db.escrow)
    ensures var x := Apply(w, s).shared.db;
            forall n :: 0 <= n < |x.ledger| ==> StatedBy(steps + [s], x.escrow, x.ledger[n])
  {
    var write, x := WriteOf(w, s), Apply(w, s).shared;
    StepWrites(w, s);
    WriteGrows(w.shared, write);
    LedgerOnlyBySettling(w.shared, write);
    forall n | 0 <= n < |x.db.ledger| ensures StatedBy(steps + [s], x.db.escrow, x.db.ledger[n]) {
      if n < |w.shared.db.ledger| {
        StatedExtends(steps, s, w.shared.db.escrow, x.db.escrow, w.shared.db.ledger[n]);
      } else {
        var me := w.attempts[s.a];
        OnlyCommittingSettles(w.shared, me, s.move);
        EntryIsStated(steps, s, w.shared, me);
      }
    }
  }

  lemma {:induction false} RunKeepsEntries(w: World, steps: seq<Step>)
    requires Initial(w)
    ensures NotPending(Run(w, steps).shared.db.escrow) && EntriesOk(steps, Run(w, steps))
  {
    if steps != [] {
      var before, last := steps[..|steps| - 1], steps[|steps| - 1];
      var x := Run(w, before);
      RunKeepsEntries(w, before);
      RunKeepsOk(w, before);
      StepWrites(x, last);
      WriteKeepsNotPending(x.shared, WriteOf(x, last));
      AttemptsKeepOrigin(before, x, last);
      LedgerKeepsStated(before, x, last);
      assert before + [last] == steps;
    }
  }

  /**
   * In every run each entry goes back to a step that began its attempt, and states the amount that request
   * named; the amount of the escrow row whose payment it releases, if it named none or was a recovery.
   */
  lemma EntriesStateTheirAmount(w: World, steps: seq<Step>, n: nat)
    requires Initial(w) && n < |Run(w, steps).shared.db.ledger|
    ensures var db := Run(w, steps).shared.db;
            exists j: nat, i: nat :: j < |steps| && i < |db.escrow| && States(steps[j], db.escrow[i], db.ledger[n])
  {
    RunKeepsEntries(w, steps);
    assert StatedBy(steps, Run(w, steps).shared.db.escrow, Run(w, steps).shared.db.ledger[n]);
  }
}
