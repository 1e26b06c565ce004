/** What every step of the settlement protocol keeps, whatever the interleaving. */
module SettlementSafety {
  import opened Encoding
  import opened Tables
  import opened Settlement
  import Oracle

  // ---------- how the tables grow ----------

  function Rank(s: EscrowStatus): nat
  {
    match s
    case Pending => 0
    case Authorized => 1
    case EscrowFailed => 2
    case Released => 3
  }

  /** A row keeps its terms, its payment once it has left PENDING, and never moves down. */
  predicate RowKept(r: EscrowRow, s: EscrowRow)
  {
    && r.order == s.order && r.contract == s.contract && r.amount == s.amount && r.currency == s.currency
    && r.createdAt == s.createdAt
    && Rank(r.status) <= Rank(s.status)
    && (r.status != Pending ==> r.payment == s.payment)
  }

  predicate EscrowGrows(e: seq<EscrowRow>, f: seq<EscrowRow>)
  {
    |e| <= |f| && forall i :: 0 <= i < |e| ==> RowKept(e[i], f[i])
  }

  predicate Grows(w: Shared, x: Shared)
  {
    EscrowGrows(w.db.escrow, x.db.escrow) && w.history <= x.history && w.db.ledger <= x.db.ledger
  }

  lemma WriteGrowsEscrow(w: Shared, write: Write)
    ensures EscrowGrows(w.db.escrow, Perform(w, write).db.escrow)
  {
    if write.WritesOracle? || write.ClaimsRow? || write.FailsRow? || write.WritesPayout? || write.Mints? {
      assert Perform(w, write).db.escrow == w.db.escrow;
    }
  }

  lemma WriteGrows(w: Shared, write: Write)
    ensures Grows(w, Perform(w, write))
  {
    WriteGrowsEscrow(w, write);
  }

  /** The one write of a step: nothing for the steps that only begin or end an attempt. */
  function WriteOf(w: World, s: Step): Write
  {
    match s
    case Outside(write) => if IsOutside(write) then write else Nothing
    case Act(a, move) => if a in w.attempts then Decide(w.shared, w.attempts[a], move).write else Nothing
    case _ => Nothing
  }

  lemma StepWrites(w: World, s: Step)
    ensures Apply(w, s).shared == Perform(w.shared, WriteOf(w, s))
  {
  }

  lemma RunUnfold(w: World, steps: seq<Step>, s: Step)
    ensures Run(w, steps + [s]) == Apply(Run(w, steps), s)
  {
    assert (steps + [s])[..|steps|] == steps;
  }

  lemma {:induction false} RunConcat(w: World, steps: seq<Step>, more: seq<Step>)
    ensures Run(w, steps + more) == Run(Run(w, steps), more)
  {
    if more == [] {
      assert steps + more == steps;
    } else {
      var n := |more| - 1;
      RunConcat(w, steps, more[..n]);
      assert steps + more == (steps + more[..n]) + [more[n]];
      RunUnfold(w, steps + more[..n], more[n]);
    }
  }

  /** Between any two points of any run: no escrow row moves down, and no entry or event is lost. */
  lemma {:induction false} EscrowNeverMovesDown(w: World, steps: seq<Step>, more: seq<Step>)
    ensures Grows(Run(w, steps).shared, Run(w, steps + more).shared)
  {
    if more == [] {
      assert steps + more == steps;
    } else {
      var n := |more| - 1;
      var x, last := Run(w, steps + more[..n]), more[n];
      EscrowNeverMovesDown(w, steps, more[..n]);
      assert steps + more == (steps + more[..n]) + [last];
      RunUnfold(w, steps + more[..n], last);
      StepWrites(x, last);
      WriteGrows(x.shared, WriteOf(x, last));
    }
  }
}
