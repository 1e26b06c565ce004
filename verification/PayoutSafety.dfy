/** What the payout port can have paid, in every run of the settlement protocol. */
module PayoutSafety {
  import opened Encoding
  import opened Tables
  import opened Settlement
  import opened SettlementSafety
  import opened SettlementEvidence

  // ---------- what stands behind a payout ----------

  /** Row i is released for this contract and this payment. */
  predicate IsReleasedRow(escrow: seq<EscrowRow>, c: Id, payment: Id, i: nat)
  {
    i < |escrow| && escrow[i].status == Released && escrow[i].contract == c && escrow[i].payment == Some(payment)
  }

  ghost predicate ReleasedFor(escrow: seq<EscrowRow>, c: Id, payment: Id)
  {
    exists i: nat :: IsReleasedRow(escrow, c, payment, i)
  }

  /** Exactly the terms of a released row of the contract. */
  predicate DueOk(escrow: seq<EscrowRow>, c: Id, due: Held)
  {
    && IsReleasedRow(escrow, c, due.payment, due.row)
    && escrow[due.row].amount == due.amount && escrow[due.row].currency == due.currency
  }

  ghost predicate TransfersOk(db: Db)
  {
    forall c :: c in db.settlements && db.settlements[c].transferId.Some? ==>
      ReleasedFor(db.escrow, c, db.settlements[c].transferId.value)
  }

  predicate PayoutsOk(w: Shared)
  {
    && (forall k :: 0 <= k < |w.payouts| ==> DueOk(w.db.escrow, w.payouts[k].contract, w.payouts[k].due))
    && (forall j, k :: 0 <= j < k < |w.payouts| ==> w.payouts[j].contract != w.payouts[k].contract)
  }

  ghost predicate PayOk(escrow: seq<EscrowRow>, c: Id, pc: Pc)
  {
    match pc
    case ReadingAmount(payment) => ReleasedFor(escrow, c, payment)
    case Marking(due) => DueOk(escrow, c, due)
    case Issuing(due) => DueOk(escrow, c, due)
    case _ => true
  }

  ghost predicate AllPayOk(escrow: seq<EscrowRow>, attempts: map<nat, Attempt>)
  {
    forall a :: a in attempts ==> PayOk(escrow, attempts[a].contract, attempts[a].pc)
  }

  ghost predicate PayoutInvariant(w: World)
  {
    TransfersOk(w.shared.db) && PayoutsOk(w.shared) && AllPayOk(w.shared.db.escrow, w.attempts)
  }

  // ---------- it lasts ----------

  lemma ReleasedForGrows(e: seq<EscrowRow>, f: seq<EscrowRow>, c: Id, payment: Id)
    requires EscrowGrows(e, f) && ReleasedFor(e, c, payment)
    ensures ReleasedFor(f, c, payment)
  {
    var i: nat :| IsReleasedRow(e, c, payment, i);
    assert RowKept(e[i], f[i]);
    assert IsReleasedRow(f, c, payment, i);
  }

  lemma PayOkGrows(e: seq<EscrowRow>, f: seq<EscrowRow>, c: Id, pc: Pc)
    requires EscrowGrows(e, f) && PayOk(e, c, pc)
    ensures PayOk(f, c, pc)
  {
    match pc
    case ReadingAmount(payment) => ReleasedForGrows(e, f, c, payment);
    case _ =>
  }

  // ---------- each write ----------

  predicate MintOk(w: Shared, write: Write)
  {
    write.Mints? ==> DueOk(w.db.escrow, write.contract, write.due)
  }

  /** Only the settlement transaction writes a transfer id, and it releases the row in the same step. */
  lemma TransferOnlyBySettling(w: Shared, write: Write, c: Id)
    requires c in Perform(w, write).db.settlements && Perform(w, write).db.settlements[c].transferId.Some?
    requires !(write.Settles? && write.entry.contract == c)
    ensures c in w.db.settlements && w.db.settlements[c].transferId == Perform(w, write).db.settlements[c].transferId
  {
  }

  lemma SettledRowIsReleased(w: Shared, entry: Release)
    requires WriteOk(w, Settles(entry))
    ensures IsReleasedRow(Perform(w, Settles(entry)).db.escrow, entry.contract, entry.payment, entry.trace.row)
  {
    SettledIsJustified(w, entry);
  }

  lemma WriteKeepsTransfers(w: Shared, write: Write)
    requires TransfersOk(w.db) && WriteOk(w, write)
    ensures TransfersOk(Perform(w, write).db)
  {
    var x := Perform(w, write);
    WriteGrows(w, write);
    forall c | c in x.db.settlements && x.db.settlements[c].transferId.Some?
      ensures ReleasedFor(x.db.escrow, c, x.db.settlements[c].transferId.value)
    {
      if write.Settles? && write.entry.contract == c {
        SettledRowIsReleased(w, write.entry);
      } else {
        TransferOnlyBySettling(w, write, c);
        ReleasedForGrows(w.db.escrow, x.db.escrow, c, w.db.settlements[c].transferId.value);
      }
    }
  }

  lemma WriteKeepsPayouts(w: Shared, write: Write)
    requires PayoutsOk(w) && MintOk(w, write)
    ensures PayoutsOk(Perform(w, write))
  {
    var x := Perform(w, write);
    WriteGrows(w, write);
    forall k | 0 <= k < |x.payouts| ensures DueOk(x.db.escrow, x.payouts[k].contract, x.payouts[k].due) {
    }
  }

  // ---------- each move ----------

  lemma MintIsBacked(w: Shared, me: Attempt, move: Move)
    requires PayOk(w.db.escrow, me.contract, me.pc)
    ensures MintOk(w, Decide(w, me, move).write)
  {
    if InPayout(me.pc) {
      OnlyIssuingMints(w, me, move);
    } else {
      CaptureLegMintsNothing(w, me, move);
    }
  }

  lemma OnlyIssuingMints(w: Shared, me: Attempt, move: Move)
    ensures var write := DecidePayout(w, me, move).write;
            write.Mints? ==> me.pc.Issuing? && write.contract == me.contract && write.due == me.pc.due
  {
  }

  lemma CaptureLegMintsNothing(w: Shared, me: Attempt, move: Move)
    ensures !DecideCapture(w, me, move).write.Mints?
  {
  }

  lemma MoveKeepsPay(w: Shared, me: Attempt, move: Move)
    requires UniqueKeys(w.db.escrow) && TransfersOk(w.db) && PayOk(w.db.escrow, me.contract, me.pc)
    ensures PayOk(w.db.escrow, me.contract, Decide(w, me, move).pc)
  {
    if !InPayout(me.pc) {
      CaptureLegPaysNothing(w, me, move);
    }
  }

  lemma CaptureLegPaysNothing(w: Shared, me: Attempt, move: Move)
    requires !InPayout(me.pc)
    ensures var pc := DecideCapture(w, me, move).pc; InPayout(pc) ==> pc.ReadingAccount?
  {
  }

  lemma ActKeepsShared(w: Shared, me: Attempt, move: Move)
    requires SharedOk(w) && TransfersOk(w.db) && PayoutsOk(w)
    requires PcOk(w, me.contract, me.pc) && PayOk(w.db.escrow, me.contract, me.pc)
    ensures var x := Perform(w, Decide(w, me, move).write); TransfersOk(x.db) && PayoutsOk(x)
  {
    DecideIsBacked(w, me, move);
    MintIsBacked(w, me, move);
    WriteKeepsTransfers(w, Decide(w, me, move).write);
    WriteKeepsPayouts(w, Decide(w, me, move).write);
  }

  lemma ActKeepsPayout(w: World, a: nat, move: Move)
    requires Ok(w) && PayoutInvariant(w) && a in w.attempts
    ensures PayoutInvariant(Apply(w, Act(a, move)))
  {
    var me := w.attempts[a];
    var o := Decide(w.shared, me, move);
    assert PcOk(w.shared, me.contract, me.pc) && PayOk(w.shared.db.escrow, me.contract, me.pc);
    ActKeepsShared(w.shared, me, move);
    MoveKeepsPay(w.shared, me, move);
    var attempts := w.attempts[a := Learn(me, move).(pc := o.pc)];
    ReplacedPays(w.shared.db.escrow, w.attempts, a, Learn(me, move).(pc := o.pc));
    OthersKeepPay(w.shared, o.write, attempts);
  }

  lemma ReplacedPays(escrow: seq<EscrowRow>, attempts: map<nat, Attempt>, a: nat, me: Attempt)
    requires AllPayOk(escrow, attempts) && PayOk(escrow, me.contract, me.pc)
    ensures AllPayOk(escrow, attempts[a := me])
  {
  }

  lemma OthersKeepPay(w: Shared, write: Write, attempts: map<nat, Attempt>)
    requires AllPayOk(w.db.escrow, attempts)
    ensures AllPayOk(Perform(w, write).db.escrow, attempts)
  {
    WriteGrows(w, write);
    forall a | a in attempts ensures PayOk(Perform(w, write).db.escrow, attempts[a].contract, attempts[a].pc) {
      PayOkGrows(w.db.escrow, Perform(w, write).db.escrow, attempts[a].contract, attempts[a].pc);
    }
  }

  lemma StepKeepsPayout(w: World, s: Step)
    requires Ok(w) && PayoutInvariant(w)
    ensures PayoutInvariant(Apply(w, s))
  {
    match s
    case Outside(write) =>
      if IsOutside(write) {
        WriteKeepsTransfers(w.shared, write);
        WriteKeepsPayouts(w.shared, write);
        OthersKeepPay(w.shared, write, w.attempts);
      }
    case Act(a, move) =>
      if a in w.attempts {
        ActKeepsPayout(w, a, move);
      }
    case Crashed(_) =>
    case _ =>
  }

  lemma {:induction false} RunKeepsPayout(w: World, steps: seq<Step>)
    requires Initial(w)
    ensures PayoutInvariant(Run(w, steps))
  {
    if steps != [] {
      var before := steps[..|steps| - 1];
      RunKeepsPayout(w, before);
      RunKeepsOk(w, before);
      StepKeepsPayout(Run(w, before), steps[|steps| - 1]);
    }
  }

  // ---------- the theorems ----------

  /** In every run: at most one payout per contract, of a released row's own terms, after its entry. */
  lemma PayoutsAreBacked(w: World, steps: seq<Step>, k: nat)
    requires Initial(w) && k < |Run(w, steps).shared.payouts|
    ensures var x := Run(w, steps).shared;
            && DueOk(x.db.escrow, x.payouts[k].contract, x.payouts[k].due)
            && CompletedFor(x.db.ledger, Some(x.payouts[k].due.payment))
            && forall j :: 0 <= j < |x.payouts| && x.payouts[j].contract == x.payouts[k].contract ==> j == k
  {
    RunKeepsPayout(w, steps);
    RunKeepsOk(w, steps);
    ReleasedIff(Run(w, steps).shared, Run(w, steps).shared.payouts[k].due.row);
  }

  function PaidTotal(payouts: seq<Payout>, currency: Id): nat
  {
    if payouts == [] then 0
    else
      var last := payouts[|payouts| - 1].due;
      PaidTotal(payouts[..|payouts| - 1], currency) + if last.currency == currency then last.amount else 0
  }

  function ReleasedTotal(escrow: seq<EscrowRow>, currency: Id): nat
  {
    if escrow == [] then 0
    else
      var row := escrow[|escrow| - 1];
      ReleasedTotal(escrow[..|escrow| - 1], currency) +
        if row.status == Released && row.currency == currency then row.amount else 0
  }

  /** What is released in one currency by rows outside a set. */
  function UnpaidTotal(escrow: seq<EscrowRow>, paid: set<nat>, currency: Id): nat
  {
    if escrow == [] then 0
    else
      var n := |escrow| - 1;
      UnpaidTotal(escrow[..n], paid, currency) +
        if escrow[n].status == Released && escrow[n].currency == currency && n !in paid then escrow[n].amount else 0
  }

  function PaidRows(payouts: seq<Payout>): set<nat>
  {
    set k | 0 <= k < |payouts| :: payouts[k].due.row
  }

  lemma {:induction false} NothingPaid(escrow: seq<EscrowRow>, currency: Id)
    ensures UnpaidTotal(escrow, {}, currency) == ReleasedTotal(escrow, currency)
  {
    if escrow != [] {
      NothingPaid(escrow[..|escrow| - 1], currency);
    }
  }

  /** A row that is paid is no longer unpaid; a row of another table is no matter. */
  lemma {:induction false} OnePaid(escrow: seq<EscrowRow>, paid: set<nat>, i: nat, currency: Id)
    requires i !in paid && (i < |escrow| ==> escrow[i].status == Released)
    ensures UnpaidTotal(escrow, paid, currency) == UnpaidTotal(escrow, paid + {i}, currency) +
            if i < |escrow| && escrow[i].currency == currency then escrow[i].amount else 0
  {
    if escrow != [] {
      OnePaid(escrow[..|escrow| - 1], paid, i, currency);
    }
  }

  lemma PaidRowsExtend(escrow: seq<EscrowRow>, payouts: seq<Payout>)
    requires payouts != []
    requires forall k :: 0 <= k < |payouts| ==> DueOk(escrow, payouts[k].contract, payouts[k].due)
    requires forall j, k :: 0 <= j < k < |payouts| ==> payouts[j].contract != payouts[k].contract
    ensures var n := |payouts| - 1;
            PaidRows(payouts) == PaidRows(payouts[..n]) + {payouts[n].due.row} && payouts[n].due.row !in PaidRows(payouts[..n])
  {
    var n := |payouts| - 1;
    assert forall k | 0 <= k < n :: payouts[..n][k] == payouts[k];
    forall k | 0 <= k < n ensures payouts[k].due.row != payouts[n].due.row {
      assert DueOk(escrow, payouts[k].contract, payouts[k].due) && DueOk(escrow, payouts[n].contract, payouts[n].due);
    }
  }

  lemma {:induction false} PaidAndUnpaid(escrow: seq<EscrowRow>, payouts: seq<Payout>, currency: Id)
    requires forall k :: 0 <= k < |payouts| ==> DueOk(escrow, payouts[k].contract, payouts[k].due)
    requires forall j, k :: 0 <= j < k < |payouts| ==> payouts[j].contract != payouts[k].contract
    ensures PaidTotal(payouts, currency) + UnpaidTotal(escrow, PaidRows(payouts), currency) == ReleasedTotal(escrow, currency)
  {
    if payouts == [] {
      assert PaidRows(payouts) == {};
      NothingPaid(escrow, currency);
    } else {
      var n := |payouts| - 1;
      PaidAndUnpaid(escrow, payouts[..n], currency);
      PaidRowsExtend(escrow, payouts);
      assert DueOk(escrow, payouts[n].contract, payouts[n].due);
      OnePaid(escrow, PaidRows(payouts[..n]), payouts[n].due.row, currency);
    }
  }

  /** Conservation: in every run and currency, what is released is what is paid and what stands unpaid, row by row. */
  lemma ReleasedIsPaidOrUnpaid(w: World, steps: seq<Step>, currency: Id)
    requires Initial(w)
    ensures var x := Run(w, steps).shared;
            PaidTotal(x.payouts, currency) + UnpaidTotal(x.db.escrow, PaidRows(x.payouts), currency)
            == ReleasedTotal(x.db.escrow, currency)
  {
    RunKeepsPayout(w, steps);
    PaidAndUnpaid(Run(w, steps).shared.db.escrow, Run(w, steps).shared.payouts, currency);
  }

  /** So in every run and every currency no more has been paid out than has been released. */
  lemma PaidAtMostReleased(w: World, steps: seq<Step>, currency: Id)
    requires Initial(w)
    ensures var x := Run(w, steps).shared; PaidTotal(x.payouts, currency) <= ReleasedTotal(x.db.escrow, currency)
  {
    ReleasedIsPaidOrUnpaid(w, steps, currency);
  }

  // ---------- a second release ----------

  lemma WriteKeepsIssued(w: Shared, write: Write, c: Id)
    requires Issued(w.payouts, c)
    ensures w.payouts <= Perform(w, write).payouts && Issued(Perform(w, write).payouts, c)
    ensures forall k :: |w.payouts| <= k < |Perform(w, write).payouts| ==> Perform(w, write).payouts[k].contract != c
  {
    assert write.Mints? || Perform(w, write).payouts == w.payouts;
    var i :| 0 <= i < |w.payouts| && w.payouts[i].contract == c;
    assert Perform(w, write).payouts[i].contract == c;
  }

  /** The key is one per contract: once a contract has its payout, no step of any run adds another. */
  lemma {:induction false} NoSecondPayout(w: World, more: seq<Step>, c: Id)
    requires Issued(w.shared.payouts, c)
    ensures w.shared.payouts <= Run(w, more).shared.payouts && Issued(Run(w, more).shared.payouts, c)
    ensures var after := Run(w, more).shared.payouts;
            forall k :: |w.shared.payouts| <= k < |after| ==> after[k].contract != c
  {
    if more != [] {
      var x, last := Run(w, more[..|more| - 1]), more[|more| - 1];
      NoSecondPayout(w, more[..|more| - 1], c);
      StepWrites(x, last);
      WriteKeepsIssued(x.shared, WriteOf(x, last), c);
    }
  }

  /** So a contract that releases a second row is never paid for it: that row stays among the unpaid. */
  lemma SecondReleaseIsNeverPaid(w: World, steps: seq<Step>, more: seq<Step>, k: nat, i: nat)
    requires Initial(w) && k < |Run(w, steps).shared.payouts| && i != Run(w, steps).shared.payouts[k].due.row
    requires i < |Run(w, steps).shared.db.escrow|
    requires Run(w, steps).shared.db.escrow[i].contract == Run(w, steps).shared.payouts[k].contract
    ensures i !in PaidRows(Run(Run(w, steps), more).shared.payouts)
  {
    var x, c := Run(w, steps), Run(w, steps).shared.payouts[k].contract;
    RunConcat(w, steps, more);
    RunKeepsPayout(w, steps);
    RunKeepsPayout(w, steps + more);
    EscrowNeverMovesDown(w, steps, more);
    NoSecondPayout(x, more, c);
    var y := Run(x, more).shared;
    forall j | 0 <= j < |y.payouts| ensures y.payouts[j].due.row != i {
      assert DueOk(y.db.escrow, y.payouts[j].contract, y.payouts[j].due);
      assert RowKept(x.shared.db.escrow[i], y.db.escrow[i]);
      assert y.payouts[k] == x.shared.payouts[k];
      assert j != k ==> y.payouts[j].contract != c;
    }
  }
}
