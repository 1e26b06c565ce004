/** Every release is accounted for: which rows are released, and what came before each entry. */
module SettlementEvidence {
  import opened Encoding
  import opened Tables
  import opened Settlement
  import opened SettlementSafety
  import Oracle

  // ---------- evidence ----------

  /** The row named belongs to the contract, and has this payment and these terms. */
  predicate RowHas(escrow: seq<EscrowRow>, c: Id, held: Held)
  {
    && held.row < |escrow|
    && var row := escrow[held.row];
       && row.status != Pending && row.contract == c && row.payment == Some(held.payment)
       && row.amount == held.amount && row.currency == held.currency
  }

  predicate At(history: seq<Event>, i: nat, e: Event)
  {
    i < |history| && history[i] == e
  }

  /** An approved verdict, then a look-up that found this row held. */
  predicate FoundFor(w: Shared, c: Id, approvedAt: nat, foundAt: nat, held: Held)
  {
    && approvedAt < foundAt && At(w.history, approvedAt, Approved(c)) && At(w.history, foundAt, Found(c, held))
    && RowHas(w.db.escrow, c, held)
  }

  /** What an attempt at this point has behind it. */
  predicate PcOk(w: Shared, c: Id, pc: Pc)
  {
    match pc
    case Claiming(at) => At(w.history, at, Approved(c))
    case Looking(at) => At(w.history, at, Approved(c))
    case Capturing(approvedAt, foundAt, held) => FoundFor(w, c, approvedAt, foundAt, held)
    case Confirming(approvedAt, foundAt, held) => FoundFor(w, c, approvedAt, foundAt, held)
    case Committing(approvedAt, foundAt, capturedAt, held) =>
      FoundFor(w, c, approvedAt, foundAt, held) && At(w.history, capturedAt, Captured(held))
    case _ => true
  }

  function EntryHeld(w: Shared, e: Release): Held
    requires e.trace.row < |w.db.escrow|
  {
    Held(e.trace.row, e.payment, w.db.escrow[e.trace.row].amount, e.currency)
  }

  /** An entry stands on a released row, a verdict, a look-up and a capture of that row's own terms. */
  predicate Justified(w: Shared, e: Release)
  {
    var t := e.trace;
    && t.row < |w.db.escrow| && w.db.escrow[t.row].status == Released
    && FoundFor(w, e.contract, t.approvedAt, t.foundAt, EntryHeld(w, e))
    && At(w.history, t.capturedAt, Captured(EntryHeld(w, e)))
    && t.foundAt < t.committedAt && t.capturedAt < t.committedAt
    && At(w.history, t.committedAt, Committed(e.payment))
  }

  predicate LedgerOk(w: Shared)
  {
    forall n :: 0 <= n < |w.db.ledger| ==> Justified(w, w.db.ledger[n])
  }

  predicate HasEntry(w: Shared, i: nat)
  {
    exists n :: 0 <= n < |w.db.ledger| && w.db.ledger[n].trace.row == i
  }

  predicate ReleasedOk(w: Shared)
  {
    forall i :: 0 <= i < |w.db.escrow| && w.db.escrow[i].status == Released ==> HasEntry(w, i)
  }

  /** The provider has captured only what some row's own terms were. */
  predicate CapturedOk(w: Shared)
  {
    forall p :: p in w.captured ==> CaptureKnown(w, p, w.captured[p])
  }

  predicate CaptureKnown(w: Shared, p: Id, at: nat)
  {
    && at < |w.history| && w.history[at].Captured? && w.history[at].held.payment == p
    && w.history[at].held.row < |w.db.escrow|
    && RowHas(w.db.escrow, w.db.escrow[w.history[at].held.row].contract, w.history[at].held)
  }

  /** The primary key, and the unique index on payment_id. */
  predicate UniqueKeys(escrow: seq<EscrowRow>)
  {
    && (forall i, j :: 0 <= i < j < |escrow| ==> escrow[i].order != escrow[j].order)
    && (forall i, j :: 0 <= i < j < |escrow| && escrow[i].payment.Some? ==> escrow[i].payment != escrow[j].payment)
  }

  predicate SharedOk(w: Shared)
  {
    UniqueKeys(w.db.escrow) && LedgerOk(w) && ReleasedOk(w) && CapturedOk(w)
  }

  predicate AttemptsOk(w: Shared, attempts: map<nat, Attempt>)
  {
    forall a :: a in attempts ==> PcOk(w, attempts[a].contract, attempts[a].pc)
  }

  predicate Ok(w: World)
  {
    SharedOk(w.shared) && AttemptsOk(w.shared, w.attempts)
  }

  lemma PcOkGrows(w: Shared, x: Shared, c: Id, pc: Pc)
    requires Grows(w, x) && PcOk(w, c, pc)
    ensures PcOk(x, c, pc)
  {
  }

  lemma CaptureKnownGrows(w: Shared, x: Shared, p: Id, at: nat)
    requires Grows(w, x) && CaptureKnown(w, p, at)
    ensures CaptureKnown(x, p, at)
  {
    var held := w.history[at].held;
    assert RowKept(w.db.escrow[held.row], x.db.escrow[held.row]);
  }

  // ---------- what a write must have behind it ----------

  predicate WriteOk(w: Shared, write: Write)
  {
    match write
    case Takes(held) => held.row < |w.db.escrow| && RowHas(w.db.escrow, w.db.escrow[held.row].contract, held)
    case Settles(e) =>
      && e.trace.row < |w.db.escrow|
      && FoundFor(w, e.contract, e.trace.approvedAt, e.trace.foundAt, EntryHeld(w, e))
      && At(w.history, e.trace.capturedAt, Captured(EntryHeld(w, e)))
      && e.trace.committedAt == |w.history|
    case _ => true
  }

  lemma DecideIsBacked(w: Shared, me: Attempt, move: Move)
    requires PcOk(w, me.contract, me.pc)
    ensures WriteOk(w, Decide(w, me, move).write)
  {
    var write := Decide(w, me, move).write;
    if write.Settles? {
      OnlyCommittingSettles(w, me, move);
      assert EntryHeld(w, EntryOf(w, me)) == me.pc.held;
    } else if write.Takes? {
      OnlyCapturingTakes(w, me, move);
    }
  }

  lemma OnlyCommittingSettles(w: Shared, me: Attempt, move: Move)
    requires Decide(w, me, move).write.Settles?
    ensures me.pc.Committing? && Decide(w, me, move).write.entry == EntryOf(w, me)
  {
  }

  lemma OnlyCapturingTakes(w: Shared, me: Attempt, move: Move)
    requires Decide(w, me, move).write.Takes?
    ensures me.pc.Capturing? && Decide(w, me, move).write.held == me.pc.held
  {
  }

  lemma SettledIsJustified(w: Shared, e: Release)
    requires WriteOk(w, Settles(e))
    ensures Justified(Perform(w, Settles(e)), e)
  {
    var x := Perform(w, Settles(e));
    WriteGrows(w, Settles(e));
    assert x.db.escrow[e.trace.row] == ReleaseRow(w.db.escrow[e.trace.row], e.payment);
  }

  lemma WriteKeepsLedger(w: Shared, write: Write)
    requires LedgerOk(w) && WriteOk(w, write)
    ensures LedgerOk(Perform(w, write))
  {
    var x := Perform(w, write);
    WriteGrows(w, write);
    forall n | 0 <= n < |x.db.ledger| ensures Justified(x, x.db.ledger[n]) {
      if n >= |w.db.ledger| {
        LedgerOnlyBySettling(w, write);
        SettledIsJustified(w, write.entry);
      }
    }
  }

  lemma LedgerOnlyBySettling(w: Shared, write: Write)
    ensures Perform(w, write).db.ledger == w.db.ledger + if write.Settles? then [write.entry] else []
  {
  }

  lemma WriteKeepsCaptured(w: Shared, write: Write)
    requires CapturedOk(w) && WriteOk(w, write)
    ensures CapturedOk(Perform(w, write))
  {
    var x := Perform(w, write);
    WriteGrows(w, write);
    forall p | p in x.captured ensures CaptureKnown(x, p, x.captured[p]) {
      if !write.Takes? || p != write.held.payment {
        CapturedOnlyByTaking(w, write, p);
        CaptureKnownGrows(w, x, p, w.captured[p]);
      }
    }
  }

  lemma CapturedOnlyByTaking(w: Shared, write: Write, p: Id)
    requires p in Perform(w, write).captured && !(write.Takes? && p == write.held.payment)
    ensures p in w.captured && Perform(w, write).captured[p] == w.captured[p]
  {
  }

  lemma WriteKeepsKeys(w: Shared, write: Write)
    requires UniqueKeys(w.db.escrow)
    ensures UniqueKeys(Perform(w, write).db.escrow)
  {
    if write.AuthorizesOrder? {
      AuthorizeKeepsKeys(w.db.escrow, write.order, write.paymentOfOrder);
    } else if !write.CreatesOrder? {
      KeysOnlyByOrders(w, write);
    }
  }

  lemma AuthorizeKeepsKeys(escrow: seq<EscrowRow>, order: Id, payment: Option<Id>)
    requires UniqueKeys(escrow)
    ensures UniqueKeys(AuthorizeOrder(escrow, order, payment))
  {
    var x := AuthorizeOrder(escrow, order, payment);
    forall i, j | 0 <= i < j < |x| && x[i].payment.Some? ensures x[i].payment != x[j].payment {
      assert escrow[i].order != escrow[j].order;
    }
  }

  lemma KeysOnlyByOrders(w: Shared, write: Write)
    requires !write.CreatesOrder? && !write.AuthorizesOrder?
    ensures var x := Perform(w, write).db.escrow;
            |x| == |w.db.escrow| &&
            forall i :: 0 <= i < |x| ==> x[i].order == w.db.escrow[i].order && x[i].payment == w.db.escrow[i].payment
  {
  }

  /** A row becomes RELEASED only by the transaction that writes its entry. */
  lemma WriteKeepsReleased(w: Shared, write: Write)
    requires ReleasedOk(w) && UniqueKeys(w.db.escrow) && WriteOk(w, write)
    ensures ReleasedOk(Perform(w, write))
  {
    var x := Perform(w, write);
    WriteGrows(w, write);
    LedgerOnlyBySettling(w, write);
    forall i | 0 <= i < |x.db.escrow| && x.db.escrow[i].status == Released ensures HasEntry(x, i) {
      if i >= |w.db.escrow| || w.db.escrow[i].status != Released {
        ReleasedOnlyBySettling(w, write, i);
        assert x.db.ledger[|w.db.ledger|].trace.row == i;
      }
    }
  }

  lemma ReleasedOnlyBySettling(w: Shared, write: Write, i: nat)
    requires i < |Perform(w, write).db.escrow| && Perform(w, write).db.escrow[i].status == Released
    requires i < |w.db.escrow| ==> w.db.escrow[i].status != Released
    requires UniqueKeys(w.db.escrow) && WriteOk(w, write)
    ensures write.Settles? && i == write.entry.trace.row
  {
    assert write.Settles?;
    assert w.db.escrow[i].payment == Some(write.entry.payment);
  }

  lemma WriteKeepsShared(w: Shared, write: Write)
    requires SharedOk(w) && WriteOk(w, write)
    ensures SharedOk(Perform(w, write))
  {
    WriteKeepsLedger(w, write);
    WriteKeepsCaptured(w, write);
    WriteKeepsKeys(w, write);
    WriteKeepsReleased(w, write);
  }

  // ---------- attempts ----------

  /** A capture that was confirmed afterwards was a capture of the row looked up. */
  lemma ConfirmedCapture(w: Shared, c: Id, held: Held)
    requires SharedOk(w) && RowHas(w.db.escrow, c, held) && held.payment in w.captured
    ensures At(w.history, w.captured[held.payment], Captured(held))
  {
    var at := w.captured[held.payment];
    assert CaptureKnown(w, held.payment, at);
    var other := w.history[at].held;
    assert w.db.escrow[other.row].payment == w.db.escrow[held.row].payment;
    assert other.row == held.row;
  }

  lemma LookKeeps(w: Shared, me: Attempt, pick: Option<nat>)
    requires me.pc.Looking? && PcOk(w, me.contract, me.pc)
    ensures var o := Look(w, me, pick); PcOk(Perform(w, o.write), me.contract, o.pc)
  {
  }

  lemma CaptureKeeps(w: Shared, me: Attempt, answer: Answer)
    requires me.pc.Capturing? && PcOk(w, me.contract, me.pc)
    ensures var o := Capture(w, me, answer); PcOk(Perform(w, o.write), me.contract, o.pc)
  {
  }

  lemma DecideCaptureKeeps(w: Shared, me: Attempt, move: Move)
    requires SharedOk(w) && PcOk(w, me.contract, me.pc) && !InPayout(me.pc)
    ensures var o := DecideCapture(w, me, move); PcOk(Perform(w, o.write), me.contract, o.pc)
  {
    var o := DecideCapture(w, me, move);
    if me.pc.Looking? && move.Looks? {
      LookKeeps(w, me, move.pick);
    } else if me.pc.Capturing? && move.Captures? {
      CaptureKeeps(w, me, move.answer);
    } else if me.pc.Confirming? && move.Confirms? && o.pc.Committing? {
      ConfirmedCapture(w, me.contract, me.pc.held);
    } else if o.pc == me.pc {
      WriteGrows(w, o.write);
    } else {
      PlainMoveKeeps(w, me, move);
    }
  }

  lemma PlainMoveKeeps(w: Shared, me: Attempt, move: Move)
    requires PcOk(w, me.contract, me.pc) && !me.pc.Looking? && !me.pc.Capturing?
    requires var pc := DecideCapture(w, me, move).pc; pc != me.pc && (me.pc.Confirming? ==> !pc.Committing?)
    ensures var o := DecideCapture(w, me, move); PcOk(Perform(w, o.write), me.contract, o.pc)
  {
  }

  lemma MoveKeeps(w: Shared, me: Attempt, move: Move)
    requires SharedOk(w) && PcOk(w, me.contract, me.pc)
    ensures var o := Decide(w, me, move); PcOk(Perform(w, o.write), me.contract, o.pc)
  {
    if !InPayout(me.pc) {
      DecideCaptureKeeps(w, me, move);
    }
  }

  lemma OthersKeep(w: Shared, write: Write, attempts: map<nat, Attempt>)
    requires AttemptsOk(w, attempts)
    ensures AttemptsOk(Perform(w, write), attempts)
  {
    WriteGrows(w, write);
    forall a | a in attempts ensures PcOk(Perform(w, write), attempts[a].contract, attempts[a].pc) {
      PcOkGrows(w, Perform(w, write), attempts[a].contract, attempts[a].pc);
    }
  }

  lemma ReplacedIsOk(w: Shared, attempts: map<nat, Attempt>, a: nat, me: Attempt)
    requires AttemptsOk(w, attempts) && PcOk(w, me.contract, me.pc)
    ensures AttemptsOk(w, attempts[a := me])
  {
  }

  lemma ActKeepsOk(w: World, a: nat, move: Move)
    requires Ok(w) && a in w.attempts
    ensures Ok(Apply(w, Act(a, move)))
  {
    var me := w.attempts[a];
    var o := Decide(w.shared, me, move);
    assert PcOk(w.shared, me.contract, me.pc);
    DecideIsBacked(w.shared, me, move);
    WriteKeepsShared(w.shared, o.write);
    OthersKeep(w.shared, o.write, w.attempts);
    MoveKeeps(w.shared, me, move);
    ReplacedIsOk(Perform(w.shared, o.write), w.attempts, a, Learn(me, move).(pc := o.pc));
  }

  lemma BegunIsOk(w: Shared, s: Step)
    requires Begun(w, s).Some?
    ensures PcOk(w, Begun(w, s).value.contract, Begun(w, s).value.pc)
  {
  }

  lemma StepKeepsOk(w: World, s: Step)
    requires Ok(w)
    ensures Ok(Apply(w, s))
  {
    match s
    case Outside(write) =>
      if IsOutside(write) {
        WriteKeepsShared(w.shared, write);
        OthersKeep(w.shared, write, w.attempts);
      }
    case Act(a, move) =>
      if a in w.attempts {
        ActKeepsOk(w, a, move);
      }
    case Crashed(a) =>
    case _ =>
      if Begun(w.shared, s).Some? {
        BegunIsOk(w.shared, s);
      }
  }

  lemma {:induction false} RunKeepsOk(w: World, steps: seq<Step>)
    requires Initial(w)
    ensures Ok(Run(w, steps))
  {
    if steps != [] {
      RunKeepsOk(w, steps[..|steps| - 1]);
      StepKeepsOk(Run(w, steps[..|steps| - 1]), steps[|steps| - 1]);
    }
  }

  /** A verdict is noted only when the gate holds of what was read, a look-up only of a held row. */
  lemma NotesAreTrue(w: Shared, me: Attempt, move: Move)
    ensures var write := Decide(w, me, move).write;
            write.Notes? ==>
              || (write.note == Approved(me.contract) && me.pc.ReadingScope?
                  && Oracle.Gate(me.pc.state, RejectedOf(w, me.contract)))
              || (write.note.Found? && write.note.contract == me.contract
                  && IsLatestHeld(w.db.escrow, me.contract, write.note.held.row)
                  && write.note.held == HeldAt(w.db.escrow, write.note.held.row))
  {
  }

  // ---------- the theorems ----------

  predicate CompletedFor(ledger: seq<Release>, payment: Option<Id>)
  {
    payment.Some? && exists n :: 0 <= n < |ledger| && ledger[n].payment == payment.value
  }

  /** In every run, a row is RELEASED exactly when the ledger holds SETTLEMENT_COMPLETED for its payment. */
  lemma ReleasedIffCompleted(w: World, steps: seq<Step>, i: nat)
    requires Initial(w)
    requires i < |Run(w, steps).shared.db.escrow|
    ensures var db := Run(w, steps).shared.db;
            db.escrow[i].status == Released <==> CompletedFor(db.ledger, db.escrow[i].payment)
  {
    RunKeepsOk(w, steps);
    ReleasedIff(Run(w, steps).shared, i);
  }

  lemma ReleasedIff(w: Shared, i: nat)
    requires SharedOk(w) && i < |w.db.escrow|
    ensures w.db.escrow[i].status == Released <==> CompletedFor(w.db.ledger, w.db.escrow[i].payment)
  {
    if w.db.escrow[i].status == Released {
      assert HasEntry(w, i);
      var n :| 0 <= n < |w.db.ledger| && w.db.ledger[n].trace.row == i;
      assert Justified(w, w.db.ledger[n]);
    }
    if CompletedFor(w.db.ledger, w.db.escrow[i].payment) {
      var n :| 0 <= n < |w.db.ledger| && w.db.ledger[n].payment == w.db.escrow[i].payment.value;
      assert Justified(w, w.db.ledger[n]);
      var row := w.db.ledger[n].trace.row;
      assert w.db.escrow[row].payment == w.db.escrow[i].payment;
      assert row == i;
    }
  }

  /** Four points of a history, in order: verdict, look-up, and a capture, all before the commit. */
  predicate Preceded(history: seq<Event>, c: Id, held: Held, verdict: nat, lookUp: nat, capture: nat, commit: nat)
  {
    && verdict < lookUp < commit && capture < commit
    && At(history, verdict, Approved(c)) && At(history, lookUp, Found(c, held))
    && At(history, capture, Captured(held)) && At(history, commit, Committed(held.payment))
  }

  /** Each entry follows an approved verdict, an AUTHORIZED look-up and a capture of its row's own terms. */
  lemma EntriesArePreceded(w: World, steps: seq<Step>, n: nat)
    requires Initial(w)
    requires n < |Run(w, steps).shared.db.ledger|
    ensures var x := Run(w, steps).shared;
            exists held: Held, verdict: nat, lookUp: nat, capture: nat, commit: nat ::
              && held.payment == x.db.ledger[n].payment && RowHas(x.db.escrow, x.db.ledger[n].contract, held)
              && Preceded(x.history, x.db.ledger[n].contract, held, verdict, lookUp, capture, commit)
  {
    RunKeepsOk(w, steps);
    var x := Run(w, steps).shared;
    var e := x.db.ledger[n];
    assert Justified(x, e);
    assert Preceded(x.history, e.contract, EntryHeld(x, e),
                    e.trace.approvedAt, e.trace.foundAt, e.trace.capturedAt, e.trace.committedAt);
  }
}
