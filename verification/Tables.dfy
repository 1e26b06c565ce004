/**
 * The shared tables of the settlement worker, one function per SQL statement that changes them,
 * and the same statements as methods over the tables in place.
 */
module Tables {
  import opened Encoding

  type Id = nat

  datatype SettleStatus = Processing | Completed | Failed

  datatype PayoutStatus = PayoutPending | PayoutProcessing | PayoutCompleted | PayoutFailed | PayoutFailedTerminal

  /** A row of settlements, keyed by contract. */
  datatype Settlement = Settlement(
    status: SettleStatus, transferId: Option<Id>, payoutStatus: PayoutStatus, payoutAttempts: nat)

  datatype EscrowStatus = Pending | Authorized | EscrowFailed | Released

  datatype EscrowRow = EscrowRow(
    order: Id, contract: Id, amount: nat, currency: Id, createdAt: int, status: EscrowStatus, payment: Option<Id>)

  /** A SETTLEMENT_COMPLETED entry. The last field says where its evidence stands in a run's history. */
  datatype Release = Release(
    contract: Id, freelancer: Option<Id>, payment: Id, amount: int, currency: Id, trace: Trace)

  /** History variables: nothing the worker does depends on them. */
  datatype Trace = Trace(row: nat, approvedAt: nat, foundAt: nat, capturedAt: nat, committedAt: nat)

  datatype Db = Db(
    settlements: map<Id, Settlement>, escrow: seq<EscrowRow>, ledger: seq<Release>, deliveries: map<Id, nat>)

  /** What findEscrowPayment answers. */
  datatype Held = Held(row: nat, payment: Id, amount: nat, currency: Id)

  // ---------- settlements ----------

  predicate Claimable(db: Db, c: Id)
  {
    c !in db.settlements || db.settlements[c].status == Failed
  }

  /** INSERT … ON CONFLICT DO UPDATE … WHERE status = 'FAILED'. */
  function Claim(db: Db, c: Id): Db
  {
    if !Claimable(db, c) then db
    else if c in db.settlements then db.(settlements := db.settlements[c := db.settlements[c].(status := Processing)])
    else db.(settlements := db.settlements[c := Settlement(Processing, None, PayoutPending, 0)])
  }

  /** The write that is not guarded by the status it overwrites. */
  function MarkFailed(db: Db, c: Id): Db
  {
    if c !in db.settlements then db
    else db.(settlements := db.settlements[c := db.settlements[c].(status := Failed)])
  }

  // ---------- escrow ----------

  function ReleaseRow(row: EscrowRow, payment: Id): EscrowRow
  {
    if row.payment == Some(payment) then row.(status := Released) else row
  }

  function ReleasePayment(escrow: seq<EscrowRow>, payment: Id): (r: seq<EscrowRow>)
    ensures |r| == |escrow| && forall i :: 0 <= i < |r| ==> r[i] == ReleaseRow(escrow[i], payment)
  {
    seq(|escrow|, i requires 0 <= i < |escrow| => ReleaseRow(escrow[i], payment))
  }

  /** The unique index on payment_id would refuse this value for this order. */
  predicate PaymentTaken(escrow: seq<EscrowRow>, order: Id, payment: Option<Id>)
  {
    payment.Some? && exists i :: 0 <= i < |escrow| && escrow[i].payment == payment && escrow[i].order != order
  }

  function AuthorizeRow(row: EscrowRow, order: Id, payment: Option<Id>): EscrowRow
  {
    if row.order == order && row.status == Pending then row.(status := Authorized, payment := payment) else row
  }

  /** The guarded write of the checkout callback, the webhook and the escrow subscriber. */
  function AuthorizeOrder(escrow: seq<EscrowRow>, order: Id, payment: Option<Id>): (r: seq<EscrowRow>)
    ensures |r| == |escrow|
    ensures forall i :: 0 <= i < |r| ==>
      r[i] == if PaymentTaken(escrow, order, payment) then escrow[i] else AuthorizeRow(escrow[i], order, payment)
  {
    if PaymentTaken(escrow, order, payment) then escrow
    else seq(|escrow|, i requires 0 <= i < |escrow| => AuthorizeRow(escrow[i], order, payment))
  }

  function FailRow(row: EscrowRow, hit: bool): EscrowRow
  {
    if hit && (row.status == Pending || row.status == Authorized) then row.(status := EscrowFailed) else row
  }

  function FailPayment(escrow: seq<EscrowRow>, payment: Id): (r: seq<EscrowRow>)
    ensures |r| == |escrow|
    ensures forall i :: 0 <= i < |r| ==> r[i] == FailRow(escrow[i], escrow[i].payment == Some(payment))
  {
    seq(|escrow|, i requires 0 <= i < |escrow| => FailRow(escrow[i], escrow[i].payment == Some(payment)))
  }

  function FailOrder(escrow: seq<EscrowRow>, order: Id): (r: seq<EscrowRow>)
    ensures |r| == |escrow|
    ensures forall i :: 0 <= i < |r| ==> r[i] == FailRow(escrow[i], escrow[i].order == order)
  {
    seq(|escrow|, i requires 0 <= i < |escrow| => FailRow(escrow[i], escrow[i].order == order))
  }

  predicate OrderKnown(escrow: seq<EscrowRow>, order: Id)
  {
    exists i :: 0 <= i < |escrow| && escrow[i].order == order
  }

  function CreateOrder(escrow: seq<EscrowRow>, order: Id, c: Id, amount: nat, currency: Id, createdAt: int): seq<EscrowRow>
  {
    if OrderKnown(escrow, order) then escrow
    else escrow + [EscrowRow(order, c, amount, currency, createdAt, Pending, None)]
  }

  predicate IsHeld(row: EscrowRow, c: Id)
  {
    row.contract == c && row.status == Authorized && row.payment.Some?
  }

  /** ORDER BY created_at DESC LIMIT 1: any row with the latest creation time may be returned. */
  predicate IsLatestHeld(escrow: seq<EscrowRow>, c: Id, i: nat)
  {
    && i < |escrow| && IsHeld(escrow[i], c)
    && forall j :: 0 <= j < |escrow| && IsHeld(escrow[j], c) ==> escrow[j].createdAt <= escrow[i].createdAt
  }

  function HeldAt(escrow: seq<EscrowRow>, i: nat): Held
    requires i < |escrow| && escrow[i].payment.Some?
  {
    Held(i, escrow[i].payment.value, escrow[i].amount, escrow[i].currency)
  }

  // ---------- the settlement transaction ----------

  function Credit(deliveries: map<Id, nat>, freelancer: Option<Id>): map<Id, nat>
  {
    if freelancer.Some? && freelancer.value in deliveries
    then deliveries[freelancer.value := deliveries[freelancer.value] + 1]
    else deliveries
  }

  /** Four writes that happen together or not at all. */
  function Commit(db: Db, entry: Release): Db
  {
    Db(
      if entry.contract in db.settlements
      then db.settlements[entry.contract :=
             db.settlements[entry.contract].(status := Completed, transferId := Some(entry.payment))]
      else db.settlements,
      ReleasePayment(db.escrow, entry.payment),
      db.ledger + [entry],
      Credit(db.deliveries, entry.freelancer))
  }

  // ---------- the statements in place ----------

  class Database {
    var settlements: map<Id, Settlement>
    var escrow: array<EscrowRow>
    var ledger: seq<Release>
    var deliveries: map<Id, nat>

    ghost function Value(): Db
      reads this, escrow
    {
      Db(settlements, escrow[..], ledger, deliveries)
    }

    constructor (rows: seq<EscrowRow>, profiles: map<Id, nat>)
      ensures fresh(escrow) && Value() == Db(map[], rows, [], profiles)
    {
      settlements, ledger, deliveries := map[], [], profiles;
      escrow := new EscrowRow[|rows|](i requires 0 <= i < |rows| => rows[i]);
    }

    method ClaimSettlement(c: Id) returns (won: bool)
      modifies `settlements
      ensures won <==> Claimable(old(Value()), c)
      ensures Value() == Claim(old(Value()), c)
      ensures won <==> c !in old(settlements) || old(settlements)[c].status == Failed
      ensures settlements == if !won then old(settlements)
                             else if c in old(settlements) then old(settlements)[c := old(settlements)[c].(status := Processing)]
                             else old(settlements)[c := Settlement(Processing, None, PayoutPending, 0)]
    {
      if c !in settlements {
        settlements := settlements[c := Settlement(Processing, None, PayoutPending, 0)];
        return true;
      }
      if settlements[c].status != Failed {
        return false;
      }
      settlements := settlements[c := settlements[c].(status := Processing)];
      return true;
    }

    method MarkSettlementFailed(c: Id)
      modifies `settlements
      ensures Value() == MarkFailed(old(Value()), c)
      ensures settlements == if c in old(settlements) then old(settlements)[c := old(settlements)[c].(status := Failed)]
                             else old(settlements)
    {
      if c in settlements {
        settlements := settlements[c := settlements[c].(status := Failed)];
      }
    }

    /** The scan behind findEscrowPayment. */
    method FindEscrowPayment(c: Id) returns (held: Option<Held>)
      ensures held == None <==> forall i :: 0 <= i < escrow.Length ==> !IsHeld(escrow[i], c)
      ensures held.Some? ==>
        IsLatestHeld(escrow[..], c, held.value.row) && held.value == HeldAt(escrow[..], held.value.row)
      ensures held.Some? ==> held.value.row < escrow.Length
      ensures held.Some? ==>
        var row := escrow[held.value.row];
        && row.contract == c && row.status == Authorized && row.payment == Some(held.value.payment)
        && row.amount == held.value.amount && row.currency == held.value.currency
      ensures held.Some? ==> forall j :: 0 <= j < escrow.Length ==>
        escrow[j].contract == c && escrow[j].status == Authorized && escrow[j].payment.Some? ==>
        escrow[j].createdAt <= escrow[held.value.row].createdAt
    {
      var best := escrow.Length;
      for i := 0 to escrow.Length
        invariant 0 <= best <= escrow.Length
        invariant best == escrow.Length ==> forall j :: 0 <= j < i ==> !IsHeld(escrow[j], c)
        invariant best < escrow.Length ==> best < i && IsHeld(escrow[best], c)
        invariant best < escrow.Length ==>
          forall j :: 0 <= j < i && IsHeld(escrow[j], c) ==> escrow[j].createdAt <= escrow[best].createdAt
      {
        if escrow[i].contract == c && escrow[i].status == Authorized && escrow[i].payment.Some? {
          if best == escrow.Length || escrow[best].createdAt < escrow[i].createdAt {
            best := i;
          }
        }
      }
      if best == escrow.Length {
        return None;
      }
      return Some(Held(best, escrow[best].payment.value, escrow[best].amount, escrow[best].currency));
    }

    /** `lands` is whether COMMIT took effect: if it did not, ROLLBACK leaves nothing behind. */
    method CommitSettlement(entry: Release, lands: bool)
      modifies this, escrow
      ensures escrow == old(escrow)
      ensures Value() == if lands then Commit(old(Value()), entry) else old(Value())
      ensures lands ==> ledger == old(ledger) + [entry]
      ensures lands ==>
        settlements == if entry.contract in old(settlements)
                       then old(settlements)[entry.contract :=
                              old(settlements)[entry.contract].(status := Completed, transferId := Some(entry.payment))]
                       else old(settlements)
    {
      if !lands {
        return;
      }
      ledger := ledger + [entry];
      UpdateReleased(entry.payment);
      if entry.contract in settlements {
        settlements := settlements[entry.contract :=
          settlements[entry.contract].(status := Completed, transferId := Some(entry.payment))];
      }
      if entry.freelancer.Some? && entry.freelancer.value in deliveries {
        deliveries := deliveries[entry.freelancer.value := deliveries[entry.freelancer.value] + 1];
      }
    }

    /** UPDATE escrow SET status = 'RELEASED' WHERE payment_id = $1. */
    method UpdateReleased(payment: Id)
      modifies escrow
      ensures escrow[..] == ReleasePayment(old(escrow[..]), payment)
      ensures forall i :: 0 <= i < escrow.Length ==>
        escrow[i] == if old(escrow[i]).payment == Some(payment) then old(escrow[i]).(status := Released) else old(escrow[i])
    {
      for i := 0 to escrow.Length
        invariant forall j :: 0 <= j < i ==> escrow[j] == ReleaseRow(old(escrow[j]), payment)
        invariant forall j :: i <= j < escrow.Length ==> escrow[j] == old(escrow[j])
      {
        if escrow[i].payment == Some(payment) {
          escrow[i] := escrow[i].(status := Released);
        }
      }
    }

    /** The ESCROW_LOCKED handler for a failed payment. */
    method OnPaymentFailed(payment: Id)
      modifies escrow
      ensures escrow[..] == FailPayment(old(escrow[..]), payment)
      ensures forall i :: 0 <= i < escrow.Length ==>
        escrow[i] == if old(escrow[i]).payment == Some(payment) && old(escrow[i]).status in {Pending, Authorized}
                     then old(escrow[i]).(status := EscrowFailed) else old(escrow[i])
    {
      for i := 0 to escrow.Length
        invariant forall j :: 0 <= j < i ==> escrow[j] == FailRow(old(escrow[j]), old(escrow[j]).payment == Some(payment))
        invariant forall j :: i <= j < escrow.Length ==> escrow[j] == old(escrow[j])
      {
        if escrow[i].payment == Some(payment) && (escrow[i].status == Pending || escrow[i].status == Authorized) {
          escrow[i] := escrow[i].(status := EscrowFailed);
        }
      }
    }

    /** The same handler for an authorised one: refused as a whole if another order has the payment. */
    method OnPaymentAuthorized(order: Id, payment: Id)
      modifies escrow
      ensures escrow[..] == AuthorizeOrder(old(escrow[..]), order, Some(payment))
      ensures (exists k :: 0 <= k < escrow.Length && old(escrow[k]).payment == Some(payment) && old(escrow[k]).order != order)
              ==> escrow[..] == old(escrow[..])
      ensures !(exists k :: 0 <= k < escrow.Length && old(escrow[k]).payment == Some(payment) && old(escrow[k]).order != order)
              ==> forall i :: 0 <= i < escrow.Length ==>
                    escrow[i] == if old(escrow[i]).order == order && old(escrow[i]).status == Pending
                                 then old(escrow[i]).(status := Authorized, payment := Some(payment)) else old(escrow[i])
    {
      for i := 0 to escrow.Length
        invariant forall j :: 0 <= j < i ==> !(escrow[j].payment == Some(payment) && escrow[j].order != order)
      {
        if escrow[i].payment == Some(payment) && escrow[i].order != order {
          assert escrow[..][i] == escrow[i];
          return;
        }
      }
      assert !PaymentTaken(escrow[..], order, Some(payment));
      for i := 0 to escrow.Length
        invariant forall j :: 0 <= j < i ==> escrow[j] == AuthorizeRow(old(escrow[j]), order, Some(payment))
        invariant forall j :: i <= j < escrow.Length ==> escrow[j] == old(escrow[j])
      {
        if escrow[i].order == order && escrow[i].status == Pending {
          escrow[i] := escrow[i].(status := Authorized, payment := Some(payment));
        }
      }
    }
  }
}
