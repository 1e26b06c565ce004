/**
 * The settlement protocol of apps/settlement-worker/src/worker.ts as a step system. Each SQL
 * statement, transaction and outside call is one step; attempts run side by side and can die between
 * any two steps. A step that is not enabled changes nothing, so every list of steps is a run.
 */
module Settlement {
  import opened Encoding
  import opened Tables
  import Oracle

  const PAYOUT_MAX_ATTEMPTS := 5

  // ---------- shared state ----------

  /** What the payout port has issued for a contract, and the escrow row it was read from. */
  datatype Payout = Payout(contract: Id, due: Held)

  datatype Event =
    | Approved(contract: Id)
    | Claimed(contract: Id)
    | Found(contract: Id, held: Held)
    | Captured(held: Held)
    | Committed(payment: Id)
    | FailedWrite(contract: Id)

  datatype Shared = Shared(
    db: Db,
    oracle: map<Id, Oracle.OracleRow>,
    rejected: map<Id, nat>,
    accounts: set<Id>,
    captured: map<Id, nat>,
    payouts: seq<Payout>,
    history: seq<Event>)

  /** Everything that can change the shared state, each in one atomic step. */
  datatype Write =
    | Nothing
    // the gateway, the provider and the database's other clients
    | CreatesOrder(order: Id, contract: Id, amount: nat, currency: Id, createdAt: int)
    | AuthorizesOrder(order: Id, paymentOfOrder: Option<Id>)
    | FailsPayment(payment: Id)
    | FailsOrder(order: Id)
    | WritesOracle(contract: Id, event: Oracle.Event)
    | CountsScope(contract: Id, count: nat)
    | AddsAccount(freelancer: Id)
    // the worker
    | Notes(note: Event)
    | ClaimsRow(contract: Id)
    | FailsRow(contract: Id)
    | Takes(held: Held)
    | Settles(entry: Release)
    | WritesPayout(contract: Id, status: PayoutStatus, more: nat)
    | Mints(contract: Id, due: Held)

  function OracleOf(w: Shared, c: Id): Option<Oracle.OracleRow>
  {
    if c in w.oracle then Some(w.oracle[c]) else None
  }

  function WriteOracle(w: Shared, c: Id, e: Oracle.Event): Shared
  {
    var row := Oracle.Upsert(OracleOf(w, c), e);
    if row == None then w else w.(oracle := w.oracle[c := row.value])
  }

  function WritePayout(db: Db, c: Id, status: PayoutStatus, more: nat): Db
  {
    if c !in db.settlements then db
    else
      var row := db.settlements[c];
      db.(settlements := db.settlements[c := row.(payoutStatus := status, payoutAttempts := row.payoutAttempts + more)])
  }

  predicate Issued(payouts: seq<Payout>, c: Id)
  {
    exists i :: 0 <= i < |payouts| && payouts[i].contract == c
  }

  /** The port: the key is one per contract, and a repeated key answers with the first payout. */
  function Initiate(payouts: seq<Payout>, c: Id, due: Held): seq<Payout>
  {
    if Issued(payouts, c) then payouts else payouts + [Payout(c, due)]
  }

  function Perform(w: Shared, write: Write): Shared
  {
    match write
    case Nothing => w
    case CreatesOrder(order, c, amount, currency, createdAt) =>
      w.(db := w.db.(escrow := CreateOrder(w.db.escrow, order, c, amount, currency, createdAt)))
    case AuthorizesOrder(order, payment) => w.(db := w.db.(escrow := AuthorizeOrder(w.db.escrow, order, payment)))
    case FailsPayment(payment) => w.(db := w.db.(escrow := FailPayment(w.db.escrow, payment)))
    case FailsOrder(order) => w.(db := w.db.(escrow := FailOrder(w.db.escrow, order)))
    case WritesOracle(c, e) => WriteOracle(w, c, e)
    case CountsScope(c, count) => w.(rejected := w.rejected[c := count])
    case AddsAccount(freelancer) => w.(accounts := w.accounts + {freelancer})
    case Notes(note) => w.(history := w.history + [note])
    case ClaimsRow(c) =>
      if Claimable(w.db, c) then w.(db := Claim(w.db, c), history := w.history + [Claimed(c)]) else w
    case FailsRow(c) => w.(db := MarkFailed(w.db, c), history := w.history + [FailedWrite(c)])
    case Takes(held) =>
      w.(captured := w.captured[held.payment := |w.history|], history := w.history + [Captured(held)])
    case Settles(entry) => w.(db := Commit(w.db, entry), history := w.history + [Committed(entry.payment)])
    case WritesPayout(c, status, more) => w.(db := WritePayout(w.db, c, status, more))
    case Mints(c, due) => w.(payouts := Initiate(w.payouts, c, due))
  }

  // ---------- attempts ----------

  datatype Kind = Live | Recovery

  /** What an attempt does next, with what it has learnt. */
  datatype Pc =
    | ReadingState
    | ReadingScope(state: Option<Oracle.OracleRow>)
    | Claiming(approvedAt: nat)
    | Looking(approvedAt: nat)
    | Capturing(approvedAt: nat, foundAt: nat, held: Held)
    | Confirming(approvedAt: nat, foundAt: nat, held: Held)
    | Committing(approvedAt: nat, foundAt: nat, capturedAt: nat, held: Held)
    | FailingInner
    | FailingOuter
    | Publishing
    | GivingUp
    | ReadingAccount
    | ReadingTransfer
    | ReadingAmount(payment: Id)
    | Marking(due: Held)
    | Issuing(due: Held)
    | WritingResult(result: PayoutStatus)
    | Over

  datatype Attempt = Attempt(kind: Kind, contract: Id, freelancer: Option<Id>, requested: Option<int>, pc: Pc)

  /** How a write ends: as asked, with its effect but an error for the caller, or without effect. */
  datatype Answer = Done | DoneButLost | NotDone

  datatype Move =
    | ReadsState(ok: bool)
    | ReadsScope(ok: bool)
    | Claims(answer: Answer)
    | Looks(pick: Option<nat>, freelancerOnFile: Option<Id>)
    | Captures(answer: Answer)
    | Confirms(ok: bool)
    | Commits(answer: Answer)
    | FailsInner(answer: Answer)
    | FailsOuter(answer: Answer)
    | Publishes(ok: bool)
    | GivesUp(answer: Answer)
    | ReadsAccount(ok: bool)
    | ReadsTransfer(ok: bool)
    | ReadsAmount(pick: Option<nat>)
    | Marks(answer: Answer)
    | Issues(answer: Answer, status: PayoutStatus)
    | WritesResult(answer: Answer)

  /** Where a move leads, and what it writes. */
  datatype Outcome = Outcome(pc: Pc, write: Write)

  function If(answer: Answer, write: Write): Write { if answer == NotDone then Nothing else write }

  /** The handler's catch block writes FAILED; the recovery's only logs. */
  function Caught(kind: Kind): Pc { if kind == Live then FailingOuter else Over }

  function RejectedOf(w: Shared, c: Id): nat { if c in w.rejected then w.rejected[c] else 0 }

  /** The row of the query is `pick`; None stands for no row and for a failed query. */
  function Look(w: Shared, me: Attempt, pick: Option<nat>): Outcome
    requires me.pc.Looking?
  {
    if pick == None then Outcome(Caught(me.kind), Nothing)
    else if !IsLatestHeld(w.db.escrow, me.contract, pick.value) then Outcome(me.pc, Nothing)
    else
      var held := HeldAt(w.db.escrow, pick.value);
      Outcome(Capturing(me.pc.approvedAt, |w.history|, held), Notes(Found(me.contract, held)))
  }

  function Capture(w: Shared, me: Attempt, answer: Answer): Outcome
    requires me.pc.Capturing?
  {
    Outcome(
      if answer == Done then Committing(me.pc.approvedAt, me.pc.foundAt, |w.history|, me.pc.held)
      else if me.kind == Live then FailingOuter
      else Confirming(me.pc.approvedAt, me.pc.foundAt, me.pc.held),
      If(answer, Takes(me.pc.held)))
  }

  function EntryOf(w: Shared, me: Attempt): Release
    requires me.pc.Committing?
  {
    Release(me.contract, me.freelancer, me.pc.held.payment,
            if me.requested.Some? then me.requested.value else me.pc.held.amount, me.pc.held.currency,
            Trace(me.pc.held.row, me.pc.approvedAt, me.pc.foundAt, me.pc.capturedAt, |w.history|))
  }

  /** The handler of a settlement request, and the recovery of an abandoned settlement. */
  function DecideCapture(w: Shared, me: Attempt, move: Move): Outcome
  {
    match (me.pc, move)
    case (ReadingState, ReadsState(ok)) =>
      Outcome(if ok then ReadingScope(OracleOf(w, me.contract)) else Over, Nothing)
    case (ReadingScope(state), ReadsScope(ok)) =>
      if ok && Oracle.Gate(state, RejectedOf(w, me.contract))
      then Outcome(if me.kind == Live then Claiming(|w.history|) else Looking(|w.history|), Notes(Approved(me.contract)))
      else Outcome(Over, Nothing)
    case (Claiming(at), Claims(answer)) =>
      Outcome(if answer == Done && Claimable(w.db, me.contract) then Looking(at) else Over, If(answer, ClaimsRow(me.contract)))
    case (Looking(_), Looks(pick, _)) => Look(w, me, pick)
    case (Capturing(_, _, _), Captures(answer)) => Capture(w, me, answer)
    case (Confirming(approved, found, held), Confirms(ok)) =>
      // Only a recovery asks whether the payment was captured after all.
      Outcome(if ok && held.payment in w.captured then Committing(approved, found, w.captured[held.payment], held) else Over,
              Nothing)
    case (Committing(_, _, _, _), Commits(answer)) =>
      Outcome(if answer == Done then Publishing else FailingInner, If(answer, Settles(EntryOf(w, me))))
    case (FailingInner, FailsInner(answer)) => Outcome(Caught(me.kind), If(answer, FailsRow(me.contract)))
    case (FailingOuter, FailsOuter(answer)) => Outcome(Over, If(answer, FailsRow(me.contract)))
    case (Publishing, Publishes(ok)) =>
      Outcome(if !ok then Caught(me.kind) else if me.freelancer.Some? then ReadingAccount else Over, Nothing)
    case _ => Outcome(me.pc, Nothing)
  }

  /** `attemptPayout`, and the write of the sweep that gives up. */
  function DecidePayout(w: Shared, me: Attempt, move: Move): Outcome
  {
    match (me.pc, move)
    case (GivingUp, GivesUp(answer)) => Outcome(Over, If(answer, WritesPayout(me.contract, PayoutFailedTerminal, 0)))
    case (ReadingAccount, ReadsAccount(ok)) =>
      Outcome(if ok && me.freelancer.Some? && me.freelancer.value in w.accounts then ReadingTransfer else Over, Nothing)
    case (ReadingTransfer, ReadsTransfer(ok)) =>
      if ok && me.contract in w.db.settlements && w.db.settlements[me.contract].transferId.Some?
      then Outcome(ReadingAmount(w.db.settlements[me.contract].transferId.value), Nothing)
      else Outcome(Over, Nothing)
    case (ReadingAmount(payment), ReadsAmount(pick)) =>
      // A zero amount is taken for a missing one.
      if pick.Some? && pick.value < |w.db.escrow| && w.db.escrow[pick.value].payment == Some(payment)
         && w.db.escrow[pick.value].amount > 0
      then Outcome(Marking(HeldAt(w.db.escrow, pick.value)), Nothing)
      else Outcome(Over, Nothing)
    case (Marking(due), Marks(answer)) =>
      Outcome(if answer == Done then Issuing(due) else Over, If(answer, WritesPayout(me.contract, PayoutProcessing, 1)))
    case (Issuing(due), Issues(answer, status)) =>
      Outcome(WritingResult(if answer == Done then status else PayoutFailed), If(answer, Mints(me.contract, due)))
    case (WritingResult(result), WritesResult(answer)) => Outcome(Over, If(answer, WritesPayout(me.contract, result, 0)))
    case _ => Outcome(me.pc, Nothing)
  }

  predicate InPayout(pc: Pc)
  {
    pc.GivingUp? || pc.ReadingAccount? || pc.ReadingTransfer? || pc.ReadingAmount? || pc.Marking? || pc.Issuing?
    || pc.WritingResult?
  }

  function Decide(w: Shared, me: Attempt, move: Move): Outcome
  {
    if InPayout(me.pc) then DecidePayout(w, me, move) else DecideCapture(w, me, move)
  }

  /** A recovery learns the freelancer from the contract, in the query before it looks for the payment. */
  function Learn(me: Attempt, move: Move): Attempt
  {
    if me.kind == Recovery && me.pc.Looking? && move.Looks? then me.(freelancer := move.freelancerOnFile) else me
  }

  // ---------- runs ----------

  datatype World = World(shared: Shared, attempts: map<nat, Attempt>)

  datatype Step =
    | Outside(write: Write)
    | Requested(a: nat, contract: Id, freelancerOfRequest: Option<Id>, amount: Option<int>)
    | SweptSettlement(a: nat, contract: Id)
    | SweptPayout(a: nat, contract: Id, freelancer: Id)
    | Crashed(a: nat)
    | Act(a: nat, move: Move)

  predicate IsOutside(write: Write)
  {
    || write.CreatesOrder? || write.AuthorizesOrder? || write.FailsPayment? || write.FailsOrder?
    || write.WritesOracle? || write.CountsScope? || write.AddsAccount?
    // The provider's webhook moves the payout status to one of its final values.
    || (write.WritesPayout? && write.status in {PayoutCompleted, PayoutFailed} && write.more == 0)
  }

  predicate PayoutDue(w: Shared, c: Id, freelancer: Id)
  {
    && c in w.db.settlements && w.db.settlements[c].status == Completed
    && w.db.settlements[c].payoutStatus in {PayoutPending, PayoutFailed, PayoutProcessing}
    && freelancer in w.accounts
  }

  /** The attempt a step begins, if it begins one. */
  function Begun(w: Shared, s: Step): Option<Attempt>
  {
    match s
    case Requested(_, c, freelancer, amount) => Some(Attempt(Live, c, freelancer, amount, ReadingState))
    case SweptSettlement(_, c) =>
      if c in w.db.settlements && w.db.settlements[c].status == Processing
      then Some(Attempt(Recovery, c, None, None, ReadingState))
      else None
    case SweptPayout(_, c, freelancer) =>
      if !PayoutDue(w, c, freelancer) then None
      else Some(Attempt(Recovery, c, Some(freelancer), None,
        if w.db.settlements[c].payoutAttempts >= PAYOUT_MAX_ATTEMPTS then GivingUp else ReadingAccount))
    case _ => None
  }

  function Apply(w: World, s: Step): World
  {
    match s
    case Outside(write) => if IsOutside(write) then w.(shared := Perform(w.shared, write)) else w
    case Crashed(a) => w.(attempts := w.attempts - {a})
    case Act(a, move) =>
      if a !in w.attempts then w
      else
        var me := w.attempts[a];
        var o := Decide(w.shared, me, move);
        World(Perform(w.shared, o.write), w.attempts[a := Learn(me, move).(pc := o.pc)])
    case _ =>
      var begun := Begun(w.shared, s);
      if s.a in w.attempts || begun == None then w else w.(attempts := w.attempts[s.a := begun.value])
  }

  function Run(w: World, steps: seq<Step>): World
  {
    if steps == [] then w else Apply(Run(w, steps[..|steps| - 1]), steps[|steps| - 1])
  }

  /** Before anything happened: profiles without deliveries, and empty tables. */
  predicate Initial(w: World)
  {
    && w.shared.db.settlements == map[] && w.shared.db.escrow == [] && w.shared.db.ledger == []
    && (forall f :: f in w.shared.db.deliveries ==> w.shared.db.deliveries[f] == 0)
    && w.shared.captured == map[] && w.shared.payouts == [] && w.shared.history == [] && w.attempts == map[]
  }
}
