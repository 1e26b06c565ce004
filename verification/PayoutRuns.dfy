/** Payouts that are made: what an undisturbed payout leg does, after a commit and after a sweep. */
module PayoutRuns {
  import opened Encoding
  import opened Tables
  import opened Settlement
  import opened SettlementSafety
  import opened SettlementEvidence
  import opened SettlementOnce
  import opened SettlementRuns
  import opened PayoutSafety
  import opened PayoutSweeps

  // ---------- moves of one attempt in a row ----------

  /** The run has come to this shared state and these attempts. */
  ghost predicate Stands(w: World, steps: seq<Step>, h: Shared, attempts: Attempts)
  {
    Run(w, steps) == World(h, attempts)
  }

  function Acts(a: nat, moves: seq<Move>): (steps: seq<Step>)
    ensures |steps| == |moves| && forall i :: 0 <= i < |moves| ==> steps[i] == Act(a, moves[i])
  {
    seq(|moves|, i requires 0 <= i < |moves| => Act(a, moves[i]))
  }

  lemma ActsConcat(a: nat, first: seq<Move>, rest: seq<Move>)
    ensures Acts(a, first + rest) == Acts(a, first) + Acts(a, rest)
  {
  }

  lemma StepsConcat(steps: seq<Step>, a: nat, moves: seq<Move>, move: Move)
    ensures steps + Acts(a, moves + [move]) == (steps + Acts(a, moves)) + [Act(a, move)]
  {
    ActsConcat(a, moves, [move]);
    assert Acts(a, [move]) == [Act(a, move)];
  }

  /** One move of attempt a, given what it decides and what that writes; nobody else moves. */
  lemma Goes(
    w: World, steps: seq<Step>, h: Shared, others: Attempts, a: nat, me: Attempt, moves: seq<Move>, move: Move, o: Outcome,
    x: Shared)
    requires Stands(w, steps + Acts(a, moves), h, others[a := me])
    requires Decide(h, me, move) == o && Perform(h, o.write) == x && Learn(me, move) == me
    ensures Stands(w, steps + Acts(a, moves + [move]), x, others[a := me.(pc := o.pc)])
  {
    StepsConcat(steps, a, moves, move);
    RunUnfold(w, steps + Acts(a, moves), Act(a, move));
    assert others[a := me][a := me.(pc := o.pc)] == others[a := me.(pc := o.pc)];
  }

  lemma OverDecides(h: Shared, me: Attempt, move: Move)
    requires me.pc == Over
    ensures Decide(h, me, move) == Outcome(Over, Nothing) && Learn(me, move) == me
  {
  }

  lemma {:induction false} OverStays(
    w: World, steps: seq<Step>, h: Shared, others: Attempts, a: nat, me: Attempt, moves: seq<Move>, rest: seq<Move>)
    requires Stands(w, steps + Acts(a, moves), h, others[a := me]) && me.pc == Over
    ensures Stands(w, steps + Acts(a, moves + rest), h, others[a := me])
    decreases |rest|
  {
    if rest == [] {
      assert moves + rest == moves;
    } else {
      OverDecides(h, me, rest[0]);
      Goes(w, steps, h, others, a, me, moves, rest[0], Outcome(Over, Nothing), h);
      OverStays(w, steps, h, others, a, me, moves + [rest[0]], rest[1..]);
      assert moves + rest == (moves + [rest[0]]) + rest[1..];
    }
  }

  // ---------- the payout leg ----------

  predicate HasPayout(payouts: seq<Payout>, c: Id) { exists k :: 0 <= k < |payouts| && payouts[k].contract == c }

  /** The payouts after a leg that came as far as the port. */
  function PayoutsAfter(payouts: seq<Payout>, c: Id, due: Held, answer: Answer): seq<Payout>
  {
    if answer == NotDone || HasPayout(payouts, c) then payouts else payouts + [Payout(c, due)]
  }

  /** The shared state with another payout column for one contract. */
  function WithPayout(h: Shared, c: Id, status: PayoutStatus, tries: nat): Shared
    requires c in h.db.settlements
  {
    h.(db := h.db.(settlements := h.db.settlements[c :=
      h.db.settlements[c].(payoutStatus := status, payoutAttempts := tries)]))
  }

  function ResultOf(answer: Answer, status: PayoutStatus): PayoutStatus { if answer == Done then status else PayoutFailed }

  /**
   * The state after a leg that came as far as the port: one payout more, unless the contract has one, and
   * in the row one try more and the provider's status, or FAILED if the call failed.
   */
  function PaidState(h: Shared, c: Id, due: Held, answer: Answer, status: PayoutStatus): Shared
    requires c in h.db.settlements
  {
    WithPayout(h, c, ResultOf(answer, status), h.db.settlements[c].payoutAttempts + 1)
      .(payouts := PayoutsAfter(h.payouts, c, due, answer))
  }

  /** The terms of row i. */
  function DueOf(h: Shared, i: nat): Held
    requires i < |h.db.escrow| && h.db.escrow[i].payment.Some?
  {
    Held(i, h.db.escrow[i].payment.value, h.db.escrow[i].amount, h.db.escrow[i].currency)
  }

  /** Every read and write succeeds; the port's answer and the status it gives are left open. */
  function Leg(i: nat, answer: Answer, status: PayoutStatus): seq<Move> { Reads(i) + Pays(answer, status) }

  function Reads(i: nat): seq<Move> { [ReadsAccount(true)] + [ReadsTransfer(true)] + [ReadsAmount(Some(i))] }

  function Pays(answer: Answer, status: PayoutStatus): seq<Move>
  {
    [Marks(Done)] + [Issues(answer, status)] + [WritesResult(Done)]
  }

  lemma WritesPayoutRow(h: Shared, c: Id, status: PayoutStatus, more: nat)
    requires c in h.db.settlements
    ensures Perform(h, WritesPayout(c, status, more)) == WithPayout(h, c, status, h.db.settlements[c].payoutAttempts + more)
  {
  }

  lemma MintsPayout(h: Shared, c: Id, due: Held, answer: Answer)
    ensures Perform(h, If(answer, Mints(c, due))) == h.(payouts := PayoutsAfter(h.payouts, c, due, answer))
  {
    assert HasPayout(h.payouts, c) <==> Issued(h.payouts, c);
  }

  lemma WritesTwice(h: Shared, c: Id, first: PayoutStatus, tries: nat, payouts: seq<Payout>, second: PayoutStatus)
    requires c in h.db.settlements
    ensures WithPayout(WithPayout(h, c, first, tries).(payouts := payouts), c, second, tries) ==
            WithPayout(h, c, second, tries).(payouts := payouts)
  {
    var x := WithPayout(WithPayout(h, c, first, tries).(payouts := payouts), c, second, tries);
    assert x.db.settlements == WithPayout(h, c, second, tries).db.settlements;
  }

  /** What each move of the leg decides. */
  lemma ReadsDecide(h: Shared, me: Attempt, i: nat, payment: Id)
    requires me.contract in h.db.settlements && h.db.settlements[me.contract].transferId == Some(payment)
    requires i < |h.db.escrow| && h.db.escrow[i].payment == Some(payment)
    ensures me.pc == ReadingAccount ==> Decide(h, me, ReadsAccount(true)) == Outcome(
              if me.freelancer.Some? && me.freelancer.value in h.accounts then ReadingTransfer else Over, Nothing)
    ensures me.pc == ReadingTransfer ==> Decide(h, me, ReadsTransfer(true)) == Outcome(ReadingAmount(payment), Nothing)
    ensures me.pc == ReadingAmount(payment) ==> Decide(h, me, ReadsAmount(Some(i))) == Outcome(
              if h.db.escrow[i].amount > 0 then Marking(DueOf(h, i)) else Over, Nothing)
  {
  }

  lemma PaysDecide(h: Shared, me: Attempt, due: Held, result: PayoutStatus, answer: Answer, status: PayoutStatus)
    ensures me.pc == Marking(due) ==>
              Decide(h, me, Marks(Done)) == Outcome(Issuing(due), WritesPayout(me.contract, PayoutProcessing, 1))
    ensures me.pc == Issuing(due) ==>
              Decide(h, me, Issues(answer, status)) ==
              Outcome(WritingResult(ResultOf(answer, status)), If(answer, Mints(me.contract, due)))
    ensures me.pc == WritingResult(result) ==>
              Decide(h, me, WritesResult(Done)) == Outcome(Over, WritesPayout(me.contract, result, 0))
  {
  }

  lemma MarkGoes(w: World, steps: seq<Step>, h: Shared, others: Attempts, a: nat, me: Attempt, due: Held)
    requires Stands(w, steps, h, others[a := me]) && me.pc == Marking(due) && me.contract in h.db.settlements
    ensures Stands(w, steps + Acts(a, [Marks(Done)]),
                   WithPayout(h, me.contract, PayoutProcessing, h.db.settlements[me.contract].payoutAttempts + 1),
                   others[a := me.(pc := Issuing(due))])
  {
    assert steps + Acts(a, []) == steps && [] + [Marks(Done)] == [Marks(Done)];
    PaysDecide(h, me, due, PayoutFailed, Done, PayoutFailed);
    WritesPayoutRow(h, me.contract, PayoutProcessing, 1);
    Goes(w, steps, h, others, a, me, [], Marks(Done), Outcome(Issuing(due), WritesPayout(me.contract, PayoutProcessing, 1)),
         WithPayout(h, me.contract, PayoutProcessing, h.db.settlements[me.contract].payoutAttempts + 1));
  }

  lemma IssueGoes(
    w: World, steps: seq<Step>, h: Shared, others: Attempts, a: nat, me: Attempt, moves: seq<Move>, due: Held,
    answer: Answer, status: PayoutStatus)
    requires Stands(w, steps + Acts(a, moves), h, others[a := me]) && me.pc == Issuing(due)
    ensures Stands(w, steps + Acts(a, moves + [Issues(answer, status)]),
                   h.(payouts := PayoutsAfter(h.payouts, me.contract, due, answer)),
                   others[a := me.(pc := WritingResult(ResultOf(answer, status)))])
  {
    PaysDecide(h, me, due, PayoutFailed, answer, status);
    MintsPayout(h, me.contract, due, answer);
    Goes(w, steps, h, others, a, me, moves, Issues(answer, status),
         Outcome(WritingResult(ResultOf(answer, status)), If(answer, Mints(me.contract, due))),
         h.(payouts := PayoutsAfter(h.payouts, me.contract, due, answer)));
  }

  lemma ResultGoes(
    w: World, steps: seq<Step>, h: Shared, others: Attempts, a: nat, me: Attempt, moves: seq<Move>, result: PayoutStatus)
    requires Stands(w, steps + Acts(a, moves), h, others[a := me])
    requires me.pc == WritingResult(result) && me.contract in h.db.settlements
    ensures Stands(w, steps + Acts(a, moves + [WritesResult(Done)]),
                   WithPayout(h, me.contract, result, h.db.settlements[me.contract].payoutAttempts),
                   others[a := me.(pc := Over)])
  {
    PaysDecide(h, me, Held(0, 0, 0, 0), result, Done, PayoutFailed);
    WritesPayoutRow(h, me.contract, result, 0);
    Goes(w, steps, h, others, a, me, moves, WritesResult(Done), Outcome(Over, WritesPayout(me.contract, result, 0)),
         WithPayout(h, me.contract, result, h.db.settlements[me.contract].payoutAttempts));
  }

  /** The state after the call of the port and the write of its result. */
  function ResultState(h: Shared, c: Id, due: Held, answer: Answer, status: PayoutStatus): Shared
    requires c in h.db.settlements
  {
    WithPayout(h.(payouts := PayoutsAfter(h.payouts, c, due, answer)), c, ResultOf(answer, status),
               h.db.settlements[c].payoutAttempts)
  }

  lemma PaidAfterMark(h: Shared, c: Id, due: Held, answer: Answer, status: PayoutStatus)
    requires c in h.db.settlements
    ensures ResultState(WithPayout(h, c, PayoutProcessing, h.db.settlements[c].payoutAttempts + 1), c, due, answer, status)
            == PaidState(h, c, due, answer, status)
  {
    var tries := h.db.settlements[c].payoutAttempts + 1;
    WritesTwice(h, c, PayoutProcessing, tries, PayoutsAfter(h.payouts, c, due, answer), ResultOf(answer, status));
  }

  lemma IssueAndResultGo(
    w: World, steps: seq<Step>, h: Shared, others: Attempts, a: nat, me: Attempt, due: Held, answer: Answer,
    status: PayoutStatus, x: Shared, last: Attempt)
    requires Stands(w, steps + Acts(a, [Marks(Done)]), h, others[a := me])
    requires me.pc == Issuing(due) && me.contract in h.db.settlements
    requires x == ResultState(h, me.contract, due, answer, status) && last == me.(pc := Over)
    ensures Stands(w, steps + Acts(a, Pays(answer, status)), x, others[a := last])
  {
    var h1, result := h.(payouts := PayoutsAfter(h.payouts, me.contract, due, answer)), ResultOf(answer, status);
    IssueGoes(w, steps, h, others, a, me, [Marks(Done)], due, answer, status);
    ResultGoes(w, steps, h1, others, a, me.(pc := WritingResult(result)), [Marks(Done)] + [Issues(answer, status)], result);
  }

  lemma PaysGo(
    w: World, steps: seq<Step>, h: Shared, others: Attempts, a: nat, me: Attempt, due: Held, answer: Answer,
    status: PayoutStatus)
    requires Stands(w, steps, h, others[a := me]) && me.pc == Marking(due) && me.contract in h.db.settlements
    ensures Stands(w, steps + Acts(a, Pays(answer, status)), PaidState(h, me.contract, due, answer, status),
                   others[a := me.(pc := Over)])
  {
    PaidAfterMark(h, me.contract, due, answer, status);
    var marked := WithPayout(h, me.contract, PayoutProcessing, h.db.settlements[me.contract].payoutAttempts + 1);
    var issuing := me.(pc := Issuing(due));
    assert issuing.contract == me.contract && issuing.(pc := Over) == me.(pc := Over) && me.contract in marked.db.settlements;
    MarkGoes(w, steps, h, others, a, me, due);
    IssueAndResultGo(w, steps, marked, others, a, issuing, due, answer, status,
                     PaidState(h, me.contract, due, answer, status), me.(pc := Over));
  }

  /** The reads come to the row's terms, or to an end: no account, or a zero amount, which is taken for a missing one. */
  lemma ReadsGo(w: World, steps: seq<Step>, h: Shared, others: Attempts, a: nat, me: Attempt, i: nat)
    requires Stands(w, steps, h, others[a := me]) && me.pc == ReadingAccount && me.contract in h.db.settlements
    requires i < |h.db.escrow| && h.db.escrow[i].payment.Some?
    requires h.db.settlements[me.contract].transferId == h.db.escrow[i].payment
    ensures Stands(w, steps + Acts(a, Reads(i)), h, others[a := me.(pc := AfterReads(h, me, i))])
  {
    var payment := h.db.escrow[i].payment.value;
    var first, second := [ReadsAccount(true)], [ReadsTransfer(true)];
    assert steps + Acts(a, []) == steps && [] + first == first;
    ReadsDecide(h, me, i, payment);
    if me.freelancer.Some? && me.freelancer.value in h.accounts {
      Goes(w, steps, h, others, a, me, [], ReadsAccount(true), Outcome(ReadingTransfer, Nothing), h);
      var transfer, amount := me.(pc := ReadingTransfer), me.(pc := ReadingAmount(payment));
      ReadsDecide(h, transfer, i, payment);
      Goes(w, steps, h, others, a, transfer, first, ReadsTransfer(true), Outcome(ReadingAmount(payment), Nothing), h);
      ReadsDecide(h, amount, i, payment);
      Goes(w, steps, h, others, a, amount, first + second, ReadsAmount(Some(i)), Outcome(AfterReads(h, me, i), Nothing), h);
    } else {
      Goes(w, steps, h, others, a, me, [], ReadsAccount(true), Outcome(Over, Nothing), h);
      OverStays(w, steps, h, others, a, me.(pc := Over), first, second + [ReadsAmount(Some(i))]);
      assert first + (second + [ReadsAmount(Some(i))]) == Reads(i);
    }
  }

  predicate Payable(h: Shared, me: Attempt, i: nat)
    requires i < |h.db.escrow|
  {
    me.freelancer.Some? && me.freelancer.value in h.accounts && h.db.escrow[i].amount > 0
  }

  function AfterReads(h: Shared, me: Attempt, i: nat): Pc
    requires i < |h.db.escrow| && h.db.escrow[i].payment.Some?
  {
    if Payable(h, me, i) then Marking(DueOf(h, i)) else Over
  }

  /**
   * What an undisturbed leg does, in full. With an account on file and a positive amount it counts one
   * try, leaves the provider's status (or FAILED) in the row, and issues exactly that row's terms unless
   * the contract has a payout; otherwise it changes nothing.
   */
  lemma LegPays(
    w: World, steps: seq<Step>, h: Shared, others: Attempts, a: nat, me: Attempt, i: nat, answer: Answer,
    status: PayoutStatus)
    requires Stands(w, steps, h, others[a := me]) && me.pc == ReadingAccount && me.contract in h.db.settlements
    requires i < |h.db.escrow| && h.db.escrow[i].payment.Some?
    requires h.db.settlements[me.contract].transferId == h.db.escrow[i].payment
    ensures Stands(w, steps + Acts(a, Leg(i, answer, status)),
                   if Payable(h, me, i) then PaidState(h, me.contract, DueOf(h, i), answer, status) else h,
                   others[a := me.(pc := Over)])
  {
    ReadsGo(w, steps, h, others, a, me, i);
    ActsConcat(a, Reads(i), Pays(answer, status));
    Associate(steps, Acts(a, Reads(i)), Acts(a, Pays(answer, status)));
    if Payable(h, me, i) {
      PaysGo(w, steps + Acts(a, Reads(i)), h, others, a, me.(pc := Marking(DueOf(h, i))), DueOf(h, i), answer, status);
    } else {
      OverStays(w, steps, h, others, a, me.(pc := Over), Reads(i), Pays(answer, status));
    }
  }

  /** So an undisturbed leg issues something exactly when there is an account, an amount, and no payout yet. */
  lemma LegIssuesIff(
    w: World, steps: seq<Step>, h: Shared, others: Attempts, a: nat, me: Attempt, i: nat, status: PayoutStatus)
    requires Stands(w, steps, h, others[a := me]) && me.pc == ReadingAccount && me.contract in h.db.settlements
    requires i < |h.db.escrow| && h.db.escrow[i].payment.Some?
    requires h.db.settlements[me.contract].transferId == h.db.escrow[i].payment
    ensures Run(w, steps + Acts(a, Leg(i, Done, status))).shared.payouts != h.payouts <==>
            && me.freelancer.Some? && me.freelancer.value in h.accounts && h.db.escrow[i].amount > 0
            && forall k :: 0 <= k < |h.payouts| ==> h.payouts[k].contract != me.contract
  {
    LegPays(w, steps, h, others, a, me, i, Done, status);
  }

  // ---------- after a commit ----------

  /**
   * From any ready contract: a request left undisturbed to its end releases the payment and pays it out,
   * if the freelancer has an account, the amount is positive and the contract has no payout.
   */
  lemma UndisturbedRequestPays(
    w: World, h: Shared, c: Id, f: Id, n: Option<int>, i: nat, status: PayoutStatus) returns (x: Shared, rest: Attempts)
    requires Ready(w, h, c, i) && f in h.accounts && h.db.escrow[i].amount > 0
    requires forall k :: 0 <= k < |h.payouts| ==> h.payouts[k].contract != c
    ensures Reaches(w, x, rest)
    ensures x.payouts ==
            h.payouts + [Payout(c, Held(i, h.db.escrow[i].payment.value, h.db.escrow[i].amount, h.db.escrow[i].currency))]
    ensures c in x.db.settlements && x.db.settlements[c].status == Completed && x.db.settlements[c].payoutStatus == status
    ensures x.db.settlements[c].payoutAttempts == RowOf(h, c).payoutAttempts + 1
    ensures x.db.escrow == ReleasePayment(h.db.escrow, h.db.escrow[i].payment.value)
  {
    var settled, me := UndisturbedRequestSettles(w, h, c, Some(f), n, i);
    var steps := StepsTo(w, settled, map[][0 := me]);
    PublishGoes(w, steps, settled, me);
    var published := steps + Acts(0, [Publishes(true)]);
    LegPays(w, published, settled, map[], 0, me.(pc := ReadingAccount), i, Done, status);
    x, rest := PaidState(settled, c, DueOf(settled, i), Done, status), map[][0 := me.(pc := Over)];
    ReachesBy(w, published + Acts(0, Leg(i, Done, status)), x, rest);
  }

  lemma ReachesBy(w: World, steps: seq<Step>, x: Shared, rest: Attempts)
    requires Stands(w, steps, x, rest)
    ensures Reaches(w, x, rest)
  {
  }

  lemma PublishGoes(w: World, steps: seq<Step>, h: Shared, me: Attempt)
    requires Stands(w, steps, h, map[][0 := me]) && me.pc == Publishing && me.freelancer.Some?
    ensures Stands(w, steps + Acts(0, [Publishes(true)]), h, map[][0 := me.(pc := ReadingAccount)])
  {
    PublishDecides(h, me);
    assert steps + Acts(0, []) == steps && [] + [Publishes(true)] == [Publishes(true)];
    Goes(w, steps, h, map[], 0, me, [], Publishes(true), Outcome(ReadingAccount, Nothing), h);
  }

  /** From nothing at all: an order of 500 is funded, approved, released and paid out, 500 and no more. */
  lemma FromNothingToPayout()
    ensures exists w, steps ::
      && Initial(w) && w.shared.oracle == map[] && w.shared.accounts == {}
      && Run(w, steps).shared.payouts == [Payout(10, Held(0, 100, 500, 0))]
      && Run(w, steps).shared.db.escrow == [EscrowRow(1, 10, 500, 0, 0, Released, Some(100))]
  {
    var w, h := OfferIsReachable();
    var x, rest := UndisturbedRequestPays(w, h, 10, 7, None, 0, PayoutProcessing);
    var steps := StepsTo(w, x, rest);
    assert x.db.escrow == [ReleaseRow(h.db.escrow[0], 100)];
  }

  lemma PublishDecides(h: Shared, me: Attempt)
    requires me.pc == Publishing && me.freelancer.Some?
    ensures Decide(h, me, Publishes(true)) == Outcome(ReadingAccount, Nothing)
  {
  }

  // ---------- after a sweep ----------

  predicate TransferKnown(w: Shared)
  {
    forall c :: c in w.db.settlements && w.db.settlements[c].status == Completed ==> w.db.settlements[c].transferId.Some?
  }

  lemma WriteKeepsTransferKnown(w: Shared, write: Write)
    requires TransferKnown(w)
    ensures TransferKnown(Perform(w, write))
  {
  }

  lemma {:induction false} CompletedHasTransfer(w: World, steps: seq<Step>)
    requires Initial(w)
    ensures TransferKnown(Run(w, steps).shared)
  {
    if steps != [] {
      var before, last := Run(w, steps[..|steps| - 1]), steps[|steps| - 1];
      CompletedHasTransfer(w, steps[..|steps| - 1]);
      StepWrites(before, last);
      WriteKeepsTransferKnown(before.shared, WriteOf(before, last));
    }
  }

  /** The row a completed settlement was paid from. */
  lemma RowOfTransfer(w: World, steps: seq<Step>, c: Id) returns (i: nat)
    requires Initial(w) && IsCompleted(Run(w, steps).shared, c)
    ensures var db := Run(w, steps).shared.db;
            && i < |db.escrow| && db.escrow[i].status == Released && db.escrow[i].contract == c
            && db.escrow[i].payment.Some? && db.settlements[c].transferId == db.escrow[i].payment
  {
    CompletedHasTransfer(w, steps);
    RunKeepsPayout(w, steps);
    var db := Run(w, steps).shared.db;
    assert db.settlements[c].transferId.Some? && ReleasedFor(db.escrow, c, db.settlements[c].transferId.value);
    i :| IsReleasedRow(db.escrow, c, db.settlements[c].transferId.value, i);
  }

  /**
   * At any point of any run: a contract that is due a payout, below the cap of five, is paid the amount of its
   * released row by a sweep left undisturbed, unless that amount is zero or it has a payout.
   */
  lemma SweepPays(w: World, steps: seq<Step>, a: nat, c: Id, f: Id, answer: Answer, status: PayoutStatus)
    returns (i: nat, more: seq<Step>)
    requires Initial(w) && PayoutDue(Run(w, steps).shared, c, f) && a !in Run(w, steps).attempts
    requires Run(w, steps).shared.db.settlements[c].payoutAttempts < 5
    ensures i < |Run(w, steps).shared.db.escrow|
    ensures more == [SweptPayout(a, c, f)] + Acts(a, Leg(i, answer, status))
    ensures var h := Run(w, steps).shared;
            && h.db.escrow[i].status == Released && h.db.escrow[i].contract == c && h.db.escrow[i].payment.Some?
            && h.db.settlements[c].transferId == h.db.escrow[i].payment
            && Run(Run(w, steps), more).shared ==
               if h.db.escrow[i].amount > 0 then PaidState(h, c, DueOf(h, i), answer, status) else h
  {
    var x := Run(w, steps);
    i := RowOfTransfer(w, steps, c);
    more := [SweptPayout(a, c, f)] + Acts(a, Leg(i, answer, status));
    SweepBegins(x, a, c, f);
    var me := Attempt(Recovery, c, Some(f), None, ReadingAccount);
    LegPays(x, [SweptPayout(a, c, f)], x.shared, x.attempts, a, me, i, answer, status);
  }

  lemma SweepApplies(x: World, a: nat, c: Id, f: Id)
    requires PayoutDue(x.shared, c, f) && a !in x.attempts && x.shared.db.settlements[c].payoutAttempts < 5
    ensures Apply(x, SweptPayout(a, c, f)) ==
            World(x.shared, x.attempts[a := Attempt(Recovery, c, Some(f), None, ReadingAccount)])
  {
  }

  lemma FirstStep(x: World, s: Step)
    ensures Run(x, [s]) == Apply(x, s)
  {
    assert [s] == [] + [s];
    RunUnfold(x, [], s);
  }

  lemma SweepBegins(x: World, a: nat, c: Id, f: Id)
    requires PayoutDue(x.shared, c, f) && a !in x.attempts && x.shared.db.settlements[c].payoutAttempts < 5
    ensures Stands(x, [SweptPayout(a, c, f)], x.shared, x.attempts[a := Attempt(Recovery, c, Some(f), None, ReadingAccount)])
  {
    SweepApplies(x, a, c, f);
    FirstStep(x, SweptPayout(a, c, f));
  }

  /** From the cap of five on, a sweep left undisturbed gives the contract up: it is due nothing any more. */
  lemma SweepGivesUp(x: World, a: nat, c: Id, f: Id)
    requires PayoutDue(x.shared, c, f) && a !in x.attempts && x.shared.db.settlements[c].payoutAttempts >= 5
    ensures var y := Apply(Apply(x, SweptPayout(a, c, f)), Act(a, GivesUp(Done))).shared;
            && y.payouts == x.shared.payouts && c in y.db.settlements
            && y.db.settlements[c] == x.shared.db.settlements[c].(payoutStatus := PayoutFailedTerminal)
            && forall g :: !PayoutDue(y, c, g)
  {
    var y := Apply(x, SweptPayout(a, c, f));
    assert y.shared == x.shared && y.attempts[a].pc == GivingUp && y.attempts[a].contract == c;
  }
}
