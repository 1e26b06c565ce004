/** Runs of the settlement protocol: an undisturbed request settles, and three ways things go wrong. */
module SettlementRuns {
  import opened Encoding
  import opened Tables
  import opened Settlement
  import opened SettlementSafety
  import opened SettlementEvidence
  import opened SettlementOnce
  import opened PayoutSweeps
  import Oracle

  type Attempts = map<nat, Attempt>

  ghost predicate Reaches(w: World, h: Shared, others: Attempts)
  {
    exists steps :: Run(w, steps) == World(h, others)
  }

  lemma ReachesNext(w: World, h: Shared, others: Attempts, s: Step, x: World)
    requires Reaches(w, h, others) && x == Apply(World(h, others), s)
    ensures Reaches(w, x.shared, x.attempts)
  {
    var steps :| Run(w, steps) == World(h, others);
    RunUnfold(w, steps, s);
  }

  // ---------- what one attempt can do ----------

  /** One move of one attempt, given what it decides. */
  lemma Advances(w: World, h: Shared, others: Attempts, a: nat, me: Attempt, move: Move, o: Outcome)
    requires Reaches(w, h, others[a := me]) && Decide(h, me, move) == o
    ensures Reaches(w, Perform(h, o.write), others[a := Learn(me, move).(pc := o.pc)])
  {
    var x := Apply(World(h, others[a := me]), Act(a, move));
    ReachesNext(w, h, others[a := me], Act(a, move), x);
    assert x.attempts == others[a := Learn(me, move).(pc := o.pc)];
  }

  predicate Approvable(h: Shared, c: Id) { Oracle.Gate(OracleOf(h, c), RejectedOf(h, c)) }

  lemma IsApproved(w: World, h: Shared, others: Attempts, a: nat, me: Attempt)
    requires Reaches(w, h, others[a := me]) && me.pc == ReadingState && Approvable(h, me.contract)
    ensures var at := |h.history|;
            Reaches(w, Perform(h, Notes(Approved(me.contract))),
                    others[a := me.(pc := if me.kind == Live then Claiming(at) else Looking(at))])
  {
    var reading := me.(pc := ReadingScope(OracleOf(h, me.contract)));
    Advances(w, h, others, a, me, ReadsState(true), Outcome(reading.pc, Nothing));
    Advances(w, h, others, a, reading, ReadsScope(true), Decide(h, reading, ReadsScope(true)));
  }

  lemma ClaimWins(w: World, h: Shared, others: Attempts, a: nat, me: Attempt)
    requires Reaches(w, h, others[a := me]) && me.pc.Claiming? && Claimable(h.db, me.contract)
    ensures Reaches(w, Perform(h, ClaimsRow(me.contract)), others[a := me.(pc := Looking(me.pc.approvedAt))])
  {
    Advances(w, h, others, a, me, Claims(Done), Outcome(Looking(me.pc.approvedAt), ClaimsRow(me.contract)));
  }

  /** The shared state after row i was found for contract c and its payment captured. */
  function Taken(h: Shared, c: Id, i: nat): Shared
    requires i < |h.db.escrow| && h.db.escrow[i].payment.Some?
  {
    var held := HeldAt(h.db.escrow, i);
    Perform(Perform(h, Notes(Found(c, held))), Takes(held))
  }

  function TakerOf(h: Shared, me: Attempt, i: nat): Attempt
    requires i < |h.db.escrow| && h.db.escrow[i].payment.Some? && me.pc.Looking?
  {
    var n := |h.history|;
    me.(pc := Committing(me.pc.approvedAt, n, n + 1, HeldAt(h.db.escrow, i)))
  }

  lemma TakesPayment(w: World, h: Shared, others: Attempts, a: nat, me: Attempt, i: nat)
    requires Reaches(w, h, others[a := me]) && me.pc.Looking? && IsLatestHeld(h.db.escrow, me.contract, i)
    ensures Reaches(w, Taken(h, me.contract, i), others[a := TakerOf(h, me, i)])
  {
    var held := HeldAt(h.db.escrow, i);
    var n := |h.history|;
    var capturing := me.(pc := Capturing(me.pc.approvedAt, n, held));
    assert Learn(me, Looks(Some(i), me.freelancer)).(pc := capturing.pc) == capturing;
    Advances(w, h, others, a, me, Looks(Some(i), me.freelancer), Outcome(capturing.pc, Notes(Found(me.contract, held))));
    var noted := Perform(h, Notes(Found(me.contract, held)));
    Advances(w, noted, others, a, capturing, Captures(Done),
             Outcome(Committing(me.pc.approvedAt, n, n + 1, held), Takes(held)));
  }

  lemma CommitLands(w: World, h: Shared, others: Attempts, a: nat, me: Attempt)
    requires Reaches(w, h, others[a := me]) && me.pc.Committing?
    ensures Reaches(w, Perform(h, Settles(EntryOf(h, me))), others[a := me.(pc := Publishing)])
  {
    Advances(w, h, others, a, me, Commits(Done), Outcome(Publishing, Settles(EntryOf(h, me))));
  }

  lemma CommitFails(w: World, h: Shared, others: Attempts, a: nat, me: Attempt)
    requires Reaches(w, h, others[a := me]) && me.pc.Committing? && me.kind == Live
    ensures Reaches(w, Perform(h, FailsRow(me.contract)), others[a := me.(pc := FailingOuter)])
  {
    var failing := me.(pc := FailingInner);
    Advances(w, h, others, a, me, Commits(NotDone), Outcome(FailingInner, Nothing));
    Advances(w, h, others, a, failing, FailsInner(Done), Outcome(FailingOuter, FailsRow(me.contract)));
  }

  lemma FailsAgain(w: World, h: Shared, others: Attempts, a: nat, me: Attempt)
    requires Reaches(w, h, others[a := me]) && me.pc == FailingOuter
    ensures Reaches(w, Perform(h, FailsRow(me.contract)), others[a := me.(pc := Over)])
  {
    Advances(w, h, others, a, me, FailsOuter(Done), Outcome(Over, FailsRow(me.contract)));
  }

  lemma IsRequested(w: World, h: Shared, others: Attempts, a: nat, c: Id, f: Option<Id>, n: Option<int>)
    requires Reaches(w, h, others) && a !in others
    ensures Reaches(w, h, others[a := Attempt(Live, c, f, n, ReadingState)])
  {
    ReachesNext(w, h, others, Requested(a, c, f, n), Apply(World(h, others), Requested(a, c, f, n)));
  }

  lemma IsSwept(w: World, h: Shared, others: Attempts, a: nat, c: Id)
    requires Reaches(w, h, others) && a !in others
    requires c in h.db.settlements && h.db.settlements[c].status == Processing
    ensures Reaches(w, h, others[a := Attempt(Recovery, c, None, None, ReadingState)])
  {
    ReachesNext(w, h, others, SweptSettlement(a, c), Apply(World(h, others), SweptSettlement(a, c)));
  }

  lemma Reorder(w: World, h: Shared, others: Attempts, a: nat, me: Attempt, b: nat, you: Attempt)
    requires Reaches(w, h, others[a := me][b := you]) && a != b
    ensures Reaches(w, h, others[b := you][a := me])
  {
    assert others[a := me][b := you] == others[b := you][a := me];
  }

  // ---------- stretches of several moves ----------

  /** The contract would be approved, and row i is what a look-up finds. */
  predicate Offer(h: Shared, c: Id, i: nat) { Approvable(h, c) && IsLatestHeld(h.db.escrow, c, i) }

  lemma OfferStays(h: Shared, write: Write, c: Id, i: nat)
    requires Offer(h, c, i) && (write.Notes? || write.ClaimsRow? || write.FailsRow? || write.Takes?)
    ensures Offer(Perform(h, write), c, i) && Perform(h, write).db.escrow == h.db.escrow
  {
  }

  function ClaimedState(h: Shared, c: Id): Shared { Perform(Perform(h, Notes(Approved(c))), ClaimsRow(c)) }

  function Claimer(h: Shared, c: Id, f: Option<Id>, n: Option<int>): Attempt { Attempt(Live, c, f, n, Looking(|h.history|)) }

  lemma RequestClaims(w: World, h: Shared, others: Attempts, a: nat, c: Id, f: Option<Id>, n: Option<int>, i: nat)
    requires Reaches(w, h, others) && a !in others && Offer(h, c, i) && Claimable(h.db, c)
    ensures Reaches(w, ClaimedState(h, c), others[a := Claimer(h, c, f, n)])
    ensures Offer(ClaimedState(h, c), c, i) && ClaimedState(h, c).db.escrow == h.db.escrow
    ensures var s := ClaimedState(h, c).db.settlements; c in s && s[c].status == Processing
  {
    IsRequested(w, h, others, a, c, f, n);
    IsApproved(w, h, others, a, Attempt(Live, c, f, n, ReadingState));
    var noted := Perform(h, Notes(Approved(c)));
    ClaimWins(w, noted, others, a, Attempt(Live, c, f, n, Claiming(|h.history|)));
    OfferStays(h, Notes(Approved(c)), c, i);
    OfferStays(noted, ClaimsRow(c), c, i);
  }

  lemma SweepApproves(w: World, h: Shared, others: Attempts, a: nat, c: Id, i: nat)
    requires Reaches(w, h, others) && a !in others && Offer(h, c, i)
    requires c in h.db.settlements && h.db.settlements[c].status == Processing
    ensures var me := Attempt(Recovery, c, None, None, Looking(|h.history|));
            Reaches(w, Perform(h, Notes(Approved(c))), others[a := me])
    ensures Offer(Perform(h, Notes(Approved(c))), c, i) && Perform(h, Notes(Approved(c))).db.escrow == h.db.escrow
  {
    IsSwept(w, h, others, a, c);
    IsApproved(w, h, others, a, Attempt(Recovery, c, None, None, ReadingState));
    OfferStays(h, Notes(Approved(c)), c, i);
  }

  lemma OfferTaken(h: Shared, c: Id, i: nat)
    requires Offer(h, c, i)
    ensures Offer(Taken(h, c, i), c, i) && Taken(h, c, i).db == h.db
  {
    var held := HeldAt(h.db.escrow, i);
    OfferStays(h, Notes(Found(c, held)), c, i);
    OfferStays(Perform(h, Notes(Found(c, held))), Takes(held), c, i);
  }

  predicate ReleasedTwice(ledger: seq<Release>, payment: Id)
  {
    exists m, n :: 0 <= m < n < |ledger| && ledger[m].payment == payment && ledger[n].payment == payment
  }

  /** Two attempts about to commit one payment both release it. */
  lemma BothCommit(
    w: World, h: Shared, others: Attempts, a: nat, me: Attempt, b: nat, you: Attempt, payment: Id)
    returns (x: Shared, rest: Attempts)
    requires Reaches(w, h, others[b := you][a := me]) && a != b && me.pc.Committing? && you.pc.Committing?
    requires me.pc.held.payment == you.pc.held.payment == payment
    ensures Reaches(w, x, rest) && ReleasedTwice(x.db.ledger, payment)
    ensures rest == others[a := me.(pc := Publishing)][b := you.(pc := Publishing)]
  {
    CommitLands(w, h, others[b := you], a, me);
    var h1, me1 := Perform(h, Settles(EntryOf(h, me))), me.(pc := Publishing);
    Reorder(w, h1, others, b, you, a, me1);
    CommitLands(w, h1, others[a := me1], b, you);
    x, rest := Perform(h1, Settles(EntryOf(h1, you))), others[a := me1][b := you.(pc := Publishing)];
    assert x.db.ledger == h.db.ledger + [EntryOf(h, me)] + [EntryOf(h1, you)];
    assert x.db.ledger[|h.db.ledger|].payment == x.db.ledger[|h.db.ledger| + 1].payment == payment;
  }

  /** Two attempts looking at one offer can both release it. */
  lemma BothRelease(
    w: World, h: Shared, others: Attempts, a: nat, me: Attempt, b: nat, you: Attempt, c: Id, i: nat, payment: Id)
    returns (x: Shared, rest: Attempts)
    requires Reaches(w, h, others[a := me][b := you]) && a != b && Offer(h, c, i)
    requires me.contract == you.contract == c && me.pc.Looking? && you.pc.Looking?
    requires h.db.escrow[i].payment == Some(payment)
    ensures Reaches(w, x, rest) && ReleasedTwice(x.db.ledger, payment)
    ensures exists me1: Attempt, you1: Attempt ::
      me1.kind == me.kind && you1.kind == you.kind && rest == others[a := me1][b := you1]
  {
    TakesPayment(w, h, others[a := me], b, you, i);
    OfferTaken(h, c, i);
    var h1, you1 := Taken(h, c, i), TakerOf(h, you, i);
    Reorder(w, h1, others, a, me, b, you1);
    TakesPayment(w, h1, others[b := you1], a, me, i);
    x, rest := BothCommit(w, Taken(h1, c, i), others, a, TakerOf(h1, me, i), b, you1, payment);
    assert rest == others[a := TakerOf(h1, me, i).(pc := Publishing)][b := you1.(pc := Publishing)];
  }

  // ---------- what can come of an offer ----------

  /** A claimable contract with an approving oracle and a held payment, and nobody at work on it. */
  ghost predicate Ready(w: World, h: Shared, c: Id, i: nat)
  {
    Reaches(w, h, map[]) && Offer(h, c, i) && Claimable(h.db, c)
  }

  /** The row of a contract, as it is or as a first claim makes it. */
  function RowOf(h: Shared, c: Id): Tables.Settlement
  {
    if c in h.db.settlements then h.db.settlements[c] else Tables.Settlement.Settlement(Processing, None, PayoutPending, 0)
  }

  /** A request that has claimed the contract and captured the payment, and is about to commit. */
  lemma RequestTakes(w: World, h: Shared, c: Id, f: Option<Id>, n: Option<int>, i: nat) returns (x: Shared, me: Attempt)
    requires Ready(w, h, c, i)
    ensures Reaches(w, x, map[][0 := me])
    ensures me.kind == Live && me.contract == c && me.pc.Committing? && me.pc.held == HeldAt(h.db.escrow, i)
    ensures me.freelancer == f && me.requested == n
    ensures Offer(x, c, i) && x.db.escrow == h.db.escrow && x.db.ledger == h.db.ledger && c in x.db.settlements
    ensures x.payouts == h.payouts && x.accounts == h.accounts && x.db.settlements[c] == RowOf(h, c).(status := Processing)
  {
    RequestClaims(w, h, map[], 0, c, f, n, i);
    var claimed, claimer := ClaimedState(h, c), Claimer(h, c, f, n);
    TakesPayment(w, claimed, map[], 0, claimer, i);
    OfferTaken(claimed, c, i);
    x, me := Taken(claimed, c, i), TakerOf(claimed, claimer, i);
  }

  /**
   * Left undisturbed, a request completes: claimed, captured, committed, released, with one entry that
   * names the contract, the freelancer, the payment, the amount asked for or else held, and the currency.
   */
  lemma UndisturbedRequestSettles(w: World, h: Shared, c: Id, f: Option<Id>, n: Option<int>, i: nat) returns (x: Shared, me: Attempt)
    requires Ready(w, h, c, i)
    ensures Reaches(w, x, map[][0 := me])
    ensures me == Attempt(Live, c, f, n, Publishing)
    ensures c in x.db.settlements
    ensures x.db.settlements[c] == RowOf(h, c).(status := Completed, transferId := h.db.escrow[i].payment)
    ensures x.payouts == h.payouts && x.accounts == h.accounts
    ensures x.db.escrow == ReleasePayment(h.db.escrow, h.db.escrow[i].payment.value) && x.db.escrow[i].status == Released
    ensures |x.db.ledger| == |h.db.ledger| + 1 && x.db.ledger[..|h.db.ledger|] == h.db.ledger
    ensures var e, row := x.db.ledger[|h.db.ledger|], h.db.escrow[i];
            && e.contract == c && e.freelancer == f && Some(e.payment) == row.payment
            && e.amount == (if n.Some? then n.value else row.amount) && e.currency == row.currency
    ensures CompletedFor(x.db.ledger, h.db.escrow[i].payment)
  {
    var taken, taker := RequestTakes(w, h, c, f, n, i);
    CommitLands(w, taken, map[], 0, taker);
    var entry := EntryOf(taken, taker);
    x, me := Perform(taken, Settles(entry)), taker.(pc := Publishing);
    assert x.db.escrow[i] == ReleaseRow(taken.db.escrow[i], entry.payment);
    assert x.db.ledger[|taken.db.ledger|] == entry;
  }

  /** A recovery has found the row and been told that the payment is captured already. */
  lemma RecoveryConfirms(w: World, h: Shared, a: nat, me: Attempt, f: Option<Id>, i: nat) returns (x: Shared, next: Attempt)
    requires Reaches(w, h, map[][a := me]) && me.pc.Looking? && me.kind == Recovery && me.requested == None
    requires IsLatestHeld(h.db.escrow, me.contract, i) && h.db.escrow[i].payment.value in h.captured
    ensures Reaches(w, x, map[][a := next]) && x.db == h.db && next.contract == me.contract && next.kind == Recovery
    ensures next.freelancer == f && next.requested == None && next.pc.Committing? && next.pc.held == HeldAt(h.db.escrow, i)
  {
    var held, at := HeldAt(h.db.escrow, i), |h.history|;
    var capturing := me.(freelancer := f, pc := Capturing(me.pc.approvedAt, at, held));
    Advances(w, h, map[], a, me, Looks(Some(i), f), Outcome(capturing.pc, Notes(Found(me.contract, held))));
    x := Perform(h, Notes(Found(me.contract, held)));
    var confirming := capturing.(pc := Confirming(me.pc.approvedAt, at, held));
    Advances(w, x, map[], a, capturing, Captures(NotDone), Outcome(confirming.pc, Nothing));
    next := confirming.(pc := Committing(me.pc.approvedAt, at, x.captured[held.payment], held));
    Advances(w, x, map[], a, confirming, Confirms(true), Outcome(next.pc, Nothing));
  }

  /**
   * A settlement abandoned after its capture is settled by a recovery left undisturbed, though the provider
   * refuses to capture again: for the row's own amount, and the freelancer on file.
   */
  lemma RecoverySettles(w: World, h: Shared, c: Id, f: Option<Id>, i: nat) returns (x: Shared, me: Attempt)
    requires Reaches(w, h, map[]) && Offer(h, c, i) && h.db.escrow[i].payment.value in h.captured
    requires c in h.db.settlements && h.db.settlements[c].status == Processing
    ensures Reaches(w, x, map[][0 := me]) && me == Attempt(Recovery, c, f, None, Publishing)
    ensures c in x.db.settlements
    ensures x.db.settlements[c] == h.db.settlements[c].(status := Completed, transferId := h.db.escrow[i].payment)
    ensures x.db.escrow == ReleasePayment(h.db.escrow, h.db.escrow[i].payment.value)
    ensures |x.db.ledger| == |h.db.ledger| + 1 && x.db.ledger[..|h.db.ledger|] == h.db.ledger
    ensures var e, row := x.db.ledger[|h.db.ledger|], h.db.escrow[i];
            && e.contract == c && e.freelancer == f && Some(e.payment) == row.payment
            && e.amount == row.amount && e.currency == row.currency
  {
    SweepApproves(w, h, map[], 0, c, i);
    var h1, looking := Perform(h, Notes(Approved(c))), Attempt(Recovery, c, None, None, Looking(|h.history|));
    var h2, committing := RecoveryConfirms(w, h1, 0, looking, f, i);
    CommitLands(w, h2, map[], 0, committing);
    x, me := Perform(h2, Settles(EntryOf(h2, committing))), committing.(pc := Publishing);
  }

  /**
   * `start` subscribes before it sweeps, so the sweep can pick up a settlement that is still in
   * flight: the request and its recovery both release the payment, with no failure anywhere.
   */
  lemma SweepOverlapsRequest(w: World, h: Shared, c: Id, f: Option<Id>, n: Option<int>, i: nat) returns (x: Shared, rest: Attempts)
    requires Ready(w, h, c, i)
    ensures Reaches(w, x, rest) && ReleasedTwice(x.db.ledger, h.db.escrow[i].payment.value)
    ensures rest.Keys == {0, 1} && rest[0].kind == Live && rest[1].kind == Recovery
  {
    RequestClaims(w, h, map[], 0, c, f, n, i);
    var h1, me := ClaimedState(h, c), Claimer(h, c, f, n);
    SweepApproves(w, h1, map[0 := me], 1, c, i);
    var h2, you := Perform(h1, Notes(Approved(c))), Attempt(Recovery, c, None, None, Looking(|h1.history|));
    assert map[][0 := me] == map[0 := me];
    x, rest := BothRelease(w, h2, map[], 0, me, 1, you, c, i, h.db.escrow[i].payment.value);
  }

  /**
   * One failing request writes FAILED twice. A second request claims after the first write, a third
   * after the second, and both release the payment: three live requests, no crash and no sweep.
   */
  lemma DoubleFailedWriteOverlaps(w: World, h: Shared, c: Id, f: Option<Id>, n: Option<int>, i: nat) returns (x: Shared, rest: Attempts)
    requires Ready(w, h, c, i)
    ensures Reaches(w, x, rest) && ReleasedTwice(x.db.ledger, h.db.escrow[i].payment.value)
    ensures forall a :: a in rest ==> rest[a].kind == Live
  {
    var h1, me, over := SecondClaims(w, h, c, f, n, i);
    RequestClaims(w, h1, map[1 := me][0 := over], 2, c, f, n, i);
    var h2, you := ClaimedState(h1, c), Claimer(h1, c, f, n);
    assert map[1 := me][0 := over][2 := you] == map[0 := over][1 := me][2 := you];
    x, rest := BothRelease(w, h2, map[0 := over], 1, me, 2, you, c, i, h.db.escrow[i].payment.value);
  }

  /** A second request has claimed after the first FAILED write, and the second write has freed its claim. */
  lemma SecondClaims(w: World, h: Shared, c: Id, f: Option<Id>, n: Option<int>, i: nat)
    returns (x: Shared, me: Attempt, over: Attempt)
    requires Ready(w, h, c, i)
    ensures Reaches(w, x, map[1 := me][0 := over]) && me.pc.Looking? && me.contract == c
    ensures me.kind == over.kind == Live
    ensures Offer(x, c, i) && Claimable(x.db, c) && x.db.escrow == h.db.escrow
  {
    var h1, failing := FirstFails(w, h, c, f, n, i);
    RequestClaims(w, h1, map[0 := failing], 1, c, f, n, i);
    var h2 := ClaimedState(h1, c);
    me := Claimer(h1, c, f, n);
    assert map[][0 := failing][1 := me] == map[0 := failing][1 := me];
    Reorder(w, h2, map[], 0, failing, 1, me);
    assert map[][1 := me][0 := failing] == map[1 := me][0 := failing];
    FailsAgain(w, h2, map[1 := me], 0, failing);
    OfferStays(h2, FailsRow(c), c, i);
    x, over := Perform(h2, FailsRow(c)), failing.(pc := Over);
  }

  /** A request whose transaction did not commit, between its two FAILED writes. */
  lemma FirstFails(w: World, h: Shared, c: Id, f: Option<Id>, n: Option<int>, i: nat) returns (x: Shared, failing: Attempt)
    requires Ready(w, h, c, i)
    ensures Reaches(w, x, map[0 := failing]) && Offer(x, c, i) && Claimable(x.db, c) && x.db.escrow == h.db.escrow
    ensures failing.pc == FailingOuter && failing.contract == c && failing.kind == Live
  {
    var taken, taker := RequestTakes(w, h, c, f, n, i);
    CommitFails(w, taken, map[], 0, taker);
    OfferStays(taken, FailsRow(c), c, i);
    x, failing := Perform(taken, FailsRow(c)), taker.(pc := FailingOuter);
    assert map[][0 := failing] == map[0 := failing];
  }

  /**
   * A publish that fails after the commit sends a completed settlement to the catch block: the money
   * is released and on the ledger, the settlement says FAILED, and no payout sweep selects it. If the
   * row was the only one held, that lasts while no other is: `HiddenWhileUnheld` applies.
   */
  lemma LatePublishFailureHidesPayout(w: World, h: Shared, c: Id, f: Option<Id>, n: Option<int>, i: nat) returns (x: Shared, rest: Attempts)
    requires Ready(w, h, c, i)
    ensures Reaches(w, x, rest)
    ensures CompletedFor(x.db.ledger, h.db.escrow[i].payment)
    ensures c in x.db.settlements && x.db.settlements[c].status == Failed
    ensures forall freelancer :: !PayoutDue(x, c, freelancer)
    ensures NobodyHolds(World(x, rest), c)
    ensures (forall j :: 0 <= j < |h.db.escrow| && j != i ==> !IsHeld(h.db.escrow[j], c)) ==> Unheld(x.db.escrow, c)
  {
    var settled, me := UndisturbedRequestSettles(w, h, c, f, n, i);
    Advances(w, settled, map[], 0, me, Publishes(false), Outcome(FailingOuter, Nothing));
    FailsAgain(w, settled, map[], 0, me.(pc := FailingOuter));
    x, rest := Perform(settled, FailsRow(c)), map[][0 := me.(pc := Over)];
  }

  /** What the sweeps take up: an abandoned settlement, and a completed one with an open payout and an account. */
  lemma SweepsTakeUp(h: Shared, a: nat, c: Id, f: Id)
    ensures Begun(h, SweptSettlement(a, c)).Some? <==> c in h.db.settlements && h.db.settlements[c].status == Processing
    ensures Begun(h, SweptPayout(a, c, f)).Some? <==>
      && c in h.db.settlements && h.db.settlements[c].status == Completed && f in h.accounts
      && h.db.settlements[c].payoutStatus != PayoutCompleted && h.db.settlements[c].payoutStatus != PayoutFailedTerminal
  {
  }

  /** What the gateway, the oracle and the scope checks write is what the worker reads. */
  lemma OutsideWritesAreRead(h: Shared, c: Id, count: nat, e: Oracle.Event, f: Id)
    ensures RejectedOf(Perform(h, CountsScope(c, count)), c) == count
    ensures forall d :: d != c ==> RejectedOf(Perform(h, CountsScope(c, count)), d) == RejectedOf(h, d)
    ensures OracleOf(Perform(h, WritesOracle(c, e)), c) == Oracle.Upsert(OracleOf(h, c), e)
    ensures forall d :: d != c ==> OracleOf(Perform(h, WritesOracle(c, e)), d) == OracleOf(h, d)
    ensures Perform(h, AddsAccount(f)) == h.(accounts := h.accounts + {f})
  {
  }

  /** Offers are reachable from nothing: an account, an audit and a score that pass the gate, and a funded order. */
  lemma OfferIsReachable() returns (w: World, h: Shared)
    ensures Initial(w) && w.shared.oracle == map[] && w.shared.accounts == {}
    ensures Ready(w, h, 10, 0) && h.db.escrow == [EscrowRow(1, 10, 500, 0, 0, Authorized, Some(100))]
    ensures h.accounts == {7} && h.payouts == [] && h.db.ledger == [] && h.db.settlements == map[]
  {
    var empty := Shared(Db(map[], [], [], map[]), map[], map[], {}, map[], [], []);
    w := World(empty, map[]);
    assert Run(w, []) == w;
    var approved := ApprovedFromNothing(w, empty);
    h := FundedOrder(w, approved);
  }

  lemma OutsideStep(w: World, h: Shared, write: Write)
    requires Reaches(w, h, map[]) && IsOutside(write)
    ensures Reaches(w, Perform(h, write), map[])
  {
    ReachesNext(w, h, map[], Outside(write), World(Perform(h, write), map[]));
  }

  lemma ApprovedFromNothing(w: World, empty: Shared) returns (h: Shared)
    requires Reaches(w, empty, map[]) && empty.oracle == map[] && empty.accounts == {}
    ensures Reaches(w, h, map[])
    ensures h == empty.(accounts := {7}, oracle := map[10 := Oracle.OracleRow(true, true, true, Some(9000), Some(0), Some(1))])
  {
    OutsideStep(w, empty, AddsAccount(7));
    var h1 := empty.(accounts := {7});
    OutsideStep(w, h1, WritesOracle(10, Oracle.Audit(true, true, true)));
    var h2 := h1.(oracle := map[10 := Oracle.OracleRow(true, true, true, None, None, None)]);
    OutsideStep(w, h2, WritesOracle(10, Oracle.Score(9000, 0, 1)));
    h := h1.(oracle := map[10 := Oracle.OracleRow(true, true, true, Some(9000), Some(0), Some(1))]);
    assert h2.oracle[10 := h.oracle[10]] == h.oracle;
  }

  lemma FundedOrder(w: World, empty: Shared) returns (h: Shared)
    requires Reaches(w, empty, map[]) && empty.db.escrow == []
    ensures Reaches(w, h, map[])
    ensures h == empty.(db := empty.db.(escrow := [EscrowRow(1, 10, 500, 0, 0, Authorized, Some(100))]))
  {
    OutsideStep(w, empty, CreatesOrder(1, 10, 500, 0, 0));
    var ordered := Perform(empty, CreatesOrder(1, 10, 500, 0, 0));
    assert ordered.db.escrow == [EscrowRow(1, 10, 500, 0, 0, Pending, None)];
    OutsideStep(w, ordered, AuthorizesOrder(1, Some(100)));
    h := Perform(ordered, AuthorizesOrder(1, Some(100)));
    assert h.db.escrow == [EscrowRow(1, 10, 500, 0, 0, Authorized, Some(100))];
  }

  /** So at most once is not a property of every interleaving: live requests alone can break it. */
  lemma RequestsCanReleaseTwice()
    ensures exists w, steps ::
      && Initial(w) && !OncePerPayment(Run(w, steps).shared.db.ledger)
      && var attempts := Run(w, steps).attempts; forall a :: a in attempts ==> attempts[a].kind == Live
  {
    var w, h := OfferIsReachable();
    var x, rest := DoubleFailedWriteOverlaps(w, h, 10, None, None, 0);
    var steps := StepsTo(w, x, rest);
    assert !OncePerPayment(Run(w, steps).shared.db.ledger);
  }

  /** And so can one request and one recovery. */
  lemma SweepCanReleaseTwice()
    ensures exists w, steps ::
      && Initial(w) && !OncePerPayment(Run(w, steps).shared.db.ledger)
      && var attempts := Run(w, steps).attempts;
         attempts.Keys == {0, 1} && attempts[0].kind == Live && attempts[1].kind == Recovery
  {
    var w, h := OfferIsReachable();
    var x, rest := SweepOverlapsRequest(w, h, 10, None, None, 0);
    var steps := StepsTo(w, x, rest);
    assert !OncePerPayment(Run(w, steps).shared.db.ledger);
  }

  lemma StepsTo(w: World, x: Shared, rest: Attempts) returns (steps: seq<Step>)
    requires Reaches(w, x, rest)
    ensures Run(w, steps) == World(x, rest)
  {
    steps :| Run(w, steps) == World(x, rest);
  }
}
