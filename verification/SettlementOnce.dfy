/** How often a settlement can be claimed, counted and released. */
module SettlementOnce {
  import opened Encoding
  import opened Tables
  import opened Settlement
  import opened SettlementSafety
  import opened SettlementEvidence

  // ---------- claims ----------

  function Times(history: seq<Event>, e: Event): nat { multiset(history)[e] }

  /** Winning claims and FAILED writes of one contract, and how they stand to its row. */
  predicate ClaimsOk(w: Shared, c: Id)
  {
    var claims, fails := Times(w.history, Claimed(c)), Times(w.history, FailedWrite(c));
    && claims <= 1 + fails
    && (c !in w.db.settlements ==> claims == 0)
    && (c in w.db.settlements && w.db.settlements[c].status == Failed ==> claims <= fails)
  }

  lemma TimesExtend(history: seq<Event>, e: Event, x: Event)
    ensures Times(history + [x], e) == Times(history, e) + if x == e then 1 else 0
  {
  }

  /** The writes that leave both counts and the row of the contract as they were. */
  lemma OtherWritesKeepClaims(w: Shared, write: Write, c: Id)
    requires !write.ClaimsRow? && !write.FailsRow? && !write.Settles? && !write.WritesPayout?
    requires write.Notes? ==> write.note.Approved? || write.note.Found?
    ensures var x := Perform(w, write);
            && x.db.settlements == w.db.settlements
            && Times(x.history, Claimed(c)) == Times(w.history, Claimed(c))
            && Times(x.history, FailedWrite(c)) == Times(w.history, FailedWrite(c))
  {
    if write.Notes? {
      TimesExtend(w.history, Claimed(c), write.note);
      TimesExtend(w.history, FailedWrite(c), write.note);
    } else if write.Takes? {
      TimesExtend(w.history, Claimed(c), Captured(write.held));
      TimesExtend(w.history, FailedWrite(c), Captured(write.held));
    }
  }

  lemma ClaimKeepsClaims(w: Shared, d: Id, c: Id)
    requires ClaimsOk(w, c)
    ensures ClaimsOk(Perform(w, ClaimsRow(d)), c)
  {
  }

  lemma FailKeepsClaims(w: Shared, d: Id, c: Id)
    requires ClaimsOk(w, c)
    ensures ClaimsOk(Perform(w, FailsRow(d)), c)
  {
  }

  lemma SettleKeepsClaims(w: Shared, entry: Release, c: Id)
    requires ClaimsOk(w, c)
    ensures ClaimsOk(Perform(w, Settles(entry)), c)
  {
  }

  lemma PayoutKeepsClaims(w: Shared, d: Id, status: PayoutStatus, more: nat, c: Id)
    requires ClaimsOk(w, c)
    ensures ClaimsOk(Perform(w, WritesPayout(d, status, more)), c)
  {
  }

  lemma WriteKeepsClaims(w: Shared, write: Write, c: Id)
    requires ClaimsOk(w, c)
    requires write.Notes? ==> write.note.Approved? || write.note.Found?
    ensures ClaimsOk(Perform(w, write), c)
  {
    match write
    case ClaimsRow(d) => ClaimKeepsClaims(w, d, c);
    case FailsRow(d) => FailKeepsClaims(w, d, c);
    case Settles(entry) => SettleKeepsClaims(w, entry, c);
    case WritesPayout(d, status, more) => PayoutKeepsClaims(w, d, status, more, c);
    case _ => OtherWritesKeepClaims(w, write, c);
  }

  /** In any interleaving: winning claims of a contract never exceed one plus its FAILED writes. */
  lemma {:induction false} ClaimsAreBounded(w: World, steps: seq<Step>, c: Id)
    requires Initial(w)
    ensures ClaimsOk(Run(w, steps).shared, c)
  {
    if steps != [] {
      var before, s := Run(w, steps[..|steps| - 1]), steps[|steps| - 1];
      ClaimsAreBounded(w, steps[..|steps| - 1], c);
      StepWrites(before, s);
      WriteKeepsClaims(before.shared, WriteOf(before, s), c);
    }
  }

  /** A live attempt of the contract goes on to look for a payment. */
  predicate LooksUp(w: World, s: Step, c: Id)
  {
    && s.Act? && s.a in w.attempts && w.attempts[s.a].kind == Live && w.attempts[s.a].contract == c
    && !w.attempts[s.a].pc.Looking? && Decide(w.shared, w.attempts[s.a], s.move).pc.Looking?
  }

  function LookUps(w: World, steps: seq<Step>, c: Id): nat
  {
    if steps == [] then 0
    else
      var before := steps[..|steps| - 1];
      LookUps(w, before, c) + if LooksUp(Run(w, before), steps[|steps| - 1], c) then 1 else 0
  }

  lemma LooksUpByWinning(w: Shared, me: Attempt, move: Move)
    requires me.kind == Live && !me.pc.Looking? && Decide(w, me, move).pc.Looking?
    ensures Decide(w, me, move).write == ClaimsRow(me.contract)
    ensures me.contract !in w.db.settlements || w.db.settlements[me.contract].status == Failed
  {
    if InPayout(me.pc) {
      PayoutLooksUpNothing(w, me, move);
    }
  }

  lemma PayoutLooksUpNothing(w: Shared, me: Attempt, move: Move)
    requires InPayout(me.pc)
    ensures !DecidePayout(w, me, move).pc.Looking?
  {
  }

  lemma ClaimsNeverFall(w: Shared, write: Write, c: Id)
    ensures Times(Perform(w, write).history, Claimed(c)) >= Times(w.history, Claimed(c))
    ensures write == ClaimsRow(c) && Claimable(w.db, c) ==>
              Times(Perform(w, write).history, Claimed(c)) == Times(w.history, Claimed(c)) + 1
  {
  }

  lemma StepLooksUp(w: World, s: Step, c: Id)
    ensures Times(Apply(w, s).shared.history, Claimed(c)) >=
            Times(w.shared.history, Claimed(c)) + if LooksUp(w, s, c) then 1 else 0
  {
    StepWrites(w, s);
    ClaimsNeverFall(w.shared, WriteOf(w, s), c);
    if LooksUp(w, s, c) {
      LooksUpByWinning(w.shared, w.attempts[s.a], s.move);
    }
  }

  /** In every run, live attempts on a contract look for its payment at most as often as they won its claim. */
  lemma {:induction false} LookUpsAreClaimed(w: World, steps: seq<Step>, c: Id)
    requires Initial(w)
    ensures LookUps(w, steps, c) <= Times(Run(w, steps).shared.history, Claimed(c))
    ensures LookUps(w, steps, c) <= 1 + Times(Run(w, steps).shared.history, FailedWrite(c))
  {
    ClaimsAreBounded(w, steps, c);
    if steps != [] {
      LookUpsAreClaimed(w, steps[..|steps| - 1], c);
      StepLooksUp(Run(w, steps[..|steps| - 1]), steps[|steps| - 1], c);
    }
  }

  // ---------- deliveries ----------

  function Delivered(ledger: seq<Release>, f: Id): nat
  {
    if ledger == [] then 0
    else Delivered(ledger[..|ledger| - 1], f) + if ledger[|ledger| - 1].freelancer == Some(f) then 1 else 0
  }

  predicate DeliveriesOk(w: Shared)
  {
    forall f :: f in w.db.deliveries ==> w.db.deliveries[f] == Delivered(w.db.ledger, f)
  }

  lemma WriteKeepsDeliveries(w: Shared, write: Write)
    requires DeliveriesOk(w)
    ensures DeliveriesOk(Perform(w, write))
  {
    if write.Settles? {
      assert (w.db.ledger + [write.entry])[..|w.db.ledger|] == w.db.ledger;
    }
  }

  /** In every run a profile's deliveries are the SETTLEMENT_COMPLETED entries that name its freelancer. */
  lemma {:induction false} DeliveriesCountEntries(w: World, steps: seq<Step>)
    requires Initial(w)
    ensures DeliveriesOk(Run(w, steps).shared)
  {
    if steps != [] {
      var before, s := Run(w, steps[..|steps| - 1]), steps[|steps| - 1];
      DeliveriesCountEntries(w, steps[..|steps| - 1]);
      StepWrites(before, s);
      WriteKeepsDeliveries(before.shared, WriteOf(before, s));
    }
  }

  // ---------- at most once ----------

  /** Between its look-up and its commit an attempt holds a payment it has not released yet. */
  predicate Holding(pc: Pc)
  {
    pc.Capturing? || pc.Confirming? || pc.Committing?
  }

  /** No two attempts on one contract hold a payment at the same time. */
  predicate NoOverlap(w: World)
  {
    forall a, b :: a in w.attempts && b in w.attempts && a != b && Holding(w.attempts[a].pc) && Holding(w.attempts[b].pc)
      ==> w.attempts[a].contract != w.attempts[b].contract
  }

  predicate NeverOverlaps(w: World, steps: seq<Step>)
  {
    NoOverlap(Run(w, steps)) && (steps != [] ==> NeverOverlaps(w, steps[..|steps| - 1]))
  }

  predicate Unreleased(w: Shared, pc: Pc)
  {
    Holding(pc) ==> pc.held.row < |w.db.escrow| && w.db.escrow[pc.held.row].status != Released
  }

  predicate NoneReleased(w: World)
  {
    forall a :: a in w.attempts ==> Unreleased(w.shared, w.attempts[a].pc)
  }

  predicate OncePerPayment(ledger: seq<Release>)
  {
    forall m, n :: 0 <= m < n < |ledger| ==> ledger[m].payment != ledger[n].payment
  }

  /** A commit repeats a release exactly when its row is already RELEASED: the guard the statement lacks. */
  lemma CommitRepeatsIff(w: World, a: nat)
    requires Ok(w) && a in w.attempts && w.attempts[a].pc.Committing?
    ensures var held := w.attempts[a].pc.held;
            CompletedFor(w.shared.db.ledger, Some(held.payment)) <==> w.shared.db.escrow[held.row].status == Released
  {
    var held := w.attempts[a].pc.held;
    assert PcOk(w.shared, w.attempts[a].contract, w.attempts[a].pc);
    ReleasedIff(w.shared, held.row);
  }

  lemma WriteKeepsUnreleased(w: Shared, write: Write, pc: Pc)
    requires SharedOk(w) && WriteOk(w, write) && Unreleased(w, pc)
    requires write.Settles? && Holding(pc) ==> pc.held.row != write.entry.trace.row
    ensures Unreleased(Perform(w, write), pc)
  {
    if Holding(pc) {
      WriteGrows(w, write);
    }
  }

  /** A payment is held from a look-up that found it AUTHORIZED, and the commit lets it go. */
  lemma NextIsUnreleased(w: Shared, me: Attempt, move: Move)
    requires Unreleased(w, me.pc)
    ensures var o := Decide(w, me, move); Unreleased(w, o.pc) && (Holding(o.pc) ==> !o.write.Settles?)
  {
    if InPayout(me.pc) {
      PayoutHoldsNothing(w, me, move);
    }
  }

  lemma PayoutHoldsNothing(w: Shared, me: Attempt, move: Move)
    requires InPayout(me.pc)
    ensures !Holding(DecidePayout(w, me, move).pc)
  {
  }

  lemma SettlesItsRow(w: Shared, me: Attempt, move: Move)
    requires PcOk(w, me.contract, me.pc) && Decide(w, me, move).write.Settles?
    ensures Holding(me.pc) && Decide(w, me, move).write.entry.trace.row == me.pc.held.row < |w.db.escrow|
    ensures w.db.escrow[me.pc.held.row].contract == me.contract
  {
    OnlyCommittingSettles(w, me, move);
  }

  /** Whoever else holds a payment holds another row: its contract is another. */
  lemma OtherRow(w: World, a: nat, b: nat, move: Move)
    requires Ok(w) && NoOverlap(w) && a in w.attempts && b in w.attempts && a != b
    requires Decide(w.shared, w.attempts[a], move).write.Settles? && Holding(w.attempts[b].pc)
    ensures w.attempts[b].pc.held.row != Decide(w.shared, w.attempts[a], move).write.entry.trace.row
  {
    SettlesItsRow(w.shared, w.attempts[a], move);
    assert PcOk(w.shared, w.attempts[b].contract, w.attempts[b].pc);
  }

  lemma ActKeepsUnreleased(w: World, a: nat, move: Move)
    requires Ok(w) && NoOverlap(w) && NoneReleased(w) && a in w.attempts
    ensures NoneReleased(Apply(w, Act(a, move)))
  {
    var me := w.attempts[a];
    var o := Decide(w.shared, me, move);
    var x := Apply(w, Act(a, move));
    DecideIsBacked(w.shared, me, move);
    forall b | b in x.attempts ensures Unreleased(x.shared, x.attempts[b].pc) {
      if b == a {
        NextIsUnreleased(w.shared, me, move);
        WriteKeepsUnreleased(w.shared, o.write, o.pc);
      } else {
        if o.write.Settles? && Holding(w.attempts[b].pc) {
          OtherRow(w, a, b, move);
        }
        WriteKeepsUnreleased(w.shared, o.write, w.attempts[b].pc);
      }
    }
  }

  lemma StepKeepsUnreleased(w: World, s: Step)
    requires Ok(w) && NoOverlap(w) && NoneReleased(w)
    ensures NoneReleased(Apply(w, s))
  {
    match s
    case Act(a, move) =>
      if a in w.attempts {
        ActKeepsUnreleased(w, a, move);
      }
    case Outside(write) =>
      if IsOutside(write) {
        forall a | a in w.attempts ensures Unreleased(Perform(w.shared, write), w.attempts[a].pc) {
          WriteKeepsUnreleased(w.shared, write, w.attempts[a].pc);
        }
      }
    case _ =>
  }

  /** A commit takes effect although the row it holds is already RELEASED. */
  predicate Repeats(w: World, s: Step)
  {
    && s.Act? && s.a in w.attempts && w.attempts[s.a].pc.Committing? && s.move.Commits? && s.move.answer != NotDone
    && var row := w.attempts[s.a].pc.held.row;
       row < |w.shared.db.escrow| && w.shared.db.escrow[row].status == Released
  }

  predicate NeverRepeats(w: World, steps: seq<Step>)
  {
    steps != [] ==>
      var before := steps[..|steps| - 1];
      NeverRepeats(w, before) && !Repeats(Run(w, before), steps[|steps| - 1])
  }

  lemma OnceExtend(ledger: seq<Release>, e: Release)
    ensures OncePerPayment(ledger + [e]) <==> OncePerPayment(ledger) && !CompletedFor(ledger, Some(e.payment))
  {
    var longer := ledger + [e];
    assert forall n | 0 <= n < |ledger| :: longer[n] == ledger[n];
    assert longer[|ledger|] == e;
  }

  /** A move that settles is a commit that takes effect, and the other way round. */
  lemma SettlesIffCommits(w: Shared, me: Attempt, move: Move)
    ensures Decide(w, me, move).write.Settles? <==> me.pc.Committing? && move.Commits? && move.answer != NotDone
  {
    if Decide(w, me, move).write.Settles? {
      OnlyCommittingSettles(w, me, move);
    }
  }

  lemma CommitKeepsOnceIff(w: World, a: nat, move: Move)
    requires Ok(w) && a in w.attempts && Decide(w.shared, w.attempts[a], move).write.Settles?
    ensures var ledger := w.shared.db.ledger;
            OncePerPayment(ledger + [Decide(w.shared, w.attempts[a], move).write.entry]) <==>
            OncePerPayment(ledger) && !Repeats(w, Act(a, move))
  {
    var me := w.attempts[a];
    SettlesIffCommits(w.shared, me, move);
    OnlyCommittingSettles(w.shared, me, move);
    CommitRepeatsIff(w, a);
    OnceExtend(w.shared.db.ledger, EntryOf(w.shared, me));
    SettlesItsRow(w.shared, me, move);
  }

  /** What a step adds to the ledger, and who repeats. */
  lemma StepLedger(w: World, s: Step)
    ensures var write := WriteOf(w, s);
            && Apply(w, s).shared.db.ledger == w.shared.db.ledger + (if write.Settles? then [write.entry] else [])
            && (write.Settles? ==> s.Act? && s.a in w.attempts && write == Decide(w.shared, w.attempts[s.a], s.move).write)
            && (Repeats(w, s) ==> write.Settles?)
  {
    StepWrites(w, s);
    LedgerOnlyBySettling(w.shared, WriteOf(w, s));
    if s.Act? && s.a in w.attempts {
      SettlesIffCommits(w.shared, w.attempts[s.a], s.move);
    }
  }

  lemma StepKeepsOnceIff(w: World, s: Step)
    requires Ok(w)
    ensures OncePerPayment(Apply(w, s).shared.db.ledger) <==> OncePerPayment(w.shared.db.ledger) && !Repeats(w, s)
  {
    StepLedger(w, s);
    var write := WriteOf(w, s);
    if write.Settles? {
      assert s == Act(s.a, s.move);
      CommitKeepsOnceIff(w, s.a, s.move);
    } else {
      assert Apply(w, s).shared.db.ledger == w.shared.db.ledger;
    }
  }

  /**
   * Exactly when: in every run from empty tables, however attempts overlap, no payment is released
   * twice if and only if no commit takes effect whose row is already RELEASED.
   */
  lemma {:induction false} ReleasedOnceIff(w: World, steps: seq<Step>)
    requires Initial(w)
    ensures OncePerPayment(Run(w, steps).shared.db.ledger) <==> NeverRepeats(w, steps)
  {
    if steps != [] {
      var before := steps[..|steps| - 1];
      ReleasedOnceIff(w, before);
      RunKeepsOk(w, before);
      StepKeepsOnceIff(Run(w, before), steps[|steps| - 1]);
    }
  }

  lemma UnreleasedNeverRepeats(w: World, s: Step)
    requires NoneReleased(w)
    ensures !Repeats(w, s)
  {
    assert s.Act? && s.a in w.attempts ==> Unreleased(w.shared, w.attempts[s.a].pc);
  }

  lemma {:induction false} RunHoldsUnreleased(w: World, steps: seq<Step>)
    requires Initial(w) && NeverOverlaps(w, steps)
    ensures NoneReleased(Run(w, steps)) && NeverRepeats(w, steps)
  {
    if steps != [] {
      var before := steps[..|steps| - 1];
      RunHoldsUnreleased(w, before);
      RunKeepsOk(w, before);
      StepKeepsUnreleased(Run(w, before), steps[|steps| - 1]);
      UnreleasedNeverRepeats(Run(w, before), steps[|steps| - 1]);
    }
  }

  /**
   * At most once: however often requests are redelivered, attempts crash and FAILED claims are
   * retaken, if attempts on one contract never hold a payment at the same time then no payment is
   * released twice, and the deliveries of a freelancer count distinct payments.
   */
  lemma ReleasedAtMostOnce(w: World, steps: seq<Step>)
    requires Initial(w) && NeverOverlaps(w, steps)
    ensures OncePerPayment(Run(w, steps).shared.db.ledger)
    ensures DeliveriesOk(Run(w, steps).shared)
  {
    RunHoldsUnreleased(w, steps);
    ReleasedOnceIff(w, steps);
    DeliveriesCountEntries(w, steps);
  }
}
