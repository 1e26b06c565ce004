/** Which settlements a payout sweep selects, and how often a contract's payout is tried. */
module PayoutSweeps {
  import opened Encoding
  import opened Tables
  import opened Settlement
  import opened SettlementSafety
  import opened SettlementEvidence
  import opened SettlementOnce

  // ---------- what becomes of a settlement that is not COMPLETED ----------

  predicate IsCompleted(w: Shared, c: Id) { c in w.db.settlements && w.db.settlements[c].status == Completed }

  predicate SettlesFor(write: Write, c: Id) { write.Settles? && write.entry.contract == c }

  /** A settlement of the contract has landed, and no FAILED write has landed on it since. */
  predicate SettledLast(w: World, steps: seq<Step>, c: Id)
  {
    steps != [] &&
    var before := steps[..|steps| - 1];
    var write := WriteOf(Run(w, before), steps[|steps| - 1]);
    SettlesFor(write, c) || (write != FailsRow(c) && SettledLast(w, before, c))
  }

  lemma WriteCompletesIff(w: Shared, write: Write, c: Id)
    requires c in w.db.settlements
    ensures c in Perform(w, write).db.settlements
    ensures IsCompleted(Perform(w, write), c) <==> SettlesFor(write, c) || (write != FailsRow(c) && IsCompleted(w, c))
  {
  }

  lemma {:induction false} CompletedIffSettledLast(w: World, steps: seq<Step>, c: Id)
    requires c in w.shared.db.settlements && !IsCompleted(w.shared, c)
    ensures c in Run(w, steps).shared.db.settlements
    ensures IsCompleted(Run(w, steps).shared, c) <==> SettledLast(w, steps, c)
  {
    if steps != [] {
      var before, last := steps[..|steps| - 1], steps[|steps| - 1];
      CompletedIffSettledLast(w, before, c);
      StepWrites(Run(w, before), last);
      WriteCompletesIff(Run(w, before).shared, WriteOf(Run(w, before), last), c);
    }
  }

  /**
   * From wherever a settlement is FAILED, or still PROCESSING: it is due a payout later exactly when
   * another settlement of the contract has landed since, no FAILED write has landed on that, its payout
   * is open and the freelancer has an account.
   */
  lemma DueAgainIff(w: World, steps: seq<Step>, c: Id, freelancer: Id)
    requires c in w.shared.db.settlements && !IsCompleted(w.shared, c)
    ensures var x := Run(w, steps).shared;
            PayoutDue(x, c, freelancer) <==>
              && SettledLast(w, steps, c) && c in x.db.settlements
              && x.db.settlements[c].payoutStatus in {PayoutPending, PayoutFailed, PayoutProcessing}
              && freelancer in x.accounts
  {
    CompletedIffSettledLast(w, steps, c);
  }

  // ---------- when no settlement can land ----------

  predicate NobodyHolds(w: World, c: Id)
  {
    forall a :: a in w.attempts && w.attempts[a].contract == c ==> !Holding(w.attempts[a].pc)
  }

  predicate Unheld(escrow: seq<EscrowRow>, c: Id)
  {
    forall i :: 0 <= i < |escrow| ==> !IsHeld(escrow[i], c)
  }

  predicate StaysUnheld(w: World, steps: seq<Step>, c: Id)
  {
    Unheld(Run(w, steps).shared.db.escrow, c) && (steps != [] ==> StaysUnheld(w, steps[..|steps| - 1], c))
  }

  lemma MovePicksUpNothing(w: Shared, me: Attempt, move: Move)
    requires !Holding(me.pc) && Unheld(w.db.escrow, me.contract)
    ensures !Holding(Decide(w, me, move).pc) && !Decide(w, me, move).write.Settles?
  {
    if InPayout(me.pc) {
      PayoutHoldsNothing(w, me, move);
    }
  }

  lemma SettlesItsContract(w: Shared, me: Attempt, move: Move)
    ensures var write := Decide(w, me, move).write; write.Settles? ==> write.entry.contract == me.contract
  {
    if Decide(w, me, move).write.Settles? {
      OnlyCommittingSettles(w, me, move);
    }
  }

  lemma StepPicksUpNothing(w: World, s: Step, c: Id)
    requires NobodyHolds(w, c) && Unheld(w.shared.db.escrow, c)
    ensures NobodyHolds(Apply(w, s), c) && !SettlesFor(WriteOf(w, s), c)
  {
    if s.Act? && s.a in w.attempts {
      var me := w.attempts[s.a];
      SettlesItsContract(w.shared, me, s.move);
      if me.contract == c {
        MovePicksUpNothing(w.shared, me, s.move);
      }
    }
  }

  lemma {:induction false} NoneSettles(w: World, steps: seq<Step>, c: Id)
    requires NobodyHolds(w, c) && StaysUnheld(w, steps, c)
    ensures NobodyHolds(Run(w, steps), c) && !SettledLast(w, steps, c)
  {
    if steps != [] {
      var before := steps[..|steps| - 1];
      NoneSettles(w, before, c);
      StepPicksUpNothing(Run(w, before), steps[|steps| - 1], c);
    }
  }

  /** While no row of a FAILED contract is held, by escrow or by an attempt, no sweep selects it. */
  lemma HiddenWhileUnheld(w: World, steps: seq<Step>, c: Id)
    requires c in w.shared.db.settlements && !IsCompleted(w.shared, c)
    requires NobodyHolds(w, c) && StaysUnheld(w, steps, c)
    ensures forall freelancer :: !PayoutDue(Run(w, steps).shared, c, freelancer)
  {
    NoneSettles(w, steps, c);
    CompletedIffSettledLast(w, steps, c);
  }

  // ---------- how often a payout is tried ----------

  /** Between its commit, or the beginning of its sweep, and the write that counts the try. */
  predicate InLeg(pc: Pc)
  {
    pc.Publishing? || pc.ReadingAccount? || pc.ReadingTransfer? || pc.ReadingAmount? || pc.Marking?
  }

  /** The attempts on a contract that are on their way to a payout. */
  function Legs(w: World, c: Id): set<nat>
  {
    set a | a in w.attempts && w.attempts[a].contract == c && InLeg(w.attempts[a].pc)
  }

  predicate NeverMoreLegs(w: World, steps: seq<Step>, c: Id, m: nat)
  {
    |Legs(Run(w, steps), c)| <= m && (steps != [] ==> NeverMoreLegs(w, steps[..|steps| - 1], c, m))
  }

  function Tries(w: Shared, c: Id): nat { if c in w.db.settlements then w.db.settlements[c].payoutAttempts else 0 }

  function EntriesFor(ledger: seq<Release>, c: Id): nat
  {
    if ledger == [] then 0
    else EntriesFor(ledger[..|ledger| - 1], c) + if ledger[|ledger| - 1].contract == c then 1 else 0
  }

  /** A sweep begins a leg only below the cap, with fewer than m others under way; any other leg has an entry. */
  predicate TriesOk(w: World, c: Id, m: nat)
  {
    Tries(w.shared, c) + |Legs(w, c)| < PAYOUT_MAX_ATTEMPTS + m + EntriesFor(w.shared.db.ledger, c)
  }

  lemma WriteTries(w: Shared, write: Write, c: Id)
    ensures Tries(Perform(w, write), c) <=
            Tries(w, c) + if write.WritesPayout? && write.contract == c then write.more else 0
    ensures EntriesFor(Perform(w, write).db.ledger, c) ==
            EntriesFor(w.db.ledger, c) + if SettlesFor(write, c) then 1 else 0
  {
    LedgerOnlyBySettling(w, write);
    if write.Settles? {
      assert (w.db.ledger + [write.entry])[..|w.db.ledger|] == w.db.ledger;
    }
  }

  /** A leg begins with an entry, ends with the try it counts, and touches its own contract only. */
  lemma MoveTries(w: Shared, me: Attempt, move: Move)
    ensures var o := Decide(w, me, move);
            && (InLeg(o.pc) && !InLeg(me.pc) ==> SettlesFor(o.write, me.contract))
            && (o.write.Settles? ==> o.write.entry.contract == me.contract)
            && (o.write.WritesPayout? ==> o.write.contract == me.contract && o.write.more <= 1)
            && (o.write.WritesPayout? && o.write.more == 1 ==> InLeg(me.pc) && !InLeg(o.pc))
  {
    if InPayout(me.pc) {
      PayoutMoveTries(w, me, move);
    } else {
      CaptureMoveTries(w, me, move);
    }
  }

  lemma PayoutMoveTries(w: Shared, me: Attempt, move: Move)
    requires InPayout(me.pc)
    ensures var o := DecidePayout(w, me, move);
            && (InLeg(o.pc) ==> InLeg(me.pc)) && !o.write.Settles?
            && (o.write.WritesPayout? ==> o.write.contract == me.contract && o.write.more <= 1)
            && (o.write.WritesPayout? && o.write.more == 1 ==> InLeg(me.pc) && !InLeg(o.pc))
  {
  }

  lemma CaptureMoveTries(w: Shared, me: Attempt, move: Move)
    requires !InPayout(me.pc)
    ensures var o := DecideCapture(w, me, move);
            && (InLeg(o.pc) && !InLeg(me.pc) ==> SettlesFor(o.write, me.contract))
            && (o.write.Settles? ==> o.write.entry.contract == me.contract) && !o.write.WritesPayout?
  {
  }

  /** A move of attempt a changes no other leg. */
  lemma ActLegs(w: World, a: nat, move: Move, c: Id)
    requires a in w.attempts
    ensures var me, o := w.attempts[a], Decide(w.shared, w.attempts[a], move);
            var before, after := Legs(w, c), Legs(Apply(w, Act(a, move)), c);
            && after - {a} == before - {a}
            && (a in before <==> me.contract == c && InLeg(me.pc)) && (a in after <==> me.contract == c && InLeg(o.pc))
  {
    var me, x := w.attempts[a], Apply(w, Act(a, move));
    assert x.attempts[a].contract == me.contract && x.attempts[a].pc == Decide(w.shared, me, move).pc;
    assert forall b | b in w.attempts && b != a :: x.attempts[b] == w.attempts[b];
  }

  /** One element in or out is one in the count. */
  lemma CountWithout(before: set<nat>, after: set<nat>, a: nat)
    requires after - {a} == before - {a}
    ensures |before| == |before - {a}| + (if a in before then 1 else 0)
    ensures |after| == |before - {a}| + (if a in after then 1 else 0)
  {
    if a in before {
      assert before == (before - {a}) + {a};
    } else {
      assert before == before - {a};
    }
    if a in after {
      assert after == (after - {a}) + {a};
    } else {
      assert after == after - {a};
    }
  }

  lemma ActKeepsTries(w: World, a: nat, move: Move, c: Id, m: nat)
    requires TriesOk(w, c, m) && a in w.attempts
    ensures TriesOk(Apply(w, Act(a, move)), c, m)
  {
    var o := Decide(w.shared, w.attempts[a], move);
    MoveTries(w.shared, w.attempts[a], move);
    WriteTries(w.shared, o.write, c);
    ActLegs(w, a, move, c);
    CountWithout(Legs(w, c), Legs(Apply(w, Act(a, move)), c), a);
  }

  lemma BeginKeepsTries(w: World, s: Step, c: Id, m: nat)
    requires TriesOk(w, c, m) && Begun(w.shared, s).Some? && |Legs(Apply(w, s), c)| <= m
    ensures TriesOk(Apply(w, s), c, m)
  {
    var x := Apply(w, s);
    if x != w {
      var me := Begun(w.shared, s).value;
      assert x.attempts[s.a] == me;
      assert forall b | b in w.attempts :: b != s.a && x.attempts[b] == w.attempts[b];
      if me.contract != c || !InLeg(me.pc) {
        assert Legs(x, c) == Legs(w, c);
      }
    }
  }

  lemma CrashLegs(w: World, a: nat, c: Id)
    ensures Legs(Apply(w, Crashed(a)), c) == Legs(w, c) - {a} && |Legs(w, c) - {a}| <= |Legs(w, c)|
    ensures Apply(w, Crashed(a)).shared == w.shared
  {
    CountWithout(Legs(w, c), Legs(w, c) - {a}, a);
  }

  lemma CrashKeepsTries(w: World, a: nat, c: Id, m: nat)
    requires TriesOk(w, c, m)
    ensures TriesOk(Apply(w, Crashed(a)), c, m)
  {
    CrashLegs(w, a, c);
  }

  lemma StepKeepsTries(w: World, s: Step, c: Id, m: nat)
    requires TriesOk(w, c, m) && |Legs(Apply(w, s), c)| <= m
    ensures TriesOk(Apply(w, s), c, m)
  {
    match s
    case Outside(write) =>
      WriteTries(w.shared, write, c);
      assert Legs(Apply(w, s), c) == Legs(w, c);
    case Crashed(a) => CrashKeepsTries(w, a, c, m);
    case Act(a, move) =>
      if a in w.attempts {
        ActKeepsTries(w, a, move, c, m);
      }
    case _ =>
      if Begun(w.shared, s).Some? {
        BeginKeepsTries(w, s, c, m);
      }
  }

  /**
   * With never more than m payout legs of one contract at once, its payout is tried at most m - 1 times
   * over the cap of five, and once more for every settlement of it that landed, whatever crashes and
   * whatever the provider's webhook reopens.
   */
  lemma {:induction false} TriesAreBounded(w: World, steps: seq<Step>, c: Id, m: nat)
    requires Initial(w) && m > 0 && NeverMoreLegs(w, steps, c, m)
    ensures TriesOk(Run(w, steps), c, m)
    ensures Tries(Run(w, steps).shared, c) <= 5 + (m - 1) + EntriesFor(Run(w, steps).shared.db.ledger, c)
  {
    if steps == [] {
      assert Legs(w, c) == {};
    } else {
      var before := steps[..|steps| - 1];
      TriesAreBounded(w, before, c, m);
      StepKeepsTries(Run(w, before), steps[|steps| - 1], c, m);
    }
  }
}
