/**
 * Provisioning with any number of attempts on one contract side by side: a redelivered event, a sweep
 * over a live attempt, two workers. Each decides on the row as it read it.
 */
module ProvisioningOverlap {
  import opened Encoding
  import opened Provisioning

  /** A worker has yet to read the row, or walks on from what it read. */
  datatype Worker = Reading | At(me: Attempt)

  datatype Many = Many(row: Option<Row>, outside: Outside, active: bool, workers: map<nat, Worker>)

  datatype Move =
    | Inserts(repoName: Text, withoutLogin: bool)
    | Accepts(a: nat)
    | Sweeps(a: nat)
    | Dies(a: nat)
    | Works(a: nat, answer: Answer, reply: Collaborator)

  /** The world as one attempt sees it. */
  function One(x: Many, me: Attempt): World { World(x.row, x.outside, x.active, Some(me)) }

  function Put(x: Many, a: nat, y: World): Many
  {
    Many(y.row, y.outside, y.active, if y.attempt.Some? then x.workers[a := At(y.attempt.value)] else x.workers - {a})
  }

  /** `attemptProvisioning` reads the row itself, whoever called it. */
  function Read(x: Many, a: nat): Many
  {
    if x.row.Some? && Selected(x.row.value) then x.(workers := x.workers[a := At(Attempt(x.row.value, false, Counting))])
    else x.(workers := x.workers - {a})
  }

  function Work(x: Many, a: nat, me: Attempt, answer: Answer, reply: Collaborator): Many
  {
    if x.row == None then x else Put(x, a, Go(One(x, me), me, x.row.value, answer, reply))
  }

  function Step(x: Many, m: Move): Many
  {
    match m
    case Inserts(name, withoutLogin) =>
      if x.row.Some? then x
      else x.(row := Some(Row(name, None, NotAsked, false, if withoutLogin then Failed else Pending, 0)))
    case Accepts(a) => if a in x.workers then x else x.(workers := x.workers[a := Reading])
    case Sweeps(a) =>
      if a in x.workers || x.row == None || !Selected(x.row.value) then x
      else
        x.(workers := x.workers[a :=
          if x.row.value.attempts >= PROVISIONING_MAX_ATTEMPTS then At(Attempt(x.row.value, true, GivingUp)) else Reading])
    case Dies(a) => x.(workers := x.workers - {a})
    case Works(a, answer, reply) =>
      if a !in x.workers then x
      else if x.workers[a].Reading? then Read(x, a)
      else Work(x, a, x.workers[a].me, answer, reply)
  }

  function RunMany(x: Many, moves: seq<Move>): Many
  {
    if moves == [] then x else Step(RunMany(x, moves[..|moves| - 1]), moves[|moves| - 1])
  }

  predicate NothingYet(x: Many)
  {
    x.row == None && !x.active && x.workers == map[] && NoRepeats(x.outside.repos) && NoRepeats(x.outside.hooks)
  }

  // ---------- what any overlap keeps ----------

  predicate InPlace(name: Text, o: Outside) { name in o.repos && name in o.invited && name in o.hooks }

  predicate RowTrue(row: Row, o: Outside)
  {
    && (row.fullName.Some? ==> row.fullName == Some(row.repoName) && row.repoName in o.repos)
    && (Joined(row.collaborator) ==> row.repoName in o.repos && row.repoName in o.invited)
    && (row.hookAttached ==> InPlace(row.repoName, o))
    && (row.status == Complete ==> row.hookAttached)
  }

  /** What the walk so far has put in place; the row may have been turned back since. */
  predicate WalkTrue(me: Attempt, row: Row, o: Outside)
  {
    && me.snapshot.repoName == row.repoName && RowTrue(me.snapshot, o)
    && match me.pc
       case SavingRepo => row.repoName in o.repos
       case Inviting => row.repoName in o.repos
       case SavingCollaborator(c) => row.repoName in o.repos && (c == Unknown || (Joined(c) && row.repoName in o.invited))
       case Hooking => row.repoName in o.repos && row.repoName in o.invited
       case SavingHook => InPlace(row.repoName, o)
       case Activating => row.hookAttached
       case _ => true
  }

  predicate WorkersTrue(workers: map<nat, Worker>, row: Option<Row>, o: Outside)
  {
    forall a :: a in workers && workers[a].At? ==> row.Some? && WalkTrue(workers[a].me, row.value, o)
  }

  predicate AllTrue(x: Many)
  {
    && NoRepeats(x.outside.repos) && NoRepeats(x.outside.hooks)
    && (x.active ==> x.row.Some? && x.row.value.hookAttached)
    && (x.row.Some? ==> RowTrue(x.row.value, x.outside))
    && WorkersTrue(x.workers, x.row, x.outside)
  }

  predicate OutsideGrows(o: Outside, p: Outside)
  {
    (forall n :: n in o.repos ==> n in p.repos) && o.invited <= p.invited && (forall n :: n in o.hooks ==> n in p.hooks)
  }

  /** The name stays, and so does the hook. */
  predicate RowGrows(r: Row, s: Row) { r.repoName == s.repoName && (r.hookAttached ==> s.hookAttached) }

  /** What a move of one attempt leaves behind. */
  predicate WorldTrue(w: World, row: Row, y: World)
  {
    && NoRepeats(y.outside.repos) && NoRepeats(y.outside.hooks) && OutsideGrows(w.outside, y.outside)
    && y.row.Some? && RowTrue(y.row.value, y.outside) && RowGrows(row, y.row.value)
    && (y.active ==> w.active || y.row.value.hookAttached)
  }

  predicate IsCall(pc: Pc) { pc.CreatingRepo? || pc.Inviting? || pc.Hooking? }

  lemma NamesGrow(names: seq<Text>, name: Text)
    requires NoRepeats(names)
    ensures NoRepeats(if name in names then names else names + [name])
  {
  }

  lemma RowStaysTrue(row: Row, o: Outside, p: Outside)
    requires RowTrue(row, o) && OutsideGrows(o, p)
    ensures RowTrue(row, p)
  {
  }

  lemma CallsKeepWorld(w: World, me: Attempt, row: Row, answer: Answer, reply: Collaborator)
    requires w.row == Some(row) && RowTrue(row, w.outside) && WalkTrue(me, row, w.outside) && IsCall(me.pc)
    requires NoRepeats(w.outside.repos) && NoRepeats(w.outside.hooks)
    ensures WorldTrue(w, row, Go(w, me, row, answer, reply))
  {
    var y := Go(w, me, row, answer, reply);
    NamesGrow(w.outside.repos, row.repoName);
    NamesGrow(w.outside.hooks, row.repoName);
    assert y.row == w.row && y.active == w.active;
    assert OutsideGrows(w.outside, y.outside);
    RowStaysTrue(row, w.outside, y.outside);
  }

  lemma SavesKeepOutside(w: World, me: Attempt, row: Row, answer: Answer, reply: Collaborator)
    requires w.row == Some(row) && WalkTrue(me, row, w.outside) && !IsCall(me.pc)
    ensures var y := Go(w, me, row, answer, reply);
            && y.outside == w.outside && (y.active ==> w.active || row.hookAttached)
            && y.row.Some? && RowGrows(row, y.row.value)
  {
  }

  lemma SavesKeepRow(w: World, me: Attempt, row: Row, answer: Answer, reply: Collaborator)
    requires w.row == Some(row) && RowTrue(row, w.outside) && WalkTrue(me, row, w.outside) && !IsCall(me.pc)
    ensures var y := Go(w, me, row, answer, reply); y.row.Some? && RowTrue(y.row.value, w.outside)
  {
  }

  lemma SavesKeepWorld(w: World, me: Attempt, row: Row, answer: Answer, reply: Collaborator)
    requires w.row == Some(row) && RowTrue(row, w.outside) && WalkTrue(me, row, w.outside) && !IsCall(me.pc)
    requires NoRepeats(w.outside.repos) && NoRepeats(w.outside.hooks)
    ensures WorldTrue(w, row, Go(w, me, row, answer, reply))
  {
    SavesKeepOutside(w, me, row, answer, reply);
    SavesKeepRow(w, me, row, answer, reply);
  }

  lemma CallsKeepWalk(w: World, me: Attempt, row: Row, answer: Answer, reply: Collaborator)
    requires w.row == Some(row) && WalkTrue(me, row, w.outside) && IsCall(me.pc)
    ensures var y := Go(w, me, row, answer, reply);
            y.attempt.Some? ==> y.row.Some? && WalkTrue(y.attempt.value, y.row.value, y.outside)
  {
  }

  lemma SavesKeepWalk(w: World, me: Attempt, row: Row, answer: Answer, reply: Collaborator)
    requires w.row == Some(row) && WalkTrue(me, row, w.outside) && !IsCall(me.pc)
    ensures var y := Go(w, me, row, answer, reply);
            y.attempt.Some? ==> y.row.Some? && WalkTrue(y.attempt.value, y.row.value, y.outside)
  {
  }

  lemma WorkKeepsTrue(x: Many, a: nat, me: Attempt, answer: Answer, reply: Collaborator)
    requires AllTrue(x) && a in x.workers && x.workers[a] == At(me)
    ensures AllTrue(Work(x, a, me, answer, reply))
  {
    var row, w := x.row.value, One(x, me);
    var y := Go(w, me, row, answer, reply);
    if IsCall(me.pc) {
      CallsKeepWorld(w, me, row, answer, reply);
      CallsKeepWalk(w, me, row, answer, reply);
    } else {
      SavesKeepWorld(w, me, row, answer, reply);
      SavesKeepWalk(w, me, row, answer, reply);
    }
    var z := Put(x, a, y);
    forall b | b in z.workers && z.workers[b].At? ensures WalkTrue(z.workers[b].me, y.row.value, y.outside) {
      if b != a {
        WalkStays(x.workers[b].me, row, y.row.value, x.outside, y.outside);
      }
    }
  }

  lemma WalkStays(me: Attempt, r: Row, s: Row, o: Outside, p: Outside)
    requires WalkTrue(me, r, o) && RowGrows(r, s) && OutsideGrows(o, p)
    ensures WalkTrue(me, s, p)
  {
  }

  lemma StepKeepsTrue(x: Many, m: Move)
    requires AllTrue(x)
    ensures AllTrue(Step(x, m))
  {
    if m.Works? && m.a in x.workers && x.workers[m.a].At? {
      WorkKeepsTrue(x, m.a, x.workers[m.a].me, m.answer, m.reply);
    }
  }

  lemma {:induction false} RunKeepsTrue(x: Many, moves: seq<Move>)
    requires NothingYet(x)
    ensures AllTrue(RunMany(x, moves))
  {
    if moves != [] {
      RunKeepsTrue(x, moves[..|moves| - 1]);
      StepKeepsTrue(RunMany(x, moves[..|moves| - 1]), moves[|moves| - 1]);
    }
  }

  /**
   * However attempts overlap and wherever they die: there is never a second repository or hook, and a row
   * that says COMPLETE or a contract that is ACTIVE has repository, collaborator and hook in place.
   */
  lemma InPlaceUnderOverlap(x: Many, moves: seq<Move>)
    requires NothingYet(x)
    ensures var y := RunMany(x, moves);
            && NoRepeats(y.outside.repos) && NoRepeats(y.outside.hooks)
            && (y.row.Some? && (y.active || y.row.value.status == Complete) ==> InPlace(y.row.value.repoName, y.outside))
            && (y.active ==> y.row.Some? && y.row.value.hookAttached)
  {
    RunKeepsTrue(x, moves);
  }

  // ---------- ACTIVE without COMPLETE ----------

  /** The status a move writes, if it writes one and the write takes effect. */
  function Saved(x: Many, m: Move): Option<Status>
  {
    if !m.Works? || m.answer == NotDone || m.a !in x.workers || x.workers[m.a].Reading? || x.row == None then None
    else
      match x.workers[m.a].me.pc
      case SavingRepo => Some(RepoCreated)
      case SavingCollaborator(c) => if c == Unknown then None else Some(CollaboratorAdded)
      case SavingHook => Some(Complete)
      case GivingUp => Some(Failed)
      case _ => None
  }

  predicate Activates(x: Many, m: Move)
  {
    && m.Works? && m.answer != NotDone && m.a in x.workers && x.workers[m.a].At? && x.row.Some?
    && x.workers[m.a].me.pc == Activating
  }

  predicate EverActivates(x: Many, moves: seq<Move>)
  {
    moves != [] &&
    var before := moves[..|moves| - 1];
    EverActivates(x, before) || Activates(RunMany(x, before), moves[|moves| - 1])
  }

  /** The last status that was written is COMPLETE. */
  predicate CompletesLast(x: Many, moves: seq<Move>)
  {
    moves != [] &&
    var before := moves[..|moves| - 1];
    var saved := Saved(RunMany(x, before), moves[|moves| - 1]);
    saved == Some(Complete) || (saved == None && CompletesLast(x, before))
  }

  predicate IsComplete(x: Many) { x.row.Some? && x.row.value.status == Complete }

  lemma StepSaves(x: Many, m: Move)
    ensures IsComplete(Step(x, m)) <==> Saved(x, m) == Some(Complete) || (Saved(x, m) == None && IsComplete(x))
    ensures Step(x, m).active <==> x.active || Activates(x, m)
  {
  }

  lemma {:induction false} RunSaves(x: Many, moves: seq<Move>)
    requires NothingYet(x)
    ensures IsComplete(RunMany(x, moves)) <==> CompletesLast(x, moves)
    ensures RunMany(x, moves).active <==> EverActivates(x, moves)
  {
    if moves != [] {
      RunSaves(x, moves[..|moves| - 1]);
      StepSaves(RunMany(x, moves[..|moves| - 1]), moves[|moves| - 1]);
    }
  }

  /**
   * In every run, however attempts overlap: ACTIVE implies COMPLETE if and only if no ACTIVE write has
   * taken effect, or no other status has been written since the last COMPLETE.
   */
  lemma ActiveImpliesCompleteIff(x: Many, moves: seq<Move>)
    requires NothingYet(x)
    ensures var y := RunMany(x, moves);
            (y.active ==> IsComplete(y)) <==> (EverActivates(x, moves) ==> CompletesLast(x, moves))
  {
    RunSaves(x, moves);
  }

  /** A status is written over COMPLETE: what the statements do not guard against. */
  predicate TurnsBack(x: Many, m: Move) { IsComplete(x) && Saved(x, m).Some? && Saved(x, m) != Some(Complete) }

  predicate NeverTurnsBack(x: Many, moves: seq<Move>)
  {
    moves != [] ==>
      var before := moves[..|moves| - 1];
      NeverTurnsBack(x, before) && !TurnsBack(RunMany(x, before), moves[|moves| - 1])
  }

  /** From its COMPLETE write on, an attempt about to write ACTIVE stands on a COMPLETE row. */
  predicate StandsComplete(x: Many)
  {
    && (x.active ==> IsComplete(x))
    && (forall a :: a in x.workers && x.workers[a].At? && x.workers[a].me.pc == Activating ==> IsComplete(x))
  }

  lemma StepStandsComplete(x: Many, m: Move)
    requires StandsComplete(x) && !TurnsBack(x, m)
    ensures StandsComplete(Step(x, m))
  {
    StepSaves(x, m);
  }

  /** So a guard on the row's status in the three other writes would do, overlaps and crashes included. */
  lemma {:induction false} GuardedActiveImpliesComplete(x: Many, moves: seq<Move>)
    requires NothingYet(x) && NeverTurnsBack(x, moves)
    ensures StandsComplete(RunMany(x, moves))
  {
    if moves != [] {
      GuardedActiveImpliesComplete(x, moves[..|moves| - 1]);
      StepStandsComplete(RunMany(x, moves[..|moves| - 1]), moves[|moves| - 1]);
    }
  }

  // ---------- once turned back ----------

  /** The hook is on the row, the status is not COMPLETE, and nobody who read the row earlier will write it. */
  predicate TurnedBack(x: Many)
  {
    && x.row.Some? && x.row.value.hookAttached && x.row.value.status != Complete
    && forall a :: a in x.workers && x.workers[a].At? ==>
         ReadLate(x.workers[a].me)
  }

  predicate ReadLate(me: Attempt)
  {
    (me.snapshot.hookAttached && me.pc != Hooking && me.pc != SavingHook) || me.pc == GivingUp
  }

  lemma GoKeepsTurnedBack(w: World, me: Attempt, row: Row, answer: Answer, reply: Collaborator)
    requires w.row == Some(row) && row.hookAttached && row.status != Complete && ReadLate(me)
    ensures var y := Go(w, me, row, answer, reply);
            && y.row.Some? && y.row.value.hookAttached && y.row.value.status != Complete
            && (y.attempt.Some? ==> ReadLate(y.attempt.value))
  {
  }

  lemma StepKeepsTurnedBack(x: Many, m: Move)
    requires TurnedBack(x)
    ensures TurnedBack(Step(x, m))
  {
    if m.Works? && m.a in x.workers && x.workers[m.a].At? {
      var me := x.workers[m.a].me;
      GoKeepsTurnedBack(One(x, me), me, x.row.value, m.answer, m.reply);
    }
  }

  /** Then COMPLETE is never written again: every later attempt finds the hook attached and stops short of it. */
  lemma {:induction false} TurnedBackForEver(x: Many, moves: seq<Move>)
    requires TurnedBack(x)
    ensures TurnedBack(RunMany(x, moves))
  {
    if moves != [] {
      TurnedBackForEver(x, moves[..|moves| - 1]);
      StepKeepsTurnedBack(RunMany(x, moves[..|moves| - 1]), moves[|moves| - 1]);
    }
  }

  // ---------- a run that gets there ----------

  lemma RunSnocMany(x: Many, moves: seq<Move>, m: Move)
    ensures RunMany(x, moves + [m]) == Step(RunMany(x, moves), m)
  {
    assert (moves + [m])[..|moves|] == moves;
  }

  ghost predicate Leads(x: Many, y: Many) { exists moves :: RunMany(x, moves) == y }

  lemma LeadsOn(x: Many, y: Many, m: Move)
    requires Leads(x, y)
    ensures Leads(x, Step(y, m))
  {
    var moves :| RunMany(x, moves) == y;
    RunSnocMany(x, moves, m);
  }

  /** One move of worker a, given what it does to the world it sees. */
  lemma Moves(x: Many, y: Many, a: nat, me: Attempt, answer: Answer, z: Many)
    requires Leads(x, y) && a in y.workers && y.workers[a] == At(me) && y.row.Some?
    requires z == Put(y, a, Go(One(y, me), me, y.row.value, answer, Invited))
    ensures Leads(x, z)
  {
    LeadsOn(x, y, Works(a, answer, Invited));
  }

  function NewRow(name: Text): Row { Row(name, None, NotAsked, false, Pending, 0) }

  /** A first worker has read the row and created the repository, and is about to save that. */
  lemma FirstStalls(x: Many, name: Text) returns (y: Many, me: Attempt)
    requires NothingYet(x)
    ensures Leads(x, y) && y.workers == map[0 := At(me)] && me == Attempt(NewRow(name), false, SavingRepo)
    ensures y.row == Some(NewRow(name).(attempts := 1)) && !y.active
  {
    assert RunMany(x, []) == x;
    LeadsOn(x, x, Inserts(name, false));
    var x1 := Step(x, Inserts(name, false));
    LeadsOn(x, x1, Accepts(0));
    var x2 := Step(x1, Accepts(0));
    LeadsOn(x, x2, Works(0, Done, Invited));
    var x3 := Step(x2, Works(0, Done, Invited));
    var counting := Attempt(NewRow(name), false, Counting);
    assert x3.workers == map[0 := At(counting)] && x3.row == Some(NewRow(name));
    var x4 := Put(x3, 0, Go(One(x3, counting), counting, NewRow(name), Done, Invited));
    Moves(x, x3, 0, counting, Done, x4);
    var creating := counting.(pc := CreatingRepo);
    assert x4.workers == map[0 := At(creating)];
    y := Put(x4, 0, Go(One(x4, creating), creating, x4.row.value, Done, Invited));
    Moves(x, x4, 0, creating, Done, y);
    me := counting.(pc := SavingRepo);
    assert y.workers == map[0 := At(me)];
  }

  /** A second worker reads the row as the first has left it, and creates the repository anew. */
  lemma SecondReads(x: Many, y: Many, me: Attempt, row: Row) returns (z: Many, you: Attempt)
    requires Leads(x, y) && y.workers == map[0 := At(me)] && y.row == Some(row) && !y.active
    requires row == NewRow(row.repoName).(attempts := 1)
    ensures Leads(x, z) && z.workers == map[0 := At(me), 1 := At(you)] && you == Attempt(row, false, CreatingRepo)
    ensures z.row == Some(row.(attempts := 2)) && !z.active
  {
    LeadsOn(x, y, Accepts(1));
    var y1 := Step(y, Accepts(1));
    assert y1.workers == map[0 := At(me), 1 := Reading];
    LeadsOn(x, y1, Works(1, Done, Invited));
    var y2 := Step(y1, Works(1, Done, Invited));
    var counting := Attempt(row, false, Counting);
    assert y2.workers == map[0 := At(me), 1 := At(counting)] && y2.row == y.row;
    z, you := WalksOn(x, y2, me, counting, CreatingRepo);
  }

  lemma SecondSavesRepo(x: Many, y: Many, me: Attempt, you: Attempt, row: Row) returns (z: Many, next: Attempt)
    requires Leads(x, y) && y.workers == map[0 := At(me), 1 := At(you)] && y.row == Some(row) && !y.active
    requires you.pc == CreatingRepo && !you.snapshot.hookAttached && !Joined(you.snapshot.collaborator)
    ensures Leads(x, z) && z.workers == map[0 := At(me), 1 := At(next)] && next == you.(pc := Inviting)
    ensures z.row == Some(row.(fullName := Some(you.snapshot.repoName), status := RepoCreated)) && !z.active
  {
    var y1, at := WalksOn(x, y, me, you, SavingRepo);
    assert y1.row == Some(row);
    z, next := WalksOn(x, y1, me, at, Inviting);
  }

  lemma SecondSavesCollaborator(x: Many, y: Many, me: Attempt, you: Attempt, row: Row) returns (z: Many, next: Attempt)
    requires Leads(x, y) && y.workers == map[0 := At(me), 1 := At(you)] && y.row == Some(row) && !y.active
    requires you.pc == Inviting && !you.snapshot.hookAttached
    ensures Leads(x, z) && z.workers == map[0 := At(me), 1 := At(next)] && next == you.(pc := Hooking)
    ensures z.row == Some(row.(collaborator := Invited, status := CollaboratorAdded)) && !z.active
  {
    var y1, at := WalksOn(x, y, me, you, SavingCollaborator(Invited));
    assert y1.row == Some(row);
    z, next := WalksOn(x, y1, me, at, Hooking);
  }

  lemma SecondSavesHook(x: Many, y: Many, me: Attempt, you: Attempt, row: Row) returns (z: Many)
    requires Leads(x, y) && y.workers == map[0 := At(me), 1 := At(you)] && y.row == Some(row)
    requires you.pc == Hooking && !you.snapshot.hookAttached
    ensures Leads(x, z) && z.workers == map[0 := At(me)]
    ensures z.row == Some(row.(hookAttached := true, status := Complete)) && z.active
  {
    var y1, at := WalksOn(x, y, me, you, SavingHook);
    assert y1.row == Some(row);
    var y2, last := WalksOn(x, y1, me, at, Activating);
    z := Put(y2, 1, Go(One(y2, last), last, y2.row.value, Done, Invited));
    Moves(x, y2, 1, last, Done, z);
    assert z.workers == map[0 := At(me)];
  }

  /** A second worker walks from its reading of the row to the last write. */
  lemma SecondWalks(x: Many, y: Many, me: Attempt, row: Row) returns (z: Many)
    requires Leads(x, y) && y.workers == map[0 := At(me)] && y.row == Some(row) && !y.active
    requires row == NewRow(row.repoName).(attempts := 1)
    ensures Leads(x, z) && z.workers == map[0 := At(me)] && z.active && z.row.Some?
    ensures z.row.value.hookAttached && z.row.value.status == Complete && z.row.value.repoName == row.repoName
  {
    var y1, creating := SecondReads(x, y, me, row);
    var y2, inviting := SecondSavesRepo(x, y1, me, creating, y1.row.value);
    var y3, hooking := SecondSavesCollaborator(x, y2, me, inviting, y2.row.value);
    z := SecondSavesHook(x, y3, me, hooking, y3.row.value);
  }

  lemma WalksOn(x: Many, y: Many, me: Attempt, you: Attempt, pc: Pc) returns (z: Many, next: Attempt)
    requires Leads(x, y) && y.workers == map[0 := At(me), 1 := At(you)] && y.row.Some?
    requires !you.snapshot.hookAttached
    requires Go(One(y, you), you, y.row.value, Done, Invited).attempt == Some(you.(pc := pc))
    ensures Leads(x, z) && z.workers == map[0 := At(me), 1 := At(next)] && next == you.(pc := pc) && z.row.Some?
    ensures var g := Go(One(y, you), you, y.row.value, Done, Invited);
            z.row == g.row && z.outside == g.outside && z.active == g.active
  {
    next := you.(pc := pc);
    z := Put(y, 1, Go(One(y, you), you, y.row.value, Done, Invited));
    Moves(x, y, 1, you, Done, z);
    assert z.workers == map[0 := At(me), 1 := At(next)];
  }

  /**
   * From nothing, for any name: two attempts overlap, the first saves late and dies. The contract is ACTIVE,
   * the row says REPO_CREATED, and nobody is left to write COMPLETE: nobody ever will.
   */
  lemma CanBeTurnedBack(x: Many, name: Text) returns (y: Many)
    requires NothingYet(x)
    ensures Leads(x, y) && y.workers == map[] && y.active && TurnedBack(y) && y.row.value.status == RepoCreated
  {
    var x1, me := FirstStalls(x, name);
    var x2 := SecondWalks(x, x1, me, x1.row.value);
    y := Put(x2, 0, Go(One(x2, me), me, x2.row.value, DoneButLost, Invited));
    Moves(x, x2, 0, me, DoneButLost, y);
    assert y.workers == map[];
  }
}
