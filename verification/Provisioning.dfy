/**
 * Repository provisioning for one contract (apps/settlement-worker/src/worker.ts): a row that is
 * walked forward step by step against GitHub, resumed after a crash, and swept until it is final.
 */
module Provisioning {
  import opened Encoding

  const PROVISIONING_MAX_ATTEMPTS := 5

  datatype Collaborator = NotAsked | Invited | AlreadyThere | Unknown

  datatype Status = Pending | RepoCreated | CollaboratorAdded | Complete | Failed

  datatype Row = Row(
    repoName: Text, fullName: Option<Text>, collaborator: Collaborator, hookAttached: bool, status: Status,
    attempts: nat)

  /** GitHub: the repositories of the organisation, and those with our collaborator and our hook. */
  datatype Outside = Outside(repos: seq<Text>, invited: set<Text>, hooks: seq<Text>)

  datatype Pc =
    | Counting | CreatingRepo | SavingRepo | Inviting | SavingCollaborator(answer: Collaborator)
    | Hooking | SavingHook | Activating | GivingUp

  /** An attempt decides on the row as it read it, not as it stands. */
  datatype Attempt = Attempt(snapshot: Row, bySweep: bool, pc: Pc)

  datatype World = World(row: Option<Row>, outside: Outside, active: bool, attempt: Option<Attempt>)

  /** How a call or a write ends: as asked, with its effect but an error for the caller, or without effect. */
  datatype Answer = Done | DoneButLost | NotDone

  datatype Step =
    | Inserted(repoName: Text, withoutLogin: bool)
    | Accepted
    | Swept
    | Crashed
    | Goes(answer: Answer, reply: Collaborator)

  predicate Selected(row: Row) { row.status != Complete && row.status != Failed }

  predicate Joined(c: Collaborator) { c == Invited || c == AlreadyThere }

  // ---------- the outside world ----------

  /** A name that is taken answers 422, and the repository is looked up instead. */
  function CreateRepo(o: Outside, name: Text): Outside
  {
    if name in o.repos then o else o.(repos := o.repos + [name])
  }

  function Invite(o: Outside, name: Text): Outside { o.(invited := o.invited + {name}) }

  /** A hook that is there answers 422, and the one with our address is looked up instead. */
  function AttachHook(o: Outside, name: Text): Outside
  {
    if name in o.hooks then o else o.(hooks := o.hooks + [name])
  }

  // ---------- one attempt ----------

  function End(w: World): World { w.(attempt := None) }

  /** Where the row read has the hook, an attempt is over before it attaches it. */
  function Goto(w: World, me: Attempt, pc: Pc): World
  {
    if pc == Hooking && me.snapshot.hookAttached then End(w) else w.(attempt := Some(me.(pc := pc)))
  }

  /** Done goes on; an error ends the attempt, after a note of it in the row. */
  function Next(w: World, me: Attempt, answer: Answer, pc: Pc): World
  {
    if answer == Done then Goto(w, me, pc) else End(w)
  }

  function AfterRepo(me: Attempt): Pc { if Joined(me.snapshot.collaborator) then Hooking else Inviting }

  function Save(w: World, row: Row, answer: Answer): World
  {
    if answer == NotDone then w else w.(row := Some(row))
  }

  function Call(w: World, outside: Outside, answer: Answer): World
  {
    if answer == NotDone then w else w.(outside := outside)
  }

  function Go(w: World, me: Attempt, row: Row, answer: Answer, reply: Collaborator): World
  {
    var name := me.snapshot.repoName;
    match me.pc
    case Counting =>
      Next(Save(w, row.(attempts := row.attempts + 1), answer), me, answer,
           if me.snapshot.fullName == None then CreatingRepo else AfterRepo(me))
    case CreatingRepo => Next(Call(w, CreateRepo(w.outside, name), answer), me, answer, SavingRepo)
    case SavingRepo =>
      Next(Save(w, row.(fullName := Some(name), status := RepoCreated), answer), me, answer, AfterRepo(me))
    case Inviting =>
      if Joined(reply) then Next(Call(w, Invite(w.outside, name), answer), me, answer, SavingCollaborator(reply))
      else Next(w, me, answer, SavingCollaborator(Unknown))
    case SavingCollaborator(Unknown) => End(Save(w, row.(collaborator := Unknown), answer))
    case SavingCollaborator(joined) =>
      Next(Save(w, row.(collaborator := joined, status := CollaboratorAdded), answer), me, answer, Hooking)
    case Hooking => Next(Call(w, AttachHook(w.outside, name), answer), me, answer, SavingHook)
    case SavingHook =>
      Next(Save(w, row.(hookAttached := true, status := Complete), answer), me, answer, Activating)
    case Activating => End(if answer == NotDone then w else w.(active := true))
    case GivingUp => End(Save(w, row.(status := Failed), answer))
  }

  /** Attempts do not overlap: one begins only when none is under way. */
  function Apply(w: World, s: Step): World
  {
    match s
    case Inserted(name, withoutLogin) =>
      if w.row.Some? then w
      else w.(row := Some(Row(name, None, NotAsked, false, if withoutLogin then Failed else Pending, 0)))
    case Accepted =>
      if w.row == None || w.attempt.Some? || !Selected(w.row.value) then w
      else w.(attempt := Some(Attempt(w.row.value, false, Counting)))
    case Swept =>
      if w.row == None || w.attempt.Some? || !Selected(w.row.value) then w
      else
        w.(attempt := Some(Attempt(w.row.value, true,
             if w.row.value.attempts >= PROVISIONING_MAX_ATTEMPTS then GivingUp else Counting)))
    case Crashed => End(w)
    case Goes(answer, reply) =>
      if w.row == None || w.attempt == None then w
      else Go(w, w.attempt.value, w.row.value, answer, reply)
  }

  function Run(w: World, steps: seq<Step>): World
  {
    if steps == [] then w else Apply(Run(w, steps[..|steps| - 1]), steps[|steps| - 1])
  }

  /** Nothing of ours exists yet; other repositories may. */
  predicate Initial(w: World)
  {
    w.row == None && !w.active && w.attempt == None && NoRepeats(w.outside.repos) && NoRepeats(w.outside.hooks)
  }

  predicate NoRepeats(s: seq<Text>)
  {
    forall i, j :: 0 <= i < j < |s| ==> s[i] != s[j]
  }

  // ---------- what every step keeps ----------

  /** The row says only what is so outside. */
  predicate RowOk(row: Row, o: Outside)
  {
    && (row.fullName.Some? ==> row.fullName == Some(row.repoName) && row.repoName in o.repos)
    && (Joined(row.collaborator) ==> row.fullName.Some? && row.repoName in o.invited)
    && (row.hookAttached ==> row.repoName in o.hooks && Joined(row.collaborator))
    && (row.status == Complete <==> row.hookAttached)
  }

  predicate AttemptOk(me: Attempt, row: Row, o: Outside)
  {
    && me.snapshot.repoName == row.repoName && !me.snapshot.hookAttached
    && (me.snapshot.fullName.Some? ==> row.fullName.Some?)
    && (Joined(me.snapshot.collaborator) ==> Joined(row.collaborator))
    && match me.pc
       case SavingRepo => row.repoName in o.repos && Selected(row)
       case Inviting => row.fullName.Some? && Selected(row)
       case SavingCollaborator(c) =>
         row.fullName.Some? && (c == Unknown || (Joined(c) && row.repoName in o.invited)) && Selected(row)
       case Hooking => Joined(row.collaborator) && Selected(row)
       case SavingHook => Joined(row.collaborator) && row.repoName in o.hooks && Selected(row)
       case Activating => row.status == Complete
       case _ => Selected(row)
  }

  predicate Ok(w: World)
  {
    && NoRepeats(w.outside.repos) && NoRepeats(w.outside.hooks)
    && (w.active ==> w.row.Some? && w.row.value.status == Complete)
    && (w.row.Some? ==> RowOk(w.row.value, w.outside))
    && (w.attempt.Some? ==> w.row.Some? && AttemptOk(w.attempt.value, w.row.value, w.outside))
  }

  lemma CallKeepsOk(w: World, answer: Answer, reply: Collaborator)
    requires Ok(w) && w.row.Some? && w.attempt.Some?
    requires var pc := w.attempt.value.pc; pc.CreatingRepo? || pc.Inviting? || pc.Hooking?
    ensures Ok(Go(w, w.attempt.value, w.row.value, answer, reply))
  {
  }

  lemma SaveKeepsOk(w: World, answer: Answer, reply: Collaborator)
    requires Ok(w) && w.row.Some? && w.attempt.Some?
    requires var pc := w.attempt.value.pc; pc.SavingRepo? || pc.SavingCollaborator? || pc.SavingHook?
    ensures Ok(Go(w, w.attempt.value, w.row.value, answer, reply))
  {
  }

  lemma GoKeepsOk(w: World, answer: Answer, reply: Collaborator)
    requires Ok(w) && w.row.Some? && w.attempt.Some?
    ensures Ok(Go(w, w.attempt.value, w.row.value, answer, reply))
  {
    var pc := w.attempt.value.pc;
    if pc.CreatingRepo? || pc.Inviting? || pc.Hooking? {
      CallKeepsOk(w, answer, reply);
    } else if pc.SavingRepo? || pc.SavingCollaborator? || pc.SavingHook? {
      SaveKeepsOk(w, answer, reply);
    }
  }

  lemma StepKeepsOk(w: World, s: Step)
    requires Ok(w)
    ensures Ok(Apply(w, s))
  {
    if s.Goes? && w.row.Some? && w.attempt.Some? {
      GoKeepsOk(w, s.answer, s.reply);
    }
  }

  lemma {:induction false} RunKeepsOk(w: World, steps: seq<Step>)
    requires Initial(w)
    ensures Ok(Run(w, steps))
  {
    if steps != [] {
      RunKeepsOk(w, steps[..|steps| - 1]);
      StepKeepsOk(Run(w, steps[..|steps| - 1]), steps[|steps| - 1]);
    }
  }

  /**
   * In every run, with crashes anywhere: COMPLETE means the repository, the collaborator and the hook
   * are all in place, there is never a second one, and an ACTIVE contract is a complete one.
   */
  lemma CompleteMeansInPlace(w: World, steps: seq<Step>)
    requires Initial(w)
    ensures var x := Run(w, steps);
            && NoRepeats(x.outside.repos) && NoRepeats(x.outside.hooks)
            && (x.row.Some? && x.row.value.status == Complete ==>
                  var name := x.row.value.repoName;
                  name in x.outside.repos && name in x.outside.invited && name in x.outside.hooks)
            && (x.active ==> x.row.Some? && x.row.value.status == Complete)
  {
    RunKeepsOk(w, steps);
  }

  lemma StepKeepsName(w: World, s: Step)
    requires w.row.Some?
    ensures Apply(w, s).row.Some? && Apply(w, s).row.value.repoName == w.row.value.repoName
  {
  }

  /** The name is chosen once: no step of any run changes it. */
  lemma {:induction false} NameIsFixed(w: World, steps: seq<Step>)
    requires w.row.Some?
    ensures Run(w, steps).row.Some? && Run(w, steps).row.value.repoName == w.row.value.repoName
  {
    if steps != [] {
      NameIsFixed(w, steps[..|steps| - 1]);
      StepKeepsName(Run(w, steps[..|steps| - 1]), steps[|steps| - 1]);
    }
  }

  // ---------- it comes to an end ----------

  /** How many more sweeps can have an effect: one per attempt up to the cap, and one to give up. */
  function SweepsLeft(row: Option<Row>): nat
  {
    if row == None || !Selected(row.value) then 0
    else if row.value.attempts >= PROVISIONING_MAX_ATTEMPTS then 1
    else PROVISIONING_MAX_ATTEMPTS + 1 - row.value.attempts
  }

  /** The first write of a sweep takes effect: it counts the attempt, or it gives up. */
  predicate SweepCounts(w: World, s: Step)
  {
    && s.Goes? && s.answer != NotDone && w.attempt.Some? && w.attempt.value.bySweep
    && (w.attempt.value.pc.Counting? || w.attempt.value.pc.GivingUp?)
  }

  /** A sweep counts only below the cap, and gives up only at it. */
  predicate SweepOk(w: World)
  {
    w.attempt.Some? && w.attempt.value.bySweep ==>
      && w.row.Some?
      && (w.attempt.value.pc.Counting? ==> w.row.value.attempts < PROVISIONING_MAX_ATTEMPTS)
      && (w.attempt.value.pc.GivingUp? ==> w.row.value.attempts >= PROVISIONING_MAX_ATTEMPTS)
  }

  lemma StepUsesSweeps(w: World, s: Step)
    requires Ok(w) && SweepOk(w) && w.row.Some?
    ensures SweepOk(Apply(w, s))
    ensures SweepsLeft(Apply(w, s).row) + (if SweepCounts(w, s) then 1 else 0) <= SweepsLeft(w.row)
  {
    if s.Goes? && w.attempt.Some? {
      GoUsesSweeps(w, s.answer, s.reply);
    }
  }

  lemma GoUsesSweeps(w: World, answer: Answer, reply: Collaborator)
    requires Ok(w) && SweepOk(w) && w.row.Some? && w.attempt.Some?
    ensures var s := Goes(answer, reply);
            && SweepOk(Apply(w, s))
            && SweepsLeft(Apply(w, s).row) + (if SweepCounts(w, s) then 1 else 0) <= SweepsLeft(w.row)
  {
    if !SweepCounts(w, Goes(answer, reply)) {
      OthersUseNoSweep(w, answer, reply);
    }
  }

  lemma OthersUseNoSweep(w: World, answer: Answer, reply: Collaborator)
    requires Ok(w) && SweepOk(w) && w.row.Some? && w.attempt.Some? && !SweepCounts(w, Goes(answer, reply))
    ensures SweepOk(Apply(w, Goes(answer, reply))) && SweepsLeft(Apply(w, Goes(answer, reply)).row) <= SweepsLeft(w.row)
  {
    var pc := w.attempt.value.pc;
    if !pc.Counting? && !pc.GivingUp? {
      LaterMovesCountNothing(w, answer, reply);
    }
  }

  lemma LaterMovesCountNothing(w: World, answer: Answer, reply: Collaborator)
    requires w.row.Some? && w.attempt.Some? && !w.attempt.value.pc.Counting? && !w.attempt.value.pc.GivingUp?
    requires Ok(w)
    ensures var x := Go(w, w.attempt.value, w.row.value, answer, reply);
            && x.row.Some? && x.row.value.attempts == w.row.value.attempts
            && (Selected(x.row.value) ==> Selected(w.row.value))
            && (x.attempt.Some? ==> !x.attempt.value.pc.Counting? && !x.attempt.value.pc.GivingUp?)
  {
  }

  function EffectiveSweeps(w: World, steps: seq<Step>): nat
  {
    if steps == [] then 0
    else
      var before := steps[..|steps| - 1];
      EffectiveSweeps(w, before) + if SweepCounts(Run(w, before), steps[|steps| - 1]) then 1 else 0
  }

  /** From any point of any run, at most as many sweeps have an effect as were left. */
  lemma {:induction false} SweepsAreBounded(w: World, steps: seq<Step>)
    requires Ok(w) && SweepOk(w) && w.row.Some?
    ensures Ok(Run(w, steps)) && SweepOk(Run(w, steps)) && Run(w, steps).row.Some?
    ensures SweepsLeft(Run(w, steps).row) + EffectiveSweeps(w, steps) <= SweepsLeft(w.row)
  {
    if steps != [] {
      var before := steps[..|steps| - 1];
      SweepsAreBounded(w, before);
      StepUsesSweeps(Run(w, before), steps[|steps| - 1]);
      StepKeepsOk(Run(w, before), steps[|steps| - 1]);
      StepKeepsName(Run(w, before), steps[|steps| - 1]);
    }
  }

  /** A row inserted without a GitHub login is final at once; a login GitHub does not know ends only the attempt. */
  lemma LoginsMatter(w: World, name: Text, me: Attempt, row: Row, answer: Answer)
    requires w.row == None
    ensures Apply(w, Inserted(name, true)).row == Some(Row(name, None, NotAsked, false, Failed, 0))
    ensures Apply(w, Inserted(name, false)).row == Some(Row(name, None, NotAsked, false, Pending, 0))
    ensures me.pc == SavingCollaborator(Unknown) ==>
              Go(w, me, row, Done, Unknown) == w.(row := Some(row.(collaborator := Unknown)), attempt := None)
  {
  }

  /** Six effective sweeps after the row was inserted, no sweep selects it any more. */
  lemma SixSweepsAreEnough(w: World, steps: seq<Step>)
    requires Ok(w) && w.row.Some? && w.attempt == None && EffectiveSweeps(w, steps) >= 6
    ensures Run(w, steps).row.Some? && !Selected(Run(w, steps).row.value)
  {
    SweepsAreBounded(w, steps);
  }

  // ---------- one undisturbed attempt is enough ----------

  /** `n` moves in a row with everything going well. */
  function Undisturbed(w: World, n: nat): World
    decreases n
  {
    if n == 0 then w else Undisturbed(Apply(w, Goes(Done, Invited)), n - 1)
  }

  /** How many moves are left at each point. */
  function MovesLeft(me: Attempt): nat
  {
    match me.pc
    case Counting => if me.snapshot.fullName == None then 3 + FromRepo(me) else 1 + FromRepo(me)
    case CreatingRepo => 2 + FromRepo(me)
    case SavingRepo => 1 + FromRepo(me)
    case Inviting => 5
    case SavingCollaborator(_) => 4
    case Hooking => 3
    case SavingHook => 2
    case Activating => 1
    case GivingUp => 1
  }

  function FromRepo(me: Attempt): nat { if Joined(me.snapshot.collaborator) then 3 else 5 }

  predicate OnItsWay(w: World)
  {
    && w.row.Some? && w.attempt.Some? && !w.attempt.value.pc.GivingUp? && !w.attempt.value.snapshot.hookAttached
    && w.attempt.value.pc != SavingCollaborator(Unknown)
  }

  lemma MoveOn(w: World)
    requires Ok(w) && OnItsWay(w)
    ensures var x, n := Apply(w, Goes(Done, Invited)), MovesLeft(w.attempt.value);
            && Ok(x)
            && (if n == 1 then x.active && x.row.Some? && x.row.value.status == Complete
                else OnItsWay(x) && MovesLeft(x.attempt.value) == n - 1)
  {
    GoKeepsOk(w, Done, Invited);
    Progresses(w);
  }

  lemma Progresses(w: World)
    requires OnItsWay(w)
    requires w.attempt.value.pc.SavingCollaborator? ==> w.attempt.value.pc.answer != NotAsked
    requires w.attempt.value.pc.Activating? ==> w.row.value.status == Complete
    ensures var x, n := Apply(w, Goes(Done, Invited)), MovesLeft(w.attempt.value);
            if n == 1 then x.active && x.row.Some? && x.row.value.status == Complete
            else OnItsWay(x) && MovesLeft(x.attempt.value) == n - 1
  {
  }

  lemma {:induction false} FinishesUndisturbed(w: World)
    requires Ok(w) && OnItsWay(w)
    ensures var x := Undisturbed(w, MovesLeft(w.attempt.value));
            x.active && x.row.Some? && x.row.value.status == Complete
    decreases MovesLeft(w.attempt.value)
  {
    MoveOn(w);
    if MovesLeft(w.attempt.value) > 1 {
      FinishesUndisturbed(Apply(w, Goes(Done, Invited)));
    }
  }

  /** Wherever the last attempt died, the next sweep, left alone, completes the contract and activates it. */
  lemma ResumedAttemptCompletes(w: World)
    requires Ok(w) && w.row.Some? && Selected(w.row.value) && w.attempt == None
    requires w.row.value.attempts < 5
    ensures exists n :: var x := Undisturbed(Apply(w, Swept), n);
                        x.active && x.row.Some? && x.row.value.status == Complete
  {
    var x := Apply(w, Swept);
    StepKeepsOk(w, Swept);
    FinishesUndisturbed(x);
  }

  // ---------- where it gets stuck ----------

  /** The row is complete, the contract is not active, and nobody is at work. */
  predicate Stuck(w: World)
  {
    w.row.Some? && w.row.value.status == Complete && !w.active && w.attempt == None
  }

  /** Once there, for ever: no sweep and no event selects the row. */
  lemma {:induction false} StuckForEver(w: World, steps: seq<Step>)
    requires Stuck(w)
    ensures Stuck(Run(w, steps))
  {
    if steps != [] {
      StuckForEver(w, steps[..|steps| - 1]);
    }
  }

  /**
   * The step that gets it there: with the ACTIVE write next, a crash or a write that fails; or a COMPLETE
   * write that lands although it reports an error.
   */
  predicate Strands(w: World, s: Step)
  {
    && w.row.Some? && w.attempt.Some? && !w.active
    && match w.attempt.value.pc
       case Activating => s.Crashed? || (s.Goes? && s.answer == NotDone)
       case SavingHook => s.Goes? && s.answer == DoneButLost
       case _ => false
  }

  /** Exactly these three ways lead in, and none leads out. */
  lemma StuckIff(w: World, s: Step)
    requires Ok(w)
    ensures Stuck(Apply(w, s)) <==> Stuck(w) || Strands(w, s)
  {
    if s.Goes? && w.row.Some? && w.attempt.Some? {
      GoStrandsIff(w, s.answer, s.reply);
    }
  }

  lemma GoStrandsIff(w: World, answer: Answer, reply: Collaborator)
    requires Ok(w) && w.row.Some? && w.attempt.Some?
    ensures Stuck(Go(w, w.attempt.value, w.row.value, answer, reply)) <==> Strands(w, Goes(answer, reply))
  {
  }

  predicate EverStrands(w: World, steps: seq<Step>)
  {
    steps != [] &&
    var before := steps[..|steps| - 1];
    EverStrands(w, before) || Strands(Run(w, before), steps[|steps| - 1])
  }

  /** Over runs: a COMPLETE row is left idle with its contract inactive if and only if some step stranded it. */
  lemma {:induction false} StuckIffStranded(w: World, steps: seq<Step>)
    requires Initial(w)
    ensures Stuck(Run(w, steps)) <==> EverStrands(w, steps)
  {
    if steps != [] {
      StuckIffStranded(w, steps[..|steps| - 1]);
      RunKeepsOk(w, steps[..|steps| - 1]);
      StuckIff(Run(w, steps[..|steps| - 1]), steps[|steps| - 1]);
    }
  }

  lemma {:induction false} OnItsWayAfter(w: World, n: nat)
    requires Ok(w) && OnItsWay(w) && n < MovesLeft(w.attempt.value)
    ensures var x := Undisturbed(w, n); Ok(x) && OnItsWay(x) && MovesLeft(x.attempt.value) == MovesLeft(w.attempt.value) - n
    decreases n
  {
    if n > 0 {
      MoveOn(w);
      OnItsWayAfter(Apply(w, Goes(Done, Invited)), n - 1);
    }
  }

  lemma {:induction false} UndisturbedIsARun(w: World, steps: seq<Step>, n: nat) returns (more: seq<Step>)
    ensures Run(w, more) == Undisturbed(Run(w, steps), n)
    decreases n
  {
    if n == 0 {
      more := steps;
    } else {
      RunSnoc(w, steps, Goes(Done, Invited));
      more := UndisturbedIsARun(w, steps + [Goes(Done, Invited)], n - 1);
    }
  }

  /** From nothing to the last write but one: a row inserted, accepted, and walked through undisturbed. */
  lemma ReachesSavingHook(w: World, name: Text) returns (steps: seq<Step>)
    requires Initial(w)
    ensures var x := Run(w, steps);
            Ok(x) && x.row.Some? && x.attempt.Some? && x.attempt.value.pc == SavingHook && !x.active
  {
    RunSnoc(w, [], Inserted(name, false));
    RunSnoc(w, [Inserted(name, false)], Accepted);
    var accepted := Run(w, [Inserted(name, false)] + [Accepted]);
    RunKeepsOk(w, [Inserted(name, false)] + [Accepted]);
    assert OnItsWay(accepted) && MovesLeft(accepted.attempt.value) == 8;
    OnItsWayAfter(accepted, 6);
    steps := UndisturbedIsARun(w, [Inserted(name, false)] + [Accepted], 6);
  }

  /** So from nothing, for any name, each of the three ways in is taken by some run. */
  lemma CanBeStranded(w: World, name: Text)
    requires Initial(w)
    ensures exists steps, s :: Stuck(Run(w, steps + [s])) && s == Crashed
    ensures exists steps, s :: Stuck(Run(w, steps + [s])) && s == Goes(NotDone, Invited)
    ensures exists steps, s :: Stuck(Run(w, steps + [s])) && s == Goes(DoneButLost, Invited)
  {
    var steps := ReachesSavingHook(w, name);
    var x := Run(w, steps);
    RunSnoc(w, steps, Goes(DoneButLost, Invited));
    StuckIff(x, Goes(DoneButLost, Invited));
    RunSnoc(w, steps, Goes(Done, Invited));
    var last := steps + [Goes(Done, Invited)];
    var y := Run(w, last);
    RunKeepsOk(w, last);
    RunSnoc(w, last, Crashed);
    StuckIff(y, Crashed);
    RunSnoc(w, last, Goes(NotDone, Invited));
    StuckIff(y, Goes(NotDone, Invited));
  }

  lemma RunSnoc(w: World, steps: seq<Step>, s: Step)
    ensures Run(w, steps + [s]) == Apply(Run(w, steps), s)
  {
    assert (steps + [s])[..|steps|] == steps;
  }
}
