/**
 * One partition and one consumer group of packages/event-bus/src/index.ts (KafkaBus): a message is
 * acknowledged by committing the offset behind it, which happens only after `eachMessage` resolved.
 */
module KafkaPartition {
  import opened Encoding
  import opened Retries

  /**
   * A value that is not JSON is parked. One that is null, or has no timestamp that reads as a time, is an
   * error before any attempt: its lag is not a finite number, and the histogram refuses such a value.
   */
  datatype Value = NullValue | NotJson | Untimed | Envelope(id: nat)

  /** `first` is where the group first started, `origin` where it last started without a committed offset. */
  datatype Partition = Partition(
    log: seq<Value>, committed: Option<nat>, first: Option<nat>, origin: nat,
    handled: set<nat>, dead: set<nat>, failed: multiset<nat>)

  datatype Pc = Fetching | Trying(attempt: nat) | Parking

  datatype Consumer = Consumer(pos: nat, pc: Pc)

  datatype World = World(part: Partition, consumers: map<nat, Consumer>)

  datatype Answer = Done | DoneButLost | NotDone

  datatype Step =
    | Appended(v: Value)
    | Assigned(k: nat)
    | Crashed(k: nat)
    | Takes(k: nat)
    | Handles(k: nat, ok: bool)
    | Parks(k: nat, answer: Answer)
    | Commits(k: nat)

  /** fromBeginning is false: without a committed offset a consumer starts at the end of the log. */
  function Assign(w: World, k: nat): World
  {
    var p := w.part;
    match p.committed
    case Some(offset) => w.(consumers := w.consumers[k := Consumer(offset, Fetching)])
    case None =>
      var end := |p.log|;
      World(p.(first := if p.first.Some? then p.first else Some(end), origin := end),
            w.consumers[k := Consumer(end, Fetching)])
  }

  /** A consumer resumes at the committed offset, and without one at the end of the log. */
  lemma AssignedAt(w: World, k: nat)
    requires k !in w.consumers
    ensures var x := Apply(w, Assigned(k));
            && k in x.consumers && x.part.log == w.part.log && x.part.committed == w.part.committed
            && x.consumers[k] == Consumer(if w.part.committed.Some? then w.part.committed.value else |w.part.log|, Fetching)
  {
  }

  /** A rejected `eachMessage` ends this consumer; a new assignment starts it again. */
  function Throw(w: World, k: nat): World { w.(consumers := w.consumers - {k}) }

  function Goto(w: World, k: nat, p: Partition, me: Consumer): World { World(p, w.consumers[k := me]) }

  function Apply(w: World, s: Step): World
  {
    match s
    case Appended(v) => w.(part := w.part.(log := w.part.log + [v]))
    case Assigned(k) => if k in w.consumers then w else Assign(w, k)
    case Crashed(k) => Throw(w, k)
    case _ => if s.k in w.consumers then Act(w, s.k, w.consumers[s.k], s) else w
  }

  function Take(w: World, k: nat, me: Consumer): World
    requires me.pos < |w.part.log|
  {
    match w.part.log[me.pos]
    case NullValue => Goto(w, k, w.part, Consumer(me.pos + 1, Fetching))
    case NotJson => Goto(w, k, w.part, me.(pc := Parking))
    case Untimed => Throw(w, k)
    case Envelope(_) => Goto(w, k, w.part, me.(pc := Trying(0)))
  }

  function Act(w: World, k: nat, me: Consumer, s: Step): World
  {
    var p := w.part;
    match s
    case Takes(_) => if me.pc != Fetching || me.pos >= |p.log| then w else Take(w, k, me)
    case Handles(_, ok) =>
      if !me.pc.Trying? then w
      else if ok then Goto(w, k, p.(handled := p.handled + {me.pos}), Consumer(me.pos + 1, Fetching))
      else
        Goto(w, k, p.(failed := p.failed + multiset{me.pos}),
             me.(pc := if me.pc.attempt + 1 < MAX_RETRIES then Trying(me.pc.attempt + 1) else Parking))
    case Parks(_, answer) =>
      if me.pc != Parking then w
      else
        var q := if answer == NotDone then p else p.(dead := p.dead + {me.pos});
        if answer == Done then Goto(w, k, q, Consumer(me.pos + 1, Fetching)) else Throw(w.(part := q), k)
    case Commits(_) => Goto(w, k, p.(committed := Some(me.pos)), me)
    case _ => w
  }

  function Run(w: World, steps: seq<Step>): World
  {
    if steps == [] then w else Apply(Run(w, steps[..|steps| - 1]), steps[|steps| - 1])
  }

  predicate Initial(w: World)
  {
    && w.part == Partition(w.part.log, None, None, 0, {}, {}, multiset{})
    && w.consumers == map[]
  }

  // ---------- what the committed offset promises ----------

  /** Dropped as null, handled, or parked: at once if it does not parse, after three failures if it does. */
  predicate Settled(p: Partition, o: nat)
  {
    o < |p.log| &&
    match p.log[o]
    case NullValue => true
    case NotJson => o in p.dead
    case Untimed => false
    case Envelope(_) => o in p.handled || (o in p.dead && p.failed[o] >= MAX_RETRIES)
  }

  predicate SettledUpTo(p: Partition, pos: nat)
  {
    pos <= |p.log| && forall o :: p.origin <= o < pos ==> Settled(p, o)
  }

  predicate ConsumerOk(p: Partition, me: Consumer)
  {
    && SettledUpTo(p, me.pos)
    && (me.pc.Trying? || me.pc.Parking? ==> me.pos < |p.log|)
    && (me.pc.Trying? ==> p.log[me.pos].Envelope? && me.pc.attempt <= p.failed[me.pos])
    && (me.pc.Parking? ==> p.log[me.pos].NotJson? || (p.log[me.pos].Envelope? && MAX_RETRIES <= p.failed[me.pos]))
  }

  predicate CommittedOk(p: Partition)
  {
    && p.origin <= |p.log|
    && (p.committed.Some? ==> SettledUpTo(p, p.committed.value))
  }

  ghost predicate Ok(w: World)
  {
    CommittedOk(w.part) && forall k :: k in w.consumers ==> ConsumerOk(w.part, w.consumers[k])
  }

  predicate Grows(p: Partition, q: Partition)
  {
    p.log <= q.log && p.origin <= q.origin && p.handled <= q.handled && p.dead <= q.dead && p.failed <= q.failed
  }

  lemma SettledGrows(p: Partition, q: Partition, o: nat)
    requires Grows(p, q) && Settled(p, o)
    ensures Settled(q, o)
  {
  }

  lemma SettledUpToGrows(p: Partition, q: Partition, pos: nat)
    requires Grows(p, q) && SettledUpTo(p, pos)
    ensures SettledUpTo(q, pos)
  {
    forall o | q.origin <= o < pos ensures Settled(q, o) {
      SettledGrows(p, q, o);
    }
  }

  lemma OneMoreSettled(p: Partition, pos: nat)
    requires SettledUpTo(p, pos) && pos < |p.log| && (pos >= p.origin ==> Settled(p, pos))
    ensures SettledUpTo(p, pos + 1)
  {
  }

  lemma ConsumersGrow(w: World, q: Partition)
    requires Ok(w) && Grows(w.part, q)
    ensures forall k :: k in w.consumers ==> ConsumerOk(q, w.consumers[k])
  {
    forall k | k in w.consumers ensures ConsumerOk(q, w.consumers[k]) {
      SettledUpToGrows(w.part, q, w.consumers[k].pos);
    }
  }

  lemma GotoOk(w: World, k: nat, q: Partition, me: Consumer)
    requires Ok(w) && Grows(w.part, q) && CommittedOk(q) && ConsumerOk(q, me)
    ensures Ok(Goto(w, k, q, me))
  {
    ConsumersGrow(w, q);
  }

  lemma SameCommitOk(p: Partition, q: Partition)
    requires CommittedOk(p) && Grows(p, q) && q.committed == p.committed && q.origin <= |q.log|
    ensures CommittedOk(q)
  {
    if p.committed.Some? {
      SettledUpToGrows(p, q, p.committed.value);
    }
  }

  lemma TakeKeepsOk(w: World, k: nat, me: Consumer)
    requires Ok(w) && ConsumerOk(w.part, me) && me.pc == Fetching && me.pos < |w.part.log|
    ensures Ok(Take(w, k, me))
  {
    match w.part.log[me.pos]
    case NullValue =>
      OneMoreSettled(w.part, me.pos);
      GotoOk(w, k, w.part, Consumer(me.pos + 1, Fetching));
    case NotJson => GotoOk(w, k, w.part, me.(pc := Parking));
    case Untimed =>
    case Envelope(_) => GotoOk(w, k, w.part, me.(pc := Trying(0)));
  }

  lemma HandleKeepsOk(w: World, k: nat, me: Consumer, ok: bool)
    requires Ok(w) && ConsumerOk(w.part, me) && me.pc.Trying?
    ensures Ok(Act(w, k, me, Handles(k, ok)))
  {
    var q := if ok then w.part.(handled := w.part.handled + {me.pos})
             else w.part.(failed := w.part.failed + multiset{me.pos});
    SameCommitOk(w.part, q);
    SettledUpToGrows(w.part, q, me.pos);
    if ok {
      OneMoreSettled(q, me.pos);
    }
    var x := Act(w, k, me, Handles(k, ok));
    GotoOk(w, k, q, x.consumers[k]);
  }

  lemma ParkKeepsOk(w: World, k: nat, me: Consumer, answer: Answer)
    requires Ok(w) && ConsumerOk(w.part, me) && me.pc == Parking
    ensures Ok(Act(w, k, me, Parks(k, answer)))
  {
    var q := if answer == NotDone then w.part else w.part.(dead := w.part.dead + {me.pos});
    SameCommitOk(w.part, q);
    SettledUpToGrows(w.part, q, me.pos);
    if answer == Done {
      OneMoreSettled(q, me.pos);
      GotoOk(w, k, q, Consumer(me.pos + 1, Fetching));
    } else {
      ConsumersGrow(w, q);
    }
  }

  lemma StepKeepsOk(w: World, s: Step)
    requires Ok(w)
    ensures Ok(Apply(w, s))
  {
    match s
    case Appended(v) =>
      var q := w.part.(log := w.part.log + [v]);
      SameCommitOk(w.part, q);
      ConsumersGrow(w, q);
    case Assigned(k) =>
      if k !in w.consumers {
        ConsumersGrow(w, Assign(w, k).part);
      }
    case Crashed(_) =>
    case Takes(k) =>
      if k in w.consumers && w.consumers[k].pc == Fetching && w.consumers[k].pos < |w.part.log| {
        TakeKeepsOk(w, k, w.consumers[k]);
      }
    case Handles(k, ok) =>
      if k in w.consumers && w.consumers[k].pc.Trying? {
        HandleKeepsOk(w, k, w.consumers[k], ok);
      }
    case Parks(k, answer) =>
      if k in w.consumers && w.consumers[k].pc == Parking {
        ParkKeepsOk(w, k, w.consumers[k], answer);
      }
    case Commits(k) =>
      if k in w.consumers {
        var q := w.part.(committed := Some(w.consumers[k].pos));
        SettledUpToGrows(w.part, q, w.consumers[k].pos);
        GotoOk(w, k, q, w.consumers[k]);
      }
  }

  lemma {:induction false} RunKeepsOk(w: World, steps: seq<Step>)
    requires Initial(w)
    ensures Ok(Run(w, steps))
  {
    if steps != [] {
      RunKeepsOk(w, steps[..|steps| - 1]);
      StepKeepsOk(Run(w, steps[..|steps| - 1]), steps[|steps| - 1]);
    }
  }

  /**
   * No loss: in every run, whatever is behind the committed offset, from where the group last started
   * without one, was null, handled, or parked.
   */
  lemma CommittedIsSettled(w: World, steps: seq<Step>, o: nat)
    requires Initial(w)
    requires var p := Run(w, steps).part; p.committed.Some? && p.origin <= o < p.committed.value
    ensures Settled(Run(w, steps).part, o)
  {
    RunKeepsOk(w, steps);
  }

  /** So a value that is an error before any attempt is never passed: it holds the partition up. */
  lemma UntimedBlocks(w: World, steps: seq<Step>, o: nat)
    requires Initial(w)
    requires var p := Run(w, steps).part; p.origin <= o < |p.log| && p.log[o].Untimed?
    ensures var p := Run(w, steps).part; p.committed.Some? ==> p.committed.value <= o
  {
    RunKeepsOk(w, steps);
    var p := Run(w, steps).part;
    assert p.committed.Some? && p.committed.value > o ==> Settled(p, o);
  }

  // ---------- before the first commit ----------

  /** The step restarts the group at the end of the log although it had started before. */
  predicate Skips(w: World, s: Step)
  {
    s.Assigned? && s.k !in w.consumers && w.part.first.Some? && w.part.committed == None
    && w.part.first != Some(|w.part.log|)
  }

  predicate NeverSkips(w: World, steps: seq<Step>)
  {
    steps != [] ==>
      var before := steps[..|steps| - 1];
      NeverSkips(w, before) && !Skips(Run(w, before), steps[|steps| - 1])
  }

  /** A commit or a consumer at work means that the group has started. */
  predicate StartsOk(w: World)
  {
    && (w.part.committed.Some? ==> w.part.first.Some?)
    && (w.consumers != map[] ==> w.part.first.Some?)
    && w.part.origin <= |w.part.log|
    && (w.part.first.Some? ==> w.part.first.value <= w.part.origin)
  }

  lemma StepKeepsStarts(w: World, s: Step)
    requires StartsOk(w)
    ensures StartsOk(Apply(w, s))
    ensures var p, q := w.part, Apply(w, s).part;
            && (p.first.Some? ==> q.first == p.first)
            && (p.first == None && q.first.Some? ==> q.first.value == q.origin)
            && (p.first.Some? ==> (q.origin == p.first.value <==> p.origin == p.first.value && !Skips(w, s)))
  {
    if !s.Assigned? && !s.Crashed? && !s.Appended? && s.k in w.consumers {
      ActKeepsStarts(w, s.k, w.consumers[s.k], s);
    }
  }

  lemma ActKeepsStarts(w: World, k: nat, me: Consumer, s: Step)
    requires k in w.consumers
    ensures var x := Act(w, k, me, s); x.part.first == w.part.first && x.part.origin == w.part.origin && x.part.log == w.part.log
  {
  }

  /** Exactly then nothing since the group's first start is left out of the promise. */
  lemma {:induction false} OriginIsFirst(w: World, steps: seq<Step>)
    requires Initial(w)
    ensures StartsOk(Run(w, steps))
    ensures var p := Run(w, steps).part; p.first.Some? ==> (NeverSkips(w, steps) <==> p.first.value == p.origin)
    ensures Run(w, steps).part.first == None ==> NeverSkips(w, steps)
  {
    if steps != [] {
      OriginIsFirst(w, steps[..|steps| - 1]);
      StepKeepsStarts(Run(w, steps[..|steps| - 1]), steps[|steps| - 1]);
    }
  }

  lemma EverythingSinceTheStartIsSettled(w: World, steps: seq<Step>, o: nat)
    requires Initial(w) && NeverSkips(w, steps)
    requires var p := Run(w, steps).part; p.committed.Some? && p.first.Some? && p.first.value <= o < p.committed.value
    ensures Settled(Run(w, steps).part, o)
  {
    OriginIsFirst(w, steps);
    CommittedIsSettled(w, steps, o);
  }

  ghost predicate Reaches(w: World, x: World)
  {
    exists steps :: Run(w, steps) == x
  }

  lemma ReachesNext(w: World, x: World, s: Step)
    requires Reaches(w, x)
    ensures Reaches(w, Apply(x, s))
  {
    var steps :| Run(w, steps) == x;
    assert (steps + [s])[..|steps|] == steps;
    assert Run(w, steps + [s]) == Apply(x, s);
  }

  /**
   * Without the condition it fails: a consumer that dies before its first commit leaves what it was
   * given behind, since the next one starts at the end of the log, and a later commit passes it.
   */
  lemma SkippedIsLost() returns (w: World, x: World)
    ensures Initial(w) && Reaches(w, x)
    ensures x.part.first == Some(0) && x.part.committed == Some(2) && !Settled(x.part, 0)
    ensures x.part.log == [Envelope(1), Envelope(2)]
  {
    var one, two := Envelope(1), Envelope(2);
    var p := Partition([], None, None, 0, {}, {}, multiset{});
    w := World(p, map[]);
    assert Run(w, []) == w;
    ReachesNext(w, w, Assigned(0));
    var w1 := World(p.(first := Some(0)), map[0 := Consumer(0, Fetching)]);
    ReachesNext(w, w1, Appended(one));
    var p2 := p.(first := Some(0), log := [one]);
    ReachesNext(w, World(p2, map[0 := Consumer(0, Fetching)]), Crashed(0));
    ReachesNext(w, World(p2, map[]), Assigned(1));
    var p3 := p2.(origin := 1);
    ReachesNext(w, World(p3, map[1 := Consumer(1, Fetching)]), Appended(two));
    var p4 := p3.(log := [one, two]);
    x := SecondIsCommitted(w, p4);
  }

  lemma OneMoves(w: World, p: Partition, me: Consumer, s: Step, q: Partition, you: Consumer)
    requires Reaches(w, World(p, map[1 := me])) && !(s.Appended? || s.Assigned? || s.Crashed?) && s.k == 1
    requires Act(World(p, map[1 := me]), 1, me, s) == Goto(World(p, map[1 := me]), 1, q, you)
    ensures Reaches(w, World(q, map[1 := you]))
  {
    ReachesNext(w, World(p, map[1 := me]), s);
    assert map[1 := me][1 := you] == map[1 := you];
  }

  lemma SecondIsCommitted(w: World, p: Partition) returns (x: World)
    requires Reaches(w, World(p, map[1 := Consumer(1, Fetching)])) && p.log == [Envelope(1), Envelope(2)]
    ensures Reaches(w, x) && x.part == p.(handled := p.handled + {1}, committed := Some(2))
  {
    var q := p.(handled := p.handled + {1});
    OneMoves(w, p, Consumer(1, Fetching), Takes(1), p, Consumer(1, Trying(0)));
    OneMoves(w, p, Consumer(1, Trying(0)), Handles(1, true), q, Consumer(2, Fetching));
    OneMoves(w, q, Consumer(2, Fetching), Commits(1), q.(committed := Some(2)), Consumer(2, Fetching));
    x := World(q.(committed := Some(2)), map[1 := Consumer(2, Fetching)]);
  }

  // ---------- one message, start to end ----------

  function FailTimes(p: Partition, o: nat, times: nat): Partition
  {
    p.(failed := p.failed[o := p.failed[o] + times])
  }

  /** What `eachMessage` does for the message at `pos`, and whether it resolved. */
  function Delivered(p: Partition, pos: nat, handler: nat -> bool, parks: bool): (Partition, bool)
    requires pos < |p.log|
  {
    var parked := if parks then p.(dead := p.dead + {pos}) else p;
    match p.log[pos]
    case NullValue => (p, true)
    case NotJson => (parked, parks)
    case Untimed => (p, false)
    case Envelope(_) =>
      var tries := FirstSuccess(handler, 0);
      var tried := FailTimes(p, pos, tries);
      if tries < MAX_RETRIES then (tried.(handled := tried.handled + {pos}), true)
      else if parks then (tried.(dead := tried.dead + {pos}), true)
      else (tried, false)
  }

  /** Only what is settled resolves, and only a resolved message lets the offset move on. */
  lemma ResolvedIsSettled(p: Partition, pos: nat, handler: nat -> bool, parks: bool)
    requires pos < |p.log|
    ensures var (q, resolved) := Delivered(p, pos, handler, parks);
            Grows(p, q) && (resolved ==> Settled(q, pos)) && q.committed == p.committed
  {
  }

  method EachMessage(p: Partition, pos: nat, handler: nat -> bool, parks: bool) returns (q: Partition, resolved: bool)
    requires pos < |p.log|
    ensures (q, resolved) == Delivered(p, pos, handler, parks)
  {
    q := p;
    match p.log[pos]
    case NullValue => resolved := true;
    case NotJson =>
      // No number of retries can help, so it is parked at once; a failed append escapes.
      if parks {
        q := q.(dead := q.dead + {pos});
      }
      resolved := parks;
    case Untimed => resolved := false;
    case Envelope(_) =>
      var failure, failures := RunWithRetries(handler);
      q := FailTimes(q, pos, failures);
      if failure == None {
        q := q.(handled := q.handled + {pos});
        resolved := true;
      } else if parks {
        q := q.(dead := q.dead + {pos});
        resolved := true;
      } else {
        resolved := false;
      }
  }

  // ---------- a delivery is a stretch of a run ----------

  lemma {:induction false} RunConcat(w: World, a: seq<Step>, b: seq<Step>)
    ensures Run(w, a + b) == Run(Run(w, a), b)
  {
    if b == [] {
      assert a + b == a;
    } else {
      RunConcat(w, a, b[..|b| - 1]);
      assert (a + b)[..|a + b| - 1] == a + b[..|b| - 1];
    }
  }

  lemma ReachesTransitive(w: World, x: World, y: World)
    requires Reaches(w, x) && Reaches(x, y)
    ensures Reaches(w, y)
  {
    var a :| Run(w, a) == x;
    var b :| Run(x, b) == y;
    RunConcat(w, a, b);
  }

  lemma ReachesSelf(w: World)
    ensures Reaches(w, w)
  {
    assert Run(w, []) == w;
  }

  lemma MoveOn(w: World, x: World, k: nat, me: Consumer, s: Step, y: World)
    requires k in x.consumers && x.consumers[k] == me && Reaches(w, x)
    requires Act(x, k, me, s) == y && !(s.Appended? || s.Assigned? || s.Crashed?) && s.k == k
    ensures Reaches(w, y)
  {
    ReachesNext(w, x, s);
  }

  lemma GotoTwice(w: World, k: nat, p: Partition, me: Consumer, q: Partition, you: Consumer)
    ensures Goto(Goto(w, k, p, me), k, q, you) == Goto(w, k, q, you)
    ensures Throw(Goto(w, k, p, me).(part := q), k) == Throw(w.(part := q), k)
  {
    assert w.consumers[k := me][k := you] == w.consumers[k := you];
    assert w.consumers[k := me] - {k} == w.consumers - {k};
  }

  lemma FailOnce(p: Partition, o: nat, times: nat)
    ensures FailTimes(p.(failed := p.failed + multiset{o}), o, times) == FailTimes(p, o, times + 1)
  {
    assert (p.failed + multiset{o})[o := (p.failed + multiset{o})[o] + times] == p.failed[o := p.failed[o] + times + 1];
  }

  /** The retry loop: failures up to the first success, or up to the limit. */
  lemma {:induction false} TriesAreARun(w: World, k: nat, pos: nat, handler: nat -> bool, attempt: nat)
    requires attempt < MAX_RETRIES && k in w.consumers && w.consumers[k] == Consumer(pos, Trying(attempt))
    ensures var r := FirstSuccess(handler, attempt);
            var p := FailTimes(w.part, pos, r - attempt);
            Reaches(w, if r < MAX_RETRIES then Goto(w, k, p.(handled := p.handled + {pos}), Consumer(pos + 1, Fetching))
                       else Goto(w, k, p, Consumer(pos, Parking)))
    decreases MAX_RETRIES - attempt
  {
    var me := Consumer(pos, Trying(attempt));
    ReachesSelf(w);
    if handler(attempt) {
      NoFailures(w.part, pos);
      MoveOn(w, w, k, me, Handles(k, true),
             Goto(w, k, w.part.(handled := w.part.handled + {pos}), Consumer(pos + 1, Fetching)));
    } else {
      var p := w.part.(failed := w.part.failed + multiset{pos});
      var you := Consumer(pos, if attempt + 1 < MAX_RETRIES then Trying(attempt + 1) else Parking);
      var x := Goto(w, k, p, you);
      MoveOn(w, w, k, me, Handles(k, false), x);
      if attempt + 1 < MAX_RETRIES {
        TriesAreARun(x, k, pos, handler, attempt + 1);
        TriesGoOn(w, x, k, pos, handler, attempt);
      } else {
        FailOnce(w.part, pos, 0);
        NoFailures(p, pos);
      }
    }
  }

  lemma NoFailures(p: Partition, o: nat)
    ensures FailTimes(p, o, 0) == p
  {
    assert p.failed[o := p.failed[o] + 0] == p.failed;
  }

  lemma TriesGoOn(w: World, x: World, k: nat, pos: nat, handler: nat -> bool, attempt: nat)
    requires attempt + 1 < MAX_RETRIES && !handler(attempt) && Reaches(w, x)
    requires x == Goto(w, k, w.part.(failed := w.part.failed + multiset{pos}), Consumer(pos, Trying(attempt + 1)))
    requires var r := FirstSuccess(handler, attempt + 1);
             var p := FailTimes(x.part, pos, r - attempt - 1);
             Reaches(x, if r < MAX_RETRIES then Goto(x, k, p.(handled := p.handled + {pos}), Consumer(pos + 1, Fetching))
                        else Goto(x, k, p, Consumer(pos, Parking)))
    ensures var r := FirstSuccess(handler, attempt);
            var p := FailTimes(w.part, pos, r - attempt);
            Reaches(w, if r < MAX_RETRIES then Goto(w, k, p.(handled := p.handled + {pos}), Consumer(pos + 1, Fetching))
                       else Goto(w, k, p, Consumer(pos, Parking)))
  {
    var r := FirstSuccess(handler, attempt + 1);
    assert FirstSuccess(handler, attempt) == r;
    FailOnce(w.part, pos, r - attempt - 1);
    var p := FailTimes(w.part, pos, r - attempt);
    var q := p.(handled := p.handled + {pos});
    GotoTwice(w, k, x.part, Consumer(pos, Trying(attempt + 1)), q, Consumer(pos + 1, Fetching));
    GotoTwice(w, k, x.part, Consumer(pos, Trying(attempt + 1)), p, Consumer(pos, Parking));
    ReachesTransitive(w, x, if r < MAX_RETRIES then Goto(x, k, q, Consumer(pos + 1, Fetching))
                            else Goto(x, k, p, Consumer(pos, Parking)));
  }

  /** Where a delivery that left the partition at q leaves the consumer. */
  function After(w: World, k: nat, pos: nat, q: Partition, resolved: bool): World
  {
    if resolved then Goto(w, k, q, Consumer(pos + 1, Fetching)) else Throw(w.(part := q), k)
  }

  lemma ParksIt(w: World, k: nat, pos: nat, parks: bool)
    requires k in w.consumers && w.consumers[k] == Consumer(pos, Parking)
    ensures Reaches(w, After(w, k, pos, if parks then w.part.(dead := w.part.dead + {pos}) else w.part, parks))
  {
    ReachesSelf(w);
    var q := if parks then w.part.(dead := w.part.dead + {pos}) else w.part;
    MoveOn(w, w, k, Consumer(pos, Parking), Parks(k, if parks then Done else NotDone), After(w, k, pos, q, parks));
  }

  /** What `eachMessage` does is what the steps of an undisturbed consumer add up to. */
  lemma DeliveredIsARun(w: World, k: nat, pos: nat, handler: nat -> bool, parks: bool)
    requires k in w.consumers && w.consumers[k] == Consumer(pos, Fetching) && pos < |w.part.log|
    ensures var (q, resolved) := Delivered(w.part, pos, handler, parks); Reaches(w, After(w, k, pos, q, resolved))
  {
    var me := Consumer(pos, Fetching);
    ReachesSelf(w);
    var x := Take(w, k, me);
    MoveOn(w, w, k, me, Takes(k), x);
    match w.part.log[pos]
    case NullValue =>
    case Untimed =>
    case NotJson =>
      ParksIt(x, k, pos, parks);
      AfterGoto(w, k, pos, w.part, Consumer(pos, Parking), parks);
      ReachesTransitive(w, x, After(x, k, pos, if parks then x.part.(dead := x.part.dead + {pos}) else x.part, parks));
    case Envelope(_) => EnvelopeIsARun(w, x, k, pos, handler, parks);
  }

  lemma AfterGoto(w: World, k: nat, pos: nat, p: Partition, me: Consumer, parks: bool)
    ensures forall q :: After(Goto(w, k, p, me), k, pos, q, parks) == After(w, k, pos, q, parks)
  {
    forall q ensures After(Goto(w, k, p, me), k, pos, q, parks) == After(w, k, pos, q, parks) {
      GotoTwice(w, k, p, me, q, Consumer(pos + 1, Fetching));
    }
  }

  lemma EnvelopeIsARun(w: World, x: World, k: nat, pos: nat, handler: nat -> bool, parks: bool)
    requires pos < |w.part.log| && w.part.log[pos].Envelope? && Reaches(w, x)
    requires x == Goto(w, k, w.part, Consumer(pos, Trying(0)))
    ensures var (q, resolved) := Delivered(w.part, pos, handler, parks); Reaches(w, After(w, k, pos, q, resolved))
  {
    TriesAreARun(x, k, pos, handler, 0);
    var r := FirstSuccess(handler, 0);
    var p := FailTimes(w.part, pos, r);
    if r < MAX_RETRIES {
      var q := p.(handled := p.handled + {pos});
      GotoTwice(w, k, w.part, Consumer(pos, Trying(0)), q, Consumer(pos + 1, Fetching));
      ReachesTransitive(w, x, Goto(x, k, q, Consumer(pos + 1, Fetching)));
    } else {
      var y := Goto(x, k, p, Consumer(pos, Parking));
      GotoTwice(w, k, w.part, Consumer(pos, Trying(0)), p, Consumer(pos, Parking));
      ReachesTransitive(w, x, y);
      ParksIt(y, k, pos, parks);
      AfterGoto(w, k, pos, p, Consumer(pos, Parking), parks);
      ReachesTransitive(w, y, After(y, k, pos, if parks then p.(dead := p.dead + {pos}) else p, parks));
    }
  }

  // ---------- which messages the committed offset can pass ----------

  predicate Passed(w: World, o: nat)
  {
    w.part.committed.Some? && w.part.origin <= o < w.part.committed.value
  }

  /** No value from q up to o is an error before any attempt. */
  predicate Clear(p: Partition, q: nat, o: nat)
  {
    forall i :: q <= i <= o && i < |p.log| ==> !p.log[i].Untimed?
  }

  lemma {:induction false} CanPass(x: World, k: nat, q: nat, o: nat)
    requires k in x.consumers && x.consumers[k] == Consumer(q, Fetching) && q <= o + 1 && o < |x.part.log|
    requires x.part.origin <= o && Clear(x.part, q, o)
    ensures exists more :: Passed(Run(x, more), o)
    decreases o + 1 - q
  {
    if q == o + 1 {
      var y := Apply(x, Commits(k));
      ReachesSelf(x);
      ReachesNext(x, x, Commits(k));
      var more :| Run(x, more) == y;
      assert Passed(Run(x, more), o);
    } else {
      var (p, resolved) := Delivered(x.part, q, _ => true, true);
      DeliveredIsARun(x, k, q, _ => true, true);
      DeliversClear(x.part, q);
      var y := Goto(x, k, p, Consumer(q + 1, Fetching));
      assert Reaches(x, y);
      CanPass(y, k, q + 1, o);
      var first :| Run(x, first) == y;
      var rest :| Passed(Run(y, rest), o);
      RunConcat(x, first, rest);
      assert Passed(Run(x, first + rest), o);
    }
  }

  /** A message of any other kind can be resolved, and nothing but its marks changes. */
  lemma DeliversClear(p: Partition, pos: nat)
    requires pos < |p.log| && !p.log[pos].Untimed?
    ensures var (q, resolved) := Delivered(p, pos, _ => true, true);
            resolved && q.log == p.log && q.origin == p.origin && q.committed == p.committed
  {
    assert FirstSuccess(_ => true, 0) == 0;
  }

  /** The group starts anew only at the end of the log. */
  lemma {:induction false} OriginStaysOrSkips(x: World, more: seq<Step>)
    ensures var p := Run(x, more).part;
            x.part.log <= p.log && (p.origin == x.part.origin || p.origin >= |x.part.log|)
  {
    if more != [] {
      OriginStaysOrSkips(x, more[..|more| - 1]);
      StepKeepsOrigin(Run(x, more[..|more| - 1]), more[|more| - 1]);
    }
  }

  lemma StepKeepsOrigin(x: World, s: Step)
    ensures var p := Apply(x, s).part;
            x.part.log <= p.log && (p.origin == x.part.origin || p.origin == |x.part.log|)
  {
    if !s.Assigned? && !s.Crashed? && !s.Appended? && s.k in x.consumers {
      ActKeepsStarts(x, s.k, x.consumers[s.k], s);
    }
  }

  /**
   * Exactly when: with a consumer about to fetch at q, the committed offset can pass message o, unless the
   * group starts anew behind it, if and only if none from q up to o is an error before any attempt.
   */
  lemma CanPassIff(w: World, steps: seq<Step>, k: nat, q: nat, o: nat)
    requires Initial(w)
    requires var x := Run(w, steps);
             && k in x.consumers && x.consumers[k] == Consumer(q, Fetching)
             && x.part.origin <= q <= o < |x.part.log|
    ensures (exists more :: Passed(Run(Run(w, steps), more), o)) <==> Clear(Run(w, steps).part, q, o)
  {
    var x := Run(w, steps);
    if Clear(x.part, q, o) {
      CanPass(x, k, q, o);
    } else {
      var i :| q <= i <= o && i < |x.part.log| && x.part.log[i].Untimed?;
      forall more ensures !Passed(Run(x, more), o) {
        RunConcat(w, steps, more);
        OriginStaysOrSkips(x, more);
        if Passed(Run(x, more), o) {
          UntimedBlocks(w, steps + more, i);
        }
      }
    }
  }

  /** Such a message can be the next one: it is appended behind a consumer that has just started. */
  lemma UntimedIsReachable(w: World) returns (steps: seq<Step>)
    requires Initial(w)
    ensures var x, o := Run(w, steps), |w.part.log|;
            && 0 in x.consumers && x.consumers[0] == Consumer(o, Fetching) && x.part.origin == o
            && o < |x.part.log| && x.part.log[o].Untimed?
  {
    ReachesSelf(w);
    ReachesNext(w, w, Assigned(0));
    var w1 := Apply(w, Assigned(0));
    ReachesNext(w, w1, Appended(Untimed));
    steps :| Run(w, steps) == Apply(w1, Appended(Untimed));
  }
}
