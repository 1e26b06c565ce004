/**
 * One stream and one consumer group of packages/event-bus/src/index.ts (RedisStreamsBus): the group
 * cursor, the pending list, retries, dead letters, acknowledgement and reclaim, under crashes.
 */
module RedisStreams {
  import opened Encoding
  import opened Retries

  const BATCH := 10

  /**
   * What an entry's fields hold. An envelope that is not JSON, is null, or has no timestamp that reads as a
   * time throws before any attempt: its lag is not a finite number, and the histogram refuses such a value.
   */
  datatype Body = NoEnvelope | Untimed | Message(id: nat)

  /** The group's start is the length of the stream when it was created: '$'. */
  datatype Group = Group(
    entries: seq<Body>, start: nat, cursor: nat,
    pending: set<nat>, acked: set<nat>, handled: set<nat>, dead: set<nat>,
    // How often the handler has failed on each entry.
    failed: multiset<nat>)

  datatype Pc = Fetching | Trying(n: nat, attempt: nat) | Parking(n: nat) | Acking(n: nat)

  /** A consumer works through the batch it was given. */
  datatype Consumer = Consumer(batch: seq<nat>, pc: Pc)

  datatype World = World(group: Group, consumers: map<nat, Consumer>)

  /** How a command ends: as asked, with its effect but an error for the caller, or without effect. */
  datatype Answer = Done | DoneButLost | NotDone

  datatype Step =
    | Appended(body: Body)
    | Joined(k: nat)
    | Crashed(k: nat)
    | Reads(k: nat, answer: Answer)
    | Reclaims(k: nat, idle: seq<nat>)
    | Begins(k: nat)
    | Handles(k: nat, ok: bool)
    | Parks(k: nat, answer: Answer)
    | Acks(k: nat, answer: Answer)

  // ---------- commands ----------

  /** The numbers of the entries XREADGROUP '>' hands out. */
  function Fresh(g: Group): (ns: seq<nat>)
    ensures g.cursor <= |g.entries| ==> |ns| == if |g.entries| - g.cursor < 10 then |g.entries| - g.cursor else 10
    ensures |ns| <= BATCH && forall i :: 0 <= i < |ns| ==> ns[i] == g.cursor + i
    ensures g.cursor <= |g.entries| ==> g.cursor + |ns| <= |g.entries|
  {
    var left := if g.cursor <= |g.entries| then |g.entries| - g.cursor else 0;
    seq(if left < BATCH then left else BATCH, (i: nat) => g.cursor + i)
  }

  lemma FreshHas(g: Group, n: nat)
    ensures n in Fresh(g) <==> g.cursor <= n < g.cursor + |Fresh(g)|
  {
    if g.cursor <= n < g.cursor + |Fresh(g)| {
      assert Fresh(g)[n - g.cursor] == n;
    }
  }

  function ReadGroup(g: Group): Group
  {
    var ns := Fresh(g);
    g.(cursor := g.cursor + |ns|, pending := g.pending + set n | n in ns)
  }

  /** XACK of an entry that is not pending does nothing. */
  function Ack(g: Group, n: nat): Group
  {
    if n in g.pending then g.(pending := g.pending - {n}, acked := g.acked + {n}) else g
  }

  function Park(g: Group, n: nat): Group { g.(dead := g.dead + {n}) }

  function Handle(g: Group, n: nat): Group { g.(handled := g.handled + {n}) }

  function Fail(g: Group, n: nat): Group { g.(failed := g.failed + multiset{n}) }

  // ---------- a consumer ----------

  /** An error escapes to the poll loop, which drops the rest of the batch. */
  const EMPTY := Consumer([], Fetching)

  function Begin(g: Group, me: Consumer): Consumer
    requires me.batch != []
  {
    var n := me.batch[0];
    if n >= |g.entries| then EMPTY
    else
      match g.entries[n]
      case NoEnvelope => me.(pc := Acking(n))
      case Untimed => EMPTY
      case Message(_) => me.(pc := Trying(n, 0))
  }

  function AfterFailure(me: Consumer): Consumer
    requires me.pc.Trying?
  {
    if me.pc.attempt + 1 < MAX_RETRIES then me.(pc := Trying(me.pc.n, me.pc.attempt + 1)) else me.(pc := Parking(me.pc.n))
  }

  function With(w: World, k: nat, g: Group, me: Consumer): World { World(g, w.consumers[k := me]) }

  function Apply(w: World, s: Step): World
  {
    match s
    case Appended(body) => w.(group := w.group.(entries := w.group.entries + [body]))
    case Joined(k) => if k in w.consumers then w else w.(consumers := w.consumers[k := EMPTY])
    case Crashed(k) => w.(consumers := w.consumers - {k})
    case _ => if s.k in w.consumers then Act(w, s.k, w.consumers[s.k], s) else w
  }

  function Act(w: World, k: nat, me: Consumer, s: Step): World
  {
    match s
    case Reads(_, answer) =>
      if me.pc != Fetching || me.batch != [] || answer == NotDone then w
      else With(w, k, ReadGroup(w.group), if answer == Done then Consumer(Fresh(w.group), Fetching) else EMPTY)
    case Reclaims(_, idle) =>
      if me.pc != Fetching || me.batch != [] || |idle| > BATCH || exists i :: 0 <= i < |idle| && idle[i] !in w.group.pending
      then w
      else With(w, k, w.group, Consumer(idle, Fetching))
    case Begins(_) =>
      if me.pc != Fetching || me.batch == [] then w else With(w, k, w.group, Begin(w.group, me))
    case Handles(_, ok) =>
      if !me.pc.Trying? then w
      else if ok then With(w, k, Handle(w.group, me.pc.n), me.(pc := Acking(me.pc.n)))
      else With(w, k, Fail(w.group, me.pc.n), AfterFailure(me))
    case Parks(_, answer) =>
      if !me.pc.Parking? then w
      else
        With(w, k, if answer == NotDone then w.group else Park(w.group, me.pc.n),
             if answer == Done then me.(pc := Acking(me.pc.n)) else EMPTY)
    case Acks(_, answer) =>
      if !me.pc.Acking? then w
      else
        With(w, k, if answer == NotDone then w.group else Ack(w.group, me.pc.n),
             if answer == Done && me.batch != [] then Consumer(me.batch[1..], Fetching) else EMPTY)
    case _ => w
  }

  function Run(w: World, steps: seq<Step>): World
  {
    if steps == [] then w else Apply(Run(w, steps[..|steps| - 1]), steps[|steps| - 1])
  }

  /** A group just created over some stream. */
  predicate Initial(w: World)
  {
    var g := w.group;
    && g.start == g.cursor == |g.entries| && g.pending == {} && g.acked == {} && g.handled == {} && g.dead == {} && g.failed == multiset{}
    && w.consumers == map[]
  }

  // ---------- nothing is lost ----------

  /** Entry n needs no more work: it was not ours, or was handled, or failed often enough and is a dead letter. */
  predicate Settled(g: Group, n: nat)
  {
    n < |g.entries| &&
    match g.entries[n]
    case NoEnvelope => true
    case Untimed => false
    case Message(_) => n in g.handled || (n in g.dead && g.failed[n] >= MAX_RETRIES)
  }

  /** Exactly one of undelivered, pending and acknowledged; and what is acknowledged is settled. */
  predicate Accounted(g: Group, n: nat)
  {
    && (n >= g.cursor ==> n !in g.pending && n !in g.acked)
    && (n < g.cursor ==> (n in g.pending <==> n !in g.acked))
    && (n in g.acked ==> Settled(g, n))
  }

  predicate IsMessage(g: Group, n: nat) { n < |g.entries| && g.entries[n].Message? }

  ghost predicate GroupOk(g: Group)
  {
    && g.start <= g.cursor <= |g.entries|
    && (forall n :: g.start <= n < |g.entries| ==> Accounted(g, n))
    && (forall n :: n in g.pending || n in g.acked ==> g.start <= n < g.cursor)
    && (forall n :: n in g.dead ==> IsMessage(g, n))
  }

  predicate ConsumerOk(g: Group, me: Consumer)
  {
    && (forall i :: 0 <= i < |me.batch| ==> g.start <= me.batch[i] < g.cursor)
    && (me.pc.Trying? || me.pc.Parking? ==> me.pc.n < |g.entries| && g.entries[me.pc.n].Message?)
    && (me.pc.Trying? ==> me.pc.attempt <= g.failed[me.pc.n])
    && (me.pc.Parking? ==> MAX_RETRIES <= g.failed[me.pc.n])
    && (me.pc.Acking? ==> Settled(g, me.pc.n))
  }

  ghost predicate Ok(w: World)
  {
    GroupOk(w.group) && forall k :: k in w.consumers ==> ConsumerOk(w.group, w.consumers[k])
  }

  /** What was appended, delivered, handled or parked stays so. */
  predicate Grows(g: Group, h: Group)
  {
    && g.entries <= h.entries && g.start == h.start && g.cursor <= h.cursor
    && g.handled <= h.handled && g.dead <= h.dead && g.acked <= h.acked && g.failed <= h.failed
  }

  lemma ConsumerOkGrows(g: Group, h: Group, me: Consumer)
    requires Grows(g, h) && ConsumerOk(g, me)
    ensures ConsumerOk(h, me)
  {
  }

  lemma ReadKeepsOk(g: Group)
    requires GroupOk(g)
    ensures GroupOk(ReadGroup(g)) && Grows(g, ReadGroup(g)) && ConsumerOk(ReadGroup(g), Consumer(Fresh(g), Fetching))
  {
    var ns, h := Fresh(g), ReadGroup(g);
    forall n | g.start <= n < |h.entries| ensures Accounted(h, n) {
      assert Accounted(g, n);
      FreshHas(g, n);
      assert n in h.pending <==> n in g.pending || n in ns;
    }
  }

  lemma AckKeepsOk(g: Group, n: nat)
    requires GroupOk(g) && Settled(g, n)
    ensures GroupOk(Ack(g, n)) && Grows(g, Ack(g, n))
  {
    var h := Ack(g, n);
    forall m | g.start <= m < |h.entries| ensures Accounted(h, m) {
      assert Accounted(g, m);
    }
  }

  lemma MarkKeepsOk(g: Group, n: nat, h: Group)
    requires GroupOk(g) && IsMessage(g, n) && (h == Park(g, n) || h == Handle(g, n) || h == Fail(g, n))
    ensures GroupOk(h) && Grows(g, h)
  {
    forall m | g.start <= m < |h.entries| ensures Accounted(h, m) {
      assert Accounted(g, m);
    }
  }

  lemma AppendKeepsOk(g: Group, body: Body)
    requires GroupOk(g)
    ensures var h := g.(entries := g.entries + [body]); GroupOk(h) && Grows(g, h)
  {
    var h := g.(entries := g.entries + [body]);
    forall m | g.start <= m < |h.entries| ensures Accounted(h, m) {
      if m < |g.entries| {
        assert Accounted(g, m);
      }
    }
  }

  // ---------- the consumer's moves ----------

  lemma BeginOk(g: Group, me: Consumer)
    requires ConsumerOk(g, me) && me.batch != []
    ensures ConsumerOk(g, Begin(g, me))
  {
  }

  lemma AfterFailureOk(g: Group, me: Consumer)
    requires ConsumerOk(g, me) && me.pc.Trying?
    ensures ConsumerOk(Fail(g, me.pc.n), AfterFailure(me))
  {
  }

  lemma WithOk(w: World, k: nat, g: Group, me: Consumer)
    requires Ok(w) && k in w.consumers && GroupOk(g) && Grows(w.group, g) && ConsumerOk(g, me)
    ensures Ok(With(w, k, g, me))
  {
    forall j | j in w.consumers ensures ConsumerOk(g, w.consumers[j]) {
      ConsumerOkGrows(w.group, g, w.consumers[j]);
    }
  }

  lemma ActKeepsOk(w: World, k: nat, me: Consumer, s: Step)
    requires Ok(w) && k in w.consumers && me == w.consumers[k]
    ensures Ok(Act(w, k, me, s))
  {
    var x := Act(w, k, me, s);
    if x != w {
      match s
      case Reads(_, _) => ReadKeepsOk(w.group); WithOk(w, k, x.group, x.consumers[k]);
      case Reclaims(_, idle) => WithOk(w, k, w.group, Consumer(idle, Fetching));
      case Begins(_) => BeginOk(w.group, me); WithOk(w, k, w.group, Begin(w.group, me));
      case Handles(_, ok) =>
        if ok {
          MarkKeepsOk(w.group, me.pc.n, Handle(w.group, me.pc.n));
        } else {
          MarkKeepsOk(w.group, me.pc.n, Fail(w.group, me.pc.n));
          AfterFailureOk(w.group, me);
        }
        WithOk(w, k, x.group, x.consumers[k]);
      case Parks(_, answer) =>
        if answer != NotDone {
          MarkKeepsOk(w.group, me.pc.n, Park(w.group, me.pc.n));
        }
        WithOk(w, k, x.group, x.consumers[k]);
      case Acks(_, answer) =>
        if answer != NotDone {
          AckKeepsOk(w.group, me.pc.n);
        }
        WithOk(w, k, x.group, x.consumers[k]);
      case _ =>
    }
  }

  lemma StepKeepsOk(w: World, s: Step)
    requires Ok(w)
    ensures Ok(Apply(w, s))
  {
    match s
    case Appended(body) =>
      AppendKeepsOk(w.group, body);
      forall k | k in w.consumers ensures ConsumerOk(Apply(w, s).group, w.consumers[k]) {
        ConsumerOkGrows(w.group, Apply(w, s).group, w.consumers[k]);
      }
    case Joined(_) =>
    case Crashed(_) =>
    case _ =>
      if s.k in w.consumers {
        ActKeepsOk(w, s.k, w.consumers[s.k], s);
      }
  }

  lemma {:induction false} RunKeepsOk(w: World, steps: seq<Step>)
    requires Initial(w)
    ensures Ok(Run(w, steps))
  {
    if steps != [] {
      RunKeepsOk(w, steps[..|steps| - 1]);
      StepKeepsOk(Run(w, steps[..|steps| - 1]), steps[|steps| - 1]);
    }
  }

  /**
   * No loss: in every run, with consumers crashing anywhere, each entry appended since the group was
   * made is exactly one of undelivered, pending and acknowledged, and an acknowledged one had no
   * envelope, was handled, or failed three times and is a dead letter.
   */
  lemma NothingIsLost(w: World, steps: seq<Step>, n: nat)
    requires Initial(w)
    requires var g := Run(w, steps).group; g.start <= n < |g.entries|
    ensures Accounted(Run(w, steps).group, n)
  {
    RunKeepsOk(w, steps);
  }

  /** An entry that throws before any attempt is never acknowledged, and never a dead letter: it stays. */
  lemma UntimedStays(w: World, steps: seq<Step>, n: nat)
    requires Initial(w)
    requires var g := Run(w, steps).group; g.start <= n < |g.entries| && g.entries[n].Untimed?
    ensures var g := Run(w, steps).group; n !in g.acked && n !in g.dead && (n < g.cursor ==> n in g.pending)
  {
    RunKeepsOk(w, steps);
    assert Accounted(Run(w, steps).group, n);
  }

  /** At the head of a reclaimed batch it takes the batch with it: the pass changes nothing. */
  lemma UntimedDropsBatch(w: World, k: nat, idle: seq<nat>)
    requires k in w.consumers && w.consumers[k] == EMPTY
    requires 0 < |idle| <= BATCH && (forall i :: 0 <= i < |idle| ==> idle[i] in w.group.pending)
    requires idle[0] < |w.group.entries| && w.group.entries[idle[0]].Untimed?
    ensures Apply(Apply(w, Reclaims(k, idle)), Begins(k)) == w
  {
    assert w.consumers[k := Consumer(idle, Fetching)][k := EMPTY] == w.consumers;
  }

  // ---------- one entry, start to end ----------

  function FailTimes(g: Group, n: nat, times: nat): Group
    decreases times
  {
    if times == 0 then g else FailTimes(Fail(g, n), n, times - 1)
  }

  /** What `processEntry` does to the group, and whether it throws. */
  function Processed(g: Group, n: nat, handler: nat -> bool, parks: bool): (Group, bool)
    requires n < |g.entries|
  {
    match g.entries[n]
    case NoEnvelope => (Ack(g, n), false)
    case Untimed => (g, true)
    case Message(_) =>
      var tries := FirstSuccess(handler, 0);
      var tried := FailTimes(g, n, tries);
      if tries < MAX_RETRIES then (Ack(Handle(tried, n), n), false)
      else if parks then (Ack(Park(tried, n), n), false)
      else (tried, true)
  }

  lemma {:induction false} FailOnceMore(g: Group, n: nat, times: nat)
    ensures FailTimes(g, n, times + 1) == Fail(FailTimes(g, n, times), n)
    decreases times
  {
    if times > 0 {
      FailOnceMore(Fail(g, n), n, times - 1);
    }
  }

  ghost predicate Reaches(w: World, x: World)
  {
    exists steps :: Run(w, steps) == x
  }

  lemma ReachesNext(w: World, x: World, s: Step)
    requires Reaches(w, x)
    ensures Reaches(w, Apply(x, s))
  {
    var steps :| Run(w, steps) == x;
    assert (steps + [s])[..|steps|] == steps;
    assert Run(w, steps + [s]) == Apply(x, s);
  }

  lemma MoveOn(w: World, x: World, k: nat, me: Consumer, s: Step, g: Group, you: Consumer)
    requires k in x.consumers && x.consumers[k] == me && Reaches(w, x)
    requires Act(x, k, me, s) == With(x, k, g, you) && !(s.Appended? || s.Joined? || s.Crashed?) && s.k == k
    ensures Reaches(w, With(x, k, g, you))
  {
    ReachesNext(w, x, s);
  }

  /** The retry loop is a stretch of a run: failures up to the first success, or up to the limit. */
  lemma {:induction false} TriesAreARun(w: World, x: World, k: nat, me: Consumer, handler: nat -> bool, attempt: nat)
    requires attempt < MAX_RETRIES && me.pc.Trying? && me.pc.attempt == attempt
    requires k in x.consumers && x.consumers[k] == me && Reaches(w, x)
    ensures var n, r := me.pc.n, FirstSuccess(handler, attempt);
            var g := FailTimes(x.group, n, r - attempt);
            Reaches(w, if r < MAX_RETRIES then With(x, k, Handle(g, n), me.(pc := Acking(n)))
                       else With(x, k, g, me.(pc := Parking(n))))
    decreases MAX_RETRIES - attempt
  {
    var n := me.pc.n;
    if handler(attempt) {
      MoveOn(w, x, k, me, Handles(k, true), Handle(x.group, n), me.(pc := Acking(n)));
    } else {
      MoveOn(w, x, k, me, Handles(k, false), Fail(x.group, n), AfterFailure(me));
      if attempt + 1 < MAX_RETRIES {
        var y := With(x, k, Fail(x.group, n), AfterFailure(me));
        TriesAreARun(w, y, k, AfterFailure(me), handler, attempt + 1);
        WithWith(x, k, y.group, AfterFailure(me));
        OneFailureMore(x.group, n, FirstSuccess(handler, attempt + 1) - attempt);
      } else {
        OneFailureMore(x.group, n, 1);
      }
    }
  }

  lemma OneFailureMore(g: Group, n: nat, times: nat)
    requires times > 0
    ensures FailTimes(g, n, times) == FailTimes(Fail(g, n), n, times - 1)
  {
  }

  lemma WithWith(w: World, k: nat, g: Group, me: Consumer)
    ensures forall h, you :: With(With(w, k, g, me), k, h, you) == With(w, k, h, you)
  {
    forall h, you ensures With(With(w, k, g, me), k, h, you) == With(w, k, h, you) {
      assert w.consumers[k := me][k := you] == w.consumers[k := you];
    }
  }

  /** What `processEntry` does is what the steps of an undisturbed consumer add up to. */
  lemma ProcessEntryIsARun(w: World, k: nat, me: Consumer, n: nat, handler: nat -> bool, parks: bool)
    requires k in w.consumers && w.consumers[k] == me && me.pc == Fetching && me.batch != [] && me.batch[0] == n
    requires n < |w.group.entries|
    ensures var (g, threw) := Processed(w.group, n, handler, parks);
            Reaches(w, With(w, k, g, if threw then EMPTY else Consumer(me.batch[1..], Fetching)))
  {
    assert Run(w, []) == w;
    MoveOn(w, w, k, me, Begins(k), w.group, Begin(w.group, me));
    var begun := Begin(w.group, me);
    var x := With(w, k, w.group, begun);
    if w.group.entries[n].NoEnvelope? {
      AcksIt(w, w, k, w.group, begun);
    } else if w.group.entries[n].Message? {
      TriesAreARun(w, x, k, begun, handler, 0);
      WithWith(w, k, w.group, begun);
      var r := FirstSuccess(handler, 0);
      var g := FailTimes(w.group, n, r);
      if r < MAX_RETRIES {
        AcksIt(w, w, k, Handle(g, n), begun.(pc := Acking(n)));
      } else {
        ParksIt(w, w, k, g, begun.(pc := Parking(n)), parks);
        if parks {
          AcksIt(w, w, k, Park(g, n), begun.(pc := Acking(n)));
        }
      }
    }
  }

  lemma AcksIt(w: World, x: World, k: nat, g: Group, me: Consumer)
    requires Reaches(w, With(x, k, g, me)) && me.pc.Acking? && me.batch != []
    ensures Reaches(w, With(x, k, Ack(g, me.pc.n), Consumer(me.batch[1..], Fetching)))
  {
    var y := With(x, k, g, me);
    MoveOn(w, y, k, me, Acks(k, Done), Ack(g, me.pc.n), Consumer(me.batch[1..], Fetching));
    WithWith(x, k, g, me);
  }

  lemma ParksIt(w: World, x: World, k: nat, g: Group, me: Consumer, parks: bool)
    requires Reaches(w, With(x, k, g, me)) && me.pc.Parking?
    ensures Reaches(w, if parks then With(x, k, Park(g, me.pc.n), me.(pc := Acking(me.pc.n))) else With(x, k, g, EMPTY))
  {
    var y := With(x, k, g, me);
    var h, you := if parks then Park(g, me.pc.n) else g, if parks then me.(pc := Acking(me.pc.n)) else EMPTY;
    MoveOn(w, y, k, me, Parks(k, if parks then Done else NotDone), h, you);
    WithWith(x, k, g, me);
  }

  // ---------- which entries can be acknowledged ----------

  lemma {:induction false} RunConcat(w: World, a: seq<Step>, b: seq<Step>)
    ensures Run(w, a + b) == Run(Run(w, a), b)
  {
    if b == [] {
      assert a + b == a;
    } else {
      RunConcat(w, a, b[..|b| - 1]);
      assert (a + b)[..|a + b| - 1] == a + b[..|b| - 1];
    }
  }

  lemma {:induction false} EntriesGrow(w: World, steps: seq<Step>)
    ensures w.group.entries <= Run(w, steps).group.entries && Run(w, steps).group.start == w.group.start
  {
    if steps != [] {
      EntriesGrow(w, steps[..|steps| - 1]);
    }
  }

  /** Any consumer, started anew, can reclaim a pending entry, handle it and acknowledge it, if it gets to try. */
  lemma CanBeAcked(x: World, n: nat)
    requires n in x.group.pending && n < |x.group.entries| && !x.group.entries[n].Untimed?
    ensures exists more :: n in Run(x, more).group.acked
  {
    var y := Reclaimed(x, n);
    assert y.group == x.group;
    ProcessEntryIsARun(y, 0, y.consumers[0], n, _ => true, true);
    var z := With(y, 0, Processed(x.group, n, _ => true, true).0, Consumer([], Fetching));
    assert Consumer([n][1..], Fetching) == Consumer([], Fetching);
    assert Reaches(y, z) && n in z.group.acked;
    var first :| Run(x, first) == y;
    var rest :| Run(y, rest) == z;
    RunConcat(x, first, rest);
    assert n in Run(x, first + rest).group.acked;
  }

  lemma Reclaimed(x: World, n: nat) returns (y: World)
    requires n in x.group.pending
    ensures Reaches(x, y) && y.group == x.group && 0 in y.consumers && y.consumers[0] == Consumer([n], Fetching)
  {
    assert Run(x, []) == x;
    ReachesNext(x, x, Crashed(0));
    var x1 := Apply(x, Crashed(0));
    ReachesNext(x, x1, Joined(0));
    var x2 := Apply(x1, Joined(0));
    assert 0 in x2.consumers && x2.consumers[0] == EMPTY;
    ReachesNext(x, x2, Reclaims(0, [n]));
    y := Apply(x2, Reclaims(0, [n]));
    assert [n][0] == n;
  }

  /**
   * Exactly when: at any point of any run, a pending entry can still be acknowledged if and only if it is
   * not one that throws before any attempt.
   */
  lemma CanBeAckedIff(w: World, steps: seq<Step>, n: nat)
    requires Initial(w) && n in Run(w, steps).group.pending
    ensures n < |Run(w, steps).group.entries|
    ensures (exists more :: n in Run(Run(w, steps), more).group.acked) <==> !Run(w, steps).group.entries[n].Untimed?
  {
    RunKeepsOk(w, steps);
    var x := Run(w, steps);
    if x.group.entries[n].Untimed? {
      forall more ensures n !in Run(x, more).group.acked {
        RunConcat(w, steps, more);
        EntriesGrow(x, more);
        UntimedStays(w, steps + more, n);
      }
    } else {
      CanBeAcked(x, n);
    }
  }

  /** Such a point is reached from any group: the entry is appended and read, and is pending for ever. */
  lemma UntimedIsReachable(w: World) returns (steps: seq<Step>)
    requires Initial(w)
    ensures var n, x := |w.group.entries|, Run(w, steps);
            n in x.group.pending && n < |x.group.entries| && x.group.entries[n].Untimed?
  {
    var n := |w.group.entries|;
    assert Run(w, []) == w;
    ReachesNext(w, w, Appended(Untimed));
    var w1 := Apply(w, Appended(Untimed));
    ReachesNext(w, w1, Joined(0));
    var w2 := Apply(w1, Joined(0));
    ReachesNext(w, w2, Reads(0, Done));
    var w3 := Apply(w2, Reads(0, Done));
    FreshHas(w2.group, n);
    steps :| Run(w, steps) == w3;
  }

  // ---------- the rest of the batch ----------

  /** The consumer has the batch b from position i on, and what it works on is there and before position j. */
  predicate StandsIn(me: Consumer, b: seq<nat>, j: nat, i: nat)
  {
    i <= j < |b| && me.batch == b[i..] && (me.pc != Fetching ==> i < j && me.pc.n == b[i])
  }

  /** The consumer is somewhere before position j of the batch b, or has dropped it. */
  ghost predicate Before(me: Consumer, b: seq<nat>, j: nat)
  {
    me == EMPTY || exists i :: StandsIn(me, b, j, i)
  }

  /** The steps that give consumer k another batch, or another life. */
  predicate Renews(s: Step, k: nat) { (s.Reads? || s.Reclaims? || s.Joined?) && s.k == k }

  lemma BeginStaysBefore(g: Group, me: Consumer, b: seq<nat>, j: nat, i: nat)
    requires StandsIn(me, b, j, i) && me.pc == Fetching && b[j] < |g.entries| && g.entries[b[j]].Untimed?
    ensures Before(Begin(g, me), b, j)
  {
    assert b[i..][0] == b[i];
    if Begin(g, me) != EMPTY {
      assert StandsIn(Begin(g, me), b, j, i);
    }
  }

  lemma WorkStaysBefore(me: Consumer, you: Consumer, b: seq<nat>, j: nat, i: nat)
    requires StandsIn(me, b, j, i) && me.pc != Fetching
    requires you == EMPTY || you == Consumer(me.batch[1..], Fetching)
             || (you.batch == me.batch && you.pc != Fetching && you.pc.n == me.pc.n)
    ensures Before(you, b, j)
  {
    if you == Consumer(me.batch[1..], Fetching) {
      assert b[i..][1..] == b[i + 1..];
      assert StandsIn(you, b, j, i + 1);
    } else if you != EMPTY {
      assert StandsIn(you, b, j, i);
    }
  }

  lemma ActStaysBefore(w: World, k: nat, me: Consumer, s: Step, b: seq<nat>, j: nat)
    requires k in w.consumers && w.consumers[k] == me && Before(me, b, j) && !Renews(s, k) && j < |b|
    requires b[j] < |w.group.entries| && w.group.entries[b[j]].Untimed? && !s.Appended? && !s.Crashed? && s.k == k
    ensures var x := Act(w, k, me, s); k in x.consumers && Before(x.consumers[k], b, j)
  {
    var x := Act(w, k, me, s);
    if me != EMPTY && x != w {
      var i :| StandsIn(me, b, j, i);
      if s.Begins? {
        BeginStaysBefore(w.group, me, b, j, i);
      } else {
        WorkStaysBefore(me, x.consumers[k], b, j, i);
      }
    }
  }

  /**
   * Whatever batch it stands in, reclaimed or freshly read, and wherever in it: the consumer that was given
   * the batch works on nothing at or behind such an entry until it reads or reclaims again.
   */
  lemma {:induction false} UntimedDropsRest(w: World, k: nat, b: seq<nat>, j: nat, steps: seq<Step>)
    requires k in w.consumers && w.consumers[k] == Consumer(b, Fetching)
    requires j < |b| && b[j] < |w.group.entries| && w.group.entries[b[j]].Untimed?
    requires forall i :: 0 <= i < |steps| ==> !Renews(steps[i], k)
    ensures var x := Run(w, steps); k in x.consumers ==> Before(x.consumers[k], b, j)
  {
    if steps == [] {
      assert b[0..] == b;
      assert StandsIn(w.consumers[k], b, j, 0);
    } else {
      var before, s := steps[..|steps| - 1], steps[|steps| - 1];
      UntimedDropsRest(w, k, b, j, before);
      EntriesGrow(w, before);
      var x := Run(w, before);
      assert !Renews(s, k);
      if k in x.consumers && !s.Appended? && !s.Crashed? && s.k == k {
        ActStaysBefore(x, k, x.consumers[k], s, b, j);
      }
    }
  }

  class RedisStreamsBus {
    var group: Group

    constructor (entries: seq<Body>)
      ensures Initial(World(group, map[])) && group.entries == entries
    {
      group := Group(entries, |entries|, |entries|, {}, {}, {}, {}, multiset{});
    }

    method Publish(body: Body)
      modifies this
      ensures group == old(group).(entries := old(group).entries + [body])
    {
      group := group.(entries := group.entries + [body]);
    }

    /** `handler` says which attempts succeed, `parks` whether the dead-letter append does. */
    method ProcessEntry(n: nat, handler: nat -> bool, parks: bool) returns (threw: bool)
      requires n < |group.entries|
      modifies this
      ensures (group, threw) == Processed(old(group), n, handler, parks)
    {
      if group.entries[n].NoEnvelope? {
        group := Ack(group, n);
        return false;
      }
      if group.entries[n].Untimed? {
        return true;
      }
      var attempt := 0;
      var success := false;
      while attempt < MAX_RETRIES && !success
        invariant 0 <= attempt <= MAX_RETRIES
        invariant success ==> attempt > 0
        invariant group == FailTimes(old(group), n, if success then attempt - 1 else attempt)
        invariant FirstSuccess(handler, 0) == if success then attempt - 1 else FirstSuccess(handler, attempt)
        decreases MAX_RETRIES - attempt, !success
      {
        attempt := attempt + 1;
        if handler(attempt - 1) {
          success := true;
        } else {
          FailOnceMore(old(group), n, attempt - 1);
          group := Fail(group, n);
        }
      }
      if success {
        group := Handle(group, n);
      } else {
        if !parks {
          return true;
        }
        group := Park(group, n);
      }
      group := Ack(group, n);
      return false;
    }
  }
}
