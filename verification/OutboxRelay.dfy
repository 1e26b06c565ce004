/** The outbox pump of packages/event-bus/src/outbox-relay.ts. */
module OutboxRelay {
  import opened Encoding

  type Id = nat

  // ---------- one pass ----------

  /** The unsent rows, oldest first, and everything the bus has ever accepted. */
  datatype Outbox = Outbox(unsent: seq<Id>, sent: set<Id>, published: multiset<Id>)

  /** The rows of a batch the bus takes, in order. */
  function Taken(batch: seq<Id>, publish: Id -> bool): seq<Id>
  {
    if batch == [] then []
    else
      var before, last := Taken(batch[..|batch| - 1], publish), batch[|batch| - 1];
      if publish(last) then before + [last] else before
  }

  /** The rows of a batch the bus refuses, in order. */
  function Kept(batch: seq<Id>, publish: Id -> bool): seq<Id>
  {
    if batch == [] then []
    else
      var before, last := Kept(batch[..|batch| - 1], publish), batch[|batch| - 1];
      if publish(last) then before else before + [last]
  }

  /** Every row of a batch is taken if the bus takes it, and kept if not. */
  lemma {:induction false} TakenAndKept(batch: seq<Id>, publish: Id -> bool)
    ensures forall x :: multiset(Taken(batch, publish))[x] == if publish(x) then multiset(batch)[x] else 0
    ensures forall x :: multiset(Kept(batch, publish))[x] == if publish(x) then 0 else multiset(batch)[x]
  {
    if batch != [] {
      TakenAndKept(batch[..|batch| - 1], publish);
      assert batch == batch[..|batch| - 1] + [batch[|batch| - 1]];
    }
  }

  function Batch(unsent: seq<Id>, size: nat): seq<Id> { if |unsent| <= size then unsent else unsent[..size] }

  function Rest(unsent: seq<Id>, size: nat): seq<Id> { if |unsent| <= size then [] else unsent[size..] }

  /** A committed pass: what the bus took is sent, what it refused stays in its place. */
  function Pass(unsent: seq<Id>, size: nat, publish: Id -> bool): seq<Id>
  {
    Kept(Batch(unsent, size), publish) + Rest(unsent, size)
  }

  /** The update that follows a publish fails at this row, which loses the transaction. */
  predicate Breaks(batch: seq<Id>, publish: Id -> bool, breaksAt: nat)
  {
    breaksAt < |batch| && publish(batch[breaksAt])
  }

  function Tried(batch: seq<Id>, publish: Id -> bool, breaksAt: nat): seq<Id>
  {
    if Breaks(batch, publish, breaksAt) then batch[..breaksAt + 1] else batch
  }

  /** The loop over the batch: a refused row is left, the others go on. */
  method PublishBatch(batch: seq<Id>, publish: Id -> bool, breaksAt: nat)
    returns (taken: seq<Id>, kept: seq<Id>, broken: bool)
    ensures broken == Breaks(batch, publish, breaksAt)
    ensures taken == Taken(Tried(batch, publish, breaksAt), publish)
    ensures broken ==> |taken| > 0
    ensures !broken ==> kept == Kept(batch, publish)
  {
    taken, kept := [], [];
    for i := 0 to |batch|
      invariant breaksAt < i ==> !publish(batch[breaksAt])
      invariant taken == Taken(batch[..i], publish)
      invariant kept == Kept(batch[..i], publish)
    {
      assert batch[..i + 1][..i] == batch[..i];
      if !publish(batch[i]) {
        kept := kept + [batch[i]];
        continue;
      }
      taken := taken + [batch[i]];
      if i == breaksAt {
        return taken, kept, true;
      }
    }
    assert batch[..|batch|] == batch;
    return taken, kept, false;
  }

  class Relay {
    var outbox: Outbox
    const batchSize: nat

    constructor (rows: seq<Id>, batchSize: nat)
      ensures outbox == Outbox(rows, {}, multiset{}) && this.batchSize == batchSize
    {
      outbox := Outbox(rows, {}, multiset{});
      this.batchSize := batchSize;
    }

    /** What the pass does to the tables, and what it reports: rows taken, even if the transaction is lost. */
    method Pump(publish: Id -> bool, breaksAt: nat, commits: bool) returns (processed: nat)
      modifies this
      ensures var batch := Batch(old(outbox).unsent, batchSize);
              var taken := Taken(Tried(batch, publish, breaksAt), publish);
              && outbox.published == old(outbox).published + multiset(taken)
              && processed == |taken| - (if Breaks(batch, publish, breaksAt) then 1 else 0)
              && (outbox.unsent, outbox.sent) ==
                 if commits && !Breaks(batch, publish, breaksAt)
                 then (Pass(old(outbox).unsent, batchSize, publish), old(outbox).sent + set x | x in taken)
                 else (old(outbox).unsent, old(outbox).sent)
    {
      var taken, kept, broken := PublishBatch(Batch(outbox.unsent, batchSize), publish, breaksAt);
      outbox := outbox.(published := outbox.published + multiset(taken));
      processed := |taken| - if broken then 1 else 0;
      if commits && !broken {
        outbox := Outbox(kept + Rest(outbox.unsent, batchSize), outbox.sent + (set x | x in taken), outbox.published);
      }
    }
  }

  // ---------- relays side by side ----------

  /** A relay holds row locks from its SELECT to the end of its transaction. */
  datatype Pumping = Pumping(batch: seq<Id>, next: nat, marked: set<Id>)

  datatype World = World(rows: set<Id>, sent: set<Id>, published: set<Id>, relays: map<nat, Pumping>)

  datatype Answer = Done | DoneButLost | NotDone

  datatype Step =
    | Inserted(row: Id)
    | Selects(k: nat, batch: seq<Id>)
    | Publishes(k: nat, answer: Answer)
    | Commits(k: nat, answer: Answer)
    | Ends(k: nat)

  predicate Locked(w: World, x: Id)
  {
    exists k :: k in w.relays && x in w.relays[k].batch
  }

  predicate Selectable(w: World, batch: seq<Id>)
  {
    forall i :: 0 <= i < |batch| ==> batch[i] in w.rows && batch[i] !in w.sent && !Locked(w, batch[i])
  }

  /** A rollback, a crash and the end of a transaction all drop the locks and what was only marked. */
  function Apply(w: World, s: Step): World
  {
    match s
    case Inserted(row) => w.(rows := w.rows + {row})
    case Selects(k, batch) =>
      if k in w.relays || !Selectable(w, batch) then w else w.(relays := w.relays[k := Pumping(batch, 0, {})])
    case Publishes(k, answer) =>
      if k !in w.relays || w.relays[k].next >= |w.relays[k].batch| then w
      else
        var me := w.relays[k];
        var x := me.batch[me.next];
        w.(published := if answer == NotDone then w.published else w.published + {x},
           relays := w.relays[k := me.(next := me.next + 1, marked := if answer == Done then me.marked + {x} else me.marked)])
    case Commits(k, answer) =>
      if k !in w.relays then w
      else
        w.(sent := if answer == NotDone then w.sent else w.sent + w.relays[k].marked, relays := w.relays - {k})
    case Ends(k) => w.(relays := w.relays - {k})
  }

  function Run(w: World, steps: seq<Step>): World
  {
    if steps == [] then w else Apply(Run(w, steps[..|steps| - 1]), steps[|steps| - 1])
  }

  predicate Initial(w: World) { w.sent == {} && w.published == {} && w.relays == map[] }

  /** Sent rows were published, marked ones too; and no row is in two relays' hands. */
  ghost predicate Ok(w: World)
  {
    && w.sent <= w.published
    && (forall k :: k in w.relays ==> w.relays[k].marked <= w.published)
    && (forall j, k, x :: j in w.relays && k in w.relays && x in w.relays[j].batch && x in w.relays[k].batch ==> j == k)
  }

  lemma StepKeepsOk(w: World, s: Step)
    requires Ok(w)
    ensures Ok(Apply(w, s))
  {
    if s.Selects? && s.k !in w.relays && Selectable(w, s.batch) {
      forall j, x | j in w.relays && x in s.batch ensures x !in w.relays[j].batch {
        var i :| 0 <= i < |s.batch| && s.batch[i] == x;
        assert !Locked(w, s.batch[i]);
      }
    }
  }

  /** In every run, rollbacks and crashes included: whatever is marked sent was published. */
  lemma {:induction false} SentWasPublished(w: World, steps: seq<Step>)
    requires Initial(w)
    ensures Ok(Run(w, steps))
    ensures Run(w, steps).sent <= Run(w, steps).published
  {
    if steps != [] {
      SentWasPublished(w, steps[..|steps| - 1]);
      StepKeepsOk(Run(w, steps[..|steps| - 1]), steps[|steps| - 1]);
    }
  }

  function Publishing(k: nat, n: nat): seq<Step> { seq(n, (i: nat) => Publishes(k, Done)) }

  function FirstRows(batch: seq<Id>, n: nat): set<Id>
    requires n <= |batch|
  {
    set x | x in batch[..n]
  }

  lemma OneMoreRow(batch: seq<Id>, n: nat)
    requires n < |batch|
    ensures FirstRows(batch, n + 1) == FirstRows(batch, n) + {batch[n]}
  {
    assert batch[..n + 1] == batch[..n] + [batch[n]];
  }

  lemma PublishesOne(w: World, k: nat)
    requires k in w.relays && w.relays[k].next < |w.relays[k].batch|
    ensures var me, x := w.relays[k], Apply(w, Publishes(k, Done));
            && x.relays == w.relays[k := Pumping(me.batch, me.next + 1, me.marked + {me.batch[me.next]})]
            && x.sent == w.sent && x.published == w.published + {me.batch[me.next]}
  {
  }

  lemma {:induction false} PublishesAll(w: World, k: nat, n: nat)
    requires k in w.relays && w.relays[k].next == 0 && w.relays[k].marked == {} && n <= |w.relays[k].batch|
    ensures var x, batch := Run(w, Publishing(k, n)), w.relays[k].batch;
            && k in x.relays && x.relays[k] == Pumping(batch, n, FirstRows(batch, n))
            && x.sent == w.sent && x.published == w.published + FirstRows(batch, n)
  {
    if n > 0 {
      PublishesAll(w, k, n - 1);
      assert Publishing(k, n)[..n - 1] == Publishing(k, n - 1);
      PublishesOne(Run(w, Publishing(k, n - 1)), k);
      OneMoreRow(w.relays[k].batch, n - 1);
    }
  }

  /** A pass left undisturbed publishes the rows it selected and, once committed, has sent exactly them. */
  lemma UndisturbedPassSends(w: World, k: nat, batch: seq<Id>)
    requires k !in w.relays && Selectable(w, batch)
    ensures var x := Apply(Run(Apply(w, Selects(k, batch)), Publishing(k, |batch|)), Commits(k, Done));
            && x.sent == w.sent + (set x | x in batch)
            && x.published == w.published + (set x | x in batch)
  {
    PublishesAll(Apply(w, Selects(k, batch)), k, |batch|);
    assert batch[..|batch|] == batch;
  }

  // ---------- how fast a backlog drains ----------

  function Good(rows: seq<Id>, publish: Id -> bool): nat
  {
    if rows == [] then 0
    else Good(rows[..|rows| - 1], publish) + if publish(rows[|rows| - 1]) then 1 else 0
  }

  function Iterate<T>(f: T -> T, x: T, n: nat): T
    decreases n
  {
    if n == 0 then x else f(Iterate(f, x, n - 1))
  }

  lemma {:induction false} IterateKeeps<T(!new)>(f: T -> T, x: T, n: nat, keeps: T -> bool)
    requires keeps(x) && forall y :: keeps(y) ==> keeps(f(y))
    ensures keeps(Iterate(f, x, n))
    decreases n
  {
    if n > 0 {
      IterateKeeps(f, x, n - 1, keeps);
    }
  }

  function OnePass(size: nat, publish: Id -> bool): seq<Id> -> seq<Id> { unsent => Pass(unsent, size, publish) }

  /** Committed passes over a queue that nothing joins. */
  function Passes(unsent: seq<Id>, size: nat, publish: Id -> bool, n: nat): seq<Id>
  {
    Iterate(OnePass(size, publish), unsent, n)
  }

  lemma GoodOfOne(x: Id, publish: Id -> bool)
    ensures Good([x], publish) == if publish(x) then 1 else 0
  {
  }

  lemma {:induction false} GoodConcat(a: seq<Id>, b: seq<Id>, publish: Id -> bool)
    ensures Good(a + b, publish) == Good(a, publish) + Good(b, publish)
  {
    if b == [] {
      assert a + b == a;
    } else {
      GoodConcat(a, b[..|b| - 1], publish);
      assert (a + b)[..|a + b| - 1] == a + b[..|b| - 1];
    }
  }

  lemma {:induction false} GoodIsBounded(rows: seq<Id>, publish: Id -> bool)
    ensures Good(rows, publish) <= |rows|
  {
    if rows != [] {
      GoodIsBounded(rows[..|rows| - 1], publish);
    }
  }

  /** What is kept is exactly the failing part. */
  lemma {:induction false} KeptIsBad(rows: seq<Id>, publish: Id -> bool)
    ensures |Kept(rows, publish)| == |rows| - Good(rows, publish) && Good(Kept(rows, publish), publish) == 0
  {
    if rows != [] {
      var before, last := rows[..|rows| - 1], rows[|rows| - 1];
      KeptIsBad(before, publish);
      if !publish(last) {
        GoodConcat(Kept(before, publish), [last], publish);
        GoodOfOne(last, publish);
      }
    }
  }

  lemma BatchAndRest(unsent: seq<Id>, size: nat, publish: Id -> bool)
    ensures Batch(unsent, size) + Rest(unsent, size) == unsent
    ensures Good(Batch(unsent, size), publish) + Good(Rest(unsent, size), publish) == Good(unsent, publish)
  {
    GoodConcat(Batch(unsent, size), Rest(unsent, size), publish);
  }

  /** One pass keeps every failing row and sends the good ones, of which a full batch holds size - bad. */
  lemma PassProgress(unsent: seq<Id>, size: nat, publish: Id -> bool, bad: nat)
    requires |unsent| - Good(unsent, publish) == bad < size
    ensures var next := Pass(unsent, size, publish);
            && |next| - Good(next, publish) == bad
            && (Good(next, publish) == 0 || Good(next, publish) + (size - bad) <= Good(unsent, publish))
  {
    var batch, rest := Batch(unsent, size), Rest(unsent, size);
    BatchAndRest(unsent, size, publish);
    KeptIsBad(batch, publish);
    GoodConcat(Kept(batch, publish), rest, publish);
    GoodIsBounded(rest, publish);
  }

  function BadOf(rows: seq<Id>, publish: Id -> bool): int { |rows| - Good(rows, publish) }

  lemma PassesKeepBad(unsent: seq<Id>, size: nat, publish: Id -> bool, bad: nat, n: nat)
    requires BadOf(unsent, publish) == bad < size
    ensures BadOf(Passes(unsent, size, publish, n), publish) == bad
  {
    var keeps := (rows: seq<Id>) => BadOf(rows, publish) == bad;
    forall rows | keeps(rows) ensures keeps(OnePass(size, publish)(rows)) {
      PassProgress(rows, size, publish, bad);
    }
    IterateKeeps(OnePass(size, publish), unsent, n, keeps);
  }

  /** Numbers that each time reach zero or fall by `gain`. */
  predicate Falling(g: seq<nat>, gain: nat)
  {
    forall i :: 0 <= i && i + 1 < |g| ==> g[i + 1] == 0 || g[i + 1] + gain <= g[i]
  }

  lemma {:induction false} FallenBy(g: seq<nat>, gain: nat, n: nat)
    requires Falling(g, gain) && gain > 0 && n < |g|
    ensures g[n] == 0 || g[n] + n * gain <= g[0]
    decreases n
  {
    if n > 0 {
      FallenBy(g, gain, n - 1);
      assert g[n - 1 + 1] == 0 || g[n - 1 + 1] + gain <= g[n - 1];
      assert n * gain == (n - 1) * gain + gain;
    }
  }

  /** After n passes at least n times `gain` of the backlog is gone, or all of it. */
  lemma PassesProgress(unsent: seq<Id>, size: nat, publish: Id -> bool, bad: nat, gain: nat, n: nat)
    requires BadOf(unsent, publish) == bad && size == bad + gain && gain > 0
    ensures var left := Good(Passes(unsent, size, publish, n), publish);
            left == 0 || left + n * gain <= Good(unsent, publish)
  {
    var g := seq(n + 1, (i: nat) => Good(Passes(unsent, size, publish, i), publish));
    forall i | 0 <= i && i + 1 < |g| ensures g[i + 1] == 0 || g[i + 1] + gain <= g[i] {
      PassesKeepBad(unsent, size, publish, bad, i);
      PassProgress(Passes(unsent, size, publish, i), size, publish, bad);
    }
    FallenBy(g, gain, n);
  }

  lemma {:induction false} NoneGood(rows: seq<Id>, publish: Id -> bool)
    requires Good(rows, publish) == 0
    ensures forall x :: x in rows ==> !publish(x)
  {
    if rows != [] {
      NoneGood(rows[..|rows| - 1], publish);
    }
  }

  function CeilDiv(a: nat, b: nat): nat
    requires b > 0
  {
    (a + b - 1) / b
  }

  lemma CeilDivCovers(a: nat, b: nat)
    requires b > 0
    ensures CeilDiv(a, b) * b >= a
  {
    var q := CeilDiv(a, b);
    assert (a + b - 1) == q * b + (a + b - 1) % b;
  }

  /** With fewer failing rows than the batch holds, the backlog is gone after ceil(H / (size - bad)) passes. */
  lemma BacklogDrains(unsent: seq<Id>, size: nat, publish: Id -> bool, bad: nat, gain: nat)
    requires BadOf(unsent, publish) == bad && size == bad + gain && gain > 0
    ensures Good(Passes(unsent, size, publish, CeilDiv(Good(unsent, publish), gain)), publish) == 0
  {
    var h := Good(unsent, publish);
    CeilDivCovers(h, gain);
    PassesProgress(unsent, size, publish, bad, gain, CeilDiv(h, gain));
  }

  lemma FailuresStay(unsent: seq<Id>, size: nat, publish: Id -> bool)
    requires size <= |unsent| && forall i :: 0 <= i < size ==> !publish(unsent[i])
    ensures Pass(unsent, size, publish) == unsent
  {
    assert Batch(unsent, size) == unsent[..size] && Rest(unsent, size) == unsent[size..];
    AllBadIsKept(unsent[..size], publish);
  }

  lemma StandingStillMeansFailures(unsent: seq<Id>, size: nat, publish: Id -> bool)
    requires size <= |unsent| && Pass(unsent, size, publish) == unsent
    ensures forall i :: 0 <= i < size ==> !publish(unsent[i])
  {
    var batch := unsent[..size];
    assert Batch(unsent, size) == batch && Rest(unsent, size) == unsent[size..];
    KeptIsBad(batch, publish);
    assert |Kept(batch, publish)| == |batch|;
    NoneGood(batch, publish);
    assert forall i | 0 <= i < size :: unsent[i] == batch[i] && batch[i] in batch;
  }

  /** Otherwise it can stand still for ever: a batch of failing rows at the head blocks what is behind. */
  lemma FullOfFailuresBlocks(unsent: seq<Id>, size: nat, publish: Id -> bool)
    requires size <= |unsent|
    ensures Pass(unsent, size, publish) == unsent <==> forall i :: 0 <= i < size ==> !publish(unsent[i])
  {
    if Pass(unsent, size, publish) == unsent {
      StandingStillMeansFailures(unsent, size, publish);
    } else if forall i :: 0 <= i < size ==> !publish(unsent[i]) {
      FailuresStay(unsent, size, publish);
    }
  }

  lemma {:induction false} AllBadIsKept(rows: seq<Id>, publish: Id -> bool)
    ensures (forall i :: 0 <= i < |rows| ==> !publish(rows[i])) ==> Kept(rows, publish) == rows
  {
    if rows != [] {
      AllBadIsKept(rows[..|rows| - 1], publish);
      assert rows == rows[..|rows| - 1] + [rows[|rows| - 1]];
    }
  }

  // ---------- younger rows do not delay older ones ----------

  /** Committed passes over a queue to which rows are appended before each. */
  function Drain(unsent: seq<Id>, size: nat, publish: Id -> bool, arrivals: seq<seq<Id>>): seq<Id>
  {
    if arrivals == [] then unsent
    else
      var n := |arrivals| - 1;
      Pass(Drain(unsent, size, publish, arrivals[..n]) + arrivals[n], size, publish)
  }

  lemma {:induction false} KeptIsSome(rows: seq<Id>, publish: Id -> bool)
    ensures forall x :: x in Kept(rows, publish) ==> x in rows
  {
    if rows != [] {
      KeptIsSome(rows[..|rows| - 1], publish);
    }
  }

  /** A pass over a queue is a pass over its front, and then something of its back. */
  lemma PassSplits(front: seq<Id>, back: seq<Id>, size: nat, publish: Id -> bool) returns (left: seq<Id>)
    ensures Pass(front + back, size, publish) == Pass(front, size, publish) + left
    ensures forall x :: x in left ==> x in back
  {
    if |front| < size {
      var part, rest := Batch(back, size - |front|), Rest(back, size - |front|);
      assert Batch(front + back, size) == front + part && Rest(front + back, size) == rest;
      KeptConcat(front, part, publish);
      KeptIsSome(part, publish);
      assert Pass(front, size, publish) == Kept(front, publish);
      left := Kept(part, publish) + rest;
      Associate(Kept(front, publish), Kept(part, publish), rest);
    } else {
      assert Batch(front + back, size) == Batch(front, size);
      assert Rest(front + back, size) == Rest(front, size) + back;
      left := back;
      Associate(Kept(Batch(front, size), publish), Rest(front, size), back);
    }
  }

  lemma {:induction false} KeptConcat(a: seq<Id>, b: seq<Id>, publish: Id -> bool)
    ensures Kept(a + b, publish) == Kept(a, publish) + Kept(b, publish)
  {
    if b == [] {
      assert a + b == a;
    } else {
      var before, last := b[..|b| - 1], b[|b| - 1];
      KeptConcat(a, before, publish);
      assert (a + b)[..|a + b| - 1] == a + before && (a + b)[|a + b| - 1] == last;
      if !publish(last) {
        Associate(Kept(a, publish), Kept(before, publish), [last]);
      }
    }
  }

  predicate Arrived(arrivals: seq<seq<Id>>, x: Id)
  {
    exists i :: 0 <= i < |arrivals| && x in arrivals[i]
  }

  /** The older rows drain as if nothing had arrived behind them. */
  lemma {:induction false} OlderRowsFirst(unsent: seq<Id>, size: nat, publish: Id -> bool, arrivals: seq<seq<Id>>)
    returns (younger: seq<Id>)
    ensures Drain(unsent, size, publish, arrivals) == Passes(unsent, size, publish, |arrivals|) + younger
    ensures forall x :: x in younger ==> Arrived(arrivals, x)
    decreases |arrivals|
  {
    if arrivals == [] {
      younger := [];
    } else {
      var n := |arrivals| - 1;
      var older := Passes(unsent, size, publish, n);
      var before := OlderRowsFirst(unsent, size, publish, arrivals[..n]);
      Associate(older, before, arrivals[n]);
      younger := PassSplits(older, before + arrivals[n], size, publish);
      assert Drain(unsent, size, publish, arrivals) == Pass(older + (before + arrivals[n]), size, publish);
      StillArrived(arrivals, younger, before);
    }
  }

  lemma StillArrived(arrivals: seq<seq<Id>>, younger: seq<Id>, before: seq<Id>)
    requires arrivals != []
    requires forall x :: x in younger ==> x in before + arrivals[|arrivals| - 1]
    requires forall x :: x in before ==> Arrived(arrivals[..|arrivals| - 1], x)
    ensures forall x :: x in younger ==> Arrived(arrivals, x)
  {
    var n := |arrivals| - 1;
    forall x | x in younger ensures Arrived(arrivals, x) {
      if x in before {
        var i :| 0 <= i < n && x in arrivals[..n][i];
        assert x in arrivals[i];
      }
    }
  }

  /**
   * Under load: with `bad` failing rows in the backlog, fewer than the batch holds, every row of the
   * backlog that can be published has left the queue after ceil(H / (size - bad)) committed passes,
   * whatever arrived behind it.
   */
  lemma BacklogDrainsUnderLoad(
    unsent: seq<Id>, size: nat, publish: Id -> bool, bad: nat, gain: nat, arrivals: seq<seq<Id>>, x: Id)
    requires BadOf(unsent, publish) == bad && size == bad + gain && gain > 0
    requires |arrivals| == CeilDiv(Good(unsent, publish), gain)
    requires x in unsent && publish(x) && !Arrived(arrivals, x)
    ensures x !in Drain(unsent, size, publish, arrivals)
  {
    BacklogDrains(unsent, size, publish, bad, gain);
    NoneGood(Passes(unsent, size, publish, |arrivals|), publish);
    var younger := OlderRowsFirst(unsent, size, publish, arrivals);
  }
}
