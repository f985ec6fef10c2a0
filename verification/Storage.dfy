/** The storage writer: one goroutine that batches queued points and retries, while any
    number of producers enqueue. A run is a schedule of their steps. */
module Storage {
  import opened Domain

  datatype Field = FloatField(float: Float) | BooleanField(bool) | TextField(string) | BadField

  datatype Point = Point(measurement: string, tags: map<string, string>, fields: map<string, Field>, timestamp: Time) {
    /** Bounded and complete; `BadField` stands for a field with no member or several. */
    predicate Valid() {
      && measurement != "" && timestamp != 0 && |fields| > 0
      && |tags| <= 16 && |fields| <= 32
      && (forall k :: k in tags ==> k != "" && tags[k] != "" && |k| <= 64 && |tags[k]| <= 128)
      && (forall k :: k in fields ==> k != "" && |k| <= 64 && !fields[k].BadField?)
    }
  }

  datatype Config = Config(queueCapacity: int, batchSize: int, flushInterval: Duration, retryMinimum: Duration,
                           retryMaximum: Duration, writeTimeout: Duration)
  {
    predicate Valid() {
      && 1 <= queueCapacity <= 1_000_000 && 1 <= batchSize <= queueCapacity
      && flushInterval > 0 && 0 < retryMinimum <= retryMaximum && writeTimeout > 0
      && retryMaximum < TWO_63
    }
  }

  const TWO_62: int := 0x4000_0000_0000_0000
  const TWO_63: int := 0x8000_0000_0000_0000
  const TWO_64: int := 0x1_0000_0000_0000_0000

  /** Collecting and writing; emptying the queue after cancellation; returned. */
  datatype Phase = Running | Draining | Stopped

  /** `running` is what producers see: it is cleared by `Stop` alone, so it may outlast the
      writer, which also returns when its parent context ends. */
  datatype Writer = Writer(
    config: Config,
    running: bool,
    phase: Phase,
    queue: seq<Point>,
    batch: seq<Point>,
    backoff: Duration,
    written: seq<Point>,
    accepted: seq<Point>,
    dropped: nat,
    retries: nat,
    failures: nat,
    streak: nat)

  function Start(config: Config): Writer {
    Writer(config, true, Running, [], [], config.retryMinimum, [], [], 0, 0, 0, 0)
  }

  /** One step of the schedule: a producer's `Enqueue`; a call of `Stop`; one turn of the writer's loop, with
      the branch its `select` takes and how a write and a wait would end; or, once
      cancelled, one turn of the draining loop. */
  datatype Op = Enqueue(point: Point) | Stop | Turn(choice: Choice, writeOk: bool, waitOk: bool) | Drain(finalOk: bool)
  datatype Choice = Cancelled | Received | Ticked

  // ---------- Backoff ----------

  /** A 64-bit signed value. */
  function Wrap(x: int): int {
    (x + TWO_63) % TWO_64 - TWO_63
  }

  function DoubleBackoff(backoff: Duration, maximum: Duration): Duration {
    var doubled := Wrap(backoff * 2);
    if doubled > maximum then maximum else doubled
  }

  // ---------- Steps ----------

  /** A full queue drops the newest point. */
  function EnqueueStep(w: Writer, point: Point): Writer {
    if !point.Valid() || !w.running then w
    else if |w.queue| < w.config.queueCapacity then w.(queue := w.queue + [point], accepted := w.accepted + [point])
    else w.(dropped := w.dropped + 1)
  }

  /** A write hands over the whole batch or none of it. */
  function Write(w: Writer, ok: bool): Writer {
    if ok then w.(written := w.written + w.batch, batch := [], backoff := w.config.retryMinimum, streak := 0)
    else w.(failures := w.failures + 1)
  }

  /** The last attempt; what fails now is given up. */
  function Final(w: Writer, ok: bool): Writer {
    if w.batch == [] then w.(phase := Stopped)
    else if ok then w.(phase := Stopped, written := w.written + w.batch, batch := [])
    else w.(phase := Stopped, failures := w.failures + 1)
  }

  function TurnStep(w: Writer, choice: Choice, writeOk: bool, waitOk: bool): Writer {
    if |w.batch| == w.config.batchSize then
      var tried := Write(w, writeOk);
      if writeOk then tried
      else if !waitOk then tried.(phase := Draining)
      else
        tried.(
          retries := tried.retries + 1, streak := tried.streak + 1,
          backoff := DoubleBackoff(tried.backoff, w.config.retryMaximum))
    else match choice
      case Cancelled => w.(phase := Draining)
      case Received => if w.queue == [] then w else w.(batch := w.batch + [w.queue[0]], queue := w.queue[1..])
      case Ticked =>
        if w.batch == [] then w
        else
          var tried := Write(w, writeOk);
          if writeOk then tried else tried.(retries := tried.retries + 1)
  }

  function DrainStep(w: Writer, finalOk: bool): Writer {
    if |w.batch| < w.config.batchSize && w.queue != [] then w.(batch := w.batch + [w.queue[0]], queue := w.queue[1..])
    else Final(w, finalOk)
  }

  function Step(w: Writer, op: Op): Writer {
    match op
    case Enqueue(point) => EnqueueStep(w, point)
    case Stop => w.(running := false)
    case Turn(choice, writeOk, waitOk) => if w.phase == Running then TurnStep(w, choice, writeOk, waitOk) else w
    case Drain(finalOk) => if w.phase == Draining then DrainStep(w, finalOk) else w
  }

  function Run(w: Writer, ops: seq<Op>): Writer
    decreases |ops|
  {
    if ops == [] then w else Run(Step(w, ops[0]), ops[1..])
  }

  // ---------- Nothing lost, doubled or reordered ----------

  ghost predicate Conserved(w: Writer) {
    && w.config.Valid()
    && w.accepted == w.written + w.batch + w.queue
    && |w.batch| <= w.config.batchSize
    && |w.queue| <= w.config.queueCapacity
  }

  lemma {:induction false} StepConserves(w: Writer, op: Op)
    requires Conserved(w)
    ensures Conserved(Step(w, op)) && Step(w, op).config == w.config
  {
    match op
    case Enqueue(point) => EnqueueConserves(w, point);
    case Stop =>
    case Turn(choice, writeOk, waitOk) => TurnConserves(w, choice, writeOk, waitOk);
    case Drain(finalOk) => DrainConserves(w, finalOk);
  }

  lemma {:induction false} EnqueueConserves(w: Writer, point: Point)
    requires Conserved(w)
    ensures Conserved(EnqueueStep(w, point)) && EnqueueStep(w, point).config == w.config
  {
    assert w.written + w.batch + (w.queue + [point]) == w.written + w.batch + w.queue + [point];
  }

  lemma {:induction false} TurnConserves(w: Writer, choice: Choice, writeOk: bool, waitOk: bool)
    requires Conserved(w)
    ensures var w' := TurnStep(w, choice, writeOk, waitOk); Conserved(w') && w'.config == w.config
  {
    BatchConserves(w);
  }

  lemma {:induction false} DrainConserves(w: Writer, finalOk: bool)
    requires Conserved(w)
    ensures var w' := DrainStep(w, finalOk); Conserved(w') && w'.config == w.config
  {
    BatchConserves(w);
  }

  lemma {:induction false} BatchConserves(w: Writer)
    ensures w.queue != [] ==> w.written + (w.batch + [w.queue[0]]) + w.queue[1..] == w.written + w.batch + w.queue
    ensures (w.written + w.batch) + [] + w.queue == w.written + w.batch + w.queue
  {
  }

  /** Main result: under any schedule of producers and writer, at every step, what was
      written, the current batch and the queue are together, in order, exactly the points
      accepted: none lost, doubled or reordered. What was written, during the run and at
      shutdown, is a prefix of what was accepted. */
  lemma {:induction false} WriterConserves(w: Writer, ops: seq<Op>)
    requires Conserved(w)
    ensures var w' := Run(w, ops);
            && w'.accepted == w'.written + w'.batch + w'.queue
            && w'.written <= w'.accepted
            && |w'.batch| <= w.config.batchSize && |w'.queue| <= w.config.queueCapacity
            && Conserved(w') && w'.config == w.config
    decreases |ops|
  {
    if ops != [] {
      StepConserves(w, ops[0]);
      WriterConserves(Step(w, ops[0]), ops[1..]);
    } else {
      assert w.written + w.batch + w.queue == w.written + (w.batch + w.queue);
    }
  }

  /** Main result: once the writer has returned, nothing more is ever written; the queue may
      still grow, and keeps what it gets. */
  lemma {:induction false} ReturnedWritesNothing(w: Writer, ops: seq<Op>)
    requires w.phase == Stopped
    ensures var w' := Run(w, ops);
            w'.phase == Stopped && w'.written == w.written && w'.batch == w.batch && w.queue <= w'.queue
    decreases |ops|
  {
    if ops != [] {
      ReturnedWritesNothing(Step(w, ops[0]), ops[1..]);
    }
  }

  /** After the writer has returned, a valid point that finds room is still accepted exactly
      when `Stop` has not been called, and then it is never written. */
  lemma {:induction false} AcceptedAfterReturnIff(w: Writer, point: Point, ops: seq<Op>)
    requires w.phase == Stopped && point.Valid() && |w.queue| < w.config.queueCapacity
    ensures Step(w, Enqueue(point)).accepted == w.accepted + [point] <==> w.running
    ensures w.running ==>
              var later := Run(Step(w, Enqueue(point)), ops);
              later.written == w.written && w.queue + [point] <= later.queue
  {
    ReturnedWritesNothing(Step(w, Enqueue(point)), ops);
  }

  /** After `Stop` nothing more is accepted, in any run. */
  lemma {:induction false} StopEndsAcceptance(w: Writer, ops: seq<Op>)
    ensures Run(Step(w, Stop), ops).accepted == w.accepted
  {
    NotRunningAcceptsNothing(Step(w, Stop), ops);
  }

  lemma {:induction false} NotRunningAcceptsNothing(w: Writer, ops: seq<Op>)
    requires !w.running
    ensures Run(w, ops).accepted == w.accepted
    decreases |ops|
  {
    if ops != [] {
      NotRunningAcceptsNothing(Step(w, ops[0]), ops[1..]);
    }
  }

  /** The last step of shutdown tries the batch once: it is left over exactly if that fails. */
  lemma {:induction false} ShutdownWritesWhatItCan(w: Writer, finalOk: bool)
    requires Conserved(w) && w.phase == Draining && (|w.batch| == w.config.batchSize || w.queue == [])
    ensures var w' := Step(w, Drain(finalOk));
            && w'.phase == Stopped && w'.queue == w.queue
            && w'.written == w.written + (if finalOk then w.batch else [])
            && w'.batch == if finalOk then [] else w.batch
  {
  }

  // ---------- What is written, and that it can be ----------

  /** A tick hands over whatever has been collected, full or not: all of it is written if the
      client takes it, and kept if not. */
  lemma {:induction false} TickWritesBatch(w: Writer, ok: bool, waitOk: bool)
    requires w.phase == Running && 0 < |w.batch| < w.config.batchSize
    ensures var w' := Step(w, Turn(Ticked, ok, waitOk));
            && w'.written == (if ok then w.written + w.batch else w.written)
            && w'.batch == (if ok then [] else w.batch)
            && w'.failures == (if ok then w.failures else w.failures + 1)
            && w'.retries == (if ok then w.retries else w.retries + 1)
            && w'.backoff == (if ok then w.config.retryMinimum else w.backoff) && w'.queue == w.queue && w'.phase == Running
  {
  }

  /** A full batch is written before anything else, whatever the schedule chooses. */
  lemma {:induction false} FullBatchFirst(w: Writer, choice: Choice, ok: bool, waitOk: bool)
    requires w.phase == Running && |w.batch| == w.config.batchSize
    ensures var w' := Step(w, Turn(choice, ok, waitOk));
            && w'.queue == w.queue
            && w'.written == (if ok then w.written + w.batch else w.written)
            && w'.batch == (if ok then [] else w.batch)
            && (w'.phase == Draining <==> !ok && !waitOk)
            && w'.retries == (if !ok && waitOk then w.retries + 1 else w.retries)
  {
  }

  /** Main result: a running writer can always catch up: there is a schedule of its own turns
      after which everything accepted is written. */
  lemma {:induction false} CanCatchUp(w: Writer) returns (ops: seq<Op>)
    requires Conserved(w) && w.phase == Running
    ensures forall i :: 0 <= i < |ops| ==> ops[i].Turn?
    ensures Run(w, ops).written == w.accepted && Run(w, ops).accepted == w.accepted
    decreases |w.queue|, |w.batch|
  {
    if w.batch == [] && w.queue == [] {
      ops := [];
      assert w.written + [] + [] == w.written;
    } else {
      var full := |w.batch| == w.config.batchSize;
      var op := if full || w.queue == [] then Turn(Ticked, true, true) else Turn(Received, true, true);
      var next := Step(w, op);
      StepConserves(w, op);
      var rest := CanCatchUp(next);
      ops := [op] + rest;
      assert ops[1..] == rest;
    }
  }

  function AtMost<T>(values: seq<T>, n: nat): seq<T> {
    if |values| <= n then values else values[..n]
  }

  /** Shutdown takes in what the batch has room for and writes it. */
  lemma {:induction false} DrainsTo(w: Writer) returns (ops: seq<Op>)
    requires Conserved(w) && w.phase == Draining
    ensures forall i :: 0 <= i < |ops| ==> ops[i] == Drain(true)
    ensures Run(w, ops).phase == Stopped && Run(w, ops).written == w.written + AtMost(w.batch + w.queue, w.config.batchSize)
    decreases |w.queue|
  {
    var op := Drain(true);
    var next := Step(w, op);
    StepConserves(w, op);
    if |w.batch| < w.config.batchSize && w.queue != [] {
      var rest := DrainsTo(next);
      ops := [op] + rest;
      assert ops[1..] == rest;
      assert w.batch + [w.queue[0]] + w.queue[1..] == w.batch + w.queue;
    } else {
      ops := [op];
      assert ops[1..] == [];
      assert AtMost(w.batch + w.queue, w.config.batchSize) == w.batch;
      assert w.written + [] == w.written;
    }
  }

  /** Main result: a cancelled writer does not just stop. It can still write what was collected
      and what the queue holds, up to one batch, and returns. */
  lemma {:induction false} CancelledWritesOneBatch(w: Writer, ok: bool, waitOk: bool) returns (ops: seq<Op>)
    requires Conserved(w) && w.phase == Running && |w.batch| < w.config.batchSize
    ensures forall i :: 0 <= i < |ops| ==> ops[i] == Drain(true)
    ensures var later := Run(Step(w, Turn(Cancelled, ok, waitOk)), ops);
            later.phase == Stopped && later.written == w.written + AtMost(w.batch + w.queue, w.config.batchSize)
  {
    StepConserves(w, Turn(Cancelled, ok, waitOk));
    ops := DrainsTo(Step(w, Turn(Cancelled, ok, waitOk)));
  }

  /** A bounded point: a name, a time, at least one field, few and short labels. */
  ghost predicate Bounded(p: Point) {
    && |p.measurement| > 0 && p.timestamp != 0
    && 1 <= |p.fields| <= 32 && |p.tags| <= 16
    && (forall k :: k in p.tags ==> 1 <= |k| <= 64 && 1 <= |p.tags[k]| <= 128)
    && (forall k :: k in p.fields ==> 1 <= |k| <= 64 && (p.fields[k].FloatField? || p.fields[k].BooleanField? || p.fields[k].TextField?))
  }

  lemma {:induction false} ValidIffBounded(p: Point)
    ensures p.Valid() <==> Bounded(p)
  {
  }

  ghost predicate AllBounded(points: seq<Point>) {
    forall i :: 0 <= i < |points| ==> Bounded(points[i])
  }

  /** Every point accepted in a run, and so every point written, is bounded. */
  lemma {:induction false} AcceptedAreBounded(w: Writer, ops: seq<Op>)
    requires AllBounded(w.accepted)
    ensures AllBounded(Run(w, ops).accepted)
    decreases |ops|
  {
    if ops != [] {
      if ops[0].Enqueue? {
        ValidIffBounded(ops[0].point);
      }
      StepAccepts(w, ops[0]);
      AcceptedAreBounded(Step(w, ops[0]), ops[1..]);
    }
  }

  lemma {:induction false} StepAccepts(w: Writer, op: Op)
    ensures Step(w, op).accepted == w.accepted
            || (op.Enqueue? && op.point.Valid() && Step(w, op).accepted == w.accepted + [op.point])
  {
  }

  /** How many valid points are offered while the writer takes points. */
  function Offered(w: Writer, ops: seq<Op>): nat
    decreases |ops|
  {
    if ops == [] then 0
    else (if ops[0].Enqueue? && ops[0].point.Valid() && w.running then 1 else 0) + Offered(Step(w, ops[0]), ops[1..])
  }

  /** Each of them is accepted or counted as dropped. */
  lemma {:induction false} OfferedAreCounted(w: Writer, ops: seq<Op>)
    ensures |Run(w, ops).accepted| + Run(w, ops).dropped == |w.accepted| + w.dropped + Offered(w, ops)
    decreases |ops|
  {
    if ops != [] {
      StepCounts(w, ops[0]);
      OfferedAreCounted(Step(w, ops[0]), ops[1..]);
    }
  }

  lemma {:induction false} StepCounts(w: Writer, op: Op)
    ensures |Step(w, op).accepted| + Step(w, op).dropped
         == |w.accepted| + w.dropped + (if op.Enqueue? && op.point.Valid() && w.running then 1 else 0)
  {
  }

  /** An offered point is dropped exactly when the queue is full, and what is queued is the
      point itself. */
  lemma {:induction false} DroppedIffFull(w: Writer, point: Point)
    requires point.Valid() && w.running
    ensures var w' := Step(w, Enqueue(point));
            && (w'.dropped == w.dropped + 1 <==> |w.queue| >= w.config.queueCapacity)
            && (w'.queue == w.queue + [point] <==> |w.queue| < w.config.queueCapacity)
  {
  }

  // ---------- Backoff over a run of failures ----------

  /** The wait before retry number `n` (from 0) of a full batch that keeps failing. */
  function BackoffAfter(config: Config, n: nat): Duration {
    if n == 0 then config.retryMinimum else DoubleBackoff(BackoffAfter(config, n - 1), config.retryMaximum)
  }

  function Pow2(n: nat): nat {
    if n == 0 then 1 else 2 * Pow2(n - 1)
  }

  function Min(a: int, b: int): int {
    if a <= b then a else b
  }

  lemma {:induction false} StepKeepsBackoff(w: Writer, op: Op)
    requires w.backoff == BackoffAfter(w.config, w.streak)
    ensures var w' := Step(w, op); w'.backoff == BackoffAfter(w'.config, w'.streak)
  {
  }

  /** Under any schedule the writer's backoff depends only on how many times in a row a full
      batch has failed. */
  lemma {:induction false} BackoffFollowsStreak(w: Writer, ops: seq<Op>)
    requires w.backoff == BackoffAfter(w.config, w.streak)
    ensures var w' := Run(w, ops); w'.backoff == BackoffAfter(w'.config, w'.streak)
    decreases |ops|
  {
    if ops != [] {
      StepKeepsBackoff(w, ops[0]);
      BackoffFollowsStreak(Step(w, ops[0]), ops[1..]);
    }
  }

  lemma {:induction false} CappedDoubling(config: Config, n: nat)
    requires config.Valid() && config.retryMaximum < TWO_62
    ensures BackoffAfter(config, n) == Min(config.retryMaximum, config.retryMinimum * Pow2(n))
    ensures 0 < BackoffAfter(config, n) <= config.retryMaximum
  {
    if n > 0 {
      CappedDoubling(config, n - 1);
      Doubled(config.retryMinimum, Pow2(n - 1));
      WrapSmall(BackoffAfter(config, n - 1) * 2);
    } else {
      assert config.retryMinimum * Pow2(0) == config.retryMinimum;
    }
  }

  lemma {:induction false} Doubled(a: int, b: int)
    ensures a * (2 * b) == 2 * (a * b)
  {
  }

  lemma {:induction false} WrapSmall(x: int)
    requires 0 <= x < TWO_63
    ensures Wrap(x) == x
  {
  }

  lemma {:induction false} WrapOverflow(x: int)
    requires TWO_63 <= x < TWO_64
    ensures Wrap(x) == x - TWO_64 < 0
  {
  }

  lemma {:induction false} Pow2Grows(n: nat)
    ensures Pow2(n) > n
  {
    if n > 0 {
      Pow2Grows(n - 1);
    }
  }

  /** The documented schedule, doubling up to the maximum, holds for every number of retries
      exactly when the maximum is below 2^62 nanoseconds; from there on the doubling leaves
      the 64-bit range and the wait turns negative. */
  lemma {:induction false} BackoffIsCappedDoublingIff(config: Config)
    requires config.Valid()
    ensures (forall n: nat :: BackoffAfter(config, n) == Min(config.retryMaximum, config.retryMinimum * Pow2(n)))
            <==> config.retryMaximum < TWO_62
  {
    if config.retryMaximum < TWO_62 {
      forall n: nat
        ensures BackoffAfter(config, n) == Min(config.retryMaximum, config.retryMinimum * Pow2(n))
      {
        CappedDoubling(config, n);
      }
    } else {
      var n := config.retryMaximum;
      ReachesMaximum(config, n);
      ReachesMaximum(config, n + 1);
      if BackoffAfter(config, n) == config.retryMaximum {
        WrapOverflow(config.retryMaximum * 2);
        assert BackoffAfter(config, n + 1) < 0;
      }
    }
  }

  lemma {:induction false} ReachesMaximum(config: Config, n: nat)
    requires config.Valid() && n >= config.retryMaximum
    ensures Min(config.retryMaximum, config.retryMinimum * Pow2(n)) == config.retryMaximum
  {
    Pow2Grows(n);
    Times(config.retryMinimum, Pow2(n));
  }

  lemma {:induction false} Times(a: int, b: int)
    requires a >= 1 && b >= 0
    ensures a * b >= b
  {
    assert (a - 1) * b >= 0;
    assert a * b == (a - 1) * b + b;
  }
}
