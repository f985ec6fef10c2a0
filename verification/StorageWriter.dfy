/** The writer's loop over its own batch and backoff and the shared queue, proved against the
    schedule semantics of `Storage`. */
module StorageWriter {
  import opened Domain
  import S = Storage

  class Writer {
    const config: S.Config
    var running: bool
    var queue: seq<S.Point>
    var dropped: nat
    var retries: nat
    var failures: nat
    ghost var accepted: seq<S.Point>
    ghost var written: seq<S.Point>

    constructor (config: S.Config)
      ensures this.config == config && Tracks(S.Start(config))
    {
      this.config := config;
      running, queue, dropped, retries, failures := true, [], 0, 0, 0;
      accepted, written := [], [];
    }

    /** The shared fields agree with a state of the schedule semantics. */
    ghost predicate Tracks(w: S.Writer)
      reads this
    {
      && w.config == config && w.running == running && w.queue == queue && w.dropped == dropped
      && w.retries == retries && w.failures == failures
      && w.accepted == accepted && w.written == written
    }

    method Stop()
      modifies this`running
      ensures !running
    {
      running := false;
    }

    /** Queues a valid point without blocking, unless the queue is full or `Stop` was called. */
    method Enqueue(point: S.Point)
      modifies this`queue, this`dropped, this`accepted
      ensures var ok := point.Valid() && running;
              var room := |old(queue)| < config.queueCapacity;
              && queue == (if ok && room then old(queue) + [point] else old(queue))
              && accepted == (if ok && room then old(accepted) + [point] else old(accepted))
              && dropped == (if ok && !room then old(dropped) + 1 else old(dropped))
    {
      if !point.Valid() || !running {
        return;
      }
      if |queue| < config.queueCapacity {
        queue := queue + [point];
        accepted := accepted + [point];
      } else {
        dropped := dropped + 1;
      }
    }

    method Write(batch: seq<S.Point>, ok: bool)
      modifies this`failures, this`written
      ensures written == (if ok then old(written) + batch else old(written))
      ensures failures == (if ok then old(failures) else old(failures) + 1)
    {
      if ok {
        written := written + batch;
      } else {
        failures := failures + 1;
      }
    }

    /** One run of the writer, from start to its return or to the end of the schedule; what
        is left of the batch is returned. */
    method Run(ops: seq<S.Op>) returns (batch: seq<S.Point>)
      requires Tracks(S.Start(config))
      modifies this
      ensures Tracks(S.Run(S.Start(config), ops)) && batch == S.Run(S.Start(config), ops).batch
    {
      var backoff, phase := config.retryMinimum, S.Running;
      batch := [];
      ghost var w := S.Start(config);
      assert ops[0..] == ops;
      for i := 0 to |ops|
        invariant Tracks(w) && w.batch == batch && w.backoff == backoff && w.phase == phase
        invariant S.Run(S.Start(config), ops) == S.Run(w, ops[i..])
      {
        assert ops[i..][1..] == ops[i + 1..];
        ghost var next := S.Step(w, ops[i]);
        match ops[i] {
          case Enqueue(point) =>
            Enqueue(point);
          case Stop =>
            Stop();
          case Turn(choice, writeOk, waitOk) =>
            if phase == S.Running {
              batch, backoff, phase := Turn(batch, backoff, choice, writeOk, waitOk);
            }
          case Drain(finalOk) =>
            if phase == S.Draining {
              if |batch| < config.batchSize && queue != [] {
                batch := batch + [queue[0]];
                queue := queue[1..];
              } else {
                if batch != [] {
                  Write(batch, finalOk);
                  batch := if finalOk then [] else batch;
                }
                phase := S.Stopped;
              }
            }
        }
        w := next;
      }
    }

    /** One turn of the main loop. */
    method Turn(given: seq<S.Point>, wait: Duration, choice: S.Choice, writeOk: bool, waitOk: bool)
      returns (batch: seq<S.Point>, backoff: Duration, phase: S.Phase)
      modifies this`queue, this`retries, this`failures, this`written
      ensures forall w: S.Writer :: old(Tracks(w)) && w.batch == given && w.backoff == wait && w.phase == S.Running ==>
                var w' := S.TurnStep(w, choice, writeOk, waitOk);
                Tracks(w') && w'.batch == batch && w'.backoff == backoff && w'.phase == phase
    {
      batch, backoff, phase := given, wait, S.Running;
      if |batch| == config.batchSize {
        Write(batch, writeOk);
        if writeOk {
          batch := [];
          backoff := config.retryMinimum;
        } else if !waitOk {
          phase := S.Draining;
        } else {
          retries := retries + 1;
          backoff := S.DoubleBackoff(backoff, config.retryMaximum);
        }
        return;
      }
      match choice {
        case Cancelled =>
          phase := S.Draining;
        case Received =>
          if queue != [] {
            batch := batch + [queue[0]];
            queue := queue[1..];
          }
        case Ticked =>
          if batch != [] {
            Write(batch, writeOk);
            if writeOk {
              batch := [];
              backoff := config.retryMinimum;
            } else {
              retries := retries + 1;
            }
          }
      }
    }
  }
}
