/** The MQTT client's offline queue. Flushing takes the head out, publishes it without the
    lock, and puts it back if that fails; offline publications may be queued meanwhile. */
module MqttQueue {
  import opened Domain

  datatype Publication = Publication(topic: string, qos: nat, retained: bool, payload: seq<bv8>, expiresAt: Option<Time>)

  function Segments(topic: string): seq<string> {
    if topic == [] then [[]]
    else if topic[0] == '/' then [[]] + Segments(topic[1..])
    else
      var rest := Segments(topic[1..]);
      if rest == [] then [[topic[0]]] else [[topic[0]] + rest[0]] + rest[1..]
  }

  predicate Publishable(p: Publication) {
    && p.topic != "" && '#' !in p.topic && '+' !in p.topic
    && p.qos <= 1
    && (p.retained ==> "commands" !in Segments(p.topic) && "events" !in Segments(p.topic))
  }

  predicate ExpiredAt(p: Publication, now: Time) {
    p.expiresAt.Some? && p.expiresAt.value <= now
  }

  /** How a queued publication ended. */
  datatype Fate = Fate(publication: Publication, published: bool, at: Time)

  /** `held` is the publication a flush has taken out and not yet settled; `accepted` and
      `fates` keep the history. */
  datatype Queue = Queue(
    capacity: nat, maximumPayload: nat, waiting: seq<Publication>, held: Option<Publication>,
    accepted: seq<Publication>, fates: seq<Fate>)

  /** A publication offered while disconnected; the flush taking the head; the flush settling
      what it holds, with how publishing it would end. */
  datatype Op = Offer(publication: Publication, now: Time) | Take | Settle(now: Time, ok: bool)

  predicate Accepts(q: Queue, p: Publication, now: Time) {
    Publishable(p) && |p.payload| <= q.maximumPayload && !ExpiredAt(p, now) && |q.waiting| < q.capacity
  }

  function Step(q: Queue, op: Op): Queue {
    match op
    case Offer(p, now) =>
      if Accepts(q, p, now) then q.(waiting := q.waiting + [p], accepted := q.accepted + [p]) else q
    case Take =>
      if q.held.Some? || q.waiting == [] then q else q.(held := Some(q.waiting[0]), waiting := q.waiting[1..])
    case Settle(now, ok) =>
      if q.held.None? then q
      else if ExpiredAt(q.held.value, now) then q.(held := None, fates := q.fates + [Fate(q.held.value, false, now)])
      else if ok then q.(held := None, fates := q.fates + [Fate(q.held.value, true, now)])
      else q.(held := None, waiting := [q.held.value] + q.waiting)
  }

  function Run(q: Queue, ops: seq<Op>): Queue
    decreases |ops|
  {
    if ops == [] then q else Run(Step(q, ops[0]), ops[1..])
  }

  // ---------- Conservation ----------

  function Settled(fates: seq<Fate>): seq<Publication> {
    if fates == [] then [] else Settled(fates[..|fates| - 1]) + [fates[|fates| - 1].publication]
  }

  function HeldItems(q: Queue): seq<Publication> {
    if q.held.Some? then [q.held.value] else []
  }

  /** Settled, held and waiting are together, in order, what was accepted. One more than the
      capacity may be held and waiting. */
  ghost predicate Conserved(q: Queue) {
    && q.accepted == Settled(q.fates) + HeldItems(q) + q.waiting
    && |HeldItems(q)| + |q.waiting| <= q.capacity + 1
  }

  lemma {:induction false} SettledSnoc(fates: seq<Fate>, f: Fate)
    ensures Settled(fates + [f]) == Settled(fates) + [f.publication]
  {
    assert (fates + [f])[..|fates|] == fates;
  }

  lemma {:induction false} StepConserves(q: Queue, op: Op)
    requires Conserved(q)
    ensures Conserved(Step(q, op)) && Step(q, op).capacity == q.capacity
  {
    match op
    case Offer(p, now) => OneMoreWaits(Settled(q.fates), HeldItems(q), q.waiting, p);
    case Take =>
      if q.held.None? && q.waiting != [] {
        HeadMoves(Settled(q.fates), q.waiting);
      }
    case Settle(now, ok) =>
      if q.held.Some? {
        SettledSnoc(q.fates, Fate(q.held.value, false, now));
        SettledSnoc(q.fates, Fate(q.held.value, true, now));
        HeldMoves(Settled(q.fates), q.held.value, q.waiting);
      }
  }

  lemma {:induction false} OneMoreWaits(done: seq<Publication>, held: seq<Publication>, waiting: seq<Publication>, p: Publication)
    ensures done + held + (waiting + [p]) == done + held + waiting + [p]
  {
  }

  lemma {:induction false} HeadMoves(done: seq<Publication>, waiting: seq<Publication>)
    requires waiting != []
    ensures done + [] + waiting == done + [waiting[0]] + waiting[1..]
  {
  }

  lemma {:induction false} HeldMoves(done: seq<Publication>, held: Publication, waiting: seq<Publication>)
    ensures done + [held] + waiting == (done + [held]) + [] + waiting
    ensures done + [held] + waiting == done + [] + ([held] + waiting)
  {
  }

  /** Main result: under any interleaving of offers with a flush, every accepted publication
      is, in acceptance order, published or dropped as expired, held by the flush, or still
      waiting: exactly one of these. A failed publish is back at the head. */
  lemma {:induction false} QueueConserves(q: Queue, ops: seq<Op>)
    requires Conserved(q)
    ensures Conserved(Run(q, ops)) && Run(q, ops).capacity == q.capacity
    decreases |ops|
  {
    if ops != [] {
      StepConserves(q, ops[0]);
      QueueConserves(Step(q, ops[0]), ops[1..]);
    }
  }

  // ---------- What is kept, published and dropped ----------

  /** Texts joined by slashes. */
  function Joined(parts: seq<string>): string {
    if parts == [] then [] else if |parts| == 1 then parts[0] else parts[0] + "/" + Joined(parts[1..])
  }

  /** The segments of a topic are its parts between slashes. */
  lemma {:induction false} SegmentsExactly(topic: string)
    ensures Segments(topic) != [] && Joined(Segments(topic)) == topic
    ensures forall i :: 0 <= i < |Segments(topic)| ==> '/' !in Segments(topic)[i]
    decreases |topic|
  {
    if topic != [] {
      var rest := Segments(topic[1..]);
      SegmentsExactly(topic[1..]);
      if topic[0] == '/' {
        assert Segments(topic)[1..] == rest;
        assert [] + "/" + topic[1..] == topic;
      } else {
        assert Segments(topic) == [[topic[0]] + rest[0]] + rest[1..];
        if |rest| > 1 {
          assert Segments(topic)[1..] == rest[1..];
          assert [topic[0]] + (rest[0] + "/" + Joined(rest[1..])) == [topic[0]] + rest[0] + "/" + Joined(rest[1..]);
        }
        assert [topic[0]] + topic[1..] == topic;
      }
    }
  }

  /** Before its expiry, if it has one. */
  predicate Alive(p: Publication, now: Time) {
    p.expiresAt.Some? ==> now < p.expiresAt.value
  }

  /** A topic without wildcards, at most once or at least once, and no retained command or event. */
  predicate Proper(p: Publication) {
    && |p.topic| > 0 && (forall i :: 0 <= i < |p.topic| ==> p.topic[i] != '+' && p.topic[i] != '#')
    && (p.qos == 0 || p.qos == 1)
    && (p.retained ==> forall i :: 0 <= i < |Segments(p.topic)| ==> Segments(p.topic)[i] != "commands" && Segments(p.topic)[i] != "events")
  }

  /** An offer is accepted exactly if it is proper, small enough, alive, and finds room. */
  lemma {:induction false} AcceptedIff(q: Queue, p: Publication, now: Time)
    ensures var q' := Step(q, Offer(p, now));
            (q'.accepted == q.accepted + [p] <==>
               Proper(p) && |p.payload| <= q.maximumPayload && Alive(p, now) && |q.waiting| < q.capacity)
            && (q' == q || (q'.accepted == q.accepted + [p] && q'.waiting == q.waiting + [p]))
  {
    assert '+' in p.topic <==> exists i :: 0 <= i < |p.topic| && p.topic[i] == '+';
    assert '#' in p.topic <==> exists i :: 0 <= i < |p.topic| && p.topic[i] == '#';
  }

  /** Every publication that was settled was published alive or dropped expired. */
  ghost predicate Honest(fates: seq<Fate>) {
    forall i :: 0 <= i < |fates| ==> (fates[i].published <==> Alive(fates[i].publication, fates[i].at))
  }

  /** Main result: in every run, what is published is alive then, and what is dropped is not;
      a publish that fails drops nothing. */
  lemma {:induction false} PublishedIffAlive(q: Queue, ops: seq<Op>)
    requires Honest(q.fates)
    ensures Honest(Run(q, ops).fates)
    decreases |ops|
  {
    if ops != [] {
      PublishedIffAlive(Step(q, ops[0]), ops[1..]);
    }
  }

  /** Settling ends a publication exactly if it has expired or its publish succeeds. */
  lemma {:induction false} SettledIff(q: Queue, now: Time, ok: bool)
    requires q.held.Some?
    ensures var q' := Step(q, Settle(now, ok));
            && q'.held.None?
            && (q'.fates == q.fates + [Fate(q.held.value, Alive(q.held.value, now), now)]
                <==> ok || !Alive(q.held.value, now))
            && (q'.waiting == [q.held.value] + q.waiting <==> !ok && Alive(q.held.value, now))
  {
  }

  // ---------- Capacity ----------

  /** What is in flight and what waits fit the capacity together. */
  predicate Fits(q: Queue) {
    |HeldItems(q)| + |q.waiting| <= q.capacity
  }

  /** An accepted offer takes the place that the publication in flight may have to return to. */
  predicate Crowds(q: Queue, op: Op) {
    op.Offer? && Accepts(q, op.publication, op.now) && q.held.Some? && |q.waiting| + 1 >= q.capacity
  }

  ghost predicate Uncrowded(q: Queue, ops: seq<Op>)
    decreases |ops|
  {
    ops == [] || (!Crowds(q, ops[0]) && Uncrowded(Step(q, ops[0]), ops[1..]))
  }

  /** However the publication in flight ends, and whenever, the queue is within its capacity. */
  ghost predicate Safe(q: Queue) {
    |q.waiting| <= q.capacity && forall now: Time, ok: bool :: |Step(q, Settle(now, ok)).waiting| <= q.capacity
  }

  /** So it is at every point of a run. */
  ghost predicate AlwaysSafe(q: Queue, ops: seq<Op>)
    decreases |ops|
  {
    Safe(q) && (ops != [] ==> AlwaysSafe(Step(q, ops[0]), ops[1..]))
  }

  /** Some time is before any given expiry. */
  lemma {:induction false} SafeIffFits(q: Queue)
    ensures Safe(q) <==> Fits(q)
  {
    if q.held.Some? {
      var now := if q.held.value.expiresAt.Some? then q.held.value.expiresAt.value - 1 else 0;
      assert !ExpiredAt(q.held.value, now);
      assert Step(q, Settle(now, false)).waiting == [q.held.value] + q.waiting;
    }
  }

  lemma {:induction false} StepFitsIff(q: Queue, op: Op)
    requires Fits(q)
    ensures Fits(Step(q, op)) <==> !Crowds(q, op)
  {
  }

  /** Main result: over any interleaving of offers with a flush, the queue is within its
      capacity at every point, however the publication in flight ends, exactly when no offer
      is accepted while one is in flight and the rest fill the capacity but for its place. */
  lemma {:induction false} WithinCapacityIff(q: Queue, ops: seq<Op>)
    requires Fits(q)
    ensures AlwaysSafe(q, ops) <==> Uncrowded(q, ops)
    decreases |ops|
  {
    SafeIffFits(q);
    if ops != [] {
      StepFitsIff(q, ops[0]);
      if Crowds(q, ops[0]) {
        SafeIffFits(Step(q, ops[0]));
      } else {
        WithinCapacityIff(Step(q, ops[0]), ops[1..]);
      }
    }
  }

  /** The run makes offers only between flushes. */
  ghost predicate Serial(q: Queue, ops: seq<Op>)
    decreases |ops|
  {
    ops == [] || ((ops[0].Offer? ==> q.held.None?) && Serial(Step(q, ops[0]), ops[1..]))
  }

  /** So with flushes as single steps, any mix of offers and flushes stays within capacity. */
  lemma {:induction false} SerialRunWithinCapacity(q: Queue, ops: seq<Op>)
    requires Fits(q) && Serial(q, ops)
    ensures AlwaysSafe(q, ops) && Fits(Run(q, ops))
    decreases |ops|
  {
    SafeIffFits(q);
    if ops != [] {
      StepFitsIff(q, ops[0]);
      SerialRunWithinCapacity(Step(q, ops[0]), ops[1..]);
    }
  }

  /** A flush that is disturbed may overflow: an offer takes the place of what is in flight. */
  lemma {:induction false} DisturbedFlushOverflows(q: Queue, p: Publication, now: Time)
    requires q.held.None? && |q.waiting| == q.capacity >= 1 && !ExpiredAt(q.waiting[0], now)
    requires Publishable(p) && |p.payload| <= q.maximumPayload && !ExpiredAt(p, now)
    ensures var ops := [Take, Offer(p, now), Settle(now, false)];
            |Run(q, ops).waiting| == q.capacity + 1
  {
    var ops := [Take, Offer(p, now), Settle(now, false)];
    var q1 := Step(q, ops[0]);
    var q2 := Step(q1, ops[1]);
    var q3 := Step(q2, ops[2]);
    assert ops[1..] == [Offer(p, now), Settle(now, false)] && ops[1..][1..] == [Settle(now, false)] && ops[1..][1..][1..] == [];
    assert Run(q2, ops[1..][1..]) == Run(q3, []);
    assert Run(q1, ops[1..]) == Run(q2, ops[1..][1..]);
  }

  // ---------- A whole flush ----------

  /** What a flush meets each time round: the clock, and how a publish would end. */
  datatype Attempt = Attempt(now: Time, ok: bool)

  /** An undisturbed flush: until the queue is empty or a publish fails. */
  function Flush(q: Queue, attempts: seq<Attempt>): (Queue, bool)
    requires q.held.None? && |attempts| >= |q.waiting|
    decreases |q.waiting|
  {
    if q.waiting == [] then (q, true)
    else
      var q' := Step(Step(q, Take), Settle(attempts[0].now, attempts[0].ok));
      if !ExpiredAt(q.waiting[0], attempts[0].now) && !attempts[0].ok then (q', false) else Flush(q', attempts[1..])
  }

  lemma {:induction false} FlushConserves(q: Queue, attempts: seq<Attempt>)
    requires q.held.None? && |attempts| >= |q.waiting| && Conserved(q) && |q.waiting| <= q.capacity
    ensures var (q', ok) := Flush(q, attempts);
            && Conserved(q') && q'.held.None? && q'.accepted == q.accepted
            && |q'.waiting| <= |q.waiting|
            && (ok <==> q'.waiting == [])
    decreases |q.waiting|
  {
    if q.waiting != [] {
      var a := attempts[0];
      StepConserves(q, Take);
      StepConserves(Step(q, Take), Settle(a.now, a.ok));
      if ExpiredAt(q.waiting[0], a.now) || a.ok {
        FlushConserves(Step(Step(q, Take), Settle(a.now, a.ok)), attempts[1..]);
      }
    }
  }

  /** A whole flush is a serial run, so the laws of runs apply to it. */
  lemma {:induction false} FlushIsRun(q: Queue, attempts: seq<Attempt>) returns (ops: seq<Op>)
    requires q.held.None? && |attempts| >= |q.waiting|
    ensures Run(q, ops) == Flush(q, attempts).0 && forall i :: 0 <= i < |ops| ==> !ops[i].Offer?
    decreases |q.waiting|
  {
    ops := [];
    if q.waiting != [] {
      var a := attempts[0];
      var q' := Step(Step(q, Take), Settle(a.now, a.ok));
      var rest := [];
      if ExpiredAt(q.waiting[0], a.now) || a.ok {
        rest := FlushIsRun(q', attempts[1..]);
      }
      ops := [Take, Settle(a.now, a.ok)] + rest;
      assert ops[1..] == [Settle(a.now, a.ok)] + rest && ops[1..][1..] == rest;
      assert Run(q, ops) == Run(Step(q, Take), ops[1..]) == Run(q', rest);
    }
  }

  class OfflineQueue {
    const capacity: nat
    const maximumPayload: nat
    var waiting: seq<Publication>
    ghost var accepted: seq<Publication>
    ghost var fates: seq<Fate>

    ghost function Abs(): Queue
      reads this
    {
      Queue(capacity, maximumPayload, waiting, None, accepted, fates)
    }

    constructor (capacity: nat, maximumPayload: nat)
      ensures Abs() == Queue(capacity, maximumPayload, [], None, [], [])
    {
      this.capacity := capacity;
      this.maximumPayload := maximumPayload;
      waiting, accepted, fates := [], [], [];
    }

    /** Queues a publication while the broker is away. */
    method Enqueue(p: Publication, now: Time) returns (ok: bool)
      modifies this
      ensures ok == Accepts(old(Abs()), p, now) && Abs() == Step(old(Abs()), Offer(p, now))
    {
      if !Publishable(p) || |p.payload| > maximumPayload || ExpiredAt(p, now) || |waiting| >= capacity {
        return false;
      }
      waiting := waiting + [p];
      accepted := accepted + [p];
      ok := true;
    }

    method FlushAll(attempts: seq<Attempt>) returns (ok: bool)
      requires |attempts| >= |waiting|
      modifies this
      ensures (Abs(), ok) == Flush(old(Abs()), attempts)
    {
      ghost var expected := Flush(Abs(), attempts);
      var i := 0;
      assert attempts[0..] == attempts;
      while waiting != []
        invariant i <= |attempts| && |attempts| - i >= |waiting|
        invariant Flush(Abs(), attempts[i..]) == expected
        decreases |waiting|
      {
        var p := waiting[0];
        waiting := waiting[1..];
        assert attempts[i..][1..] == attempts[i + 1..];
        if ExpiredAt(p, attempts[i].now) {
          fates := fates + [Fate(p, false, attempts[i].now)];
        } else if attempts[i].ok {
          fates := fates + [Fate(p, true, attempts[i].now)];
        } else {
          waiting := [p] + waiting;
          return false;
        }
        i := i + 1;
      }
      ok := true;
    }
  }
}
