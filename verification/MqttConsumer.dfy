/** The bounded idempotency window of the MQTT consumer. A delivery is two critical sections
    with the handler between them, so deliveries may overlap in any way. */
module MqttConsumer {
  import opened Domain

  /** `inFlight` holds the message of every handler that is running, by delivery number. */
  datatype Window = Window(capacity: nat, order: seq<string>, seen: set<string>, inFlight: map<nat, string>, next: nat)

  function New(capacity: nat): Window {
    Window(capacity, [], {}, map[], 0)
  }

  /** The first section of a delivery; the second, when its handler fails; its end, when the
      handler succeeds. */
  datatype Op = Deliver(id: string) | Fail(delivery: nat) | Succeed(delivery: nat)

  /** The sequence without the first occurrence of `id`. */
  function Without(order: seq<string>, id: string): seq<string> {
    if order == [] then [] else if order[0] == id then order[1..] else [order[0]] + Without(order[1..], id)
  }

  /** Reserves an unseen identifier and evicts the oldest beyond capacity. */
  function Reserve(w: Window, id: string): Window {
    var longer := w.order + [id];
    var w' := w.(inFlight := w.inFlight[w.next := id], next := w.next + 1);
    if |longer| > w.capacity then w'.(order := longer[1..], seen := w.seen + {id} - {longer[0]})
    else w'.(order := longer, seen := w.seen + {id})
  }

  function Release(w: Window, id: string): Window {
    w.(order := Without(w.order, id), seen := w.seen - {id})
  }

  /** A repeated identifier is suppressed: no handler runs and nothing changes. */
  function Step(w: Window, op: Op): Window {
    match op
    case Deliver(id) => if id in w.seen then w else Reserve(w, id)
    case Fail(d) => if d in w.inFlight then Release(w.(inFlight := w.inFlight - {d}), w.inFlight[d]) else w
    case Succeed(d) => w.(inFlight := w.inFlight - {d})
  }

  function Run(w: Window, ops: seq<Op>): Window
    decreases |ops|
  {
    if ops == [] then w else Run(Step(w, ops[0]), ops[1..])
  }

  // ---------- What every interleaving keeps ----------

  ghost predicate NoRepeats(order: seq<string>) {
    forall i, j :: 0 <= i < j < |order| ==> order[i] != order[j]
  }

  ghost predicate Invariant(w: Window) {
    && w.capacity >= 1 && |w.order| <= w.capacity
    && NoRepeats(w.order)
    && (forall id :: id in w.seen <==> id in w.order)
    && (forall d :: d in w.inFlight ==> d < w.next)
  }

  lemma {:induction false} WithoutDrops(order: seq<string>, id: string)
    requires NoRepeats(order)
    ensures NoRepeats(Without(order, id)) && |Without(order, id)| <= |order|
    ensures forall x :: x in Without(order, id) <==> x in order && x != id
    decreases |order|
  {
    if order != [] {
      var rest := order[1..];
      assert order == [order[0]] + rest;
      assert order[0] !in rest;
      WithoutDrops(rest, id);
    }
  }

  lemma {:induction false} ReserveKeeps(w: Window, id: string)
    requires Invariant(w) && id !in w.seen
    ensures Invariant(Reserve(w, id)) && id in Reserve(w, id).seen
  {
    var longer := w.order + [id];
    assert longer[|w.order|] == id;
    assert forall x :: x in longer <==> x in w.order || x == id;
    if |longer| > w.capacity {
      assert longer == [longer[0]] + longer[1..];
      assert longer[0] !in longer[1..];
    }
  }

  lemma {:induction false} StepKeeps(w: Window, op: Op)
    requires Invariant(w)
    ensures Invariant(Step(w, op)) && Step(w, op).capacity == w.capacity
  {
    match op
    case Deliver(id) => if id !in w.seen { ReserveKeeps(w, id); }
    case Fail(d) => if d in w.inFlight { WithoutDrops(w.order, w.inFlight[d]); }
    case Succeed(d) =>
  }

  /** Main result: under every interleaving the window has no repeats and at most `capacity`
      entries, and the lookup set is exactly the window. */
  lemma {:induction false} RunKeeps(w: Window, ops: seq<Op>)
    requires Invariant(w)
    ensures Invariant(Run(w, ops)) && Run(w, ops).capacity == w.capacity
    decreases |ops|
  {
    if ops != [] {
      StepKeeps(w, ops[0]);
      RunKeeps(Step(w, ops[0]), ops[1..]);
    }
  }

  // ---------- How long a handled message is suppressed ----------

  predicate Reserves(w: Window, op: Op) {
    op.Deliver? && op.id !in w.seen
  }

  /** How many reservations a run makes. */
  function Reservations(w: Window, ops: seq<Op>): nat
    decreases |ops|
  {
    if ops == [] then 0 else (if Reserves(w, ops[0]) then 1 else 0) + Reservations(Step(w, ops[0]), ops[1..])
  }

  /** How many window entries are younger than the given one. */
  function Younger(order: seq<string>, id: string): nat {
    if order == [] then 0 else if order[0] == id then |order| - 1 else Younger(order[1..], id)
  }

  lemma {:induction false} YoungerAt(order: seq<string>, id: string) returns (i: nat)
    requires id in order
    ensures i < |order| && order[i] == id && Younger(order, id) == |order| - 1 - i
    decreases |order|
  {
    if order[0] == id {
      i := 0;
    } else {
      var j := YoungerAt(order[1..], id);
      i := j + 1;
    }
  }

  lemma {:induction false} YoungerIs(order: seq<string>, i: nat)
    requires i < |order| && NoRepeats(order)
    ensures Younger(order, order[i]) == |order| - 1 - i
    decreases |order|
  {
    if i > 0 {
      YoungerIs(order[1..], i - 1);
    }
  }

  lemma {:induction false} WithoutOther(order: seq<string>, id: string, kept: string)
    requires kept in order && kept != id
    ensures kept in Without(order, id) && Younger(Without(order, id), kept) <= Younger(order, kept)
    ensures |Without(order, id)| <= |order|
    decreases |order|
  {
    if order[0] == id {
      assert order[1..] == Without(order, id);
    } else {
      WithoutShorter(order[1..], id);
      if order[0] != kept {
        WithoutOther(order[1..], id, kept);
        assert ([order[0]] + Without(order[1..], id))[1..] == Without(order[1..], id);
      }
    }
  }

  lemma {:induction false} WithoutShorter(order: seq<string>, id: string)
    ensures |Without(order, id)| <= |order|
    decreases |order|
  {
    if order != [] && order[0] != id {
      WithoutShorter(order[1..], id);
    }
  }

  /** One step ages a held message by at most one place, and only by a reservation. */
  lemma {:induction false} StepAges(w: Window, op: Op, id: string)
    requires Invariant(w) && id in w.seen
    requires op.Fail? && op.delivery in w.inFlight ==> w.inFlight[op.delivery] != id
    requires Reserves(w, op) ==> Younger(w.order, id) + 1 < w.capacity
    ensures var w' := Step(w, op);
            id in w'.seen && Younger(w'.order, id) <= Younger(w.order, id) + (if Reserves(w, op) then 1 else 0)
  {
    match op
    case Deliver(other) => if other !in w.seen { ReserveAges(w, other, id); }
    case Fail(d) => if d in w.inFlight { WithoutOther(w.order, w.inFlight[d], id); }
    case Succeed(d) =>
  }

  lemma {:induction false} ReserveAges(w: Window, other: string, id: string)
    requires Invariant(w) && id in w.seen && other !in w.seen && Younger(w.order, id) + 1 < w.capacity
    ensures var w' := Reserve(w, other);
            id in w'.seen && Younger(w'.order, id) == Younger(w.order, id) + 1
  {
    ReserveKeeps(w, other);
    var i := YoungerAt(w.order, id);
    var w', longer := Reserve(w, other), w.order + [other];
    if |longer| > w.capacity {
      assert i > 0;
      assert w'.order[i - 1] == id;
      YoungerIs(w'.order, i - 1);
    } else {
      assert w'.order[i] == id;
      YoungerIs(w'.order, i);
    }
  }

  /** No running handler other than delivery `own` carries the message. */
  ghost predicate NoOther(w: Window, id: string, own: nat) {
    forall d :: d in w.inFlight && d != own ==> w.inFlight[d] != id
  }

  /** The run does not contain a failure of the given delivery. */
  ghost predicate NeverFails(ops: seq<Op>, own: nat) {
    forall i :: 0 <= i < |ops| ==> ops[i] != Fail(own)
  }

  lemma {:induction false} HeldThrough(w: Window, ops: seq<Op>, id: string, own: nat)
    requires Invariant(w) && id in w.seen && NoOther(w, id, own) && NeverFails(ops, own)
    requires Younger(w.order, id) + Reservations(w, ops) < w.capacity
    ensures id in Run(w, ops).seen
    decreases |ops|
  {
    if ops != [] {
      var op, w' := ops[0], Step(w, ops[0]);
      assert op != Fail(own);
      StepAges(w, op, id);
      StepKeeps(w, op);
      assert NoOther(w', id, own);
      HeldThrough(w', ops[1..], id, own);
    }
  }

  /** The message reserved last stays suppressed through every continuation in which its own
      handler does not fail and fewer than `capacity` reservations are made. */
  ghost predicate StaysSuppressed(w: Window, id: string, own: nat) {
    forall ops :: NeverFails(ops, own) && Reservations(w, ops) < w.capacity ==> id in Run(w, ops).seen
  }

  /** Main result: a message whose handler does not fail is suppressed until `capacity` later
      reservations exactly when, as it was reserved, no earlier handler of the same message
      was still running. Otherwise that handler, whose own reservation was evicted meanwhile,
      takes the new one with it when it fails. */
  lemma {:induction false} SuppressedIffAlone(w: Window, id: string)
    requires Invariant(w) && id !in w.seen
    ensures StaysSuppressed(Reserve(w, id), id, w.next) <==> (forall d :: d in w.inFlight ==> w.inFlight[d] != id)
  {
    var w1 := Reserve(w, id);
    ReserveKeeps(w, id);
    if forall d :: d in w.inFlight ==> w.inFlight[d] != id {
      assert NoOther(w1, id, w.next);
      assert w1.order[|w1.order| - 1] == id;
      YoungerIs(w1.order, |w1.order| - 1);
      forall ops | NeverFails(ops, w.next) && Reservations(w1, ops) < w1.capacity
        ensures id in Run(w1, ops).seen
      {
        HeldThrough(w1, ops, id, w.next);
      }
    } else {
      var d :| d in w.inFlight && w.inFlight[d] == id;
      StaleFailureReleases(w, id, d);
    }
  }

  lemma {:induction false} StaleFailureReleases(w: Window, id: string, d: nat)
    requires Invariant(w) && id !in w.seen && d in w.inFlight && w.inFlight[d] == id
    ensures var w1, ops := Reserve(w, id), [Succeed(w.next), Fail(d)];
            NeverFails(ops, w.next) && Reservations(w1, ops) == 0 && id !in Run(w1, ops).seen
  {
    var w1, ops := Reserve(w, id), [Succeed(w.next), Fail(d)];
    var w2 := Step(w1, ops[0]);
    var w3 := Step(w2, ops[1]);
    assert ops[1..] == [Fail(d)] && ops[1..][1..] == [];
    assert d in w2.inFlight && w2.inFlight[d] == id;
    assert Run(w2, ops[1..]) == Run(w3, []);
    assert Reservations(w2, ops[1..]) == 0;
  }

  /** Deliveries that do not overlap are always suppressed for the full window. */
  lemma {:induction false} SerialDeliveryIsSuppressed(w: Window, id: string)
    requires Invariant(w) && id !in w.seen && w.inFlight == map[]
    ensures StaysSuppressed(Reserve(w, id), id, w.next)
  {
    SuppressedIffAlone(w, id);
  }
}
