/** Bounded lossy subscriptions. A delivery is up to three channel operations under the
    store's lock; the consumer, which holds no lock, may receive between any two of them. */
module Subscriptions {
  import opened Domain
  import opened Snapshots

  datatype Update = Update(snapshot: Snapshot, dropped: nat)

  /** Where a delivery stands: none under way; the channel was full and its oldest update is
      to be taken out; the new update, carrying what was dropped, is to be sent. */
  datatype Phase = Idle | Popping(snapshot: Snapshot) | Sending(update: Update)

  /** A subscriber's channel, with what it has received and how many updates were discarded. */
  datatype Channel = Channel(
    capacity: nat, queue: seq<Update>, phase: Phase, received: seq<Update>, discarded: nat, offered: nat)

  function Subscribe(capacity: nat, snapshot: Snapshot): Channel {
    Channel(capacity, [Update(snapshot, 0)], Idle, [], 0, 1)
  }

  datatype Op = Begin(snapshot: Snapshot) | Pop | Send | Receive

  /** An operation that is not enabled does nothing; a send on a full channel would block. */
  function Step(c: Channel, op: Op): Channel {
    match op
    case Begin(snapshot) =>
      if !c.phase.Idle? then c
      else if |c.queue| < c.capacity then c.(queue := c.queue + [Update(snapshot, 0)], offered := c.offered + 1)
      else c.(phase := Popping(snapshot), offered := c.offered + 1)
    case Pop =>
      if !c.phase.Popping? then c
      else if c.queue == [] then c.(phase := Sending(Update(c.phase.snapshot, 0)))
      else
        c.(queue := c.queue[1..],
           phase := Sending(Update(c.phase.snapshot, c.queue[0].dropped + 1)),
           discarded := c.discarded + 1)
    case Send =>
      if !c.phase.Sending? || |c.queue| >= c.capacity then c
      else c.(queue := c.queue + [c.phase.update], phase := Idle)
    case Receive =>
      if c.queue == [] then c else c.(queue := c.queue[1..], received := c.received + [c.queue[0]])
  }

  function Run(c: Channel, ops: seq<Op>): Channel
    decreases |ops|
  {
    if ops == [] then c else Run(Step(c, ops[0]), ops[1..])
  }

  // ---------- What every interleaving keeps ----------

  function Dropped(updates: seq<Update>): nat {
    if updates == [] then 0 else Dropped(updates[..|updates| - 1]) + updates[|updates| - 1].dropped
  }

  lemma {:induction false} DroppedConcat(a: seq<Update>, b: seq<Update>)
    ensures Dropped(a + b) == Dropped(a) + Dropped(b)
    decreases |b|
  {
    if b == [] {
      assert a + b == a;
    } else {
      assert (a + b)[..|a + b| - 1] == a + b[..|b| - 1];
      DroppedConcat(a, b[..|b| - 1]);
    }
  }

  ghost predicate Rising(updates: seq<Update>) {
    forall i, j :: 0 <= i < j < |updates| ==> updates[i].snapshot.revision < updates[j].snapshot.revision
  }

  ghost predicate AllBelow(updates: seq<Update>, revision: nat) {
    forall i :: 0 <= i < |updates| ==> updates[i].snapshot.revision < revision
  }

  function InFlight(phase: Phase): nat {
    if phase.Sending? then phase.update.dropped else 0
  }

  /** `newest` is the revision of the latest delivery begun. */
  ghost predicate Invariant(c: Channel, newest: nat) {
    && c.capacity >= 1
    && |c.queue| <= c.capacity
    && (c.phase.Sending? ==> |c.queue| < c.capacity)
    && Dropped(c.received + c.queue) + InFlight(c.phase) == c.discarded
    && |c.received| + |c.queue| + c.discarded + (if c.phase.Idle? then 0 else 1) == c.offered
    && Rising(c.received + c.queue)
    && (match c.phase
        case Idle => AllBelow(c.received + c.queue, newest + 1)
                     && (c.queue != [] ==> c.queue[|c.queue| - 1].snapshot.revision == newest)
        case Popping(snapshot) => snapshot.revision == newest && AllBelow(c.received + c.queue, newest)
        case Sending(update) => update.snapshot.revision == newest && AllBelow(c.received + c.queue, newest))
  }

  /** The store begins deliveries with ever higher revisions. */
  predicate Sound(c: Channel, newest: nat, op: Op) {
    op.Begin? && c.phase.Idle? ==> newest < op.snapshot.revision
  }

  function Newest(c: Channel, newest: nat, op: Op): nat {
    if op.Begin? && c.phase.Idle? then op.snapshot.revision else newest
  }

  lemma {:induction false} ReceiveKeeps(c: Channel, newest: nat)
    requires Invariant(c, newest)
    ensures Invariant(Step(c, Receive), newest)
  {
    if c.queue != [] {
      assert c.received + [c.queue[0]] + c.queue[1..] == c.received + c.queue;
    }
  }

  lemma {:induction false} BeginKeeps(c: Channel, newest: nat, snapshot: Snapshot)
    requires Invariant(c, newest) && Sound(c, newest, Begin(snapshot))
    ensures Invariant(Step(c, Begin(snapshot)), Newest(c, newest, Begin(snapshot)))
  {
    if c.phase.Idle? && |c.queue| < c.capacity {
      PushKeeps(c, Update(snapshot, 0));
    }
  }

  lemma {:induction false} PushKeeps(c: Channel, update: Update)
    requires Rising(c.received + c.queue) && AllBelow(c.received + c.queue, update.snapshot.revision)
    ensures var longer := c.received + (c.queue + [update]);
            && Rising(longer) && AllBelow(longer, update.snapshot.revision + 1)
            && Dropped(longer) == Dropped(c.received + c.queue) + update.dropped
  {
    assert c.received + (c.queue + [update]) == (c.received + c.queue) + [update];
    OneMore(c.received + c.queue, update);
  }

  lemma {:induction false} OneMore(all: seq<Update>, update: Update)
    requires Rising(all) && AllBelow(all, update.snapshot.revision)
    ensures Rising(all + [update]) && AllBelow(all + [update], update.snapshot.revision + 1)
    ensures Dropped(all + [update]) == Dropped(all) + update.dropped
  {
    assert (all + [update])[..|all|] == all;
  }

  lemma {:induction false} PopKeeps(c: Channel, newest: nat)
    requires Invariant(c, newest)
    ensures Invariant(Step(c, Pop), newest)
  {
    if c.phase.Popping? && c.queue != [] {
      DroppedPop(c.received, c.queue);
      OrderedPop(c.received, c.queue, newest);
    }
  }

  lemma {:induction false} DroppedPop(received: seq<Update>, queue: seq<Update>)
    requires queue != []
    ensures Dropped(received + queue) == Dropped(received + queue[1..]) + queue[0].dropped
  {
    assert received + queue == received + [queue[0]] + queue[1..];
    DroppedConcat(received, queue[1..]);
    DroppedConcat(received + [queue[0]], queue[1..]);
    DroppedConcat(received, [queue[0]]);
    assert [queue[0]][..0] == [];
  }

  lemma {:induction false} OrderedPop(received: seq<Update>, queue: seq<Update>, newest: nat)
    requires queue != [] && Rising(received + queue) && AllBelow(received + queue, newest)
    ensures Rising(received + queue[1..]) && AllBelow(received + queue[1..], newest)
  {
    var n, all, less := |received|, received + queue, received + queue[1..];
    assert forall i :: 0 <= i < |less| ==> less[i] == all[if i < n then i else i + 1];
  }

  lemma {:induction false} SendKeeps(c: Channel, newest: nat)
    requires Invariant(c, newest)
    ensures Invariant(Step(c, Send), newest)
  {
    if c.phase.Sending? {
      PushKeeps(c, c.phase.update);
    }
  }

  lemma {:induction false} StepKeeps(c: Channel, newest: nat, op: Op)
    requires Invariant(c, newest) && Sound(c, newest, op)
    ensures Invariant(Step(c, op), Newest(c, newest, op))
  {
    match op
    case Begin(snapshot) => BeginKeeps(c, newest, snapshot);
    case Pop => PopKeeps(c, newest);
    case Send => SendKeeps(c, newest);
    case Receive => ReceiveKeeps(c, newest);
  }

  ghost predicate SoundRun(c: Channel, newest: nat, ops: seq<Op>)
    decreases |ops|
  {
    ops == [] || (Sound(c, newest, ops[0]) && SoundRun(Step(c, ops[0]), Newest(c, newest, ops[0]), ops[1..]))
  }

  function NewestAfter(c: Channel, newest: nat, ops: seq<Op>): nat
    decreases |ops|
  {
    if ops == [] then newest else NewestAfter(Step(c, ops[0]), Newest(c, newest, ops[0]), ops[1..])
  }

  lemma {:induction false} RunKeeps(c: Channel, newest: nat, ops: seq<Op>)
    requires Invariant(c, newest) && SoundRun(c, newest, ops)
    ensures Invariant(Run(c, ops), NewestAfter(c, newest, ops))
    decreases |ops|
  {
    if ops != [] {
      StepKeeps(c, newest, ops[0]);
      RunKeeps(Step(c, ops[0]), Newest(c, newest, ops[0]), ops[1..]);
    }
  }

  /** Main result, for every interleaving of deliveries with a receiving consumer: the drop
      counts in what was received and is queued add up to the updates discarded, with none
      lost otherwise; received and queued revisions rise strictly; between deliveries a
      non-empty queue ends with the newest revision; the queue stays within capacity; and
      when a delivery is about to send, the channel has room, so the send cannot block. */
  lemma {:induction false} EveryDropIsReported(capacity: nat, first: Snapshot, ops: seq<Op>)
    requires capacity >= 1 && SoundRun(Subscribe(capacity, first), first.revision, ops)
    ensures var c := Run(Subscribe(capacity, first), ops);
            var newest := NewestAfter(Subscribe(capacity, first), first.revision, ops);
            && (c.phase.Idle? ==> Dropped(c.received) + Dropped(c.queue) == c.discarded)
            && (c.phase.Idle? ==> |c.received| + |c.queue| + c.discarded == c.offered)
            && Rising(c.received + c.queue)
            && (c.phase.Idle? && c.queue != [] ==> c.queue[|c.queue| - 1].snapshot.revision == newest)
            && |c.queue| <= c.capacity
            && (c.phase.Sending? ==> |c.queue| < c.capacity)
  {
    var start := Subscribe(capacity, first);
    SubscribeKeeps(capacity, first);
    RunKeeps(start, first.revision, ops);
    var c := Run(start, ops);
    CapacityFixed(start, ops);
    DroppedConcat(c.received, c.queue);
  }

  lemma {:induction false} CapacityFixed(c: Channel, ops: seq<Op>)
    ensures Run(c, ops).capacity == c.capacity
    decreases |ops|
  {
    if ops != [] {
      CapacityFixed(Step(c, ops[0]), ops[1..]);
    }
  }

  /** A delivery during which the consumer stays away. */
  function Delivered(c: Channel, snapshot: Snapshot): Channel {
    Step(Step(Step(c, Begin(snapshot)), Pop), Send)
  }

  /** Undisturbed, a delivery always completes with its snapshot last in the queue; a full
      channel gives up its oldest update and hands its drop count on. */
  lemma {:induction false} DeliveryCompletes(c: Channel, newest: nat, snapshot: Snapshot)
    requires Invariant(c, newest) && c.phase.Idle?
    ensures var c' := Delivered(c, snapshot);
            && c'.phase.Idle? && c'.received == c.received
            && c'.queue == if |c.queue| < c.capacity then c.queue + [Update(snapshot, 0)]
                           else c.queue[1..] + [Update(snapshot, c.queue[0].dropped + 1)]
  {
    assert |c.queue| >= c.capacity ==> |c.queue[1..]| < c.capacity;
  }

  lemma {:induction false} DeliveredKeeps(c: Channel, newest: nat, snapshot: Snapshot)
    requires Invariant(c, newest) && c.phase.Idle? && newest < snapshot.revision
    ensures Invariant(Delivered(c, snapshot), snapshot.revision) && Delivered(c, snapshot).phase.Idle?
  {
    BeginKeeps(c, newest, snapshot);
    PopKeeps(Step(c, Begin(snapshot)), snapshot.revision);
    SendKeeps(Step(Step(c, Begin(snapshot)), Pop), snapshot.revision);
    DeliveryCompletes(c, newest, snapshot);
  }

  lemma {:induction false} SubscribeKeeps(capacity: nat, snapshot: Snapshot)
    requires capacity >= 1
    ensures Invariant(Subscribe(capacity, snapshot), snapshot.revision)
  {
    var start := Subscribe(capacity, snapshot);
    assert [] + start.queue == start.queue && start.queue[..0] == [];
  }

  // ---------- Nothing else is lost ----------

  function Shown(updates: seq<Update>): seq<Snapshot> {
    if updates == [] then [] else Shown(updates[..|updates| - 1]) + [updates[|updates| - 1].snapshot]
  }

  /** The snapshot of a delivery under way, if there is one. */
  function UnderWay(c: Channel): seq<Snapshot> {
    match c.phase
    case Idle => []
    case Popping(snapshot) => [snapshot]
    case Sending(update) => [update.snapshot]
  }

  /** Everything on its way to the consumer or there. */
  function Reaching(c: Channel): seq<Snapshot> {
    Shown(c.received + c.queue) + UnderWay(c)
  }

  /** The snapshots whose delivery a run begins. */
  function Begun(c: Channel, ops: seq<Op>): seq<Snapshot>
    decreases |ops|
  {
    if ops == [] then []
    else (if ops[0].Begin? && c.phase.Idle? then [ops[0].snapshot] else []) + Begun(Step(c, ops[0]), ops[1..])
  }

  lemma {:induction false} ShownSnoc(updates: seq<Update>, update: Update)
    ensures Shown(updates + [update]) == Shown(updates) + [update.snapshot]
  {
    assert (updates + [update])[..|updates|] == updates;
  }

  lemma {:induction false} StepReaches(c: Channel, op: Op)
    ensures Step(c, op).discarded >= c.discarded
    ensures Step(c, op).discarded == c.discarded ==>
              Reaching(Step(c, op)) == Reaching(c) + (if op.Begin? && c.phase.Idle? then [op.snapshot] else [])
  {
    match op
    case Begin(snapshot) => BeginReaches(c, snapshot);
    case Pop =>
    case Send => SendReaches(c);
    case Receive => ReceiveReaches(c);
  }

  lemma {:induction false} ReceiveReaches(c: Channel)
    ensures Reaching(Step(c, Receive)) == Reaching(c)
  {
    if c.queue != [] {
      assert (c.received + [c.queue[0]]) + c.queue[1..] == c.received + c.queue;
    }
  }

  lemma {:induction false} BeginReaches(c: Channel, snapshot: Snapshot)
    ensures Reaching(Step(c, Begin(snapshot))) == Reaching(c) + (if c.phase.Idle? then [snapshot] else [])
  {
    var all := c.received + c.queue;
    assert c.received + (c.queue + [Update(snapshot, 0)]) == all + [Update(snapshot, 0)];
    ShownSnoc(all, Update(snapshot, 0));
    assert Shown(all) + [] == Shown(all);
  }

  lemma {:induction false} SendReaches(c: Channel)
    ensures Reaching(Step(c, Send)) == Reaching(c)
  {
    if c.phase.Sending? {
      var all := c.received + c.queue;
      assert c.received + (c.queue + [c.phase.update]) == all + [c.phase.update];
      ShownSnoc(all, c.phase.update);
      assert Shown(all) + [c.phase.update.snapshot] + [] == Shown(all) + [c.phase.update.snapshot];
    }
  }

  lemma {:induction false} RunReaches(c: Channel, ops: seq<Op>)
    ensures Run(c, ops).discarded >= c.discarded
    ensures Run(c, ops).discarded == c.discarded ==> Reaching(Run(c, ops)) == Reaching(c) + Begun(c, ops)
    decreases |ops|
  {
    if ops != [] {
      StepReaches(c, ops[0]);
      RunReaches(Step(c, ops[0]), ops[1..]);
      var one := if ops[0].Begin? && c.phase.Idle? then [ops[0].snapshot] else [];
      assert Reaching(c) + one + Begun(Step(c, ops[0]), ops[1..]) == Reaching(c) + (one + Begun(Step(c, ops[0]), ops[1..]));
    }
  }

  /** Main result: a subscriber that nothing was discarded for gets the snapshot it subscribed
      at and every later one, in order. */
  lemma {:induction false} WithoutDropsNothingIsMissed(capacity: nat, first: Snapshot, ops: seq<Op>)
    requires Run(Subscribe(capacity, first), ops).discarded == 0
    ensures Reaching(Run(Subscribe(capacity, first), ops)) == [first] + Begun(Subscribe(capacity, first), ops)
  {
    var start := Subscribe(capacity, first);
    RunReaches(start, ops);
    assert start.received + start.queue == [] + [Update(first, 0)];
    ShownSnoc([], Update(first, 0));
    assert Reaching(start) == [first];
  }
}
