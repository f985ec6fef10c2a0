/** The canonical store that updates its values, revision and subscriber channels in place.
    Every method is proved against `State`, `Snapshots` and `Subscriptions`. */
module StateStore {
  import opened Domain
  import State
  import opened Snapshots
  import Subscriptions

  /** Between calls every channel is at rest and up to date with the store's revision. */
  ghost predicate Served(channels: map<nat, Subscriptions.Channel>, revision: nat) {
    forall id :: id in channels ==> channels[id].phase.Idle? && Subscriptions.Invariant(channels[id], revision)
  }

  /** The snapshot delivered on every channel. */
  ghost function DeliverAll(channels: map<nat, Subscriptions.Channel>, snapshot: Snapshot): map<nat, Subscriptions.Channel> {
    map id | id in channels :: Subscriptions.Delivered(channels[id], snapshot)
  }

  lemma {:induction false} DeliveryServes(channels: map<nat, Subscriptions.Channel>, revision: nat, snapshot: Snapshot)
    requires Served(channels, revision) && snapshot.revision == revision + 1
    ensures Served(DeliverAll(channels, snapshot), revision + 1)
  {
    forall id | id in channels
      ensures Subscriptions.Delivered(channels[id], snapshot).phase.Idle?
      ensures Subscriptions.Invariant(Subscriptions.Delivered(channels[id], snapshot), revision + 1)
    {
      Subscriptions.DeliveredKeeps(channels[id], revision, snapshot);
    }
  }

  class Manager {
    var values: map<State.Key, State.Entry>
    var revision: nat
    var channels: map<nat, Subscriptions.Channel>
    var nextSubscriber: nat

    ghost function Abs(): State.Store
      reads this
    {
      State.Store(values, revision)
    }

    ghost predicate Valid()
      reads this
    {
      && Abs().Valid()
      && (forall id :: id in channels ==> id <= nextSubscriber)
      && Served(channels, revision)
    }

    constructor ()
      ensures Valid() && Abs() == State.EMPTY && channels == map[] && nextSubscriber == 0
    {
      values, revision, channels, nextSubscriber := map[], 0, map[], 0;
    }

    /** A valid value is stored, under the next revision, whether or not its event is then
        published; the snapshot it makes is delivered to every subscriber. */
    method Set(entry: State.Entry, now: Time, published: bool) returns (stored: Option<State.Entry>)
      requires Valid()
      modifies this
      ensures Valid() && nextSubscriber == old(nextSubscriber)
      ensures !entry.Valid() ==> stored == None && Abs() == old(Abs()) && channels == old(channels)
      ensures entry.Valid() ==>
              && Abs() == old(Abs()).Set(entry)
              && stored == (if published then Some(values[entry.key]) else None)
              && exists snapshot :: IsSnapshot(Abs(), now, snapshot)
                                    && channels == DeliverAll(old(channels), snapshot)
    {
      if !entry.Valid() {
        return None;
      }
      SetKeepsValid(Abs(), entry);
      Put(entry, now);
      stored := if published then Some(values[entry.key]) else None;
    }

    /** Advances the revision, files the entry under it, and announces the new state. */
    method Put(entry: State.Entry, now: Time)
      requires Abs().Set(entry).Valid() && Served(channels, revision)
      modifies this`values, this`revision, this`channels
      ensures Abs() == old(Abs()).Set(entry)
      ensures Served(channels, revision) && channels.Keys == old(channels).Keys
      ensures exists snapshot :: IsSnapshot(Abs(), now, snapshot)
                                 && channels == DeliverAll(old(channels), snapshot)
    {
      revision := revision + 1;
      var value := entry.(revision := revision);
      values := values[value.key := value];
      Announce(now);
    }

    method Delete(key: State.Key, now: Time) returns (found: bool)
      requires Valid()
      modifies this
      ensures Valid() && nextSubscriber == old(nextSubscriber)
      ensures found == (key in old(values)) && Abs() == old(Abs()).Delete(key)
      ensures !found ==> channels == old(channels)
      ensures found ==> exists snapshot ::
                IsSnapshot(Abs(), now, snapshot)
                && channels == DeliverAll(old(channels), snapshot)
    {
      found := key in values;
      if !found {
        return;
      }
      DeleteKeepsValid(Abs(), key);
      Remove(key, now);
    }

    /** Takes the entry out, advances the revision, and announces the new state. */
    method Remove(key: State.Key, now: Time)
      requires key in values && Abs().Delete(key).Valid() && Served(channels, revision)
      modifies this`values, this`revision, this`channels
      ensures Abs() == old(Abs()).Delete(key)
      ensures Served(channels, revision) && channels.Keys == old(channels).Keys
      ensures exists snapshot :: IsSnapshot(Abs(), now, snapshot)
                                 && channels == DeliverAll(old(channels), snapshot)
    {
      values := values - {key};
      revision := revision + 1;
      Announce(now);
    }

    method Get(key: State.Key, now: Time) returns (entry: Option<State.Entry>)
      ensures entry == Abs().Get(key, now)
    {
      if key !in values {
        return None;
      }
      var value := values[key];
      if now >= value.observedAt + value.freshFor {
        value := value.(quality := Stale);
      }
      entry := Some(value);
    }

    /** A subscription within the allowed capacity starts with the current snapshot. */
    method Subscribe(capacity: int, now: Time) returns (id: Option<nat>)
      requires Valid()
      modifies this`channels, this`nextSubscriber
      ensures Valid()
      ensures id.Some? <==> 1 <= capacity <= 1024
      ensures id.None? ==> channels == old(channels) && nextSubscriber == old(nextSubscriber)
      ensures id.Some? ==>
              && id.value !in old(channels)
              && exists snapshot :: IsSnapshot(Abs(), now, snapshot)
                                    && channels == old(channels)[id.value := Subscriptions.Subscribe(capacity, snapshot)]
    {
      if capacity < 1 || capacity > 1024 {
        return None;
      }
      nextSubscriber := nextSubscriber + 1;
      KeysFiledWhenValid(Abs());
      var snapshot := SnapshotLocked(now);
      Subscriptions.SubscribeKeeps(capacity, snapshot);
      channels := channels[nextSubscriber := Subscriptions.Subscribe(capacity, snapshot)];
      id := Some(nextSubscriber);
    }

    /** Makes a snapshot of the store's new revision and delivers it. */
    method Announce(now: Time)
      requires Abs().Valid() && revision > 0 && Served(channels, revision - 1)
      modifies this`channels
      ensures Served(channels, revision) && channels.Keys == old(channels).Keys
      ensures exists snapshot :: IsSnapshot(Abs(), now, snapshot)
                                 && channels == DeliverAll(old(channels), snapshot)
    {
      KeysFiledWhenValid(Abs());
      var snapshot := SnapshotLocked(now);
      ghost var before := channels;
      DeliveryServes(before, revision - 1, snapshot);
      DeliverLocked(snapshot);
      assert Served(channels, revision);
      assert IsSnapshot(Abs(), now, snapshot);
    }

    /** The consumer takes the oldest update off its channel, if there is one. */
    method Receive(id: nat) returns (update: Option<Subscriptions.Update>)
      requires Valid() && id in channels
      modifies this`channels
      ensures Valid() && channels == old(channels)[id := Subscriptions.Step(old(channels)[id], Subscriptions.Receive)]
      ensures update == if old(channels)[id].queue == [] then None else Some(old(channels)[id].queue[0])
    {
      var c := channels[id];
      Subscriptions.ReceiveKeeps(c, revision);
      update := if c.queue == [] then None else Some(c.queue[0]);
      channels := channels[id := Subscriptions.Step(c, Subscriptions.Receive)];
    }

    /** Collects the entries in whatever order the map gives them, then sorts them. */
    method SnapshotLocked(now: Time) returns (snapshot: Snapshot)
      requires KeysFiled(values)
      ensures IsSnapshot(Abs(), now, snapshot)
    {
      var sorted: seq<State.Entry> := [];
      var unseen := values.Keys;
      while unseen != {}
        invariant unseen <= values.Keys
        invariant StrictlyOrdered(sorted)
        invariant Collected(values, unseen, now, sorted)
      {
        var key :| key in unseen;
        unseen := unseen - {key};
        var item := values[key];
        if now >= item.observedAt + item.freshFor {
          item := item.(quality := Stale);
        }
        CollectOneMore(values, unseen + {key}, now, sorted, key);
        sorted := Insert(item, sorted);
        assert unseen + {key} - {key} == unseen;
      }
      snapshot := Snapshot(revision, sorted);
    }

    /** Offers the snapshot on every channel: send; failing that, take out the oldest update
        and send with its drop count carried on. */
    method DeliverLocked(snapshot: Snapshot)
      modifies this`channels
      ensures channels == DeliverAll(old(channels), snapshot)
    {
      ghost var before := channels;
      var unseen := channels.Keys;
      while unseen != {}
        invariant unseen <= channels.Keys == before.Keys
        invariant forall id :: id in before ==>
                    channels[id] == if id in unseen then before[id] else Subscriptions.Delivered(before[id], snapshot)
      {
        var id :| id in unseen;
        unseen := unseen - {id};
        var c := channels[id];
        c := Subscriptions.Step(c, Subscriptions.Begin(snapshot));
        c := Subscriptions.Step(c, Subscriptions.Pop);
        c := Subscriptions.Step(c, Subscriptions.Send);
        channels := channels[id := c];
      }
    }
  }

  ghost predicate KeysFiled(values: map<State.Key, State.Entry>) {
    forall k :: k in values ==> values[k].key == k && k.Valid()
  }

  lemma {:induction false} KeysFiledWhenValid(s: State.Store)
    requires s.Valid()
    ensures KeysFiled(s.values)
  {
  }

  /** The sequence holds, as they read at `now`, the entries of all keys but the unseen. */
  ghost predicate Collected(values: map<State.Key, State.Entry>, unseen: set<State.Key>, now: Time, v: seq<State.Entry>) {
    forall e :: e in v <==> e.key in values && e.key !in unseen && e == values[e.key].ReadAt(now)
  }

  lemma {:induction false} CollectOneMore(
      values: map<State.Key, State.Entry>, unseen: set<State.Key>, now: Time, v: seq<State.Entry>, key: State.Key)
    requires Collected(values, unseen, now, v) && StrictlyOrdered(v)
    requires key in values && key in unseen
    requires KeysFiled(values)
    ensures var r := Insert(values[key].ReadAt(now), v);
            StrictlyOrdered(r) && Collected(values, unseen - {key}, now, r)
  {
    forall i | 0 <= i < |v|
      ensures v[i].key.Valid() && v[i].key != key
    {
      assert v[i] in v;
    }
    InsertKeepsOrder(values[key].ReadAt(now), v);
  }

  /** Storing keeps entries filed under their keys, with distinct revisions up to the store's. */
  lemma {:induction false} SetKeepsValid(s: State.Store, entry: State.Entry)
    requires s.Valid() && entry.Valid()
    ensures s.Set(entry).Valid()
  {
  }

  lemma {:induction false} DeleteKeepsValid(s: State.Store, key: State.Key)
    requires s.Valid()
    ensures s.Delete(key).Valid()
  {
  }
}
