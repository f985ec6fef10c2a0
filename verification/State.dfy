/** Canonical state: keys, entries, and the revisioned store as a value. The classes that
    update it in place are in `StateStore`; subscriptions are in `Subscriptions`. */
module State {
  import opened Domain

  datatype EntityKind = Sensor | Equipment | UnknownEntity(name: string) {
    function Text(): string {
      match this
      case Sensor => "sensor"
      case Equipment => "equipment"
      case UnknownEntity(name) => name
    }
  }

  datatype Plane = Observation | Desired | Reported | UnknownPlane(name: string) {
    function Text(): string {
      match this
      case Observation => "observation"
      case Desired => "desired"
      case Reported => "reported"
      case UnknownPlane(name) => name
    }
  }

  datatype Key = Key(kind: EntityKind, id: Id, plane: Plane, attribute: string) {
    predicate Valid() {
      && (kind == Sensor || kind == Equipment)
      && !plane.UnknownPlane?
      && (kind == Sensor ==> plane == Observation)
      && (kind == Equipment ==> plane != Observation)
      && ValidUuid(id)
      && attribute != ""
    }
  }

  datatype Entry = Entry(
    key: Key,
    value: Value,
    quality: Quality,
    observedAt: Time,
    receivedAt: Time,
    freshFor: Duration,
    source: Id,
    revision: nat)
  {
    predicate Valid() {
      && key.Valid()
      && value.Valid()
      && quality != UnknownQuality
      && observedAt != 0 && receivedAt != 0 && observedAt <= receivedAt
      && freshFor > 0
      && ValidUuid(source)
    }

    /** The entry as read at `now`: its quality is replaced once its freshness window is over. */
    function ReadAt(now: Time): Entry {
      if now < observedAt + freshFor then this else this.(quality := Stale)
    }
  }

  ghost predicate Filed(values: map<Key, Entry>) {
    forall k :: k in values ==> values[k].key == k && values[k].Valid()
  }

  datatype Store = Store(values: map<Key, Entry>, revision: nat) {

    /** Every entry is filed under its own validated key, entry revisions are positive,
        distinct, and at most the store's. */
    ghost predicate Valid() {
      && Filed(values)
      && (forall k :: k in values ==> 0 < values[k].revision <= revision)
      && (forall j, k :: j in values && k in values && values[j].revision == values[k].revision ==> j == k)
    }

    function Set(entry: Entry): Store {
      Store(values[entry.key := entry.(revision := revision + 1)], revision + 1)
    }

    function Delete(key: Key): Store {
      if key in values then Store(values - {key}, revision + 1) else this
    }

    function Get(key: Key, now: Time): Option<Entry> {
      if key in values then Some(values[key].ReadAt(now)) else None
    }
  }

  const EMPTY := Store(map[], 0)
}
