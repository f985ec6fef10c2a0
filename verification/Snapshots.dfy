/** Canonical snapshots: an unambiguous text for every validated key, and one possible order
    of entries, whatever order the store's map is traversed in. */
module Snapshots {
  import opened Domain
  import opened State

  function KeyString(k: Key): string {
    k.kind.Text() + "/" + k.id + "/" + k.plane.Text() + "/" + k.attribute
  }

  /** Byte-wise comparison of texts. */
  predicate Less(a: string, b: string) {
    b != [] && (a == [] || a[0] < b[0] || (a[0] == b[0] && Less(a[1..], b[1..])))
  }

  lemma {:induction false} LessTransitive(a: string, b: string, c: string)
    requires Less(a, b) && Less(b, c)
    ensures Less(a, c)
    decreases |a|
  {
    if a != [] && a[0] == b[0] == c[0] {
      LessTransitive(a[1..], b[1..], c[1..]);
    }
  }

  lemma {:induction false} LessTotal(a: string, b: string)
    ensures Less(a, b) || Less(b, a) || a == b
    ensures !(Less(a, b) && Less(b, a))
    decreases |a|
  {
    if a != [] && b != [] && a[0] == b[0] {
      LessTotal(a[1..], b[1..]);
      assert a == [a[0]] + a[1..] && b == [b[0]] + b[1..];
    }
  }

  /** The order of texts: a proper beginning comes before the whole, and otherwise the first
      difference decides. */
  lemma {:induction false} LessExactly(a: string, b: string)
    ensures Less(a, b) <==> || (|a| < |b| && a == b[..|a|])
                            || exists k :: 0 <= k < |a| && k < |b| && a[..k] == b[..k] && a[k] < b[k]
    decreases |a|
  {
    if a != [] && b != [] {
      if a[0] == b[0] {
        var x, y := a[1..], b[1..];
        LessExactly(x, y);
        assert a == [a[0]] + x && b == [a[0]] + y;
        if k :| 0 <= k < |x| && k < |y| && x[..k] == y[..k] && x[k] < y[k] {
          assert a[..k + 1] == [a[0]] + x[..k] && b[..k + 1] == [a[0]] + y[..k];
          assert a[k + 1] < b[k + 1];
        }
        if k :| 0 <= k < |a| && k < |b| && a[..k] == b[..k] && a[k] < b[k] {
          assert k > 0;
          assert x[..k - 1] == a[..k][1..] && y[..k - 1] == b[..k][1..];
          assert x[k - 1] < y[k - 1];
        }
        assert |x| < |y| && x == y[..|x|] ==> a == b[..|a|];
        if |a| < |b| && a == b[..|a|] {
          assert x == a[1..] == b[..|a|][1..] == y[..|x|];
        }
      } else {
        assert forall k :: 0 < k <= |a| && k <= |b| ==> a[..k][0] != b[..k][0];
        assert a[..0] == b[..0];
      }
    }
  }

  /** What follows the entity kind, and what follows the identifier. */
  function AfterKind(k: Key): string {
    k.id + "/" + k.plane.Text() + "/" + k.attribute
  }

  function AfterId(k: Key): string {
    k.plane.Text() + "/" + k.attribute
  }

  lemma {:induction false} KeyStringParts(k: Key)
    ensures KeyString(k) == (k.kind.Text() + "/") + AfterKind(k)
    ensures AfterKind(k) == (k.id + "/") + AfterId(k)
  {
  }

  lemma {:induction false} SameKind(j: Key, k: Key)
    requires (j.kind == Sensor || j.kind == Equipment) && (k.kind == Sensor || k.kind == Equipment)
    requires KeyString(j) == KeyString(k)
    ensures j.kind == k.kind
  {
    assert KeyString(j)[0] == j.kind.Text()[0] && KeyString(k)[0] == k.kind.Text()[0];
  }

  /** Main result: validated keys with the same text are the same key, although an attribute
      may itself contain slashes. */
  lemma {:induction false} KeyStringInjective(j: Key, k: Key)
    requires j.Valid() && k.Valid() && KeyString(j) == KeyString(k)
    ensures j == k
  {
    SameKind(j, k);
    SameParts(j, k);
    PlaneAndAttribute(j, k);
  }

  lemma {:induction false} SameParts(j: Key, k: Key)
    requires j.kind == k.kind && |j.id| == |k.id| && KeyString(j) == KeyString(k)
    ensures j.id == k.id && AfterId(j) == AfterId(k)
  {
    KeyStringParts(j);
    KeyStringParts(k);
    SplitEqual(j.kind.Text() + "/", AfterKind(j), k.kind.Text() + "/", AfterKind(k), KeyString(j), KeyString(k));
    SplitEqual(j.id + "/", AfterId(j), k.id + "/", AfterId(k), AfterKind(j), AfterKind(k));
    assert j.id == (j.id + "/")[..|j.id|] && k.id == (k.id + "/")[..|k.id|];
  }

  /** Equal texts with heads of one length have equal heads and equal tails. */
  lemma {:induction false} SplitEqual(a: string, b: string, c: string, d: string, left: string, right: string)
    requires left == a + b && right == c + d && left == right && |a| == |c|
    ensures a == c && b == d
  {
    assert a == left[..|a|] && c == right[..|c|];
    assert b == left[|a|..] && d == right[|c|..];
  }

  lemma {:induction false} PlaneAndAttribute(j: Key, k: Key)
    requires !j.plane.UnknownPlane? && !k.plane.UnknownPlane? && AfterId(j) == AfterId(k)
    ensures j.plane == k.plane && j.attribute == k.attribute
  {
    assert AfterId(j)[0] == j.plane.Text()[0] && AfterId(k)[0] == k.plane.Text()[0];
    assert j.plane == k.plane;
    SplitEqual(j.plane.Text() + "/", j.attribute, k.plane.Text() + "/", k.attribute, AfterId(j), AfterId(k));
  }

  // ---------- Order ----------

  predicate Before(a: Entry, b: Entry) {
    Less(KeyString(a.key), KeyString(b.key))
  }

  ghost predicate StrictlyOrdered(v: seq<Entry>) {
    forall i, j :: 0 <= i < j < |v| ==> Before(v[i], v[j])
  }

  lemma {:induction false} SameElementsSameOrder(v: seq<Entry>, w: seq<Entry>)
    requires StrictlyOrdered(v) && StrictlyOrdered(w)
    requires forall e :: e in v <==> e in w
    ensures v == w
    decreases |v|
  {
    assert v != [] ==> v[0] in w;
    assert w != [] ==> w[0] in v;
    if v != [] {
      SameFirst(v, w);
      assert v == [v[0]] + v[1..] && w == [w[0]] + w[1..];
      forall e
        ensures e in v[1..] <==> e in w[1..]
      {
        NotAgain(v, e);
        NotAgain(w, e);
      }
      SameElementsSameOrder(v[1..], w[1..]);
    }
  }

  lemma {:induction false} SameFirst(v: seq<Entry>, w: seq<Entry>)
    requires StrictlyOrdered(v) && StrictlyOrdered(w) && v != [] && w != []
    requires v[0] in w && w[0] in v
    ensures v[0] == w[0]
  {
    var i :| 0 <= i < |w| && w[i] == v[0];
    var j :| 0 <= j < |v| && v[j] == w[0];
    if i > 0 && j > 0 {
      assert Before(w[0], w[i]) && Before(v[0], v[j]);
      LessTotal(KeyString(v[0].key), KeyString(w[0].key));
    }
  }

  lemma {:induction false} NotAgain(v: seq<Entry>, e: Entry)
    requires StrictlyOrdered(v) && v != []
    ensures e in v[1..] <==> e in v && e != v[0]
  {
    LessTotal(KeyString(v[0].key), KeyString(v[0].key));
    if e in v[1..] {
      var i :| 0 <= i < |v[1..]| && v[1..][i] == e;
      assert Before(v[0], v[i + 1]);
    }
    if e in v && e != v[0] {
      var i :| 0 <= i < |v| && v[i] == e;
      assert v[1..][i - 1] == e;
    }
  }

  // ---------- Snapshots ----------

  datatype Snapshot = Snapshot(revision: nat, values: seq<Entry>)

  /** What a store's snapshot at `now` must be: every entry as it reads at `now`, once, in
      key order. */
  ghost predicate IsSnapshot(store: Store, now: Time, snapshot: Snapshot) {
    && snapshot.revision == store.revision
    && StrictlyOrdered(snapshot.values)
    && (forall e :: e in snapshot.values <==> e.key in store.values && e == store.values[e.key].ReadAt(now))
  }

  /** Main result: store and clock determine the snapshot. */
  lemma {:induction false} SnapshotIsCanonical(store: Store, now: Time, a: Snapshot, b: Snapshot)
    requires IsSnapshot(store, now, a) && IsSnapshot(store, now, b)
    ensures a == b
  {
    SameElementsSameOrder(a.values, b.values);
  }

  /** A snapshot has exactly one entry for every key, the one a read at the same instant
      gives, and no other; its entries carry distinct revisions up to its own. */
  lemma {:induction false} SnapshotAgreesWithGet(store: Store, now: Time, snapshot: Snapshot)
    requires store.Valid() && IsSnapshot(store, now, snapshot)
    ensures forall k :: k in store.values ==> exists i :: 0 <= i < |snapshot.values| && store.Get(k, now) == Some(snapshot.values[i])
    ensures forall i :: 0 <= i < |snapshot.values| ==> store.Get(snapshot.values[i].key, now) == Some(snapshot.values[i])
    ensures forall i, j :: 0 <= i < j < |snapshot.values| ==> snapshot.values[i].key != snapshot.values[j].key
    ensures forall i, j :: 0 <= i < j < |snapshot.values| ==> snapshot.values[i].revision != snapshot.values[j].revision
    ensures forall i :: 0 <= i < |snapshot.values| ==> 0 < snapshot.values[i].revision <= snapshot.revision
  {
    var v := snapshot.values;
    forall k | k in store.values
      ensures exists i :: 0 <= i < |v| && store.Get(k, now) == Some(v[i])
    {
      EntryShown(store, now, snapshot, k);
    }
    forall i | 0 <= i < |v|
      ensures store.Get(v[i].key, now) == Some(v[i]) && 0 < v[i].revision <= snapshot.revision
    {
      EntryAgrees(store, now, snapshot, i);
    }
    forall i, j | 0 <= i < j < |v|
      ensures v[i].key != v[j].key && v[i].revision != v[j].revision
    {
      EntriesDiffer(store, now, snapshot, i, j);
    }
  }

  lemma {:induction false} EntryShown(store: Store, now: Time, snapshot: Snapshot, k: Key)
    requires store.Valid() && IsSnapshot(store, now, snapshot) && k in store.values
    ensures exists i :: 0 <= i < |snapshot.values| && store.Get(k, now) == Some(snapshot.values[i])
  {
    assert store.values[k].ReadAt(now) in snapshot.values;
  }

  lemma {:induction false} EntryAgrees(store: Store, now: Time, snapshot: Snapshot, i: nat)
    requires store.Valid() && IsSnapshot(store, now, snapshot) && i < |snapshot.values|
    ensures store.Get(snapshot.values[i].key, now) == Some(snapshot.values[i])
    ensures 0 < snapshot.values[i].revision <= snapshot.revision
  {
    assert snapshot.values[i] in snapshot.values;
  }

  lemma {:induction false} EntriesDiffer(store: Store, now: Time, snapshot: Snapshot, i: nat, j: nat)
    requires store.Valid() && IsSnapshot(store, now, snapshot) && i < j < |snapshot.values|
    ensures snapshot.values[i].key != snapshot.values[j].key
    ensures snapshot.values[i].revision != snapshot.values[j].revision
  {
    var a, b := snapshot.values[i], snapshot.values[j];
    assert a in snapshot.values && b in snapshot.values && Before(a, b);
    LessTotal(KeyString(a.key), KeyString(b.key));
    assert store.values[a.key].revision == a.revision && store.values[b.key].revision == b.revision;
  }

  // ---------- Sorting ----------

  /** Puts an entry at its place in an ordered sequence. */
  function Insert(e: Entry, v: seq<Entry>): (r: seq<Entry>)
    ensures forall x :: x in r <==> x in v || x == e
  {
    if v == [] then [e]
    else if Before(v[0], e) then
      assert v == [v[0]] + v[1..];
      [v[0]] + Insert(e, v[1..])
    else [e] + v
  }

  ghost predicate AllAfter(v: seq<Entry>, e: Entry) {
    forall j :: 0 <= j < |v| ==> Before(e, v[j])
  }

  lemma {:induction false} StrictCons(e: Entry, v: seq<Entry>)
    requires StrictlyOrdered(v) && AllAfter(v, e)
    ensures StrictlyOrdered([e] + v)
  {
  }

  /** Entries whose validated keys differ come in one order or the other. */
  lemma {:induction false} DistinctKeysOrdered(a: Entry, b: Entry)
    requires a.key.Valid() && b.key.Valid() && a.key != b.key
    ensures Before(a, b) || Before(b, a)
  {
    LessTotal(KeyString(a.key), KeyString(b.key));
    if KeyString(a.key) == KeyString(b.key) {
      KeyStringInjective(a.key, b.key);
    }
  }

  /** Inserting an entry with a new key keeps the order strict. */
  lemma {:induction false} InsertKeepsOrder(e: Entry, v: seq<Entry>)
    requires StrictlyOrdered(v) && e.key.Valid()
    requires forall i :: 0 <= i < |v| ==> v[i].key.Valid() && v[i].key != e.key
    ensures StrictlyOrdered(Insert(e, v))
    decreases |v|
  {
    if v != [] && Before(v[0], e) {
      InsertKeepsOrder(e, v[1..]);
      InsertStaysAfter(e, v);
      StrictCons(v[0], Insert(e, v[1..]));
    } else {
      if v != [] {
        DistinctKeysOrdered(v[0], e);
      }
      forall j | 0 <= j < |v|
        ensures Before(e, v[j])
      {
        if j > 0 {
          LessTransitive(KeyString(e.key), KeyString(v[0].key), KeyString(v[j].key));
        }
      }
      StrictCons(e, v);
      assert v == [] ==> [e] + v == [e];
    }
  }

  lemma {:induction false} InsertStaysAfter(e: Entry, v: seq<Entry>)
    requires v != [] && StrictlyOrdered(v) && Before(v[0], e)
    ensures AllAfter(Insert(e, v[1..]), v[0])
  {
    var r := Insert(e, v[1..]);
    forall j | 0 <= j < |r|
      ensures Before(v[0], r[j])
    {
      assert r[j] in r;
      if r[j] != e {
        var i :| 0 <= i < |v[1..]| && v[1..][i] == r[j];
        assert v[i + 1] == r[j];
      }
    }
  }

  // ---------- Writing and reading ----------

  /** Main result: a value that is stored is what is read back, under the next revision, good
      until its freshness is over and stale from then on; no other key is touched. */
  lemma {:induction false} StoredIsRead(store: Store, entry: Entry, key: Key, now: Time)
    ensures var later := store.Set(entry);
            && later.revision == store.revision + 1
            && (key != entry.key ==> later.Get(key, now) == store.Get(key, now))
            && (key == entry.key ==>
                  && later.Get(key, now).Some?
                  && var read := later.Get(key, now).value;
                     && read.key == entry.key && read.value == entry.value && read.source == entry.source
                     && read.observedAt == entry.observedAt && read.receivedAt == entry.receivedAt
                     && read.freshFor == entry.freshFor && read.revision == store.revision + 1
                     && read.quality == if now - entry.observedAt < entry.freshFor then entry.quality else Stale)
  {
  }

  /** A deleted key reads as absent, no other is touched, and a key that was not there leaves
      the store as it was, revision included. */
  lemma {:induction false} DeletedIsGone(store: Store, gone: Key, key: Key, now: Time)
    ensures var later := store.Delete(gone);
            && later.Get(gone, now) == None
            && (key != gone ==> later.Get(key, now) == store.Get(key, now))
            && later.revision == (if store.Get(gone, now).Some? then store.revision + 1 else store.revision)
            && (store.Get(gone, now).None? ==> later == store)
  {
  }

  /** What every stored value is: about a sensor's observation or equipment's desired or
      reported state, one scalar of its kind, of known quality, observed before it was
      received, fresh for some time and from a known source. */
  lemma {:induction false} StoredValuesAreSound(store: Store, k: Key)
    requires store.Valid() && k in store.values
    ensures var e := store.values[k];
            && e.key == k && |k.attribute| > 0 && ValidUuid(k.id) && ValidUuid(e.source)
            && ((k.kind == Sensor && k.plane == Observation) || (k.kind == Equipment && k.plane in {Desired, Reported}))
            && e.quality in {Good, Suspect, Stale, Invalid, Unavailable}
            && e.observedAt != 0 && e.receivedAt != 0 && e.observedAt <= e.receivedAt && e.freshFor > 0
            && (e.value.kind == QuantityValue <==> e.value.quantity.Some?) && (e.value.kind == BooleanValue <==> e.value.boolean.Some?)
            && (e.value.kind == TextValue <==> e.value.text.Some?) && e.value.kind != UnknownValue
            && (e.value.quantity.Some? ==> e.value.quantity.value.value.Finite?)
  {
  }
}
