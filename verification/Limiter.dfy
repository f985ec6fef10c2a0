/** The token-bucket limiter with a bounded client table, as used by the API and the admin
    server, over real-valued tokens. */
module Limiter {
  import opened Domain

  datatype Bucket = Bucket(tokens: real, updated: Time)

  datatype Limiter = Limiter(rate: real, burst: real, maximum: nat, clients: map<string, Bucket>)

  // ---------- Eviction ----------

  /** The traversal that looks for the least recently updated client. The empty text stands
      for "none yet", so a client named by it is always given up for the next candidate. */
  function Scan(clients: map<string, Bucket>, order: seq<string>, best: string): string
    requires forall k :: k in order ==> k in clients
    requires best == "" || best in clients
    decreases |order|
  {
    if order == [] then best
    else if best == "" || clients[order[0]].updated < clients[best].updated then Scan(clients, order[1..], order[0])
    else Scan(clients, order[1..], best)
  }

  /** A traversal of the table in some order, each client once. */
  ghost predicate Traverses(order: seq<string>, clients: map<string, Bucket>) {
    && (forall k :: k in order <==> k in clients)
    && (forall i, j :: 0 <= i < j < |order| ==> order[i] != order[j])
  }

  function Victim(clients: map<string, Bucket>, order: seq<string>): string
    requires forall k :: k in order ==> k in clients
  {
    Scan(clients, order, "")
  }

  ghost predicate LeastRecent(clients: map<string, Bucket>, victim: string) {
    victim in clients && forall k :: k in clients ==> clients[victim].updated <= clients[k].updated
  }

  // ---------- One call ----------

  function Refill(rate: real, elapsed: Duration): real {
    rate * (elapsed as real) / (SECOND as real)
  }

  function Lesser(a: real, b: real): real {
    if a <= b then a else b
  }

  /** A bucket as it stands at `now`, before the call's own token is taken. */
  function Filled(l: Limiter, b: Bucket, now: Time): real {
    Lesser(l.burst, b.tokens + Refill(l.rate, now - b.updated))
  }

  function Allow(l: Limiter, key: string, now: Time, order: seq<string>): (Limiter, bool)
    requires forall k :: k in order ==> k in l.clients
  {
    if key !in l.clients then
      var room := if |l.clients| >= l.maximum then l.clients - {Victim(l.clients, order)} else l.clients;
      (l.(clients := room[key := Bucket(l.burst - 1.0, now)]), true)
    else
      var filled := Filled(l, l.clients[key], now);
      var allowed := filled >= 1.0;
      (l.(clients := l.clients[key := Bucket(if allowed then filled - 1.0 else filled, now)]), allowed)
  }

  // ---------- Runs ----------

  datatype Call = Call(key: string, now: Time, order: seq<string>)

  function Step(l: Limiter, c: Call): Limiter
    requires forall k :: k in c.order ==> k in l.clients
  {
    Allow(l, c.key, c.now, c.order).0
  }

  /** Traversals are real ones, and calls come in the order of their times, from `from` on. */
  ghost predicate Sound(l: Limiter, calls: seq<Call>, from: Time)
    decreases |calls|
  {
    calls == [] ||
    (&& Traverses(calls[0].order, l.clients) && from <= calls[0].now
     && Sound(Step(l, calls[0]), calls[1..], calls[0].now))
  }

  function Run(l: Limiter, calls: seq<Call>, from: Time): Limiter
    requires Sound(l, calls, from)
    decreases |calls|
  {
    if calls == [] then l else Run(Step(l, calls[0]), calls[1..], calls[0].now)
  }

  /** How many calls of a client are allowed. */
  function Allowed(l: Limiter, calls: seq<Call>, from: Time, key: string): nat
    requires Sound(l, calls, from)
    decreases |calls|
  {
    if calls == [] then 0
    else
      (if calls[0].key == key && Allow(l, key, calls[0].now, calls[0].order).1 then 1 else 0)
      + Allowed(Step(l, calls[0]), calls[1..], calls[0].now, key)
  }

  /** The client, once in the table, is not evicted. */
  ghost predicate Retained(l: Limiter, calls: seq<Call>, from: Time, key: string)
    requires Sound(l, calls, from)
    decreases |calls|
  {
    calls == [] ||
    (&& (key in l.clients ==> key in Step(l, calls[0]).clients)
     && Retained(Step(l, calls[0]), calls[1..], calls[0].now, key))
  }

  /** Tokens stay between nothing and the burst, buckets are not dated ahead, and the table
      stays within its maximum. */
  ghost predicate Invariant(l: Limiter, now: Time) {
    && l.rate >= 0.0 && l.burst >= 1.0 && l.maximum >= 1
    && |l.clients| <= l.maximum
    && forall k :: k in l.clients ==> 0.0 <= l.clients[k].tokens <= l.burst && l.clients[k].updated <= now
  }

  // ---------- The victim ----------

  lemma {:induction false} ScanInTable(clients: map<string, Bucket>, order: seq<string>, best: string)
    requires forall k :: k in order ==> k in clients
    requires best == "" || best in clients
    ensures order != [] || best in clients ==> Scan(clients, order, best) in clients
    decreases |order|
  {
    if order != [] {
      if best == "" || clients[order[0]].updated < clients[best].updated {
        ScanInTable(clients, order[1..], order[0]);
      } else {
        ScanInTable(clients, order[1..], best);
      }
    }
  }

  /** The empty-named client is the only least recent one, and there are others. */
  ghost predicate EmptyAlone(clients: map<string, Bucket>) {
    && "" in clients
    && (exists k :: k in clients && k != "")
    && (forall k :: k in clients && k != "" ==> clients[""].updated < clients[k].updated)
  }

  /** Unless the empty name is alone at the bottom, some other client is least recent. */
  ghost predicate Anchor(clients: map<string, Bucket>, y: string) {
    y != "" && y in clients && forall k :: k in clients ==> clients[y].updated <= clients[k].updated
  }

  /** While the anchor is still to come, anything may be held; once past it, what is held is
      as old as the anchor, and has a name. */
  lemma {:induction false} ScanFindsAnchor(clients: map<string, Bucket>, order: seq<string>, best: string, y: string)
    requires forall k :: k in order ==> k in clients
    requires best == "" || best in clients
    requires Anchor(clients, y)
    requires y in order || (best != "" && clients[best].updated == clients[y].updated)
    ensures LeastRecent(clients, Scan(clients, order, best))
    decreases |order|
  {
    if order != [] {
      var rest := order[1..];
      assert order == [order[0]] + rest;
      if best == "" || clients[order[0]].updated < clients[best].updated {
        ScanFindsAnchor(clients, rest, order[0], y);
      } else {
        ScanFindsAnchor(clients, rest, best, y);
      }
    }
  }

  /** A client that none is older than, by going through a traversal. */
  lemma {:induction false} SomeLeast(clients: map<string, Bucket>, keys: set<string>) returns (y: string)
    requires keys != {} && forall k :: k in keys ==> k in clients
    ensures y in keys && forall k :: k in keys ==> clients[y].updated <= clients[k].updated
    decreases keys
  {
    y :| y in keys;
    if keys != {y} {
      var z := SomeLeast(clients, keys - {y});
      if clients[z].updated < clients[y].updated {
        y := z;
      }
    }
  }

  /** Main result: the evicted client is least recently updated, whatever the traversal,
      exactly when the table does not hold the empty name as its only least recent client
      beside others. */
  lemma {:induction false} VictimLeastRecentIff(clients: map<string, Bucket>)
    requires clients != map[]
    ensures (forall order :: Traverses(order, clients) ==> LeastRecent(clients, Victim(clients, order)))
            <==> !EmptyAlone(clients)
  {
    if EmptyAlone(clients) {
      var order := EmptyFirst(clients);
      EmptyFirstMisleads(clients, order);
    } else {
      forall order | Traverses(order, clients)
        ensures LeastRecent(clients, Victim(clients, order))
      {
        VictimLeastRecent(clients, order);
      }
    }
  }

  lemma {:induction false} VictimLeastRecent(clients: map<string, Bucket>, order: seq<string>)
    requires clients != map[] && !EmptyAlone(clients) && Traverses(order, clients)
    ensures LeastRecent(clients, Victim(clients, order))
  {
    var named := clients.Keys - {""};
    assert order != [] by {
      var k :| k in clients;
      assert k in order;
    }
    if named == {} {
      forall k | k in clients
        ensures k == ""
      {
        assert k != "" ==> k in named;
      }
      ScanInTable(clients, order, "");
    } else {
      var y := SomeLeast(clients, named);
      assert Anchor(clients, y);
      ScanFindsAnchor(clients, order, "", y);
    }
  }

  lemma {:induction false} EmptyFirst(clients: map<string, Bucket>) returns (order: seq<string>)
    requires "" in clients
    ensures Traverses(order, clients) && order[0] == ""
  {
    var rest := Enumerate(clients.Keys - {""});
    order := [""] + rest;
  }

  lemma {:induction false} Enumerate(keys: set<string>) returns (order: seq<string>)
    ensures forall k :: k in order <==> k in keys
    ensures forall i, j :: 0 <= i < j < |order| ==> order[i] != order[j]
    decreases keys
  {
    if keys == {} {
      order := [];
    } else {
      var k :| k in keys;
      var rest := Enumerate(keys - {k});
      order := [k] + rest;
    }
  }

  lemma {:induction false} EmptyFirstMisleads(clients: map<string, Bucket>, order: seq<string>)
    requires EmptyAlone(clients) && Traverses(order, clients) && order[0] == ""
    ensures !LeastRecent(clients, Victim(clients, order))
  {
    var k :| k in clients && k != "";
    var i :| 0 <= i < |order| && order[i] == k;
    assert order[1] != "" && order[1] in order;
    assert order[1..][0] == order[1];
    forall j | 0 <= j < |order[2..]|
      ensures order[2..][j] != "" && order[2..][j] in clients
    {
      assert order[2..][j] == order[j + 2] && order[j + 2] in order;
    }
    NeverBackToEmpty(clients, order[2..], order[1]);
    assert order[1..][1..] == order[2..];
    assert Victim(clients, order) == Scan(clients, order[1..], "");
    assert Scan(clients, order[1..], "") == Scan(clients, order[2..], order[1]);
  }

  lemma {:induction false} NeverBackToEmpty(clients: map<string, Bucket>, order: seq<string>, best: string)
    requires best != "" && best in clients
    requires forall k :: k in order ==> k in clients
    requires forall i :: 0 <= i < |order| ==> order[i] != ""
    ensures Scan(clients, order, best) != ""
    decreases |order|
  {
    if order != [] {
      NeverBackToEmpty(clients, order[1..], if clients[order[0]].updated < clients[best].updated then order[0] else best);
    }
  }

  // ---------- The table and the tokens ----------

  lemma {:induction false} RefillAdds(rate: real, a: Duration, b: Duration)
    ensures Refill(rate, a + b) == Refill(rate, a) + Refill(rate, b)
  {
    assert rate * ((a + b) as real) == rate * (a as real) + rate * (b as real);
  }

  lemma {:induction false} RefillNonNegative(rate: real, a: Duration)
    requires rate >= 0.0 && a >= 0
    ensures Refill(rate, a) >= 0.0
  {
  }

  lemma {:induction false} SmallerTable(clients: map<string, Bucket>, victim: string)
    requires victim in clients
    ensures |clients - {victim}| == |clients| - 1
  {
    assert (clients - {victim}).Keys == clients.Keys - {victim};
  }

  lemma {:induction false} LargerTable(clients: map<string, Bucket>, key: string, b: Bucket)
    ensures |clients[key := b]| == if key in clients then |clients| else |clients| + 1
  {
    assert clients[key := b].Keys == clients.Keys + {key};
  }

  lemma {:induction false} StepKeeps(l: Limiter, c: Call, from: Time)
    requires Invariant(l, from) && Traverses(c.order, l.clients) && from <= c.now
    ensures Invariant(Step(l, c), c.now)
  {
    if c.key !in l.clients {
      var room := l.clients;
      if |l.clients| >= l.maximum {
        assert c.order != [] by {
          var k :| k in l.clients;
          assert k in c.order;
        }
        ScanInTable(l.clients, c.order, "");
        SmallerTable(l.clients, Victim(l.clients, c.order));
        room := l.clients - {Victim(l.clients, c.order)};
      }
      LargerTable(room, c.key, Bucket(l.burst - 1.0, c.now));
    } else {
      RefillNonNegative(l.rate, c.now - l.clients[c.key].updated);
      LargerTable(l.clients, c.key, Step(l, c).clients[c.key]);
    }
  }

  /** Over every run with non-decreasing times, tokens stay in [0, burst] and the table never
      exceeds its maximum, empty names included. */
  lemma {:induction false} RunKeeps(l: Limiter, calls: seq<Call>, from: Time)
    requires Sound(l, calls, from) && Invariant(l, from)
    ensures var l' := Run(l, calls, from);
            && |l'.clients| <= l.maximum && l'.maximum == l.maximum && l'.burst == l.burst
            && forall k :: k in l'.clients ==> 0.0 <= l'.clients[k].tokens <= l.burst
    decreases |calls|
  {
    if calls != [] {
      StepKeeps(l, calls[0], from);
      RunKeeps(Step(l, calls[0]), calls[1..], calls[0].now);
    }
  }

  // ---------- The rate bound ----------

  /** What a client could spend at `now`. */
  function Available(l: Limiter, key: string, now: Time): real {
    if key in l.clients then Filled(l, l.clients[key], now) else l.burst
  }

  lemma {:induction false} AvailableGrows(l: Limiter, key: string, from: Time, now: Time)
    requires Invariant(l, from) && from <= now
    ensures Available(l, key, now) <= Available(l, key, from) + Refill(l.rate, now - from)
  {
    RefillNonNegative(l.rate, now - from);
    if key in l.clients {
      RefillAdds(l.rate, from - l.clients[key].updated, now - from);
      assert (from - l.clients[key].updated) + (now - from) == now - l.clients[key].updated;
    }
  }

  /** A call pays for what it is allowed out of what is available. */
  lemma {:induction false} CallPays(l: Limiter, c: Call, from: Time, key: string)
    requires Invariant(l, from) && Traverses(c.order, l.clients) && from <= c.now
    requires key in l.clients ==> key in Step(l, c).clients
    ensures (if c.key == key && Allow(l, key, c.now, c.order).1 then 1.0 else 0.0) + Available(Step(l, c), key, c.now)
            <= Available(l, key, c.now)
  {
    var l' := Step(l, c);
    if c.key == key {
      assert l'.clients[key].updated == c.now && Refill(l.rate, 0) == 0.0;
      assert Available(l', key, c.now) == Lesser(l.burst, l'.clients[key].tokens);
    } else if key in l.clients {
      assert l'.clients[key] == l.clients[key];
    } else {
      assert key !in l'.clients;
    }
  }

  lemma {:induction false} AllowedWithinAvailable(l: Limiter, calls: seq<Call>, from: Time, key: string, until: Time)
    requires Sound(l, calls, from) && Invariant(l, from) && Retained(l, calls, from, key)
    requires calls != [] ==> calls[|calls| - 1].now <= until
    requires from <= until
    ensures Allowed(l, calls, from, key) as real <= Available(l, key, from) + Refill(l.rate, until - from)
    decreases |calls|
  {
    if calls == [] {
      RefillNonNegative(l.rate, until - from);
      AvailableNonNegative(l, key, from);
    } else {
      var c, l' := calls[0], Step(l, calls[0]);
      StepKeeps(l, c, from);
      FirstBeforeLast(l, calls, from);
      AllowedWithinAvailable(l', calls[1..], c.now, key, until);
      CallPays(l, c, from, key);
      AvailableGrows(l, key, from, c.now);
      RefillAdds(l.rate, c.now - from, until - c.now);
      assert (c.now - from) + (until - c.now) == until - from;
    }
  }

  lemma {:induction false} AvailableNonNegative(l: Limiter, key: string, now: Time)
    requires Invariant(l, now)
    ensures 0.0 <= Available(l, key, now) <= l.burst
  {
    if key in l.clients {
      RefillNonNegative(l.rate, now - l.clients[key].updated);
    }
  }

  lemma {:induction false} FirstBeforeLast(l: Limiter, calls: seq<Call>, from: Time)
    requires Sound(l, calls, from) && calls != []
    ensures calls[0].now <= calls[|calls| - 1].now
    decreases |calls|
  {
    if |calls| > 1 {
      FirstBeforeLast(Step(l, calls[0]), calls[1..], calls[0].now);
    }
  }

  /** Main result: in any run of calls of any clients between `from` and `until`, a client
      that is not evicted is allowed at most burst + rate * (until - from) calls. */
  lemma {:induction false} RateBound(l: Limiter, calls: seq<Call>, from: Time, key: string, until: Time)
    requires Sound(l, calls, from) && Invariant(l, from) && Retained(l, calls, from, key)
    requires from <= until && (calls != [] ==> calls[|calls| - 1].now <= until)
    ensures AtMost(Allowed(l, calls, from, key) as real, l.burst, l.rate, until - from)
  {
    RefillBound(l, calls, from, key, until);
    WithinRate(Allowed(l, calls, from, key) as real, l.burst, l.rate, until - from);
  }

  /** At most the burst and what the time earns at `rate` a second. */
  ghost predicate AtMost(spent: real, burst: real, rate: real, elapsed: Duration) {
    spent <= burst + rate * (elapsed as real) / 1_000_000_000.0
  }

  lemma {:induction false} WithinRate(spent: real, burst: real, rate: real, elapsed: Duration)
    requires spent <= burst + Refill(rate, elapsed)
    ensures AtMost(spent, burst, rate, elapsed)
  {
  }

  lemma {:induction false} RefillBound(l: Limiter, calls: seq<Call>, from: Time, key: string, until: Time)
    requires Sound(l, calls, from) && Invariant(l, from) && Retained(l, calls, from, key)
    requires from <= until && (calls != [] ==> calls[|calls| - 1].now <= until)
    ensures Allowed(l, calls, from, key) as real <= l.burst + Refill(l.rate, until - from)
  {
    AllowedWithinAvailable(l, calls, from, key, until);
    AvailableNonNegative(l, key, from);
  }

  // ---------- The exact answer ----------

  /** What a bucket holds after `elapsed` at `rate` tokens a second, up to the burst. */
  ghost predicate Holds(rate: real, burst: real, before: real, elapsed: Duration, now: real) {
    var earned := before + rate * (elapsed as real) / 1_000_000_000.0;
    now <= burst && now <= earned && (now == burst || now == earned)
  }

  /** Main result: a client not in the table is allowed and starts with a full bucket less one.
      One in the table is allowed exactly if what it had, and what its time since earned it up
      to the burst, is at least one token; that token is then taken. No other bucket changes. */
  lemma {:induction false} AllowExactly(l: Limiter, key: string, now: Time, order: seq<string>)
    requires Traverses(order, l.clients)
    ensures var (l', allowed) := Allow(l, key, now, order);
            && key in l'.clients && l'.clients[key].updated == now
            && l'.rate == l.rate && l'.burst == l.burst && l'.maximum == l.maximum
            && (key !in l.clients ==> allowed && l'.clients[key].tokens == l.burst - 1.0)
            && (key in l.clients ==>
                  var b, left := l.clients[key], l'.clients[key].tokens + (if allowed then 1.0 else 0.0);
                  && Holds(l.rate, l.burst, b.tokens, now - b.updated, left)
                  && (allowed <==> left >= 1.0))
            && (forall k :: k in l'.clients && k != key ==> k in l.clients && l'.clients[k] == l.clients[k])
            && (forall k :: k in l.clients && k !in l'.clients ==>
                  key !in l.clients && |l.clients| >= l.maximum && k == Victim(l.clients, order))
  {
  }

  /** How many calls a client makes. */
  function Asked(calls: seq<Call>, key: string): nat {
    if calls == [] then 0 else (if calls[0].key == key then 1 else 0) + Asked(calls[1..], key)
  }

  /** The time earns at least one token, at `rate` tokens a second. */
  predicate Earns(rate: real, elapsed: Duration) {
    rate * (elapsed as real) >= 1_000_000_000.0
  }

  /** The client's calls come at least the time of one token apart, also after the last one
      before the run. */
  ghost predicate Spaced(l: Limiter, calls: seq<Call>, key: string) {
    && (forall i, j :: 0 <= i < j < |calls| && calls[i].key == key && calls[j].key == key ==>
          Earns(l.rate, calls[j].now - calls[i].now))
    && (key in l.clients ==> forall i :: 0 <= i < |calls| && calls[i].key == key ==>
          Earns(l.rate, calls[i].now - l.clients[key].updated))
  }

  /** Main result: a client whose calls come at least the time of one token apart is never
      denied, whatever other clients do, evicted or not. */
  lemma {:induction false} SpacedIsNeverDenied(l: Limiter, calls: seq<Call>, from: Time, key: string)
    requires Sound(l, calls, from) && Invariant(l, from) && Spaced(l, calls, key)
    ensures Allowed(l, calls, from, key) == Asked(calls, key)
    decreases |calls|
  {
    if calls != [] {
      var c, l' := calls[0], Step(l, calls[0]);
      StepKeeps(l, c, from);
      StepFrame(l, c, key);
      SpacedTail(l, l', calls, key);
      if c.key == key {
        SpacedCallAllowed(l, c, from);
      }
      SpacedIsNeverDenied(l', calls[1..], c.now, key);
    }
  }

  lemma {:induction false} SpacedCallAllowed(l: Limiter, c: Call, from: Time)
    requires Traverses(c.order, l.clients) && Invariant(l, from)
    requires c.key in l.clients ==> Earns(l.rate, c.now - l.clients[c.key].updated)
    ensures Allow(l, c.key, c.now, c.order).1
  {
    if c.key in l.clients {
      EarnedToken(l.rate, c.now - l.clients[c.key].updated);
    }
  }

  lemma {:induction false} EarnedToken(rate: real, elapsed: Duration)
    requires Earns(rate, elapsed)
    ensures Refill(rate, elapsed) >= 1.0
  {
  }

  lemma {:induction false} StepFrame(l: Limiter, c: Call, key: string)
    requires Traverses(c.order, l.clients)
    ensures var l' := Step(l, c);
            && l'.rate == l.rate
            && (key in l'.clients ==> if c.key == key then l'.clients[key].updated == c.now
                                      else key in l.clients && l'.clients[key] == l.clients[key])
  {
  }

  lemma {:induction false} SpacedTail(l: Limiter, l': Limiter, calls: seq<Call>, key: string)
    requires calls != [] && Spaced(l, calls, key) && l'.rate == l.rate
    requires key in l'.clients ==> if calls[0].key == key then l'.clients[key].updated == calls[0].now
                                   else key in l.clients && l'.clients[key] == l.clients[key]
    ensures Spaced(l', calls[1..], key)
  {
    var rest := calls[1..];
    assert forall i :: 0 <= i < |rest| ==> rest[i] == calls[i + 1];
    forall i | 0 <= i < |rest| && rest[i].key == key && key in l'.clients
      ensures Earns(l'.rate, rest[i].now - l'.clients[key].updated)
    {
      assert rest[i] == calls[i + 1];
    }
  }
}
