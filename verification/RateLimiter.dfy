/** The limiter that updates its buckets in place, proved against `Limiter`. */
module RateLimiter {
  import opened Domain
  import L = Limiter

  class RateLimiter {
    const rate: real
    const burst: real
    const maximum: nat
    var clients: map<string, L.Bucket>

    ghost function Abs(): L.Limiter
      reads this
    {
      L.Limiter(rate, burst, maximum, clients)
    }

    /** The API's limiter: rate and burst below one count as one, 1024 clients at most. */
    constructor (rate: int, burst: int)
      ensures Abs() == L.Limiter(if rate < 1 then 1.0 else rate as real, if burst < 1 then 1.0 else burst as real, 1024, map[])
      ensures forall now :: L.Invariant(Abs(), now)
    {
      this.rate := if rate < 1 then 1.0 else rate as real;
      this.burst := if burst < 1 then 1.0 else burst as real;
      maximum := 1024;
      clients := map[];
    }

    /** One call; `order` is the traversal of the table that an eviction happened to make. */
    method Allow(key: string, now: Time) returns (allowed: bool, ghost order: seq<string>)
      modifies this`clients
      ensures L.Traverses(order, old(clients))
      ensures (Abs(), allowed) == L.Allow(old(Abs()), key, now, order)
    {
      if key !in clients {
        order := L.Enumerate(clients.Keys);
        if |clients| >= maximum {
          var victim;
          victim, order := FindOldest();
          clients := clients - {victim};
        }
        clients := clients[key := L.Bucket(burst - 1.0, now)];
        return true, order;
      }
      order := L.Enumerate(clients.Keys);
      var b := clients[key];
      var tokens := b.tokens + L.Refill(rate, now - b.updated);
      if tokens > burst {
        tokens := burst;
      }
      if tokens < 1.0 {
        clients := clients[key := L.Bucket(tokens, now)];
        return false, order;
      }
      clients := clients[key := L.Bucket(tokens - 1.0, now)];
      allowed := true;
    }

    /** The search for the least recently updated client. */
    method FindOldest() returns (victim: string, ghost order: seq<string>)
      ensures L.Traverses(order, clients) && victim == L.Victim(clients, order)
    {
      victim, order := "", [];
      var unseen := clients.Keys;
      while unseen != {}
        invariant unseen <= clients.Keys
        invariant forall k :: k in order <==> k in clients && k !in unseen
        invariant forall i, j :: 0 <= i < j < |order| ==> order[i] != order[j]
        invariant victim == L.Scan(clients, order, "")
        invariant victim == "" || victim in clients
      {
        var candidate :| candidate in unseen;
        unseen := unseen - {candidate};
        ScanOneMore(clients, order, "", candidate);
        if victim == "" || clients[candidate].updated < clients[victim].updated {
          victim := candidate;
        }
        order := order + [candidate];
      }
    }
  }

  lemma {:induction false} ScanOneMore(clients: map<string, L.Bucket>, order: seq<string>, best: string, candidate: string)
    requires forall k :: k in order ==> k in clients
    requires (best == "" || best in clients) && candidate in clients
    ensures var held := L.Scan(clients, order, best);
            && (held == "" || held in clients)
            && (forall k :: k in order + [candidate] ==> k in clients)
            && L.Scan(clients, order + [candidate], best)
               == if held == "" || clients[candidate].updated < clients[held].updated then candidate else held
    decreases |order|
  {
    if order == [] {
      assert order + [candidate] == [candidate] && [candidate][1..] == [];
    } else {
      assert (order + [candidate])[1..] == order[1..] + [candidate];
      ScanOneMore(clients, order[1..],
                  if best == "" || clients[order[0]].updated < clients[best].updated then order[0] else best, candidate);
    }
  }
}
