/** The consumer that updates its window in place, section by section, proved against
    `MqttConsumer`. */
module MqttIntake {
  import M = MqttConsumer

  class Consumer {
    const capacity: nat
    var seen: set<string>
    var order: seq<string>

    constructor (capacity: nat)
      ensures this.capacity == capacity && seen == {} && order == []
    {
      this.capacity := capacity;
      seen, order := {}, [];
    }

    ghost predicate Holds(w: M.Window)
      reads this
    {
      w.capacity == capacity && w.seen == seen && w.order == order
    }

    /** First section: whether the handler is to run. */
    method Reserve(id: string, ghost w: M.Window) returns (isNew: bool)
      requires Holds(w)
      modifies this
      ensures isNew == (id !in w.seen) && Holds(M.Step(w, M.Deliver(id)))
    {
      if id in seen {
        return false;
      }
      seen := seen + {id};
      order := order + [id];
      if |order| > capacity {
        var oldest := order[0];
        order := order[1..];
        seen := seen - {oldest};
      }
      isNew := true;
    }

    /** Second section, after a handler failure: give the reservation up. */
    method Release(id: string, ghost w: M.Window)
      requires Holds(w)
      modifies this
      ensures Holds(M.Release(w, id))
    {
      seen := seen - {id};
      var index := 0;
      while index < |order|
        invariant 0 <= index <= |order|
        invariant order == w.order
        invariant M.Without(order, id) == order[..index] + M.Without(order[index..], id)
      {
        if order[index] == id {
          assert order[index..][1..] == order[index + 1..];
          assert M.Without(order[index..], id) == order[index + 1..];
          order := order[..index] + order[index + 1..];
          return;
        }
        assert order[index..][1..] == order[index + 1..];
        assert order[..index] + [order[index]] == order[..index + 1];
        index := index + 1;
      }
      assert order[..index] + [] == order;
    }
  }
}
