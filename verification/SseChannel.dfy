/**
 The broadcast channel itself: bounded queues that are filled, drained and refilled in place, and the
 registry of live subscribers. Every operation is tied to the feed of each queue, whose promises
 therefore hold of every subscriber at all times.
 */
module SseChannel {
  import opened SseFeed

  /** A subscriber's queue, with the consuming iteration's position and what was broadcast to it. */
  class Queue<T> {
    const maxsize: nat
    var items: seq<Slot<T>>
    ghost var consumed: seq<T>
    ghost var sent: seq<T>
    ghost var live: bool
    ghost var removed: bool
    ghost var ended: bool

    ghost function Value(): Feed<T>
      reads this
    {
      Feed(items, consumed, sent, live, removed, ended)
    }

    constructor (maxsize: nat)
      ensures this.maxsize == maxsize && Value() == Fresh()
    {
      this.maxsize := maxsize;
      items, consumed, sent, live, removed, ended := [], [], [], true, false, false;
    }

    /** `put_nowait`, reporting a full queue instead of raising. */
    method PutNowait(slot: Slot<T>) returns (ok: bool)
      modifies this`items
      ensures ok == !Full(maxsize, old(items))
      ensures items == if ok then old(items) + [slot] else old(items)
    {
      ok := maxsize == 0 || |items| < maxsize;
      if ok {
        items := items + [slot];
      }
    }

    method GetNowait() returns (slot: Slot<T>)
      requires items != []
      modifies this`items
      ensures slot == old(items)[0] && items == old(items)[1..]
    {
      slot := items[0];
      items := items[1..];
    }

    /** Empty the queue, then put the end marker. */
    method EndStream()
      modifies this`items
      ensures items == [EndOfStream]
    {
      while items != []
        decreases |items|
      {
        var dropped := GetNowait();
      }
      var ok := PutNowait(EndOfStream);
    }

    /** Drain the queue, leaving one non-critical item out. */
    method DrainButOne(isCritical: T -> bool) returns (temp: seq<Slot<T>>)
      modifies this`items
      ensures items == [] && temp == EvictOne(isCritical, old(items)) && |temp| <= |old(items)|
    {
      ghost var all := items;
      temp := [];
      var evicted := false;
      while items != []
        invariant |temp| + |items| <= |all|
        invariant evicted ==> EvictOne(isCritical, all) == temp + items
        invariant !evicted ==> EvictOne(isCritical, all) == temp + EvictOne(isCritical, items)
        decreases |items|
      {
        ghost var before := items;
        var slot := GetNowait();
        if !evicted && slot.Item? && !isCritical(slot.value) {
          evicted := true;
          continue;
        }
        Reassociate(temp, before, if evicted then items else EvictOne(isCritical, items));
        temp := temp + [slot];
      }
    }

    lemma Reassociate(temp: seq<Slot<T>>, before: seq<Slot<T>>, rest: seq<Slot<T>>)
      requires before != []
      ensures temp + ([before[0]] + rest) == temp + [before[0]] + rest
      ensures before == [before[0]] + before[1..]
    {}

    /** Take out one non-critical item and put the others back in their order. */
    method EvictOneNonCritical(isCritical: T -> bool)
      requires Within(maxsize, items)
      modifies this`items
      ensures items == EvictOne(isCritical, old(items))
    {
      var temp := DrainButOne(isCritical);
      for i := 0 to |temp|
        invariant items == temp[..i]
      {
        var ok := PutNowait(temp[i]);
      }
      assert temp[..|temp|] == temp;
    }

    /** One round of the iteration: a delivered item, the end, or idling on an empty queue. */
    method Take() returns (slot: Slot<T>, idle: bool)
      requires !ended
      modifies this`items, this`consumed, this`ended
      ensures Value() == AfterTake(old(Value())) && (idle <==> old(items) == [])
      ensures idle ==> Value() == old(Value())
      ensures !idle ==>
                && slot == old(items)[0] && items == old(items)[1..] && (ended <==> slot.EndOfStream?)
                && consumed == (if slot.Item? then old(consumed) + [slot.value] else old(consumed))
    {
      slot := EndOfStream;
      idle := items == [];
      if !idle {
        slot := GetNowait();
        if slot.EndOfStream? {
          ended := true;
        } else {
          consumed := consumed + [slot.value];
        }
      }
    }
  }

  class SseChannel<T(==)> {
    const policy: Policy<T>
    const queueMaxsize: nat
    var subscribers: set<Queue<T>>
    /** Every queue this channel ever handed out. */
    ghost var issued: set<Queue<T>>

    ghost predicate Valid()
      reads this, issued
    {
      && subscribers <= issued
      && (forall q :: q in issued ==> q.maxsize == queueMaxsize && Promise(policy, queueMaxsize, q.Value()))
      && (forall q :: q in issued ==> (q.live <==> q in subscribers))
    }

    constructor (policy: Policy<T>, queueMaxsize: nat := 100)
      ensures Valid() && subscribers == {} && issued == {}
      ensures this.policy == policy && this.queueMaxsize == queueMaxsize
    {
      this.policy, this.queueMaxsize := policy, queueMaxsize;
      subscribers, issued := {}, {};
    }

    /** Register a new queue; `first` asks for the first-subscriber hook. */
    method Subscribe() returns (queue: Queue<T>, first: bool)
      requires Valid()
      modifies this
      ensures Valid() && fresh(queue) && queue.Value() == Fresh()
      ensures subscribers == old(subscribers) + {queue} && issued == old(issued) + {queue}
      ensures first <==> old(subscribers) == {}
    {
      first := subscribers == {};
      queue := new Queue<T>(queueMaxsize);
      assert Received(queue.Value()) == [];
      subscribers := subscribers + {queue};
      issued := issued + {queue};
    }

    /** Remove a queue; `last` asks for the last-subscriber hook, also when the queue was gone already. */
    method Unsubscribe(queue: Queue<T>) returns (last: bool)
      requires Valid() && queue in issued
      modifies this`subscribers, queue`live
      ensures Valid() && subscribers == old(subscribers) - {queue}
      ensures queue.Value() == AfterLeave(old(queue.Value()))
      ensures last <==> subscribers == {}
    {
      ghost var before := queue.Value();
      subscribers := subscribers - {queue};
      queue.live := false;
      assert !before.removed ==> Received(queue.Value()) == Received(before);
      last := subscribers == {};
    }

    /** A subscriber takes its next item; the channel's promises to everyone stand. */
    method Consume(queue: Queue<T>) returns (slot: Slot<T>, idle: bool)
      requires Valid() && queue in issued && !queue.ended
      modifies queue
      ensures Valid() && queue.Value() == AfterTake(old(queue.Value()))
      ensures idle <==> old(queue.items) == []
      ensures idle ==> queue.Value() == old(queue.Value())
      ensures !idle ==>
                && slot == old(queue.items)[0] && queue.items == old(queue.items)[1..]
                && (queue.ended <==> slot.EndOfStream?)
                && queue.consumed
                == (if slot.Item? then old(queue.consumed) + [slot.value] else old(queue.consumed))
    {
      TakeKeepsPromise(policy, queueMaxsize, queue.Value());
      slot, idle := queue.Take();
    }

    /** The policy's delivery to one queue; false asks for the subscriber's removal. */
    method DeliverTo(queue: Queue<T>, item: T) returns (kept: bool)
      requires queue.maxsize == queueMaxsize && Within(queue.maxsize, queue.items)
      modifies queue`items
      ensures (kept, queue.items) == Deliver(policy, queueMaxsize, old(queue.items), item)
    {
      var ok := queue.PutNowait(Item(item));
      if ok {
        return true;
      }
      if policy.DropSubscriber? {
        return false;
      }
      if !policy.isCritical(item) {
        return true;
      }
      queue.EvictOneNonCritical(policy.isCritical);
      kept := queue.PutNowait(Item(item));
    }

    /** The delivery round: every subscriber is tried; those that could not be served are returned. */
    method DeliverAll(item: T) returns (stale: set<Queue<T>>)
      requires Valid()
      modifies subscribers
      ensures stale <= subscribers
      ensures forall q :: q in issued && q !in subscribers ==> q.Value() == old(q.Value())
      ensures forall q :: q in subscribers ==>
        q.Value() == Attempted(policy, queueMaxsize, old(q.Value()), item)
        && (q in stale <==> !Deliver(policy, queueMaxsize, old(q.items), item).0)
    {
      var todo := subscribers;
      stale := {};
      while todo != {}
        invariant todo <= subscribers && stale <= subscribers - todo
        invariant forall q :: q in issued && (q in todo || q !in subscribers) ==> q.Value() == old(q.Value())
        invariant forall q :: q in subscribers - todo ==>
          q.Value() == Attempted(policy, queueMaxsize, old(q.Value()), item)
          && (q in stale <==> !Deliver(policy, queueMaxsize, old(q.items), item).0)
      {
        var q :| q in todo;
        todo := todo - {q};
        assert Promise(policy, queueMaxsize, old(q.Value()));
        var kept := DeliverTo(q, item);
        q.sent := q.sent + [item];
        if !kept {
          stale := stale + {q};
        }
      }
    }

    /** The removals: each stale queue is drained, ends its stream and leaves the registry. */
    method RemoveAll(stale: set<Queue<T>>)
      requires stale <= subscribers
      modifies this`subscribers, stale
      ensures subscribers == old(subscribers) - stale
      ensures forall q :: q in stale ==>
        q.Value() == old(q.Value()).(items := [EndOfStream], live := false, removed := true)
    {
      var todo := stale;
      while todo != {}
        invariant todo <= stale && subscribers == old(subscribers) - (stale - todo)
        invariant forall q :: q in todo ==> q.Value() == old(q.Value())
        invariant forall q :: q in stale - todo ==>
          q.Value() == old(q.Value()).(items := [EndOfStream], live := false, removed := true)
      {
        var q :| q in todo;
        todo := todo - {q};
        q.EndStream();
        subscribers := subscribers - {q};
        q.live, q.removed := false, true;
      }
    }

    /**
     Deliver to every subscriber, then end the stream of those that could not be served and drop them.
     Each queue fares as it would alone: removing one subscriber touches no other queue.
     */
    method Broadcast(item: T) returns (removed: nat)
      requires Valid()
      modifies this`subscribers, subscribers
      ensures Valid() && issued == old(issued)
      ensures forall q :: q in issued ==> Fares(policy, queueMaxsize, old(q.Value()), item, q.Value())
      ensures subscribers <= old(subscribers) && removed == |old(subscribers) - subscribers|
    {
      ghost var before := map q | q in issued :: q.Value();
      var stale := DeliverAll(item);
      removed := |stale|;
      RemoveAll(stale);
      forall q | q in issued
        ensures Fares(policy, queueMaxsize, before[q], item, q.Value())
      {
        BroadcastDelivers(policy, queueMaxsize, before[q], item);
        BroadcastKeepsPromise(policy, queueMaxsize, before[q], item);
      }
      assert old(subscribers) - subscribers == stale;
    }
  }

  /** A live subscriber's queue gets the item as its policy delivers; nobody else's changes. */
  ghost predicate Fares<T>(policy: Policy<T>, maxsize: nat, f: Feed<T>, item: T, g: Feed<T>) {
    && g == AfterBroadcast(policy, maxsize, f, item) && Promise(policy, maxsize, g)
    && if f.live then Delivered(policy, maxsize, f, item, g) else g == f
  }

  /** A queue between the delivery round and the removals. */
  ghost function Attempted<T>(policy: Policy<T>, maxsize: nat, f: Feed<T>, item: T): Feed<T> {
    f.(items := Deliver(policy, maxsize, f.items, item).1, sent := f.sent + [item])
  }
}
