/**
 The in-process cache of verified API keys: an ordered dictionary from key hash to a payload (or, for a
 key known to be invalid, to none) and the moment the entry lapses. The clock is read once per call and
 passed in; times are in seconds.
 */
module ApiKeyCache {
  import opened Wrappers

  const TTL: real := 300.0
  const CAPACITY: nat := 512

  datatype Payload = Payload(subject: string, via: string)

  datatype Slot = Slot(key: string, payload: Option<Payload>, expiry: real)

  /** The dictionary in its recency order, head first. */
  type Slots = seq<Slot>

  predicate Distinct(c: Slots) {
    forall i, j :: 0 <= i < j < |c| ==> c[i].key != c[j].key
  }

  predicate Holds(c: Slots, key: string) {
    exists i :: 0 <= i < |c| && c[i].key == key
  }

  /** Where the key stands, or the length when it is absent. */
  function Find(c: Slots, key: string): (i: nat)
    ensures i <= |c| && (i < |c| ==> c[i].key == key)
    ensures forall j :: 0 <= j < i ==> c[j].key != key
  {
    if c == [] || c[0].key == key then 0 else 1 + Find(c[1..], key)
  }

  function Without(c: Slots, i: nat): Slots
    requires i < |c|
  {
    c[..i] + c[i + 1..]
  }

  // ---- what each call does to the dictionary -----------------------------------------------

  function Dropped(c: Slots, key: string): Slots {
    var i := Find(c, key);
    if i < |c| then Without(c, i) else c
  }

  function Hit(c: Slots, now: real, key: string): bool {
    var i := Find(c, key);
    i < |c| && now <= c[i].expiry
  }

  function AfterGet(c: Slots, now: real, key: string): Slots {
    var i := Find(c, key);
    if i == |c| then c
    else if now > c[i].expiry then Without(c, i)
    else Without(c, i) + [c[i]]
  }

  function Evicted(c: Slots): Slots {
    if |c| >= CAPACITY then c[1..] else c
  }

  /** The entry a store writes: lapsed keys are recorded as invalid, live ones no longer than they live. */
  function Entry(now: real, key: string, payload: Option<Payload>, expiresAt: Option<real>): Slot {
    if payload.Some? && expiresAt.Some? then
      var left := expiresAt.value - now;
      if left <= 0.0 then Slot(key, None, now + TTL)
      else Slot(key, payload, now + if TTL <= left then TTL else left)
    else Slot(key, payload, now + TTL)
  }

  /** Assigning to an ordered dictionary keeps an existing key in its place and appends a new one. */
  function Assigned(c: Slots, slot: Slot): Slots {
    var i := Find(c, slot.key);
    if i < |c| then c[i := slot] else c + [slot]
  }

  function AfterSet(c: Slots, now: real, key: string, payload: Option<Payload>, expiresAt: Option<real>): Slots {
    Assigned(Evicted(c), Entry(now, key, payload, expiresAt))
  }

  class Cache {
    var slots: Slots

    ghost predicate Valid()
      reads this
    {
      Distinct(slots) && |slots| <= CAPACITY
    }

    constructor ()
      ensures Valid() && slots == []
    {
      slots := [];
    }

    /** `invalidate_api_key_cache` */
    method Invalidate(key: string)
      requires Valid()
      modifies this
      ensures Valid() && slots == Dropped(old(slots), key) && !Holds(slots, key)
    {
      DroppedGone(slots, key);
      var i := Find(slots, key);
      if i < |slots| {
        slots := slots[..i] + slots[i + 1..];
      }
    }

    /** `_get_cached_api_key_payload`: a hit moves the entry to the end, a lapsed entry is removed. */
    method Get(now: real, key: string) returns (hit: bool, payload: Option<Payload>)
      requires Valid()
      modifies this
      ensures Valid() && slots == AfterGet(old(slots), now, key)
      ensures hit == Hit(old(slots), now, key) && (!hit ==> payload == None && !Holds(slots, key))
      ensures hit ==> slots != [] && slots[|slots| - 1].key == key && slots[|slots| - 1].payload == payload
                      && now <= slots[|slots| - 1].expiry
    {
      DroppedGone(slots, key);
      var i := Find(slots, key);
      if i == |slots| {
        return false, None;
      }
      var slot := slots[i];
      slots := slots[..i] + slots[i + 1..];
      if now > slot.expiry {
        return false, None;
      }
      slots := slots + [slot];
      return true, slot.payload;
    }

    /** `_set_api_key_cache`: at capacity the head goes first, whether or not the key is already there. */
    method Set(now: real, key: string, payload: Option<Payload>, expiresAt: Option<real>)
      requires Valid()
      modifies this
      ensures Valid() && slots == AfterSet(old(slots), now, key, payload, expiresAt)
      ensures Holds(slots, key) && slots[Find(slots, key)] == Entry(now, key, payload, expiresAt)
    {
      Evict();
      var ttl := TTL;
      if payload.Some? && expiresAt.Some? {
        var timeToExpiry := expiresAt.value - now;
        if timeToExpiry <= 0.0 {
          Assign(Slot(key, None, now + TTL));
          return;
        }
        ttl := if ttl <= timeToExpiry then ttl else timeToExpiry;
      }
      Assign(Slot(key, payload, now + ttl));
    }

    /** At capacity the head of the order goes. */
    method Evict()
      requires Valid()
      modifies this
      ensures Valid() && |slots| < CAPACITY && slots == Evicted(old(slots))
    {
      EvictedRoom(slots);
      if |slots| >= CAPACITY {
        slots := slots[1..];
      }
    }

    /** Assignment to the dictionary under the slot's key. */
    method Assign(slot: Slot)
      requires Valid() && |slots| < CAPACITY
      modifies this
      ensures Valid() && slots == Assigned(old(slots), slot)
      ensures Holds(slots, slot.key) && slots[Find(slots, slot.key)] == slot
    {
      AssignedThere(slots, slot);
      var i := Find(slots, slot.key);
      slots := if i < |slots| then slots[i := slot] else slots + [slot];
    }
  }

  lemma DroppedGone(c: Slots, key: string)
    requires Distinct(c)
    ensures Distinct(Dropped(c, key)) && !Holds(Dropped(c, key), key)
  {}

  lemma EvictedRoom(c: Slots)
    requires Distinct(c) && |c| <= CAPACITY
    ensures Distinct(Evicted(c)) && |Evicted(c)| < CAPACITY && forall slot :: slot in Evicted(c) ==> slot in c
  {}

  lemma StoredThere(c: Slots, slot: Slot)
    requires Distinct(c) && |c| <= CAPACITY
    ensures var d := Assigned(Evicted(c), slot);
            && Distinct(d) && |d| <= CAPACITY && Holds(d, slot.key) && d[Find(d, slot.key)] == slot
  {
    EvictedRoom(c);
    AssignedThere(Evicted(c), slot);
  }

  lemma AssignedThere(c: Slots, slot: Slot)
    requires Distinct(c)
    ensures Distinct(Assigned(c, slot)) && Holds(Assigned(c, slot), slot.key)
    ensures Assigned(c, slot)[Find(Assigned(c, slot), slot.key)] == slot
  {
    var i := Find(c, slot.key);
    assert Assigned(c, slot)[i].key == slot.key;
  }

  // ---- whole runs --------------------------------------------------------------------------

  datatype Call =
    | Get(now: real, key: string)
    | Set(now: real, key: string, payload: Option<Payload>, expiresAt: Option<real>)
    | Invalidate(key: string)

  function After(c: Slots, call: Call): Slots {
    match call
    case Get(now, key) => AfterGet(c, now, key)
    case Set(now, key, payload, expiresAt) => AfterSet(c, now, key, payload, expiresAt)
    case Invalidate(key) => Dropped(c, key)
  }

  /** The dictionary after a run of calls on an empty cache. */
  function Run(calls: seq<Call>): Slots {
    if calls == [] then [] else After(Run(calls[..|calls| - 1]), calls[|calls| - 1])
  }

  /** The last store of the key in the run, unless the key was invalidated since. */
  function LastStore(calls: seq<Call>, key: string): Option<Call> {
    if calls == [] then None
    else
      var call := calls[|calls| - 1];
      if call.key == key && call.Set? then Some(call)
      else if call.key == key && call.Invalidate? then None
      else LastStore(calls[..|calls| - 1], key)
  }

  /** The call of the run (counted from one) that last put the key at the end of the order; zero if none. */
  function LastTouch(calls: seq<Call>, key: string): nat {
    if calls == [] then 0
    else
      var before, call := Run(calls[..|calls| - 1]), calls[|calls| - 1];
      if call.key == key && Touches(before, call) then |calls|
      else LastTouch(calls[..|calls| - 1], key)
  }

  predicate LastStored(calls: seq<Call>, slot: Slot) {
    var store := LastStore(calls, slot.key);
    store.Some? && store.value.Set?
    && slot == Entry(store.value.now, slot.key, store.value.payload, store.value.expiresAt)
  }

  ghost predicate Faithful(calls: seq<Call>, c: Slots) {
    forall i :: 0 <= i < |c| ==> LastStored(calls, c[i])
  }

  /** Along the order the stamps strictly grow. */
  ghost predicate Increasing(c: Slots, stamp: string -> nat) {
    forall i, j :: 0 <= i < j < |c| ==> stamp(c[i].key) < stamp(c[j].key)
  }

  ghost predicate OrderedByTouch(calls: seq<Call>, c: Slots) {
    Increasing(c, key => LastTouch(calls, key))
  }

  lemma {:induction false} LastTouchBound(calls: seq<Call>, key: string)
    ensures LastTouch(calls, key) <= |calls|
  {
    if calls != [] {
      LastTouchBound(calls[..|calls| - 1], key);
    }
  }

  /** Every slot after a call either stood there before or is the one the call stores. */
  predicate Accounted(c: Slots, call: Call, slot: Slot) {
    || (slot in c && (call.key == slot.key ==> call.Get?))
    || (call.Set? && slot == Entry(call.now, call.key, call.payload, call.expiresAt))
  }

  lemma SlotsAfterSet(c: Slots, call: Call)
    requires Distinct(c) && |c| <= CAPACITY && call.Set?
    ensures forall slot :: slot in After(c, call) ==> Accounted(c, call, slot)
  {
    var e := Evicted(c);
    EvictedRoom(c);
    var at := Find(e, call.key);
    forall slot | slot in After(c, call) && slot != Entry(call.now, call.key, call.payload, call.expiresAt)
      ensures slot in c && slot.key != call.key
    {
      var i :| 0 <= i < |After(c, call)| && After(c, call)[i] == slot;
      assert slot == e[i] && i != at;
      assert at < |e| ==> e[at].key != e[i].key;
    }
  }

  lemma SlotsAfter(c: Slots, call: Call)
    requires Distinct(c) && |c| <= CAPACITY
    ensures Distinct(After(c, call)) && |After(c, call)| <= CAPACITY
    ensures forall slot :: slot in After(c, call) ==> Accounted(c, call, slot)
  {
    match call
    case Get(_, _) =>
    case Set(now, key, payload, expiresAt) =>
      StoredThere(c, Entry(now, key, payload, expiresAt));
      SlotsAfterSet(c, call);
    case Invalidate(key) => DroppedGone(c, key);
  }

  /** At any time: at most 512 entries with distinct keys, each holding exactly the last store of its key. */
  lemma {:induction false} RunInvariant(calls: seq<Call>)
    ensures Distinct(Run(calls)) && |Run(calls)| <= CAPACITY && Faithful(calls, Run(calls))
  {
    if calls != [] {
      var init, call := calls[..|calls| - 1], calls[|calls| - 1];
      RunInvariant(init);
      SlotsAfter(Run(init), call);
      StaysFaithful(calls, Run(init), Run(calls));
    }
  }

  lemma StaysFaithful(calls: seq<Call>, c: Slots, d: Slots)
    requires calls != [] && Faithful(calls[..|calls| - 1], c)
    requires forall slot :: slot in d ==> Accounted(c, calls[|calls| - 1], slot)
    ensures Faithful(calls, d)
  {
    var init, call := calls[..|calls| - 1], calls[|calls| - 1];
    forall i | 0 <= i < |d| ensures LastStored(calls, d[i]) {
      assert d[i] in d;
      assert Accounted(c, call, d[i]);
      if d[i] in c {
        var j :| 0 <= j < |c| && c[j] == d[i];
        assert LastStored(init, c[j]);
      }
    }
  }

  /**
   A hit after any run returns what the last store of that key recorded: never after an invalidation,
   never more than the five minutes later, and a payload never past the key's own expiry.
   */
  lemma {:induction false} HitIsFresh(calls: seq<Call>, now: real, key: string)
    requires Hit(Run(calls), now, key)
    ensures var store := LastStore(calls, key);
            var slot := Run(calls)[Find(Run(calls), key)];
            store.Some? && store.value.Set? && now <= store.value.now + TTL
            && (slot.payload.Some? ==>
                  slot.payload == store.value.payload
                  && (store.value.expiresAt.Some? ==> now <= store.value.expiresAt.value))
            && (slot.payload.None? ==>
                  store.value.payload.None?
                  || (store.value.expiresAt.Some? && store.value.expiresAt.value <= store.value.now))
  {
    RunInvariant(calls);
  }

  /** Does the call put its key at the end of the order? */
  predicate Touches(c: Slots, call: Call) {
    (call.Get? && Hit(c, call.now, call.key)) || (call.Set? && !Holds(Evicted(c), call.key))
  }

  lemma TouchAfter(calls: seq<Call>, call: Call, key: string)
    ensures LastTouch(calls + [call], key)
         == if key == call.key && Touches(Run(calls), call) then |calls| + 1 else LastTouch(calls, key)
  {
    assert (calls + [call])[..|calls|] == calls;
  }

  lemma WithoutIncreasing(c: Slots, i: nat, stamp: string -> nat)
    requires Increasing(c, stamp) && i < |c|
    ensures Increasing(Without(c, i), stamp)
  {
    var w := Without(c, i);
    forall j, k | 0 <= j < k < |w| ensures stamp(w[j].key) < stamp(w[k].key) {
      assert w[j] == c[if j < i then j else j + 1] && w[k] == c[if k < i then k else k + 1];
    }
  }

  lemma AppendIncreasing(c: Slots, slot: Slot, stamp: string -> nat)
    requires Increasing(c, stamp) && forall i :: 0 <= i < |c| ==> stamp(c[i].key) < stamp(slot.key)
    ensures Increasing(c + [slot], stamp)
  {}

  lemma RestampedIncreasing(c: Slots, before: string -> nat, after: string -> nat)
    requires Increasing(c, before) && forall i :: 0 <= i < |c| ==> after(c[i].key) == before(c[i].key)
    ensures Increasing(c, after)
  {
    forall j, k | 0 <= j < k < |c| ensures after(c[j].key) < after(c[k].key) {
      assert before(c[j].key) < before(c[k].key);
    }
  }

  lemma WithoutKey(c: Slots, i: nat)
    requires Distinct(c) && i < |c|
    ensures forall j :: 0 <= j < |Without(c, i)| ==> Without(c, i)[j] in c && Without(c, i)[j].key != c[i].key
  {}

  /** A call keeps the slots in the order of their stamps when it stamps what it touches with a later one. */
  lemma OrderKept(c: Slots, call: Call, before: string -> nat, after: string -> nat)
    requires Distinct(c) && Increasing(c, before)
    requires forall slot :: slot in c && slot.key != call.key ==> after(slot.key) == before(slot.key)
    requires !Touches(c, call) ==> after(call.key) == before(call.key)
    requires Touches(c, call) ==> forall slot :: slot in c ==> before(slot.key) < after(call.key)
    ensures Increasing(After(c, call), after)
  {
    if call.Set? {
      StoreKeepsOrder(c, call, before, after);
    } else {
      var at := Find(c, call.key);
      if at < |c| {
        WithoutIncreasing(c, at, before);
        WithoutKey(c, at);
        RestampedIncreasing(Without(c, at), before, after);
        if Touches(c, call) {
          AppendIncreasing(Without(c, at), c[at], after);
        } else {
          RestampedIncreasing(c, before, after);
        }
      } else {
        RestampedIncreasing(c, before, after);
      }
    }
  }

  lemma StoreKeepsOrder(c: Slots, call: Call, before: string -> nat, after: string -> nat)
    requires Distinct(c) && Increasing(c, before) && call.Set?
    requires forall slot :: slot in c && slot.key != call.key ==> after(slot.key) == before(slot.key)
    requires !Touches(c, call) ==> after(call.key) == before(call.key)
    requires Touches(c, call) ==> forall slot :: slot in c ==> before(slot.key) < after(call.key)
    ensures Increasing(After(c, call), after)
  {
    var e := Evicted(c);
    EvictedIncreasing(c, before);
    forall i | 0 <= i < |e| ensures after(e[i].key) == before(e[i].key) {
      assert e[i] in c;
      assert e[i].key == call.key ==> Holds(e, call.key);
    }
    RestampedIncreasing(e, before, after);
    if !Holds(e, call.key) {
      assert forall i :: 0 <= i < |e| ==> e[i] in c;
    }
    AssignedIncreasing(e, Entry(call.now, call.key, call.payload, call.expiresAt), after);
  }

  lemma EvictedIncreasing(c: Slots, stamp: string -> nat)
    requires Increasing(c, stamp)
    ensures Increasing(Evicted(c), stamp) && forall slot :: slot in Evicted(c) ==> slot in c
  {
    if |c| >= CAPACITY {
      assert Evicted(c) == Without(c, 0);
      WithoutIncreasing(c, 0, stamp);
    }
  }

  lemma AssignedIncreasing(c: Slots, slot: Slot, stamp: string -> nat)
    requires Increasing(c, stamp)
    requires !Holds(c, slot.key) ==> forall i :: 0 <= i < |c| ==> stamp(c[i].key) < stamp(slot.key)
    ensures Increasing(Assigned(c, slot), stamp)
  {
    var at := Find(c, slot.key);
    if at < |c| {
      ReplacedIncreasing(c, at, slot, stamp);
    } else {
      AppendIncreasing(c, slot, stamp);
    }
  }

  lemma ReplacedIncreasing(c: Slots, i: nat, slot: Slot, stamp: string -> nat)
    requires Increasing(c, stamp) && i < |c| && c[i].key == slot.key
    ensures Increasing(c[i := slot], stamp)
  {
    var d := c[i := slot];
    forall j, k | 0 <= j < k < |d| ensures stamp(d[j].key) < stamp(d[k].key) {
      assert d[j].key == c[j].key && d[k].key == c[k].key;
    }
  }

  /** The recency order is the order of last touches, a touch being a hit or the store of an absent key. */
  lemma {:induction false} RunOrdered(calls: seq<Call>)
    ensures OrderedByTouch(calls, Run(calls))
  {
    if calls != [] {
      var init, call := calls[..|calls| - 1], calls[|calls| - 1];
      assert calls == init + [call];
      RunOrdered(init);
      RunInvariant(init);
      var before, after := (key: string) => LastTouch(init, key), (key: string) => LastTouch(calls, key);
      forall key: string ensures before(key) <= |init| {
        LastTouchBound(init, key);
      }
      forall key: string
        ensures after(key) == if key == call.key && Touches(Run(init), call) then |init| + 1 else before(key)
      {
        TouchAfter(init, call, key);
      }
      assert Increasing(Run(init), before);
      OrderKept(Run(init), call, before, after);
      assert Increasing(Run(calls), after);
    }
  }

  /** At capacity, a store evicts the entry whose last touch is the oldest of all. */
  lemma EvictsLeastRecentlyTouched(calls: seq<Call>)
    requires |Run(calls)| == CAPACITY
    ensures Evicted(Run(calls)) == Run(calls)[1..]
    ensures forall i :: 0 < i < CAPACITY ==> LastTouch(calls, Run(calls)[0].key) < LastTouch(calls, Run(calls)[i].key)
  {
    RunOrdered(calls);
    var stamp := (key: string) => LastTouch(calls, key);
    assert Increasing(Run(calls), stamp);
    forall i | 0 < i < CAPACITY ensures stamp(Run(calls)[0].key) < stamp(Run(calls)[i].key) {}
  }

  /** A store refreshes the position of a key exactly when the key is not in the dictionary at that point. */
  lemma StoreRefreshesIffAbsent(c: Slots, now: real, key: string, payload: Option<Payload>, expiresAt: Option<real>)
    requires Distinct(c) && |Evicted(c)| > 0
    ensures var d := AfterSet(c, now, key, payload, expiresAt);
            var e := Evicted(c);
            d[|d| - 1].key == key <==> (!Holds(e, key) || e[|e| - 1].key == key)
  {
    var e := Evicted(c);
    var i := Find(e, key);
    assert i < |e| ==> Holds(e, key);
    if Holds(e, key) {
      var j :| 0 <= j < |e| && e[j].key == key;
    }
  }

  // ---- what stays --------------------------------------------------------------------------

  /** Until when a store is served: as long as the key lives, at most five minutes; a lapsed key as unknown. */
  function Lapse(now: real, payload: Option<Payload>, expiresAt: Option<real>): real {
    if payload.Some? && expiresAt.Some? && now < expiresAt.value < now + 300.0 then expiresAt.value else now + 300.0
  }

  /** What it serves: the payload, unless the key had lapsed by the time it was stored. */
  function Served(now: real, payload: Option<Payload>, expiresAt: Option<real>): Option<Payload> {
    if expiresAt.Some? && expiresAt.value <= now then None else payload
  }

  /** A store is served from then on until it lapses. */
  lemma StoreHits(
    c: Slots, now: real, key: string, payload: Option<Payload>, expiresAt: Option<real>, later: real)
    requires Distinct(c) && |c| <= CAPACITY
    ensures var d := AfterSet(c, now, key, payload, expiresAt);
            && Holds(d, key) && d[Find(d, key)].payload == Served(now, payload, expiresAt)
            && (Hit(d, later, key) <==> later <= Lapse(now, payload, expiresAt))
  {
    StoredThere(c, Entry(now, key, payload, expiresAt));
  }

  /** A key on file is hit exactly until its last store lapses, and serves what that store recorded. */
  lemma {:induction false} HitExactlyWhen(calls: seq<Call>, now: real, key: string)
    requires Holds(Run(calls), key)
    ensures var store := LastStore(calls, key);
            && store.Some? && store.value.Set?
            && (Hit(Run(calls), now, key)
                <==> now <= Lapse(store.value.now, store.value.payload, store.value.expiresAt))
            && Run(calls)[Find(Run(calls), key)].payload
            == Served(store.value.now, store.value.payload, store.value.expiresAt)
  {
    RunInvariant(calls);
    var i := Find(Run(calls), key);
    assert i < |Run(calls)| by {
      var j :| 0 <= j < |Run(calls)| && Run(calls)[j].key == key;
    }
    assert LastStored(calls, Run(calls)[i]);
  }

  /** The call removes the slot: invalidated, met when lapsed, or at the head of a full order. */
  predicate Removes(c: Slots, call: Call, slot: Slot) {
    match call
    case Invalidate(key) => key == slot.key
    case Get(now, key) => key == slot.key && now > slot.expiry
    case Set(_, key, _, _) => key == slot.key || (|c| >= 512 && c[0] == slot)
  }

  /** Nothing leaves the dictionary otherwise, and what is removed is gone unless stored anew. */
  lemma StaysUnlessRemoved(c: Slots, call: Call, slot: Slot)
    requires Distinct(c) && |c| <= CAPACITY && slot in c
    ensures !Removes(c, call, slot) ==> slot in After(c, call)
    ensures Removes(c, call, slot) && !(call.Set? && call.key == slot.key) ==> !Holds(After(c, call), slot.key)
  {
    var i :| 0 <= i < |c| && c[i] == slot;
    assert Find(c, slot.key) == i;
    match call
    case Set(_, _, _, _) => SetKeepsOthers(c, call, i);
    case _ => OthersRemain(c, call, i);
  }

  lemma OthersRemain(c: Slots, call: Call, i: nat)
    requires Distinct(c) && i < |c| && !call.Set?
    ensures !Removes(c, call, c[i]) ==> c[i] in After(c, call)
    ensures Removes(c, call, c[i]) ==> !Holds(After(c, call), c[i].key)
  {
    var at := Find(c, call.key);
    if at < |c| {
      WithoutKey(c, at);
      if i != at {
        assert Without(c, at)[if i < at then i else i - 1] == c[i];
      }
    }
  }

  lemma SetKeepsOthers(c: Slots, call: Call, i: nat)
    requires Distinct(c) && |c| <= CAPACITY && i < |c| && call.Set?
    ensures !Removes(c, call, c[i]) ==> c[i] in After(c, call)
    ensures Removes(c, call, c[i]) && call.key != c[i].key ==> !Holds(After(c, call), c[i].key)
  {
    var e := Evicted(c);
    if |c| < CAPACITY || i > 0 {
      var j := if |c| >= CAPACITY then i - 1 else i;
      assert e[j] == c[i];
      if call.key != c[i].key {
        assert After(c, call)[j] == c[i];
      }
    } else {
      assert forall j :: 0 <= j < |e| ==> e[j] == c[j + 1];
    }
  }
}
