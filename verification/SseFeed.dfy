/**
 One subscriber of a broadcast channel as a value: its bounded queue, what it has consumed, and what was
 broadcast while it was subscribed. The two overflow policies are functions on the queue.
 */
module SseFeed {

  datatype Slot<T> = Item(value: T) | EndOfStream

  /** What to do when a queue is full: sacrifice non-critical items, or drop the subscriber. */
  datatype Policy<!T> = EvictNonCritical(isCritical: T -> bool) | DropSubscriber

  /** A `maxsize` of zero means unbounded. */
  predicate Full<T>(maxsize: nat, items: seq<T>) { 0 < maxsize <= |items| }

  predicate Within<T>(maxsize: nat, items: seq<T>) { maxsize == 0 || |items| <= maxsize }

  /** The queue without its first non-critical item, everything else in place. */
  function EvictOne<T>(isCritical: T -> bool, items: seq<Slot<T>>): seq<Slot<T>> {
    if items == [] then []
    else if items[0].Item? && !isCritical(items[0].value) then items[1..]
    else [items[0]] + EvictOne(isCritical, items[1..])
  }

  /** Does the policy keep the subscriber, and with which queue? */
  function Deliver<T>(policy: Policy<T>, maxsize: nat, items: seq<Slot<T>>, item: T): (bool, seq<Slot<T>>) {
    if !Full(maxsize, items) then (true, items + [Item(item)])
    else match policy
      case DropSubscriber => (false, items)
      case EvictNonCritical(isCritical) =>
        if !isCritical(item) then (true, items)
        else
          var evicted := EvictOne(isCritical, items);
          if Full(maxsize, evicted) then (false, evicted) else (true, evicted + [Item(item)])
  }

  /**
   A subscriber's history. `live` holds until it leaves or is removed; `removed` marks removal for
   overflow; `ended` marks that its iteration has met the end of the stream.
   */
  datatype Feed<T> = Feed(
    items: seq<Slot<T>>, consumed: seq<T>, sent: seq<T>, live: bool, removed: bool, ended: bool)

  function Fresh<T>(): Feed<T> { Feed([], [], [], true, false, false) }

  function AfterBroadcast<T>(policy: Policy<T>, maxsize: nat, f: Feed<T>, item: T): Feed<T> {
    if !f.live then f
    else
      var (kept, items) := Deliver(policy, maxsize, f.items, item);
      if kept then f.(items := items, sent := f.sent + [item])
      else f.(items := [EndOfStream], sent := f.sent + [item], live := false, removed := true)
  }

  /** One step of the consuming iteration; on an empty queue it idles, after the end it takes nothing. */
  function AfterTake<T>(f: Feed<T>): Feed<T> {
    if f.items == [] || f.ended then f
    else match f.items[0]
      case EndOfStream => f.(items := f.items[1..], ended := true)
      case Item(x) => f.(items := f.items[1..], consumed := f.consumed + [x])
  }

  function AfterLeave<T>(f: Feed<T>): Feed<T> { f.(live := false) }

  // ---- subsequences and critical items -----------------------------------------------------

  /** `a` is what remains of `b` after leaving some items out. */
  ghost predicate Subsequence<T>(a: seq<T>, b: seq<T>) {
    a == []
    || (b != [] && a[|a| - 1] == b[|b| - 1] && Subsequence(a[..|a| - 1], b[..|b| - 1]))
    || (b != [] && Subsequence(a, b[..|b| - 1]))
  }

  lemma SubsequenceSkip<T>(a: seq<T>, b: seq<T>, x: T)
    requires Subsequence(a, b)
    ensures Subsequence(a, b + [x])
  {
    assert (b + [x])[..|b|] == b;
  }

  lemma SubsequenceTake<T>(a: seq<T>, b: seq<T>, x: T)
    requires Subsequence(a, b)
    ensures Subsequence(a + [x], b + [x])
  {
    assert (a + [x])[..|a|] == a && (b + [x])[..|b|] == b;
  }

  lemma {:induction false} SubsequenceRemove<T>(a: seq<T>, i: nat, b: seq<T>)
    requires Subsequence(a, b) && i < |a|
    ensures Subsequence(a[..i] + a[i + 1..], b)
  {
    var cut, init := a[..i] + a[i + 1..], b[..|b| - 1];
    assert b == init + [b[|b| - 1]];
    if a[|a| - 1] == b[|b| - 1] && Subsequence(a[..|a| - 1], init) {
      var body := a[..|a| - 1];
      if i == |a| - 1 {
        assert cut == body;
        SubsequenceSkip(body, init, b[|b| - 1]);
      } else {
        SubsequenceRemove(body, i, init);
        assert cut == (body[..i] + body[i + 1..]) + [a[|a| - 1]];
        SubsequenceTake(body[..i] + body[i + 1..], init, b[|b| - 1]);
      }
    } else {
      SubsequenceRemove(a, i, init);
      SubsequenceSkip(cut, init, b[|b| - 1]);
    }
  }

  /** The critical items, in order. */
  function Critical<T>(isCritical: T -> bool, s: seq<T>): seq<T> {
    if s == [] then []
    else
      var init := Critical(isCritical, s[..|s| - 1]);
      if isCritical(s[|s| - 1]) then init + [s[|s| - 1]] else init
  }

  lemma CriticalSnoc<T>(isCritical: T -> bool, s: seq<T>, x: T)
    ensures Critical(isCritical, s + [x])
         == if isCritical(x) then Critical(isCritical, s) + [x] else Critical(isCritical, s)
  {
    assert (s + [x])[..|s|] == s;
  }

  lemma {:induction false} CriticalRemove<T>(isCritical: T -> bool, s: seq<T>, i: nat)
    requires i < |s| && !isCritical(s[i])
    ensures Critical(isCritical, s[..i] + s[i + 1..]) == Critical(isCritical, s)
  {
    var cut, body := s[..i] + s[i + 1..], s[..|s| - 1];
    if i == |s| - 1 {
      assert cut == body;
    } else {
      CriticalRemove(isCritical, body, i);
      assert cut == (body[..i] + body[i + 1..]) + [s[|s| - 1]];
      CriticalSnoc(isCritical, body[..i] + body[i + 1..], s[|s| - 1]);
    }
  }

  /** The items of a queue that holds no end marker. */
  function Values<T>(items: seq<Slot<T>>): seq<T>
    requires forall i :: 0 <= i < |items| ==> items[i].Item?
  {
    seq(|items|, i requires 0 <= i < |items| => items[i].value)
  }

  ghost predicate NoEnd<T>(items: seq<Slot<T>>) {
    forall i :: 0 <= i < |items| ==> items[i].Item?
  }

  lemma ConsCut<T>(x: T, tail: seq<T>, i: nat)
    requires i < |tail|
    ensures [x] + (tail[..i] + tail[i + 1..]) == ([x] + tail)[..i + 1] + ([x] + tail)[i + 2..]
  {}

  lemma CriticalCons<T>(isCritical: T -> bool, slot: Slot<T>, tail: seq<Slot<T>>, n: nat)
    requires slot.Item? && isCritical(slot.value) && n <= |tail| && NoEnd(tail)
    requires forall i :: 0 <= i < n ==> isCritical(tail[i].value)
    ensures forall i :: 0 <= i < n + 1 ==> ([slot] + tail)[i].Item? && isCritical(([slot] + tail)[i].value)
  {
    forall i | 0 <= i < n + 1 ensures ([slot] + tail)[i].Item? && isCritical(([slot] + tail)[i].value) {
      assert ([slot] + tail)[i] == if i == 0 then slot else tail[i - 1];
    }
  }

  /** Eviction takes out the first non-critical item, or nothing when all are critical. */
  lemma {:induction false} EvictOneRemoves<T>(isCritical: T -> bool, items: seq<Slot<T>>) returns (at: nat)
    requires NoEnd(items)
    ensures at <= |items| && forall i :: 0 <= i < at ==> isCritical(items[i].value)
    ensures at < |items| ==>
              !isCritical(items[at].value) && EvictOne(isCritical, items) == items[..at] + items[at + 1..]
    ensures at == |items| ==> EvictOne(isCritical, items) == items
  {
    if items == [] || !isCritical(items[0].value) {
      at := 0;
    } else {
      var tail := items[1..];
      var rest := EvictOneRemoves(isCritical, tail);
      at := rest + 1;
      assert items == [items[0]] + tail;
      CriticalCons(isCritical, items[0], tail, rest);
      if at < |items| {
        ConsCut(items[0], tail, rest);
      }
    }
  }

  // ---- what each policy promises -----------------------------------------------------------

  /** What a subscriber has and will get: consumed, then queued. */
  ghost function Received<T>(f: Feed<T>): seq<T>
    requires NoEnd(f.items)
  {
    f.consumed + Values(f.items)
  }

  /** A removed subscriber finds only the end of the stream, and nothing after it. */
  ghost predicate OnlyEndLeft<T>(f: Feed<T>) {
    f.removed ==> !f.live && f.items == (if f.ended then [] else [EndOfStream])
  }

  /** Nothing is reordered or invented, and nothing critical is missing. */
  ghost predicate InStep<T>(isCritical: T -> bool, received: seq<T>, sent: seq<T>) {
    Subsequence(received, sent) && Critical(isCritical, received) == Critical(isCritical, sent)
  }

  /** While subscribed it is in step, what was consumed always is as far as it goes, and the queue keeps its bound. */
  ghost predicate EvictingPromise<T>(isCritical: T -> bool, maxsize: nat, f: Feed<T>) {
    && Within(maxsize, f.items) && OnlyEndLeft(f) && ConsumedInOrder(isCritical, f.consumed, f.sent)
    && (!f.removed ==> NoEnd(f.items) && !f.ended && InStep(isCritical, Received(f), f.sent))
  }

  /** What was consumed, even by a subscriber removed since, skips no critical item before its last one. */
  ghost predicate ConsumedInOrder<T>(isCritical: T -> bool, consumed: seq<T>, sent: seq<T>) {
    Subsequence(consumed, sent) && Critical(isCritical, consumed) <= Critical(isCritical, sent)
  }

  lemma {:induction false} SubsequencePrefix<T>(a: seq<T>, rest: seq<T>, b: seq<T>)
    requires Subsequence(a + rest, b)
    ensures Subsequence(a, b)
    decreases |b|
  {
    if a != [] {
      var init, last := b[..|b| - 1], b[|b| - 1];
      assert b == init + [last];
      if rest == [] {
        assert a + rest == a;
      } else {
        var shorter := rest[..|rest| - 1];
        assert (a + rest)[..|a + rest| - 1] == a + shorter;
        if Subsequence(a + rest, init) {
          SubsequencePrefix(a, rest, init);
        } else {
          SubsequencePrefix(a, shorter, init);
        }
        SubsequenceSkip(a, init, last);
      }
    }
  }

  lemma {:induction false} CriticalPrefix<T>(isCritical: T -> bool, a: seq<T>, rest: seq<T>)
    ensures Critical(isCritical, a) <= Critical(isCritical, a + rest)
  {
    if rest == [] {
      assert a + rest == a;
    } else {
      var init, last := rest[..|rest| - 1], rest[|rest| - 1];
      CriticalPrefix(isCritical, a, init);
      assert a + rest == (a + init) + [last];
      CriticalSnoc(isCritical, a + init, last);
    }
  }

  lemma LiveConsumed<T>(isCritical: T -> bool, f: Feed<T>)
    requires NoEnd(f.items) && InStep(isCritical, Received(f), f.sent)
    ensures ConsumedInOrder(isCritical, f.consumed, f.sent)
  {
    SubsequencePrefix(f.consumed, Values(f.items), f.sent);
    CriticalPrefix(isCritical, f.consumed, Values(f.items));
  }

  lemma ConsumedStays<T>(isCritical: T -> bool, consumed: seq<T>, sent: seq<T>, item: T)
    requires ConsumedInOrder(isCritical, consumed, sent)
    ensures ConsumedInOrder(isCritical, consumed, sent + [item])
  {
    SubsequenceSkip(consumed, sent, item);
    CriticalSnoc(isCritical, sent, item);
  }

  /** No gaps: exactly what was sent, in order; after removal, what was consumed is a prefix of it. */
  ghost predicate DroppingPromise<T>(maxsize: nat, f: Feed<T>) {
    && Within(maxsize, f.items) && OnlyEndLeft(f) && f.consumed <= f.sent
    && (!f.removed ==> NoEnd(f.items) && !f.ended && Received(f) == f.sent)
  }

  ghost predicate Promise<T>(policy: Policy<T>, maxsize: nat, f: Feed<T>) {
    match policy
    case EvictNonCritical(isCritical) => EvictingPromise(isCritical, maxsize, f)
    case DropSubscriber => DroppingPromise(maxsize, f)
  }

  lemma ReceivedAppend<T>(f: Feed<T>, g: Feed<T>, x: T)
    requires NoEnd(f.items) && g.items == f.items + [Item(x)] && g.consumed == f.consumed
    ensures NoEnd(g.items) && Received(g) == Received(f) + [x]
  {
    assert Values(g.items) == Values(f.items) + [x];
  }

  lemma ReceivedCut<T>(f: Feed<T>, g: Feed<T>, at: nat)
    requires NoEnd(f.items) && at < |f.items|
    requires g.items == f.items[..at] + f.items[at + 1..] && g.consumed == f.consumed
    ensures NoEnd(g.items)
    ensures var i := |f.consumed| + at;
            Received(f)[i] == f.items[at].value && Received(g) == Received(f)[..i] + Received(f)[i + 1..]
  {
    var i := |f.consumed| + at;
    assert Values(g.items) == Values(f.items)[..at] + Values(f.items)[at + 1..];
    assert Received(f)[..i] == f.consumed + Values(f.items)[..at];
    assert Received(f)[i + 1..] == Values(f.items)[at + 1..];
  }

  /** Without the element at `i`, and with the item at the end. */
  function Replaced<T>(s: seq<T>, i: nat, item: T): seq<T>
    requires i < |s|
  {
    s[..i] + s[i + 1..] + [item]
  }

  lemma ReceivedReplaced<T>(f: Feed<T>, g: Feed<T>, at: nat, item: T)
    requires NoEnd(f.items) && at < |f.items|
    requires g.items == (f.items[..at] + f.items[at + 1..]) + [Item(item)] && g.consumed == f.consumed
    ensures var i := |f.consumed| + at;
            NoEnd(g.items) && Received(f)[i] == f.items[at].value && Received(g) == Replaced(Received(f), i, item)
  {
    var mid := f.(items := f.items[..at] + f.items[at + 1..]);
    ReceivedCut(f, mid, at);
    ReceivedAppend(mid, g, item);
  }

  lemma AppendedInStep<T>(isCritical: T -> bool, r: seq<T>, sent: seq<T>, item: T)
    requires InStep(isCritical, r, sent)
    ensures InStep(isCritical, r + [item], sent + [item])
  {
    SubsequenceTake(r, sent, item);
    CriticalSnoc(isCritical, r, item);
    CriticalSnoc(isCritical, sent, item);
  }

  lemma SkippedInStep<T>(isCritical: T -> bool, r: seq<T>, sent: seq<T>, item: T)
    requires InStep(isCritical, r, sent) && !isCritical(item)
    ensures InStep(isCritical, r, sent + [item])
  {
    SubsequenceSkip(r, sent, item);
    CriticalSnoc(isCritical, sent, item);
  }

  /** The item takes the place of one that is not critical. */
  lemma ReplacedInStep<T>(isCritical: T -> bool, r: seq<T>, i: nat, sent: seq<T>, item: T)
    requires i < |r| && !isCritical(r[i]) && InStep(isCritical, r, sent)
    ensures InStep(isCritical, Replaced(r, i, item), sent + [item])
  {
    SubsequenceRemove(r, i, sent);
    CriticalRemove(isCritical, r, i);
    AppendedInStep(isCritical, r[..i] + r[i + 1..], sent, item);
  }

  lemma BroadcastKeepsEvicting<T>(isCritical: T -> bool, maxsize: nat, f: Feed<T>, item: T)
    requires EvictingPromise(isCritical, maxsize, f)
    ensures EvictingPromise(isCritical, maxsize, AfterBroadcast(EvictNonCritical(isCritical), maxsize, f, item))
  {
    var g := AfterBroadcast(EvictNonCritical(isCritical), maxsize, f, item);
    if f.live {
      ConsumedStays(isCritical, f.consumed, f.sent, item);
      if !Full(maxsize, f.items) {
        ReceivedAppend(f, g, item);
        AppendedInStep(isCritical, Received(f), f.sent, item);
      } else if !isCritical(item) {
        SkippedInStep(isCritical, Received(f), f.sent, item);
      } else {
        EvictingBroadcast(isCritical, maxsize, f, item);
      }
    }
  }

  lemma EvictingMakesRoom<T>(isCritical: T -> bool, maxsize: nat, f: Feed<T>, item: T) returns (at: nat)
    requires NoEnd(f.items) && f.live && Full(maxsize, f.items) && Within(maxsize, f.items) && isCritical(item)
    ensures at <= |f.items| && (at < |f.items| ==> !isCritical(f.items[at].value))
    ensures forall i :: 0 <= i < at ==> isCritical(f.items[i].value)
    ensures AfterBroadcast(EvictNonCritical(isCritical), maxsize, f, item)
         == if at < |f.items| then
              f.(items := (f.items[..at] + f.items[at + 1..]) + [Item(item)], sent := f.sent + [item])
            else f.(items := [EndOfStream], sent := f.sent + [item], live := false, removed := true)
  {
    at := EvictOneRemoves(isCritical, f.items);
  }

  /** A critical item meets a full queue. */
  lemma EvictingBroadcast<T>(isCritical: T -> bool, maxsize: nat, f: Feed<T>, item: T)
    requires EvictingPromise(isCritical, maxsize, f) && f.live && Full(maxsize, f.items) && isCritical(item)
    ensures var g := AfterBroadcast(EvictNonCritical(isCritical), maxsize, f, item);
            Within(maxsize, g.items) && OnlyEndLeft(g)
            && (!g.removed ==> NoEnd(g.items) && !g.ended && InStep(isCritical, Received(g), g.sent))
  {
    var at := EvictingMakesRoom(isCritical, maxsize, f, item);
    if at < |f.items| {
      EvictedInStep(isCritical, f, AfterBroadcast(EvictNonCritical(isCritical), maxsize, f, item), at, item);
    }
  }

  lemma EvictedInStep<T>(isCritical: T -> bool, f: Feed<T>, g: Feed<T>, at: nat, item: T)
    requires NoEnd(f.items) && at < |f.items| && !isCritical(f.items[at].value)
    requires InStep(isCritical, Received(f), f.sent)
    requires g.items == (f.items[..at] + f.items[at + 1..]) + [Item(item)]
    requires g.consumed == f.consumed && g.sent == f.sent + [item]
    ensures NoEnd(g.items) && InStep(isCritical, Received(g), g.sent)
  {
    ReceivedReplaced(f, g, at, item);
    ReplacedInStep(isCritical, Received(f), |f.consumed| + at, f.sent, item);
  }

  lemma BroadcastKeepsDropping<T>(maxsize: nat, f: Feed<T>, item: T)
    requires DroppingPromise(maxsize, f)
    ensures DroppingPromise(maxsize, AfterBroadcast(DropSubscriber, maxsize, f, item))
  {
    var g := AfterBroadcast(DropSubscriber, maxsize, f, item);
    if f.live && !Full(maxsize, f.items) {
      ReceivedAppend(f, g, item);
    }
  }

  lemma BroadcastKeepsPromise<T>(policy: Policy<T>, maxsize: nat, f: Feed<T>, item: T)
    requires Promise(policy, maxsize, f)
    ensures Promise(policy, maxsize, AfterBroadcast(policy, maxsize, f, item))
  {
    match policy
    case EvictNonCritical(isCritical) => BroadcastKeepsEvicting(isCritical, maxsize, f, item);
    case DropSubscriber => BroadcastKeepsDropping(maxsize, f, item);
  }

  lemma TakeKeepsPromise<T>(policy: Policy<T>, maxsize: nat, f: Feed<T>)
    requires Promise(policy, maxsize, f)
    ensures Promise(policy, maxsize, AfterTake(f))
  {
    var g := AfterTake(f);
    if !f.removed && f.items != [] {
      assert Values(f.items) == [f.items[0].value] + Values(g.items);
      assert Received(g) == Received(f);
      if policy.EvictNonCritical? {
        LiveConsumed(policy.isCritical, g);
      }
    }
  }

  // ---- every history of a subscriber -------------------------------------------------------

  datatype Event<T> = Broadcast(item: T) | Take | Leave

  function Happen<T>(policy: Policy<T>, maxsize: nat, f: Feed<T>, event: Event<T>): Feed<T> {
    match event
    case Broadcast(item) => AfterBroadcast(policy, maxsize, f, item)
    case Take => AfterTake(f)
    case Leave => AfterLeave(f)
  }

  function History<T>(policy: Policy<T>, maxsize: nat, events: seq<Event<T>>): Feed<T> {
    if events == [] then Fresh()
    else Happen(policy, maxsize, History(policy, maxsize, events[..|events| - 1]), events[|events| - 1])
  }

  /** Whatever happens after subscribing, in whatever order, the policy's promise holds. */
  lemma {:induction false} PromiseAlwaysHolds<T>(policy: Policy<T>, maxsize: nat, events: seq<Event<T>>)
    ensures Promise(policy, maxsize, History(policy, maxsize, events))
  {
    if events != [] {
      var before := History(policy, maxsize, events[..|events| - 1]);
      PromiseAlwaysHolds(policy, maxsize, events[..|events| - 1]);
      match events[|events| - 1]
      case Broadcast(item) => BroadcastKeepsPromise(policy, maxsize, before, item);
      case Take => TakeKeepsPromise(policy, maxsize, before);
      case Leave => assert !before.removed ==> Received(AfterLeave(before)) == Received(before);
    } else {
      assert Received(Fresh<T>()) == [];
    }
  }

  /**
   A broadcast costs a subscriber its subscription exactly when its queue is full and the item cannot be
   accommodated: under eviction, a critical item against an all-critical queue.
   */
  lemma RemovedExactlyWhen<T>(policy: Policy<T>, maxsize: nat, f: Feed<T>, item: T)
    requires Promise(policy, maxsize, f) && f.live
    ensures AfterBroadcast(policy, maxsize, f, item).removed
       <==> Full(maxsize, f.items)
            && (policy.EvictNonCritical? ==>
                  policy.isCritical(item) && forall i :: 0 <= i < |f.items| ==> policy.isCritical(f.items[i].value))
  {
    if policy.EvictNonCritical? && Full(maxsize, f.items) {
      var at := EvictOneRemoves(policy.isCritical, f.items);
    }
  }

  // ---- what one broadcast does, and what it costs ------------------------------------------

  /** The first item of the queue that may be sacrificed. */
  predicate FirstDispensable<T>(isCritical: T -> bool, items: seq<Slot<T>>, at: nat) {
    && at < |items| && items[at].Item? && !isCritical(items[at].value)
    && forall j :: 0 <= j < at ==> items[j].Item? && isCritical(items[j].value)
  }

  /** The item at `at` is gone, those behind it move up, and the new one stands at the end. */
  ghost predicate TakesThePlace<T>(items: seq<Slot<T>>, at: nat, item: T, after: seq<Slot<T>>) {
    && at < |items| == |after| && after[|after| - 1] == Item(item)
    && (forall j :: 0 <= j < at ==> after[j] == items[j])
    && (forall j :: at <= j < |items| - 1 ==> after[j] == items[j + 1])
  }

  /** The stream is ended: the queue holds that alone, and the subscriber is gone. */
  ghost predicate Ended<T>(f: Feed<T>) { f.items == [EndOfStream] && !f.live && f.removed }

  /**
   What a broadcast does to a subscriber. With room in the queue the item is appended, whatever it is and
   whatever the policy. A full queue costs the subscription under dropping. Under eviction it costs the item
   if that is not critical, else the first queued item that is not, else the subscription.
   */
  ghost predicate Delivered<T>(policy: Policy<T>, maxsize: nat, f: Feed<T>, item: T, g: Feed<T>) {
    && g.consumed == f.consumed && g.sent == f.sent + [item] && g.ended == f.ended
    && if !Full(maxsize, f.items) then g.items == f.items + [Item(item)] && g.live && !g.removed
       else match policy
         case DropSubscriber => Ended(g)
         case EvictNonCritical(isCritical) =>
           if !isCritical(item) then g.items == f.items && g.live && !g.removed
           else if exists at: nat :: FirstDispensable(isCritical, f.items, at) then
             g.live && !g.removed &&
             exists at: nat :: FirstDispensable(isCritical, f.items, at) && TakesThePlace(f.items, at, item, g.items)
           else Ended(g)
  }

  lemma CutAndAppended<T>(items: seq<Slot<T>>, at: nat, item: T)
    requires at < |items|
    ensures TakesThePlace(items, at, item, (items[..at] + items[at + 1..]) + [Item(item)])
  {}

  lemma NoneDispensable<T>(isCritical: T -> bool, items: seq<Slot<T>>)
    requires NoEnd(items) && forall i :: 0 <= i < |items| ==> isCritical(items[i].value)
    ensures !exists at: nat :: FirstDispensable(isCritical, items, at)
  {}

  lemma EvictionDelivers<T>(isCritical: T -> bool, maxsize: nat, f: Feed<T>, item: T)
    requires NoEnd(f.items) && f.live && !f.removed && Full(maxsize, f.items) && Within(maxsize, f.items)
    requires isCritical(item)
    ensures Delivered(EvictNonCritical(isCritical), maxsize, f, item,
                      AfterBroadcast(EvictNonCritical(isCritical), maxsize, f, item))
  {
    var at := EvictingMakesRoom(isCritical, maxsize, f, item);
    if at < |f.items| {
      assert FirstDispensable(isCritical, f.items, at);
      CutAndAppended(f.items, at, item);
    } else {
      NoneDispensable(isCritical, f.items);
    }
  }

  lemma BroadcastDelivers<T>(policy: Policy<T>, maxsize: nat, f: Feed<T>, item: T)
    requires Promise(policy, maxsize, f)
    ensures var g := AfterBroadcast(policy, maxsize, f, item);
            if f.live then Delivered(policy, maxsize, f, item, g) else g == f
  {
    if f.live && policy.EvictNonCritical? && Full(maxsize, f.items) && policy.isCritical(item) {
      EvictionDelivers(policy.isCritical, maxsize, f, item);
    }
  }

  /** With room in the queue nothing is lost under either policy. */
  lemma RoomLosesNothing<T>(policy: Policy<T>, maxsize: nat, f: Feed<T>, item: T)
    requires Promise(policy, maxsize, f) && f.live && !Full(maxsize, f.items)
    ensures var g := AfterBroadcast(policy, maxsize, f, item);
            NoEnd(g.items) && Received(g) == Received(f) + [item]
  {
    ReceivedAppend(f, AfterBroadcast(policy, maxsize, f, item), item);
  }

  // ---- every loss has its full queue -------------------------------------------------------

  /**
   The broadcast at `e` met a full queue and cost the `m`-th item: itself, not critical, or as a critical
   one an earlier one that is not.
   */
  ghost predicate LostAt<T>(isCritical: T -> bool, maxsize: nat, events: seq<Event<T>>, e: nat, m: nat)
    requires e < |events|
  {
    events[e].Broadcast? &&
    var before := History(EvictNonCritical(isCritical), maxsize, events[..e]);
    && before.live && Full(maxsize, before.items)
    && if isCritical(events[e].item) then m < |before.sent| && !isCritical(before.sent[m]) else m == |before.sent|
  }

  ghost predicate Lost<T>(isCritical: T -> bool, maxsize: nat, events: seq<Event<T>>, m: nat) {
    exists e: nat :: e < |events| && LostAt(isCritical, maxsize, events, e, m)
  }

  /** Which of the items sent are received: their numbers, in order. */
  ghost predicate Numbers<T>(kept: seq<nat>, sent: seq<T>, received: seq<T>) {
    && |kept| == |received|
    && (forall i, j :: 0 <= i < j < |kept| ==> kept[i] < kept[j])
    && (forall i :: 0 <= i < |kept| ==> kept[i] < |sent| && sent[kept[i]] == received[i])
  }

  /** Every item sent is among those kept or was lost to a full queue. */
  ghost predicate Accounted<T>(
    isCritical: T -> bool, maxsize: nat, events: seq<Event<T>>, kept: seq<nat>, sent: nat)
  {
    forall m: nat :: m < sent ==> m in kept || Lost(isCritical, maxsize, events, m)
  }

  lemma LostBefore<T>(isCritical: T -> bool, maxsize: nat, events: seq<Event<T>>, event: Event<T>, m: nat)
    requires Lost(isCritical, maxsize, events, m)
    ensures Lost(isCritical, maxsize, events + [event], m)
  {
    var e: nat :| e < |events| && LostAt(isCritical, maxsize, events, e, m);
    assert (events + [event])[..e] == events[..e];
    assert LostAt(isCritical, maxsize, events + [event], e, m);
  }

  lemma LostNow<T>(isCritical: T -> bool, maxsize: nat, events: seq<Event<T>>, item: T, m: nat)
    requires var f := History(EvictNonCritical(isCritical), maxsize, events);
             && f.live && Full(maxsize, f.items)
             && if isCritical(item) then m < |f.sent| && !isCritical(f.sent[m]) else m == |f.sent|
    ensures Lost(isCritical, maxsize, events + [Broadcast(item)], m)
  {
    var all := events + [Broadcast(item)];
    assert all[..|events|] == events;
    assert LostAt(isCritical, maxsize, all, |events|, m);
  }

  lemma AccountedOn<T>(
    isCritical: T -> bool, maxsize: nat, events: seq<Event<T>>, event: Event<T>, kept: seq<nat>, sent: nat)
    requires Accounted(isCritical, maxsize, events, kept, sent)
    ensures Accounted(isCritical, maxsize, events + [event], kept, sent)
  {
    forall m: nat | m < sent && m !in kept ensures Lost(isCritical, maxsize, events + [event], m) {
      LostBefore(isCritical, maxsize, events, event, m);
    }
  }

  lemma NumbersAppend<T>(kept: seq<nat>, sent: seq<T>, received: seq<T>, item: T)
    requires Numbers(kept, sent, received)
    ensures Numbers(kept + [|sent|], sent + [item], received + [item])
  {}

  lemma NumbersSkip<T>(kept: seq<nat>, sent: seq<T>, received: seq<T>, item: T)
    requires Numbers(kept, sent, received)
    ensures Numbers(kept, sent + [item], received)
  {}

  lemma NumbersCut<T>(kept: seq<nat>, sent: seq<T>, received: seq<T>, i: nat)
    requires Numbers(kept, sent, received) && i < |kept|
    ensures Numbers(kept[..i] + kept[i + 1..], sent, received[..i] + received[i + 1..])
  {}

  lemma NumbersReplaced<T>(kept: seq<nat>, sent: seq<T>, received: seq<T>, i: nat, item: T) returns (now: seq<nat>)
    requires Numbers(kept, sent, received) && i < |kept|
    ensures now == (kept[..i] + kept[i + 1..]) + [|sent|]
    ensures Numbers(now, sent + [item], Replaced(received, i, item))
  {
    now := (kept[..i] + kept[i + 1..]) + [|sent|];
    NumbersCut(kept, sent, received, i);
    NumbersAppend(kept[..i] + kept[i + 1..], sent, received[..i] + received[i + 1..], item);
  }

  lemma CutAccounts<T>(
    isCritical: T -> bool, maxsize: nat, events: seq<Event<T>>, kept: seq<nat>, sent: nat, i: nat)
    requires Accounted(isCritical, maxsize, events, kept, sent) && i < |kept|
    requires Lost(isCritical, maxsize, events, kept[i])
    ensures Accounted(isCritical, maxsize, events, (kept[..i] + kept[i + 1..]) + [sent], sent + 1)
  {
    var fewer := kept[..i] + kept[i + 1..];
    forall m: nat | m < sent + 1 && m !in fewer + [sent] ensures Lost(isCritical, maxsize, events, m) {
      assert m != sent && m !in fewer;
      if m in kept && m != kept[i] {
        CutKeepsOthers(kept, i, m);
      }
    }
  }

  lemma CutKeepsOthers(kept: seq<nat>, i: nat, m: nat)
    requires i < |kept| && m in kept && m != kept[i]
    ensures m in kept[..i] + kept[i + 1..]
  {
    var j :| 0 <= j < |kept| && kept[j] == m;
    assert (kept[..i] + kept[i + 1..])[if j < i then j else j - 1] == m;
  }

  /** What is received are the items sent under these numbers, and every other was lost to a full queue. */
  ghost predicate AllAccounted<T>(
    isCritical: T -> bool, maxsize: nat, events: seq<Event<T>>, f: Feed<T>, kept: seq<nat>)
  {
    && NoEnd(f.items) && Numbers(kept, f.sent, Received(f))
    && Accounted(isCritical, maxsize, events, kept, |f.sent|)
  }

  /** Of the numbers received, the broadcast leaves those that the queue still holds and adds its own. */
  lemma BroadcastAccounts<T>(
    isCritical: T -> bool, maxsize: nat, events: seq<Event<T>>, f: Feed<T>, item: T, kept: seq<nat>)
    returns (now: seq<nat>)
    requires f == History(EvictNonCritical(isCritical), maxsize, events) && f.live
    requires EvictingPromise(isCritical, maxsize, f) && AllAccounted(isCritical, maxsize, events, f, kept)
    requires !AfterBroadcast(EvictNonCritical(isCritical), maxsize, f, item).removed
    ensures AllAccounted(isCritical, maxsize, events + [Broadcast(item)],
                         AfterBroadcast(EvictNonCritical(isCritical), maxsize, f, item), now)
  {
    var g := AfterBroadcast(EvictNonCritical(isCritical), maxsize, f, item);
    AccountedOn(isCritical, maxsize, events, Broadcast(item), kept, |f.sent|);
    if !Full(maxsize, f.items) {
      now := kept + [|f.sent|];
      ReceivedAppend(f, g, item);
      NumbersAppend(kept, f.sent, Received(f), item);
    } else if !isCritical(item) {
      now := kept;
      NumbersSkip(kept, f.sent, Received(f), item);
      LostNow(isCritical, maxsize, events, item, |f.sent|);
    } else {
      now := EvictionAccounts(isCritical, maxsize, events, f, item, kept);
    }
  }

  lemma EvictionAccounts<T>(
    isCritical: T -> bool, maxsize: nat, events: seq<Event<T>>, f: Feed<T>, item: T, kept: seq<nat>)
    returns (now: seq<nat>)
    requires f == History(EvictNonCritical(isCritical), maxsize, events) && f.live && Full(maxsize, f.items)
    requires EvictingPromise(isCritical, maxsize, f) && isCritical(item)
    requires AllAccounted(isCritical, maxsize, events + [Broadcast(item)], f, kept)
    requires !AfterBroadcast(EvictNonCritical(isCritical), maxsize, f, item).removed
    ensures AllAccounted(isCritical, maxsize, events + [Broadcast(item)],
                         AfterBroadcast(EvictNonCritical(isCritical), maxsize, f, item), now)
  {
    var g := AfterBroadcast(EvictNonCritical(isCritical), maxsize, f, item);
    var at := EvictingMakesRoom(isCritical, maxsize, f, item);
    ReceivedReplaced(f, g, at, item);
    var i := |f.consumed| + at;
    now := NumbersReplaced(kept, f.sent, Received(f), i, item);
    LostNow(isCritical, maxsize, events, item, kept[i]);
    CutAccounts(isCritical, maxsize, events + [Broadcast(item)], kept, |f.sent|, i);
  }

  /** Taking and leaving move nothing in or out, and a subscriber that left gets nothing more. */
  lemma OthersKeepReceived<T>(policy: Policy<T>, maxsize: nat, f: Feed<T>, event: Event<T>)
    requires NoEnd(f.items) && (event.Take? || event.Leave? || !f.live)
    ensures var g := Happen(policy, maxsize, f, event);
            NoEnd(g.items) && Received(g) == Received(f) && g.sent == f.sent
  {
    if event.Take? && f.items != [] && !f.ended {
      assert Values(f.items) == [f.items[0].value] + Values(AfterTake(f).items);
    }
  }

  lemma EventAccounts<T>(
    isCritical: T -> bool, maxsize: nat, events: seq<Event<T>>, f: Feed<T>, event: Event<T>, kept: seq<nat>)
    returns (now: seq<nat>)
    requires f == History(EvictNonCritical(isCritical), maxsize, events)
    requires EvictingPromise(isCritical, maxsize, f) && AllAccounted(isCritical, maxsize, events, f, kept)
    requires !Happen(EvictNonCritical(isCritical), maxsize, f, event).removed
    ensures AllAccounted(isCritical, maxsize, events + [event],
                         Happen(EvictNonCritical(isCritical), maxsize, f, event), now)
  {
    if event.Broadcast? && f.live {
      now := BroadcastAccounts(isCritical, maxsize, events, f, event.item, kept);
    } else {
      now := kept;
      AccountedOn(isCritical, maxsize, events, event, kept, |f.sent|);
      OthersKeepReceived(EvictNonCritical(isCritical), maxsize, f, event);
    }
  }

  /**
   In every history of a subscriber that is not removed, what it has consumed and what it has queued are
   items sent, in their order, and every other one met or was evicted by a full queue.
   */
  lemma {:induction false} EveryLossHasItsFullQueue<T>(isCritical: T -> bool, maxsize: nat, events: seq<Event<T>>)
    returns (kept: seq<nat>)
    requires !History(EvictNonCritical(isCritical), maxsize, events).removed
    ensures AllAccounted(
              isCritical, maxsize, events, History(EvictNonCritical(isCritical), maxsize, events), kept)
    decreases |events|
  {
    if events == [] {
      kept := [];
      assert Received(Fresh<T>()) == [];
    } else {
      var init, last := events[..|events| - 1], events[|events| - 1];
      var f := History(EvictNonCritical(isCritical), maxsize, init);
      PromiseAlwaysHolds(EvictNonCritical(isCritical), maxsize, init);
      var before := EveryLossHasItsFullQueue(isCritical, maxsize, init);
      kept := EventAccounts(isCritical, maxsize, init, f, last, before);
      assert events == init + [last];
    }
  }
}
