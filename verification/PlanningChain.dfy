/**
 Window-by-window episode planning of one project: every window is a queued task in one of two slots,
 the running window queues its successor into the other slot, and a stop request cancels what is queued
 and keeps the running window from queueing anything more.

 The check for active tasks together with the enqueue, and the whole of a stop, are single steps.
 */
module PlanningChain {
  import opened Wrappers
  import opened TaskGraph

  datatype Slot = First | Second

  datatype Status = Queued | Running | Succeeded | Failed | Cancelled

  /** What a planning request asks for; `chained` says that windows follow one another to the end. */
  datatype Payload = Payload(facts: string, chained: bool)

  /**
   One planning task. `executing` holds from its claim until its handler returns, which is before its
   final status is recorded; `chain` is the id of the window its chain started with.
   */
  datatype Window = Window(
    slot: Slot, status: Status, dependency: Option<TaskId>, payload: Payload, executing: bool, chain: TaskId)

  /** The queue's planning tasks of the project and the process-wide set of stopped windows. */
  datatype Board = Board(windows: map<TaskId, Window>, stopped: set<TaskId>, nextId: TaskId)

  const EMPTY := Board(map[], {}, 0)

  predicate Active(w: Window) { w.status.Queued? || w.status.Running? }

  function Other(slot: Slot): Slot { if slot.First? then Second else First }

  function ActiveIds(b: Board): set<TaskId> {
    set id | id in b.windows && Active(b.windows[id])
  }

  function QueuedIds(b: Board): set<TaskId> {
    set id | id in b.windows && b.windows[id].status.Queued?
  }

  function Dependencies(b: Board): map<TaskId, TaskId> {
    map id | id in b.windows && b.windows[id].dependency.Some? :: b.windows[id].dependency.value
  }

  predicate Occupied(b: Board, slot: Slot) {
    exists id :: id in b.windows && Active(b.windows[id]) && b.windows[id].slot == slot
  }

  // ---- steps -------------------------------------------------------------------------------

  function WithStatus(b: Board, id: TaskId, status: Status): Board
    requires id in b.windows
  {
    b.(windows := b.windows[id := b.windows[id].(status := status, executing := false)])
  }

  function Enqueued(b: Board, w: Window): Board {
    b.(windows := b.windows[b.nextId := w], nextId := b.nextId + 1)
  }

  /** The queued tasks downstream of the task take the given final status with it. */
  ghost function Cascaded(b: Board, id: TaskId, status: Status): Board {
    b.(windows := map k | k in b.windows ::
      if b.windows[k].status.Queued? && Reaches(Dependencies(b), QueuedIds(b), {id}, k)
      then b.windows[k].(status := status)
      else b.windows[k])
  }

  /** Does the request collide with what is active? Only an equal request in the first slot does not. */
  predicate Conflicting(b: Board, payload: Payload) {
    exists id :: id in b.windows && Active(b.windows[id])
                 && (b.windows[id].slot != First || b.windows[id].payload != payload)
  }

  function Started(b: Board, payload: Payload): Board {
    if Conflicting(b, payload) || Occupied(b, First) then b
    else Enqueued(b, Window(First, Queued, None, payload, false, b.nextId))
  }

  predicate Claimable(b: Board, id: TaskId) {
    id in b.windows && b.windows[id].status.Queued?
    && (b.windows[id].dependency.Some? ==>
          b.windows[id].dependency.value in b.windows
          && b.windows[b.windows[id].dependency.value].status.Succeeded?)
  }

  function Claimed(b: Board, id: TaskId): Board
    requires id in b.windows
  {
    b.(windows := b.windows[id := b.windows[id].(status := Running, executing := true)])
  }

  predicate Executing(b: Board, id: TaskId) {
    id in b.windows && b.windows[id].status.Running? && b.windows[id].executing
  }

  /** `queue_next_window`; an occupied slot either absorbs an equal request or refuses a different one. */
  function NextQueued(b: Board, id: TaskId): Board
    requires id in b.windows
  {
    var w := b.windows[id];
    if id in b.stopped || Occupied(b, Other(w.slot)) then b
    else Enqueued(b, Window(Other(w.slot), Queued, Some(id), w.payload, false, w.chain))
  }

  function Returned(b: Board, id: TaskId): Board
    requires id in b.windows
  {
    b.(windows := b.windows[id := b.windows[id].(executing := false)], stopped := b.stopped - {id})
  }

  function Stopped(b: Board): Board {
    b.(windows := map id | id in b.windows ::
         if b.windows[id].status.Queued? then b.windows[id].(status := Cancelled) else b.windows[id],
       stopped := b.stopped + set id | id in b.windows && b.windows[id].status.Running?)
  }

  datatype Step =
    | Start(payload: Payload)
    | Claim(id: TaskId)
    | QueueNext(id: TaskId)
    | Return(id: TaskId)
    | Succeed(id: TaskId)
    | Fail(id: TaskId)
    | CancelQueued(id: TaskId)
    | Interrupt(id: TaskId)
    | Stop

  predicate Enabled(b: Board, step: Step) {
    match step
    case Start(_) => true
    case Claim(id) => Claimable(b, id)
    case QueueNext(id) => Executing(b, id) && b.windows[id].payload.chained
    case Return(id) => Executing(b, id)
    case Succeed(id) => id in b.windows && b.windows[id].status.Running? && !b.windows[id].executing
    case Fail(id) => id in b.windows && b.windows[id].status.Running? && !b.windows[id].executing
    case CancelQueued(id) => id in b.windows && b.windows[id].status.Queued?
    case Interrupt(id) => id in b.windows && Active(b.windows[id])
    case Stop => true
  }

  ghost function Next(b: Board, step: Step): Board
    requires Enabled(b, step)
  {
    match step
    case Start(payload) => Started(b, payload)
    case Claim(id) => Claimed(b, id)
    case QueueNext(id) => NextQueued(b, id)
    case Return(id) => Returned(b, id)
    case Succeed(id) => WithStatus(b, id, Succeeded)
    case Fail(id) => Cascaded(WithStatus(b, id, Failed), id, Failed)
    case CancelQueued(id) => Cascaded(WithStatus(b, id, Cancelled), id, Cancelled)
    case Interrupt(id) => Cascaded(WithStatus(b, id, Cancelled), id, Cancelled)
    case Stop => Stopped(b)
  }

  ghost predicate IsRun(b: Board, steps: seq<Step>)
    decreases |steps|
  {
    steps == [] || (Enabled(b, steps[0]) && IsRun(Next(b, steps[0]), steps[1..]))
  }

  ghost function Run(b: Board, steps: seq<Step>): Board
    requires IsRun(b, steps)
    decreases |steps|
  {
    if steps == [] then b else Run(Next(b, steps[0]), steps[1..])
  }

  // ---- the queue as the service holds it ---------------------------------------------------

  datatype Submitted = Conflict | Joined | Accepted(id: TaskId)

  class PlanningQueue {
    var windows: map<TaskId, Window>
    var stopped: set<TaskId>
    var nextId: TaskId

    ghost function Value(): Board
      reads this
    {
      Board(windows, stopped, nextId)
    }

    constructor ()
      ensures Value() == EMPTY
    {
      windows, stopped, nextId := map[], {}, 0;
    }

    method Enqueue(w: Window) returns (id: TaskId)
      modifies this
      ensures id == old(nextId) && Value() == Enqueued(old(Value()), w)
    {
      id := nextId;
      windows := windows[id := w];
      nextId := nextId + 1;
    }

    /** It is in the other slot or was asked for differently. */
    static predicate Differs(w: Window, payload: Payload) { w.slot == Second || w.payload != payload }

    /** `start_episode_planning` through the submission's conflict check. */
    method Start(payload: Payload) returns (submitted: Submitted)
      modifies this
      ensures Value() == Started(old(Value()), payload)
      ensures submitted.Conflict? <==> Conflicting(old(Value()), payload)
      ensures submitted.Accepted? <==> Value() != old(Value())
      ensures submitted.Accepted? ==> submitted.id == old(nextId)
      ensures var active := ActiveIds(old(Value()));
              && (submitted.Accepted? <==> active == {})
              && (submitted.Conflict? <==> exists id :: id in active && Differs(old(windows)[id], payload))
    {
      var b := Board(windows, stopped, nextId);
      if exists id :: id in windows && Active(windows[id])
                      && (windows[id].slot != First || windows[id].payload != payload) {
        ghost var other :| other in windows && Active(windows[other])
                           && (windows[other].slot != First || windows[other].payload != payload);
        assert other in ActiveIds(b);
        return Conflict;
      }
      if exists id :: id in windows && Active(windows[id]) && windows[id].slot == First {
        ghost var other :| other in windows && Active(windows[other]) && windows[other].slot == First;
        assert other in ActiveIds(b);
        return Joined;
      }
      var id := Enqueue(Window(First, Queued, None, payload, false, nextId));
      return Accepted(id);
    }

    /** `_PlanningChain.queue_next_window` of the running window. */
    method QueueNext(id: TaskId)
      requires Enabled(Value(), Step.QueueNext(id))
      modifies this
      ensures Value() == NextQueued(old(Value()), id)
    {
      if id in stopped {
        return;
      }
      var w := windows[id];
      var slot := if w.slot == First then Second else First;
      if exists k :: k in windows && Active(windows[k]) && windows[k].slot == slot {
        return;
      }
      var next := Enqueue(Window(slot, Queued, Some(id), w.payload, false, w.chain));
    }

    /** Cancelling a queued task takes its queued downstream along; a task no longer queued is left alone. */
    method CancelTask(id: TaskId) returns (cancelled: bool)
      requires id in windows
      modifies this`windows
      ensures cancelled == old(windows)[id].status.Queued?
      ensures cancelled ==> Value() == Cascaded(WithStatus(old(Value()), id, Cancelled), id, Cancelled)
      ensures !cancelled ==> windows == old(windows)
    {
      cancelled := windows[id].status.Queued?;
      if cancelled {
        windows := windows[id := windows[id].(status := Cancelled, executing := false)];
        var b := Board(windows, stopped, nextId);
        var downstream := Downstream(Dependencies(b), QueuedIds(b), {id});
        windows := map k | k in windows ::
          if windows[k].status.Queued? && k in downstream then windows[k].(status := Cancelled) else windows[k];
      }
    }

    /** `stop_episode_planning` */
    method Stop() returns (cancelled: set<TaskId>, running: set<TaskId>)
      requires forall id :: id in windows && windows[id].status.Queued? ==> !windows[id].executing
      modifies this
      ensures Value() == Stopped(old(Value()))
      ensures cancelled == QueuedIds(old(Value())) && running == ActiveIds(old(Value())) - cancelled
    {
      var active := ActiveIds(Board(windows, stopped, nextId));
      var snapshot := windows;
      ghost var before := Value();
      var todo := active;
      ghost var handled: set<TaskId> := {};
      cancelled, running := {}, {};
      while todo != {}
        invariant todo !! handled && todo + handled == active
        invariant nextId == before.nextId && stopped == before.stopped + running
        invariant Stopping(snapshot, windows, handled)
        invariant cancelled + running == handled && Sorted(snapshot, cancelled, running)
      {
        var id :| id in todo;
        StoppingOn(Board(windows, stopped, nextId), snapshot, handled, id);
        todo, handled := todo - {id}, handled + {id};
        if snapshot[id].status.Queued? {
          var done := CancelTask(id);
          cancelled := cancelled + {id};
        } else {
          running := running + {id};
          stopped := stopped + {id};
        }
      }
      StoppingEnds(before, windows);
      SortedAll(before, cancelled, running);
    }
  }

  /** The cancelled were queued, the running were not. */
  predicate Sorted(before: map<TaskId, Window>, cancelled: set<TaskId>, running: set<TaskId>) {
    && (forall id :: id in cancelled ==> id in before && before[id].status.Queued?)
    && (forall id :: id in running ==> id in before && before[id].status.Running?)
  }

  lemma SortedAll(before: Board, cancelled: set<TaskId>, running: set<TaskId>)
    requires Sorted(before.windows, cancelled, running) && cancelled + running == ActiveIds(before)
    ensures cancelled == QueuedIds(before) && running == ActiveIds(before) - cancelled
    ensures running == set id | id in before.windows && before.windows[id].status.Running?
  {}

  /** Some queued windows are cancelled by now, those handled already among them; nothing else changed. */
  ghost predicate Stopping(before: map<TaskId, Window>, now: map<TaskId, Window>, handled: set<TaskId>) {
    && now.Keys == before.Keys
    && (forall id :: id in now ==>
          now[id] == before[id] || (before[id].status.Queued? && now[id] == before[id].(status := Cancelled)))
    && (forall id :: id in handled && id in before && before[id].status.Queued? ==> now[id].status.Cancelled?)
  }

  lemma StoppingOn(b: Board, before: map<TaskId, Window>, handled: set<TaskId>, id: TaskId)
    requires Stopping(before, b.windows, handled) && id in before
    requires before[id].status.Queued? ==> !before[id].executing
    ensures b.windows[id].status.Queued? ==>
              Stopping(before, Cascaded(WithStatus(b, id, Cancelled), id, Cancelled).windows, handled + {id})
    ensures !b.windows[id].status.Queued? ==> Stopping(before, b.windows, handled + {id})
  {}

  lemma StoppingEnds(before: Board, now: map<TaskId, Window>)
    requires Stopping(before.windows, now, ActiveIds(before))
    ensures now == Stopped(before).windows
  {}

  // ---- at most one window runs -------------------------------------------------------------

  /** `y` waits in the queue for the running window `x`. */
  predicate WaitsFor(b: Board, y: TaskId, x: TaskId)
    requires x in b.windows && y in b.windows
  {
    b.windows[y].status.Queued? && b.windows[y].dependency == Some(x) && b.windows[x].status.Running?
  }

  ghost predicate IdsIssued(b: Board) {
    forall id :: id in b.windows ==>
      id < b.nextId && b.windows[id].chain < b.nextId && (b.windows[id].executing ==> b.windows[id].status.Running?)
  }

  /** An active window's predecessor has succeeded or is the running one it waits for. */
  ghost predicate DependenciesOpen(b: Board) {
    forall id :: id in b.windows && Active(b.windows[id]) && b.windows[id].dependency.Some? ==>
      var d := b.windows[id].dependency.value;
      d in b.windows && (b.windows[d].status.Succeeded? || WaitsFor(b, id, d))
  }

  /** Of two active windows, in different slots, one runs and the other waits for it. */
  ghost predicate Paired(b: Board) {
    forall x, y :: x in b.windows && y in b.windows && x != y && Active(b.windows[x]) && Active(b.windows[y]) ==>
      b.windows[x].slot != b.windows[y].slot && (WaitsFor(b, y, x) || WaitsFor(b, x, y))
  }

  ghost predicate Inv(b: Board) { IdsIssued(b) && DependenciesOpen(b) && Paired(b) }

  /** At most one window runs and each slot holds at most one active task. */
  ghost predicate OneAtATime(b: Board) {
    forall x, y :: x in b.windows && y in b.windows && x != y ==>
      && !(b.windows[x].status.Running? && b.windows[y].status.Running?)
      && !(Active(b.windows[x]) && Active(b.windows[y]) && b.windows[x].slot == b.windows[y].slot)
  }

  lemma PairedIsSerial(b: Board)
    requires Paired(b)
    ensures OneAtATime(b)
  {}

  /** A board in which some windows of the other, the waiting ones of `id` among them, became inactive. */
  ghost predicate Shrunk(b: Board, after: Board, id: TaskId) {
    && after.windows.Keys == b.windows.Keys && after.nextId == b.nextId && id in b.windows
    && Active(b.windows[id]) && !Active(after.windows[id])
    && (forall k :: k in b.windows ==>
          after.windows[k] == b.windows[k]
          || (!Active(after.windows[k]) && !after.windows[k].executing && after.windows[k].chain == b.windows[k].chain
              && (b.windows[k].status.Queued? || k == id)))
    && (forall k :: k in b.windows && b.windows[k].status.Queued? && b.windows[k].dependency == Some(id) ==>
          !Active(after.windows[k]))
  }

  lemma ShrinkingKeepsOpen(b: Board, after: Board, id: TaskId)
    requires DependenciesOpen(b) && Shrunk(b, after, id)
    ensures DependenciesOpen(after)
  {}

  /** Only the window the leaving one waited for may be left active. */
  lemma ShrinkingKeepsPaired(b: Board, after: Board, id: TaskId)
    requires Paired(b) && Shrunk(b, after, id)
    ensures Paired(after)
  {
    forall x | x in after.windows && Active(after.windows[x])
      ensures b.windows[id].dependency == Some(x)
    {
      assert after.windows[x] == b.windows[x] && x != id;
      assert WaitsFor(b, x, id) || WaitsFor(b, id, x);
    }
  }

  lemma ShrinkingKeepsInv(b: Board, after: Board, id: TaskId)
    requires Inv(b) && Shrunk(b, after, id)
    ensures Inv(after)
  {
    ShrinkingKeepsOpen(b, after, id);
    ShrinkingKeepsPaired(b, after, id);
  }

  /** When a window leaves, whatever waited for it leaves with it. */
  lemma CascadeShrinks(b: Board, id: TaskId, status: Status)
    requires Inv(b) && id in b.windows && Active(b.windows[id])
    requires status.Failed? || status.Cancelled?
    ensures Shrunk(b, Cascaded(WithStatus(b, id, status), id, status), id)
  {
    var left := WithStatus(b, id, status);
    var after := Cascaded(left, id, status);
    assert after.windows[id] == left.windows[id];
    forall y | y in b.windows && b.windows[y].status.Queued? && b.windows[y].dependency == Some(id)
      ensures !Active(after.windows[y])
    {
      if y != id {
        RootReaches(Dependencies(left), QueuedIds(left), {id}, id);
        StepReaches(Dependencies(left), QueuedIds(left), {id}, y);
      }
    }
  }

  lemma LeavingKeepsInv(b: Board, id: TaskId, status: Status)
    requires Inv(b) && id in b.windows && Active(b.windows[id])
    requires status.Failed? || status.Cancelled?
    ensures Inv(Cascaded(WithStatus(b, id, status), id, status))
  {
    CascadeShrinks(b, id, status);
    ShrinkingKeepsInv(b, Cascaded(WithStatus(b, id, status), id, status), id);
  }

  lemma StartKeepsInv(b: Board, payload: Payload)
    requires Inv(b)
    ensures Inv(Started(b, payload))
  {
    if !Conflicting(b, payload) && !Occupied(b, First) {
      assert forall id :: id in b.windows ==> !Active(b.windows[id]);
      assert IdsIssued(Started(b, payload)) && DependenciesOpen(Started(b, payload)) && Paired(Started(b, payload));
    }
  }

  lemma ClaimKeepsInv(b: Board, id: TaskId)
    requires Inv(b) && Claimable(b, id)
    ensures Inv(Claimed(b, id))
  {
    forall y | y in b.windows && y != id ensures !Active(b.windows[y]) {}
    var after := Claimed(b, id);
    assert IdsIssued(after) && DependenciesOpen(after) && Paired(after);
  }

  lemma QueueNextKeepsInv(b: Board, id: TaskId)
    requires Inv(b) && Executing(b, id)
    ensures Inv(NextQueued(b, id))
  {
    var slot, after := Other(b.windows[id].slot), NextQueued(b, id);
    if id !in b.stopped && !Occupied(b, slot) {
      forall y | y in b.windows && y != id ensures !Active(b.windows[y]) {
        assert Active(b.windows[y]) ==> b.windows[y].slot == slot;
      }
      assert IdsIssued(after) && DependenciesOpen(after) && Paired(after);
    }
  }

  lemma SucceedKeepsOpen(b: Board, id: TaskId)
    requires DependenciesOpen(b) && id in b.windows && b.windows[id].status.Running?
    ensures DependenciesOpen(WithStatus(b, id, Succeeded))
  {}

  lemma SucceedKeepsPaired(b: Board, id: TaskId)
    requires Paired(b) && id in b.windows && b.windows[id].status.Running?
    ensures Paired(WithStatus(b, id, Succeeded))
  {}

  lemma SucceedKeepsInv(b: Board, id: TaskId)
    requires Inv(b) && id in b.windows && b.windows[id].status.Running?
    ensures Inv(WithStatus(b, id, Succeeded))
  {
    SucceedKeepsOpen(b, id);
    SucceedKeepsPaired(b, id);
  }

  /** Windows at most lose their place in the queue or stop executing; nothing else about them changes. */
  ghost predicate Calmer(b: Board, after: Board) {
    && after.windows.Keys == b.windows.Keys && after.nextId == b.nextId
    && forall id :: id in b.windows ==> CalmerWindow(b.windows[id], after.windows[id])
  }

  predicate CalmerWindow(w: Window, after: Window) {
    && after == w.(status := after.status, executing := after.executing)
    && (after.status == w.status || (w.status.Queued? && after.status.Cancelled?))
    && (after.executing ==> w.executing)
  }

  lemma CalmerKeepsOpen(b: Board, after: Board)
    requires DependenciesOpen(b) && Calmer(b, after)
    ensures DependenciesOpen(after)
  {
    forall id | id in after.windows && Active(after.windows[id]) && after.windows[id].dependency.Some?
      ensures var d := after.windows[id].dependency.value;
              d in after.windows && (after.windows[d].status.Succeeded? || WaitsFor(after, id, d))
    {
      assert CalmerWindow(b.windows[id], after.windows[id]);
      var d := b.windows[id].dependency.value;
      assert CalmerWindow(b.windows[d], after.windows[d]);
    }
  }

  lemma CalmerKeepsPaired(b: Board, after: Board)
    requires Paired(b) && Calmer(b, after)
    ensures Paired(after)
  {
    forall x, y |
      x in after.windows && y in after.windows && x != y && Active(after.windows[x]) && Active(after.windows[y])
      ensures after.windows[x].slot != after.windows[y].slot && (WaitsFor(after, y, x) || WaitsFor(after, x, y))
    {
      assert CalmerWindow(b.windows[x], after.windows[x]) && CalmerWindow(b.windows[y], after.windows[y]);
    }
  }

  lemma ReturnKeepsInv(b: Board, id: TaskId)
    requires Inv(b) && Executing(b, id)
    ensures Inv(Returned(b, id))
  {
    CalmerKeepsOpen(b, Returned(b, id));
    CalmerKeepsPaired(b, Returned(b, id));
  }

  lemma StopKeepsInv(b: Board)
    requires Inv(b)
    ensures Inv(Stopped(b))
  {
    CalmerKeepsOpen(b, Stopped(b));
    CalmerKeepsPaired(b, Stopped(b));
  }

  lemma NextKeepsInv(b: Board, step: Step)
    requires Inv(b) && Enabled(b, step)
    ensures Inv(Next(b, step))
  {
    match step
    case Start(payload) => StartKeepsInv(b, payload);
    case Claim(id) => ClaimKeepsInv(b, id);
    case QueueNext(id) => QueueNextKeepsInv(b, id);
    case Return(id) => ReturnKeepsInv(b, id);
    case Succeed(id) => SucceedKeepsInv(b, id);
    case Fail(id) => LeavingKeepsInv(b, id, Failed);
    case CancelQueued(id) => LeavingKeepsInv(b, id, Cancelled);
    case Interrupt(id) => LeavingKeepsInv(b, id, Cancelled);
    case Stop => StopKeepsInv(b);
  }

  lemma {:induction false} RunKeepsInv(b: Board, steps: seq<Step>)
    requires Inv(b) && IsRun(b, steps)
    ensures Inv(Run(b, steps))
    decreases |steps|
  {
    if steps != [] {
      NextKeepsInv(b, steps[0]);
      RunKeepsInv(Next(b, steps[0]), steps[1..]);
    }
  }

  /** In every reachable state at most one planning window runs and no slot holds two active tasks. */
  lemma PlanningIsSerial(steps: seq<Step>)
    requires IsRun(EMPTY, steps)
    ensures OneAtATime(Run(EMPTY, steps))
  {
    RunKeepsInv(EMPTY, steps);
    PairedIsSerial(Run(EMPTY, steps));
  }

  // ---- after a stop ------------------------------------------------------------------------

  /** No window of the chain waits, and none that still executes may queue a successor. */
  ghost predicate Quiet(b: Board, chain: TaskId) {
    forall id :: id in b.windows && b.windows[id].chain == chain ==>
      !b.windows[id].status.Queued? && (b.windows[id].executing ==> id in b.stopped)
  }

  /** Nothing of the chain is new since `before`, and nothing of it runs that did not run then. */
  ghost predicate NothingBegins(before: Board, b: Board, chain: TaskId) {
    forall id :: id in b.windows && b.windows[id].chain == chain ==>
      id in before.windows && before.windows[id].chain == chain
      && (b.windows[id].status.Running? ==> before.windows[id].status.Running?)
  }

  lemma QuietStays(b: Board, step: Step, chain: TaskId)
    requires Inv(b) && Enabled(b, step) && chain < b.nextId && Quiet(b, chain)
    ensures Quiet(Next(b, step), chain) && NothingBegins(b, Next(b, step), chain) && b.nextId <= Next(b, step).nextId
  {
    match step
    case Fail(id) => QuietLeaving(b, id, Failed, chain);
    case CancelQueued(id) => QuietLeaving(b, id, Cancelled, chain);
    case Interrupt(id) => QuietLeaving(b, id, Cancelled, chain);
    case _ =>
  }

  lemma QuietLeaving(b: Board, id: TaskId, status: Status, chain: TaskId)
    requires id in b.windows && Quiet(b, chain) && (status.Failed? || status.Cancelled?)
    ensures var after := Cascaded(WithStatus(b, id, status), id, status);
            Quiet(after, chain) && NothingBegins(b, after, chain)
  {}

  lemma {:induction false} QuietForGood(b: Board, steps: seq<Step>, chain: TaskId)
    requires Inv(b) && IsRun(b, steps) && chain < b.nextId && Quiet(b, chain)
    ensures NothingBegins(b, Run(b, steps), chain) && Quiet(Run(b, steps), chain)
    decreases |steps|
  {
    if steps != [] {
      NextKeepsInv(b, steps[0]);
      QuietStays(b, steps[0], chain);
      QuietForGood(Next(b, steps[0]), steps[1..], chain);
    }
  }

  /**
   After a stop, whatever happens next, no window of any chain there was at that point is queued, may queue
   a successor or begins any more; the window that was running is left running by the stop itself.
   */
  lemma StopEndsEveryChain(before: seq<Step>, after: seq<Step>, chain: TaskId)
    requires IsRun(EMPTY, before) && IsRun(Stopped(Run(EMPTY, before)), after)
    requires chain < Run(EMPTY, before).nextId
    ensures var b := Run(EMPTY, before);
            NothingBegins(b, Run(Stopped(b), after), chain) && Quiet(Run(Stopped(b), after), chain)
            && forall id :: id in b.windows && b.windows[id].status.Running? ==>
                 Stopped(b).windows[id] == b.windows[id]
  {
    var b := Run(EMPTY, before);
    RunKeepsInv(EMPTY, before);
    NextKeepsInv(b, Stop);
    QuietForGood(Stopped(b), after, chain);
  }

  /** The window running at a stop can still finish: return, and then succeed. */
  lemma RunningWindowCompletes(b: Board, id: TaskId)
    requires Inv(b) && Executing(b, id)
    ensures Enabled(Stopped(b), Return(id)) && Enabled(Returned(Stopped(b), id), Succeed(id))
    ensures Next(Returned(Stopped(b), id), Succeed(id)).windows[id].status == Succeeded
  {}

  /**
   Asking for the same planning again while the stopped window still runs in the first slot changes
   nothing: the request is absorbed by that window, which queues no successor.
   */
  lemma RestartIsAbsorbed(b: Board, id: TaskId)
    requires Inv(b) && Executing(b, id) && b.windows[id].slot == First
    ensures Started(Stopped(b), b.windows[id].payload) == Stopped(b)
    ensures NextQueued(Stopped(b), id) == Stopped(b)
  {
    var s := Stopped(b);
    assert s.windows[id] == b.windows[id];
    assert Occupied(s, First);
  }

  // ---- planning goes on --------------------------------------------------------------------

  /** Exactly one window more, under a new id; every other window and the stopped ones are as before. */
  ghost predicate OneMore(b: Board, after: Board, id: TaskId) {
    && id !in b.windows && after.windows.Keys == b.windows.Keys + {id}
    && (forall k :: k in b.windows ==> after.windows[k] == b.windows[k])
    && after.stopped == b.stopped
  }

  /** Some other window is active in the slot this one leaves free. */
  ghost predicate OtherSlotTaken(b: Board, id: TaskId)
    requires id in b.windows
  {
    exists k :: k in b.windows && Active(b.windows[k]) && b.windows[k].slot != b.windows[id].slot
  }

  /** `k` is the successor queued for `id`. */
  predicate IsSuccessor(b: Board, k: TaskId, id: TaskId) {
    && k in b.windows && id in b.windows
    && b.windows[k].status.Queued? && !b.windows[k].executing
    && b.windows[k].slot != b.windows[id].slot && b.windows[k].dependency == Some(id)
    && b.windows[k].payload == b.windows[id].payload && b.windows[k].chain == b.windows[id].chain
  }

  /** An executing window queues its successor exactly when it is not stopped and the other slot is free. */
  lemma SuccessorIsQueued(b: Board, id: TaskId)
    requires Inv(b) && Enabled(b, QueueNext(id))
    ensures var after := Next(b, QueueNext(id));
            if id in b.stopped || OtherSlotTaken(b, id) then after == b
            else exists k :: OneMore(b, after, k) && IsSuccessor(after, k, id)
  {
    var slot := Other(b.windows[id].slot);
    assert Occupied(b, slot) <==> OtherSlotTaken(b, id);
    if id !in b.stopped && !Occupied(b, slot) {
      var after := Next(b, QueueNext(id));
      assert after == Enqueued(b, Window(slot, Queued, Some(id), b.windows[id].payload, false, b.windows[id].chain));
      assert OneMore(b, after, b.nextId) && IsSuccessor(after, b.nextId, id);
    }
  }

  /** A request starts a chain exactly when nothing is active: one queued window in the first slot. */
  lemma PlanningIsStarted(b: Board, payload: Payload)
    requires Inv(b)
    ensures var after := Started(b, payload);
            if exists id :: id in b.windows && Active(b.windows[id]) then after == b
            else
              exists k :: OneMore(b, after, k) && after.windows[k].status.Queued? && !after.windows[k].executing
                && after.windows[k].slot == First && after.windows[k].dependency == None
                && after.windows[k].payload == payload && after.windows[k].chain == k
  {
    if id :| id in b.windows && Active(b.windows[id]) {
      assert b.windows[id].slot != First ==> Conflicting(b, payload);
    } else {
      assert OneMore(b, Started(b, payload), b.nextId);
    }
  }

  /** Only this window changes, and only in status and in whether it executes. */
  ghost predicate OnlyTurns(b: Board, after: Board, id: TaskId, status: Status, executing: bool) {
    && id in b.windows && after.windows.Keys == b.windows.Keys
    && after.windows[id] == b.windows[id].(status := status, executing := executing)
    && forall k :: k in b.windows && k != id ==> after.windows[k] == b.windows[k]
  }

  /** A window of any status runs through claim, return and success without touching another. */
  lemma WindowsTurnAlone(b: Board, id: TaskId)
    requires id in b.windows
    ensures OnlyTurns(b, Claimed(b, id), id, Running, true) && Claimed(b, id).stopped == b.stopped
    ensures OnlyTurns(b, Returned(b, id), id, b.windows[id].status, false)
    ensures Returned(b, id).stopped == b.stopped - {id}
    ensures OnlyTurns(b, WithStatus(b, id, Succeeded), id, Succeeded, false)
    ensures WithStatus(b, id, Succeeded).stopped == b.stopped
  {}

  /** When a window leaves, exactly those leave with it from which queued dependencies lead to it. */
  lemma LeavesWithItsDownstream(b: Board, id: TaskId, status: Status, k: TaskId)
    requires id in b.windows && k in b.windows && (status.Failed? || status.Cancelled?)
    ensures var left := WithStatus(b, id, status);
            var after := Cascaded(left, id, status);
            && OnlyTurns(b, left, id, status, false)
            && after.windows.Keys == b.windows.Keys && after.stopped == b.stopped
            && after.windows[k]
            == if left.windows[k].status.Queued?
                  && exists path :: ChainTo(Dependencies(left), QueuedIds(left), {id}, path) && path[0] == k
               then left.windows[k].(status := status) else left.windows[k]
  {}

  /** Every stopped window is known. */
  ghost predicate StoppedKnown(b: Board) { b.stopped <= b.windows.Keys }

  lemma {:induction false} RunKeepsStoppedKnown(b: Board, steps: seq<Step>)
    requires StoppedKnown(b) && IsRun(b, steps)
    ensures StoppedKnown(Run(b, steps))
    decreases |steps|
  {
    if steps != [] {
      RunKeepsStoppedKnown(Next(b, steps[0]), steps[1..]);
    }
  }

  /** No stop, failure or cancellation. */
  predicate Undisturbed(steps: seq<Step>) {
    forall i :: 0 <= i < |steps| ==> Calm(steps[i])
  }

  predicate Calm(step: Step) { !(step.Stop? || step.Fail? || step.CancelQueued? || step.Interrupt?) }

  /** It waits for a window that runs or has succeeded. */
  predicate Waiting(b: Board, k: TaskId, id: TaskId) {
    && k in b.windows && id in b.windows && b.windows[k].status.Queued? && b.windows[k].dependency == Some(id)
    && (b.windows[id].status.Running? || b.windows[id].status.Succeeded?)
  }

  lemma WaitingStays(b: Board, step: Step, k: TaskId, id: TaskId)
    requires Inv(b) && Enabled(b, step) && Calm(step) && step != Claim(k) && Waiting(b, k, id)
    ensures Waiting(Next(b, step), k, id) && Next(b, step).windows[k] == b.windows[k]
    ensures b.windows[id].status.Succeeded? ==> Next(b, step).windows[id].status.Succeeded?
  {}

  /**
   In every undisturbed run a successor keeps its place until it is claimed, and it can be claimed as soon as
   the window it waits for has succeeded.
   */
  lemma {:induction false} SuccessorBecomesClaimable(b: Board, steps: seq<Step>, k: TaskId, id: TaskId)
    requires Inv(b) && IsRun(b, steps) && Undisturbed(steps) && Claim(k) !in steps && Waiting(b, k, id)
    ensures var end := Run(b, steps);
            && Waiting(end, k, id) && end.windows[k] == b.windows[k]
            && (Enabled(end, Claim(k)) <==> end.windows[id].status.Succeeded?)
    ensures Succeed(id) in steps ==> Run(b, steps).windows[id].status.Succeeded?
    ensures b.windows[id].status.Succeeded? ==> Run(b, steps).windows[id].status.Succeeded?
    decreases |steps|
  {
    if steps != [] {
      var next := Next(b, steps[0]);
      NextKeepsInv(b, steps[0]);
      WaitingStays(b, steps[0], k, id);
      assert steps == [steps[0]] + steps[1..];
      SuccessorBecomesClaimable(next, steps[1..], k, id);
    }
  }

  /** It executes a chained window that may queue its successor. */
  ghost predicate MayGoOn(b: Board, id: TaskId) {
    && Inv(b) && StoppedKnown(b) && Enabled(b, QueueNext(id)) && id !in b.stopped && !OtherSlotTaken(b, id)
  }

  /** The steps by which one window hands over to the next. */
  function Handover(id: TaskId, k: TaskId): seq<Step> { [QueueNext(id), Return(id), Succeed(id), Claim(k)] }

  lemma OneStep(b: Board, step: Step, rest: seq<Step>)
    requires Enabled(b, step) && IsRun(Next(b, step), rest)
    ensures IsRun(b, [step] + rest) && Run(b, [step] + rest) == Run(Next(b, step), rest)
  {
    assert ([step] + rest)[1..] == rest;
  }

  lemma HandoverRuns(b: Board, id: TaskId, k: TaskId)
    requires Enabled(b, QueueNext(id))
    requires var queued := Next(b, QueueNext(id));
             && Enabled(queued, Return(id)) && Enabled(Next(queued, Return(id)), Succeed(id))
             && Enabled(Next(Next(queued, Return(id)), Succeed(id)), Claim(k))
    ensures IsRun(b, Handover(id, k))
    ensures Run(b, Handover(id, k))
         == Next(Next(Next(Next(b, QueueNext(id)), Return(id)), Succeed(id)), Claim(k))
  {
    var queued := Next(b, QueueNext(id));
    var returned := Next(queued, Return(id));
    OneStep(Next(returned, Succeed(id)), Claim(k), []);
    OneStep(returned, Succeed(id), [Claim(k)] + []);
    OneStep(queued, Return(id), [Succeed(id)] + ([Claim(k)] + []));
    OneStep(b, QueueNext(id), [Return(id)] + ([Succeed(id)] + ([Claim(k)] + [])));
    assert Handover(id, k) == [QueueNext(id)] + ([Return(id)] + ([Succeed(id)] + ([Claim(k)] + [])));
  }

  /** Only the new window is active in the end, and it waits for nobody. */
  lemma AloneInTheEnd(b: Board, end: Board, k: TaskId)
    requires Inv(b) && Inv(end) && k !in b.windows && k in end.windows && end.windows[k].status.Running?
    requires forall j :: j in end.windows && j != k ==>
               j in b.windows && (end.windows[j] == b.windows[j] || !Active(end.windows[j]))
    ensures !OtherSlotTaken(end, k)
  {
    forall j | j in end.windows && Active(end.windows[j]) ensures j == k {
      if j != k {
        assert false;
      }
    }
  }

  /** The four steps leave the window succeeded and its successor running, everything else as it was. */
  ghost predicate HandedOver(b: Board, end: Board, id: TaskId, k: TaskId)
    requires id in b.windows
  {
    && k !in b.windows && end.windows.Keys == b.windows.Keys + {k} && end.stopped == b.stopped - {id}
    && end.windows[id] == b.windows[id].(status := Succeeded, executing := false)
    && end.windows[k]
    == Window(Other(b.windows[id].slot), Running, Some(id), b.windows[id].payload, true, b.windows[id].chain)
    && forall j :: j in b.windows && j != id ==> end.windows[j] == b.windows[j]
  }

  lemma HandsOver(b: Board, id: TaskId) returns (k: TaskId)
    requires Inv(b) && Enabled(b, QueueNext(id)) && id !in b.stopped && !OtherSlotTaken(b, id)
    ensures IsRun(b, Handover(id, k)) && HandedOver(b, Run(b, Handover(id, k)), id, k)
  {
    SuccessorIsQueued(b, id);
    var queued := Next(b, QueueNext(id));
    k :| OneMore(b, queued, k) && IsSuccessor(queued, k, id);
    var returned := Next(queued, Return(id));
    WindowsTurnAlone(queued, id);
    WindowsTurnAlone(returned, id);
    var done := Next(returned, Succeed(id));
    WindowsTurnAlone(done, k);
    HandoverRuns(b, id, k);
  }

  /** Planning continues: from any window that may go on, the next one comes to execute and may go on too. */
  lemma PlanningGoesOn(b: Board, id: TaskId) returns (k: TaskId)
    requires MayGoOn(b, id)
    ensures IsRun(b, Handover(id, k)) && HandedOver(b, Run(b, Handover(id, k)), id, k)
    ensures MayGoOn(Run(b, Handover(id, k)), k)
  {
    k := HandsOver(b, id);
    var end := Run(b, Handover(id, k));
    RunKeepsInv(b, Handover(id, k));
    RunKeepsStoppedKnown(b, Handover(id, k));
    AloneInTheEnd(b, end, k);
  }

  /** A first window claimed may go on, so chains of any length are reachable: `n` windows done, the next executing. */
  lemma {:induction false} PlanningReachesAnyWindow(payload: Payload, n: nat)
    returns (steps: seq<Step>, last: TaskId)
    requires payload.chained
    ensures IsRun(EMPTY, steps)
    ensures var b := Run(EMPTY, steps);
            && MayGoOn(b, last) && b.windows[last].payload == payload && |b.windows| == n + 1
            && forall k :: k in b.windows && k != last ==> b.windows[k].status.Succeeded?
  {
    if n == 0 {
      var started := Next(EMPTY, Start(payload));
      steps, last := [Start(payload)] + ([Claim(0)] + []), 0;
      OneStep(started, Claim(0), []);
      OneStep(EMPTY, Start(payload), [Claim(0)] + []);
      RunKeepsInv(EMPTY, steps);
    } else {
      var before, id := PlanningReachesAnyWindow(payload, n - 1);
      var b := Run(EMPTY, before);
      last := PlanningGoesOn(b, id);
      steps := before + Handover(id, last);
      RunConcat(EMPTY, before, Handover(id, last));
    }
  }

  lemma {:induction false} RunConcat(b: Board, first: seq<Step>, second: seq<Step>)
    requires IsRun(b, first) && IsRun(Run(b, first), second)
    ensures IsRun(b, first + second) && Run(b, first + second) == Run(Run(b, first), second)
    decreases |first|
  {
    if first == [] {
      assert first + second == second;
    } else {
      assert (first + second)[1..] == first[1..] + second;
      RunConcat(Next(b, first[0]), first[1..], second);
    }
  }
}
