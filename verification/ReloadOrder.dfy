/**
 Reloading a table into memory after each commit, with reloads overlapping: the read that began later
 wins. A reload is cut at its one suspension point, the read, into `Begin` and `Finish`.
 */
module ReloadOrder {
  import opened Wrappers

  /** A reload that finished reading installs unless one that began later has installed already. */
  predicate Admits(installed: int, ticket: nat) { installed <= ticket }

  class LatestReadWins<T> {
    var started: nat
    var installed: int
    /** What the install effect last put in place. */
    var content: Option<T>

    constructor ()
      ensures started == 0 && installed == -1 && content == None
    {
      started, installed, content := 0, -1, None;
    }

    method Begin() returns (ticket: nat)
      modifies this`started
      ensures ticket == old(started) && started == old(started) + 1
    {
      ticket := started;
      started := started + 1;
    }

    method Finish(ticket: nat, loaded: T)
      modifies this`installed, this`content
      ensures Admits(old(installed), ticket) ==> installed == ticket && content == Some(loaded)
      ensures !Admits(old(installed), ticket) ==> installed == old(installed) && content == old(content)
    {
      if ticket < installed {
        return;
      }
      installed := ticket;
      content := Some(loaded);
    }
  }

  // ---- every interleaving ------------------------------------------------------------------

  datatype Phase = Reading | Loaded(seen: nat) | Finished | Failed

  /** One reload: how many commits the table had when it began, and how far it got. */
  datatype Reload = Reload(began: nat, phase: Phase)

  datatype Install = Install(ticket: nat, seen: nat)

  /** The table counts its commits; content is the number of commits the installed copy reflects. */
  datatype World = World(
    table: nat,
    installed: int,
    content: Option<nat>,
    reloads: seq<Reload>,
    installs: seq<Install>)

  datatype Step =
    | Commit
    | Begin
    | Read(ticket: nat)
    | Fail(ticket: nat)
    | Finish(ticket: nat)

  const INITIAL := World(0, -1, None, [], [])

  predicate Enabled(w: World, step: Step) {
    match step
    case Commit => true
    case Begin => true
    case Read(t) => t < |w.reloads| && w.reloads[t].phase.Reading?
    case Fail(t) => t < |w.reloads| && w.reloads[t].phase.Reading?
    case Finish(t) => t < |w.reloads| && w.reloads[t].phase.Loaded?
  }

  function WithPhase(w: World, t: nat, phase: Phase): World
    requires t < |w.reloads|
  {
    w.(reloads := w.reloads[t := w.reloads[t].(phase := phase)])
  }

  function Next(w: World, step: Step): World
    requires Enabled(w, step)
  {
    match step
    case Commit => w.(table := w.table + 1)
    case Begin => w.(reloads := w.reloads + [Reload(w.table, Reading)])
    case Read(t) => WithPhase(w, t, Loaded(w.table))
    case Fail(t) => WithPhase(w, t, Failed)
    case Finish(t) =>
      var seen := w.reloads[t].phase.seen;
      var done := WithPhase(w, t, Finished);
      if Admits(w.installed, t) then
        done.(installed := t, content := Some(seen), installs := w.installs + [Install(t, seen)])
      else done
  }

  predicate IsRun(steps: seq<Step>)
    decreases |steps|, 0
  {
    steps == []
    || (IsRun(steps[..|steps| - 1]) && Enabled(Run(steps[..|steps| - 1]), steps[|steps| - 1]))
  }

  /** The world after a run of steps from the initial one. */
  function Run(steps: seq<Step>): World
    requires IsRun(steps)
    decreases |steps|, 1
  {
    if steps == [] then INITIAL else Next(Run(steps[..|steps| - 1]), steps[|steps| - 1])
  }

  /** Tickets are issued in the order of the table's commits, and reads are no older than their ticket. */
  ghost predicate Tickets(w: World) {
    && (forall i, j :: 0 <= i < j < |w.reloads| ==> w.reloads[i].began <= w.reloads[j].began)
    && (forall i :: 0 <= i < |w.reloads| ==> w.reloads[i].began <= w.table)
    && (forall i :: 0 <= i < |w.reloads| && w.reloads[i].phase.Loaded? ==>
          w.reloads[i].began <= w.reloads[i].phase.seen <= w.table)
  }

  /** What is installed comes from the latest finished reload. */
  ghost predicate Installed(w: World) {
    && (forall i :: 0 <= i < |w.reloads| && w.reloads[i].phase.Finished? ==> i <= w.installed)
    && -1 <= w.installed < |w.reloads|
    && (w.installed < 0 ==> w.content == None && w.installs == [])
    && (w.installed >= 0 ==>
          && w.reloads[w.installed].phase.Finished?
          && w.content.Some? && w.reloads[w.installed].began <= w.content.value <= w.table
          && w.installs != [] && w.installs[|w.installs| - 1] == Install(w.installed, w.content.value))
  }

  ghost predicate Ordered(installs: seq<Install>) {
    forall i, j :: 0 <= i < j < |installs| ==> installs[i].ticket < installs[j].ticket
  }

  ghost predicate Inv(w: World) { Tickets(w) && Installed(w) && Ordered(w.installs) }

  lemma NextKeepsTickets(w: World, step: Step)
    requires Tickets(w) && Enabled(w, step)
    ensures Tickets(Next(w, step))
  {}

  lemma NextKeepsInstalled(w: World, step: Step)
    requires Tickets(w) && Installed(w) && Enabled(w, step)
    ensures Installed(Next(w, step))
  {}

  lemma NextKeepsOrdered(w: World, step: Step)
    requires Installed(w) && Ordered(w.installs) && Enabled(w, step)
    ensures Ordered(Next(w, step).installs)
  {
    if step.Finish? && Admits(w.installed, step.ticket) && w.installs != [] {
      var last := w.installs[|w.installs| - 1];
      assert last.ticket == w.installed < step.ticket;
      assert forall i :: 0 <= i < |w.installs| ==> w.installs[i].ticket <= last.ticket;
    }
  }

  lemma NextKeepsInv(w: World, step: Step)
    requires Inv(w) && Enabled(w, step)
    ensures Inv(Next(w, step))
  {
    NextKeepsTickets(w, step);
    NextKeepsInstalled(w, step);
    NextKeepsOrdered(w, step);
  }

  lemma {:induction false} RunKeepsInv(steps: seq<Step>)
    requires IsRun(steps)
    ensures Inv(Run(steps))
  {
    if steps != [] {
      var init, step := steps[..|steps| - 1], steps[|steps| - 1];
      RunKeepsInv(init);
      NextKeepsInv(Run(init), step);
    }
  }

  /**
   Over every interleaving, installs happen in increasing ticket order, and whatever is installed is at
   least as new as the table was when any finished reload began.
   */
  lemma FreshAgainstFinished(steps: seq<Step>)
    requires IsRun(steps)
    ensures var w := Run(steps);
            && (forall i, j :: 0 <= i < j < |w.installs| ==> w.installs[i].ticket < w.installs[j].ticket)
            && (forall t :: 0 <= t < |w.reloads| && w.reloads[t].phase.Finished? ==>
                  w.content.Some? && w.reloads[t].began <= w.content.value)
  {
    RunKeepsInv(steps);
  }

  /** Reloads begun after a point of the run began with at least the commits the table had at that point. */
  lemma {:induction false} LaterBegin(before: seq<Step>, after: seq<Step>)
    requires IsRun(before + after)
    ensures IsRun(before)
    ensures var w0, w1 := Run(before), Run(before + after);
            |w0.reloads| <= |w1.reloads| && w0.table <= w1.table
            && forall t :: |w0.reloads| <= t < |w1.reloads| ==> w0.table <= w1.reloads[t].began
  {
    if after == [] {
      assert before + after == before;
    } else {
      var steps := before + after;
      assert steps[..|steps| - 1] == before + after[..|after| - 1];
      LaterBegin(before, after[..|after| - 1]);
    }
  }

  /**
   A commit that was followed by a reload is reflected once that reload has finished: whatever was
   committed when `before` ends shows in the content after `after`, if a reload begun since is done.
   */
  lemma FollowedCommitShows(before: seq<Step>, after: seq<Step>, t: nat)
    requires IsRun(before + after)
    ensures IsRun(before)
    ensures var w0, w1 := Run(before), Run(before + after);
            |w0.reloads| <= t < |w1.reloads| && w1.reloads[t].phase.Finished? ==>
              w1.content.Some? && w0.table <= w1.content.value
  {
    LaterBegin(before, after);
    RunKeepsInv(before + after);
  }

  predicate Done(w: World) {
    forall t :: 0 <= t < |w.reloads| ==> w.reloads[t].phase.Finished? || w.reloads[t].phase.Failed?
  }

  /**
   When every reload is done, the content comes from the latest one that did not fail, and is at least as new
   as the table was when any that did not fail began.
   */
  lemma SettledContent(steps: seq<Step>)
    requires IsRun(steps) && Done(Run(steps))
    ensures var w := Run(steps);
            && (w.content.None? <==> forall t :: 0 <= t < |w.reloads| ==> w.reloads[t].phase.Failed?)
            && (w.content.Some? ==> 0 <= w.installed < |w.reloads| && w.reloads[w.installed].phase.Finished?)
            && (forall t :: 0 <= t < |w.reloads| && w.reloads[t].phase.Finished? ==>
                  t <= w.installed && w.content.Some? && w.reloads[t].began <= w.content.value)
  {
    RunKeepsInv(steps);
    var w := Run(steps);
    if w.content.Some? {
      assert w.reloads[w.installed].phase.Finished?;
    }
  }

  // ---- when the content steps back ---------------------------------------------------------

  /** What is installed afterwards is older than what was. */
  predicate Older(w: World, next: World) {
    w.content.Some? && (next.content.None? || next.content.value < w.content.value)
  }

  predicate IsLoaded(w: World, t: int) { 0 <= t < |w.reloads| && w.reloads[t].phase.Loaded? }

  predicate Stale(w: World, j: int) {
    IsLoaded(w, j) && w.installed <= j && w.content.Some? && w.reloads[j].phase.seen < w.content.value
  }

  predicate Crossed(w: World, i: int, j: int) {
    IsLoaded(w, i) && IsLoaded(w, j) && w.installed <= i < j && w.reloads[j].phase.seen < w.reloads[i].phase.seen
  }

  /** A later reload that may still install has read less than an earlier one that may, or than is installed. */
  ghost predicate Danger(w: World) {
    (exists j :: Stale(w, j)) || (exists i, j :: Crossed(w, i, j))
  }

  /** Finishing these reloads one after the other makes the content step back at some point. */
  predicate StepsBack(w: World, finishes: seq<nat>)
    decreases |finishes|
  {
    finishes != [] && Enabled(w, Finish(finishes[0])) &&
    (Older(w, Next(w, Finish(finishes[0]))) || StepsBack(Next(w, Finish(finishes[0])), finishes[1..]))
  }

  ghost predicate CanStepBack(w: World) { exists finishes :: StepsBack(w, finishes) }

  lemma OlderNeedsDanger(w: World, step: Step)
    requires Inv(w) && Enabled(w, step)
    ensures Older(w, Next(w, step)) ==> Danger(w)
  {
    if step.Finish? {
      assert Older(w, Next(w, step)) ==> Stale(w, step.ticket);
    }
  }

  lemma FinishLeavesDanger(w: World, t: nat)
    requires Inv(w) && Enabled(w, Finish(t)) && Danger(Next(w, Finish(t)))
    ensures Danger(w)
  {
    var next := Next(w, Finish(t));
    if j :| Stale(next, j) {
      assert Stale(w, j) || Crossed(w, t, j);
    } else {
      var i, j :| Crossed(next, i, j);
      assert Crossed(w, i, j);
    }
  }

  lemma {:induction false} StepBackNeedsDanger(w: World, finishes: seq<nat>)
    requires Inv(w) && StepsBack(w, finishes)
    ensures Danger(w)
    decreases |finishes|
  {
    var t := finishes[0];
    OlderNeedsDanger(w, Finish(t));
    if !Older(w, Next(w, Finish(t))) {
      NextKeepsInv(w, Finish(t));
      StepBackNeedsDanger(Next(w, Finish(t)), finishes[1..]);
      FinishLeavesDanger(w, t);
    }
  }

  lemma DangerStepsBack(w: World) returns (finishes: seq<nat>)
    requires Inv(w) && Danger(w)
    ensures StepsBack(w, finishes) && |finishes| <= 2
  {
    if j :| Stale(w, j) {
      finishes := [j];
    } else {
      var i, j :| Crossed(w, i, j);
      finishes := [i, j];
      var next := Next(w, Finish(i));
      assert next.content == Some(w.reloads[i].phase.seen) && next.reloads[j] == w.reloads[j];
      assert finishes[1..] == [j];
      assert StepsBack(next, [j]);
    }
  }

  /** At any point of a run, finishing what has been read can make the content step back exactly in danger. */
  lemma StepsBackExactlyInDanger(steps: seq<Step>)
    requires IsRun(steps)
    ensures CanStepBack(Run(steps)) <==> Danger(Run(steps))
  {
    RunKeepsInv(steps);
    var w := Run(steps);
    if finishes :| StepsBack(w, finishes) {
      StepBackNeedsDanger(w, finishes);
    }
    if Danger(w) {
      var finishes := DangerStepsBack(w);
      assert StepsBack(w, finishes);
    }
  }

  /** A read overtaken by a later reload that read an older table, while both may still install. */
  ghost predicate OvertakenRead(w: World, step: Step) {
    step.Read? && w.installed <= step.ticket
    && exists j :: IsLoaded(w, j) && step.ticket < j && w.reloads[j].phase.seen < w.table
  }

  /** Danger arises from overtaken reads and from nothing else; only finishing a reload can end it. */
  lemma DangerArisesExactly(w: World, step: Step)
    requires Inv(w) && Enabled(w, step)
    ensures Danger(Next(w, step)) ==> Danger(w) || OvertakenRead(w, step)
    ensures (Danger(w) || OvertakenRead(w, step)) && !step.Finish? ==> Danger(Next(w, step))
  {
    if step.Finish? {
      if Danger(Next(w, step)) {
        FinishLeavesDanger(w, step.ticket);
      }
    } else {
      DangerFromRead(w, step);
      DangerAfterRead(w, step);
    }
  }

  lemma DangerFromRead(w: World, step: Step)
    requires Inv(w) && Enabled(w, step) && !step.Finish?
    ensures Danger(Next(w, step)) ==> Danger(w) || OvertakenRead(w, step)
  {
    var next := Next(w, step);
    if j :| Stale(next, j) {
      assert Stale(w, j);
    } else if i, j :| Crossed(next, i, j) {
      if !(step.Read? && step.ticket == i) {
        assert Crossed(w, i, j);
      } else {
        assert IsLoaded(w, j);
      }
    }
  }

  lemma DangerAfterRead(w: World, step: Step)
    requires Inv(w) && Enabled(w, step) && !step.Finish?
    ensures Danger(w) || OvertakenRead(w, step) ==> Danger(Next(w, step))
  {
    var next := Next(w, step);
    if j :| Stale(w, j) {
      assert Stale(next, j);
    }
    if i, j :| Crossed(w, i, j) {
      assert Crossed(next, i, j);
    }
    if OvertakenRead(w, step) {
      var j :| IsLoaded(w, j) && step.ticket < j && w.reloads[j].phase.seen < w.table;
      assert Crossed(next, step.ticket, j);
    }
  }

  /** No read of the run was overtaken. */
  ghost predicate NoOvertakenRead(steps: seq<Step>)
    requires IsRun(steps)
  {
    steps == [] ||
    (NoOvertakenRead(steps[..|steps| - 1]) && !OvertakenRead(Run(steps[..|steps| - 1]), steps[|steps| - 1]))
  }

  /** In every run without overtaken reads the content never steps back, now or by whatever finishes next. */
  lemma {:induction false} ContentNeverStepsBack(steps: seq<Step>)
    requires IsRun(steps) && NoOvertakenRead(steps)
    ensures !Danger(Run(steps)) && !CanStepBack(Run(steps))
    ensures steps != [] ==> !Older(Run(steps[..|steps| - 1]), Run(steps))
  {
    if steps != [] {
      var init, step := steps[..|steps| - 1], steps[|steps| - 1];
      ContentNeverStepsBack(init);
      RunKeepsInv(init);
      OlderNeedsDanger(Run(init), step);
      DangerArisesExactly(Run(init), step);
    }
    StepsBackExactlyInDanger(steps);
  }

  /** Every overtaken read of any run can be followed by a step back. */
  lemma OvertakenReadStepsBack(steps: seq<Step>, step: Step) returns (finishes: seq<nat>)
    requires IsRun(steps) && Enabled(Run(steps), step) && OvertakenRead(Run(steps), step)
    ensures StepsBack(Next(Run(steps), step), finishes)
  {
    RunKeepsInv(steps);
    DangerArisesExactly(Run(steps), step);
    NextKeepsInv(Run(steps), step);
    finishes := DangerStepsBack(Next(Run(steps), step));
  }

  lemma OneMore(steps: seq<Step>, step: Step)
    requires IsRun(steps) && Enabled(Run(steps), step)
    ensures IsRun(steps + [step]) && Run(steps + [step]) == Next(Run(steps), step)
  {
    var more := steps + [step];
    assert more[..|more| - 1] == steps;
  }

  /** The installed copy itself may step back: an earlier reload can have read later and installed first. */
  lemma {:induction false} ContentMayStepBack() returns (steps: seq<Step>)
    ensures IsRun(steps) && IsRun(steps + [Finish(1)])
    ensures Run(steps).content == Some(1) && Run(steps + [Finish(1)]).content == Some(0)
  {
    steps := [];
    OneMore(steps, Begin);
    steps := steps + [Begin];
    OneMore(steps, Begin);
    steps := steps + [Begin];
    OneMore(steps, Read(1));
    steps := steps + [Read(1)];
    OneMore(steps, Commit);
    steps := steps + [Commit];
    OneMore(steps, Read(0));
    steps := steps + [Read(0)];
    OneMore(steps, Finish(0));
    steps := steps + [Finish(0)];
    OneMore(steps, Finish(1));
  }
}
