/**
 A confirmed plan is read-only to the agent's working copies. Every operation looks at the confirmation before
 it does its work and not again when it writes, and confirming looks for a draft before it records. Recorded
 bases make that enough unless the version a working copy is based on is the confirmed one: by a confirmation
 of the base on file, or by a copy or an acceptance of a version confirmed since that operation looked.
 */
module DraftConfirmation {
  import opened Wrappers
  import opened Json
  import opened DraftStore
  import opened DraftRuns
  import Shapes = ScriptPlanShapes

  /** It confirms the version that a working copy on file is based on. */
  predicate ConfirmsBase(s: Store, step: Step) {
    && step.SetConfirmed? && step.confirmed.Some?
    && s.draft.Envelope? && s.draft.draft.meta.formalEdit
    && s.draft.draft.meta.base == Recorded(step.confirmed)
  }

  /** It copies the confirmed version into a working copy, or accepts it as the base of one. */
  predicate RecordsConfirmed(rules: Rules, sys: System, step: Step) {
    && FormalConfirmed(sys.store) && RecordsBase(rules, sys, step)
    && (step.CommitOpening? || (step.CommitPatching? && sys.lock.value.draft.meta.formalEdit))
  }

  predicate Harmful(rules: Rules, sys: System, step: Step) {
    ConfirmsBase(sys.store, step) || RecordsConfirmed(rules, sys, step)
  }

  /** No step of the run was harmful. */
  predicate Harmless(rules: Rules, start: System, steps: seq<Step>)
    requires Run(rules, start, steps)
    decreases |steps|
  {
    steps == [] ||
    (Harmless(rules, start, steps[..|steps| - 1])
     && !Harmful(rules, After(rules, start, steps[..|steps| - 1]), steps[|steps| - 1]))
  }

  /** A working copy has a recorded base. */
  predicate WorkingBaseRecorded(s: Store) {
    s.draft.Envelope? && s.draft.draft.meta.formalEdit ==> s.draft.draft.meta.base.Recorded?
  }

  /** A working copy has a recorded base, and that version is not the confirmed one. */
  predicate BaseNotConfirmed(s: Store) {
    s.draft.Envelope? && s.draft.draft.meta.formalEdit ==>
      var base := s.draft.draft.meta.base;
      base.Recorded? && (base.fingerprint.Some? ==> s.confirmed != base.fingerprint)
  }

  /** From a base that is not confirmed, exactly the harmful steps lead to one that is. */
  lemma BreaksExactlyWhenHarmful(rules: Rules, steps: seq<Step>, sys: System, step: Step)
    requires Locked(rules, steps, sys) && Enabled(sys, step) && BaseNotConfirmed(sys.store)
    ensures BaseNotConfirmed(Next(rules, sys, step).store) <==> !Harmful(rules, sys, step)
  {}

  /** In every run without a harmful step, the base of a working copy is never the confirmed version. */
  lemma {:induction false} BaseNeverConfirmed(rules: Rules, start: System, steps: seq<Step>)
    requires Idle(start) && Run(rules, start, steps) && BaseNotConfirmed(start.store)
    requires Harmless(rules, start, steps)
    ensures BaseNotConfirmed(After(rules, start, steps).store)
  {
    if steps != [] {
      var before, step := steps[..|steps| - 1], steps[|steps| - 1];
      BaseNeverConfirmed(rules, start, before);
      LockedAlways(rules, start, before);
      BreaksExactlyWhenHarmful(rules, before, After(rules, start, before), step);
    }
  }

  /** The promotion of a working copy puts another text in the place of the confirmed one. */
  predicate ReplacesConfirmed(rules: Rules, sys: System, step: Step)
    requires Enabled(sys, step)
  {
    && step.CommitPromotion? && Replaces(rules, sys, step)
    && sys.lock.value.ticket.draft.meta.formalEdit && FormalConfirmed(sys.store)
  }

  /** In every run without a harmful step, no working copy replaces a confirmed plan. */
  lemma {:induction false} ConfirmedPlanIsReadOnly(rules: Rules, start: System, steps: seq<Step>, step: Step)
    requires Idle(start) && Run(rules, start, steps) && Enabled(After(rules, start, steps), step)
    requires BaseNotConfirmed(start.store) && Harmless(rules, start, steps)
    ensures !ReplacesConfirmed(rules, After(rules, start, steps), step)
  {
    LockedAlways(rules, start, steps);
    BaseNeverConfirmed(rules, start, steps);
  }

  lemma StepKeepsRecorded(rules: Rules, steps: seq<Step>, sys: System, step: Step)
    requires Locked(rules, steps, sys) && Enabled(sys, step) && WorkingBaseRecorded(sys.store)
    ensures WorkingBaseRecorded(Next(rules, sys, step).store)
  {}

  lemma {:induction false} AlwaysRecorded(rules: Rules, start: System, steps: seq<Step>)
    requires Idle(start) && Run(rules, start, steps) && WorkingBaseRecorded(start.store)
    ensures WorkingBaseRecorded(After(rules, start, steps).store)
  {
    if steps != [] {
      var before, step := steps[..|steps| - 1], steps[|steps| - 1];
      AlwaysRecorded(rules, start, before);
      LockedAlways(rules, start, before);
      StepKeepsRecorded(rules, before, After(rules, start, before), step);
    }
  }

  /**
   Wherever a run has a promotion under way, recording a confirmation makes its commit replace a confirmed
   plan exactly when it confirms the base on file and that version is the formal one.
   */
  lemma {:induction false} ConfirmationDefeatsExactlyWhen(
    rules: Rules, start: System, steps: seq<Step>, confirmed: Option<Fingerprint>)
    requires Idle(start) && Run(rules, start, steps) && WorkingBaseRecorded(start.store)
    requires IsPromoting(After(rules, start, steps))
    ensures var sys := After(rules, start, steps);
            var step := SetConfirmed(confirmed);
            ReplacesConfirmed(rules, Next(rules, sys, step), CommitPromotion)
            <==> ConfirmsBase(sys.store, step) && confirmed == FingerprintOf(sys.store.formal)
  {
    LockedAlways(rules, start, steps);
    AlwaysRecorded(rules, start, steps);
  }

  /** A commit replaces a confirmed plan exactly when its working copy is based on the version confirmed and on file. */
  lemma {:induction false} ReplacesConfirmedExactlyWhen(rules: Rules, start: System, steps: seq<Step>)
    requires Idle(start) && Run(rules, start, steps) && WorkingBaseRecorded(start.store)
    requires IsPromoting(After(rules, start, steps))
    ensures var sys := After(rules, start, steps);
            ReplacesConfirmed(rules, sys, CommitPromotion)
            <==> ConfirmsBase(sys.store, SetConfirmed(sys.store.confirmed)) && FormalConfirmed(sys.store)
  {
    LockedAlways(rules, start, steps);
    AlwaysRecorded(rules, start, steps);
  }

  // ---- looking before writing --------------------------------------------------------------

  /** Operations that the confirmation of the plan forbids. */
  predicate Edits(holder: Holder) {
    match holder
    case Opening(_) => true
    case Patching(d, _) => d.meta.formalEdit
    case Promoting(t) => t.draft.meta.formalEdit
  }

  predicate TurnsConfirmed(step: Step, s: Store, after: Store) {
    (step.SetConfirmed? || step.WriteFormal?) && !FormalConfirmed(s) && FormalConfirmed(after)
  }

  /** Since the step at `k`, that one included, the draft lock has not changed hands. */
  predicate HeldSince(steps: seq<Step>, k: nat) {
    forall j :: k <= j < |steps| ==> !TakesLock(steps[j])
  }

  /** The step at `k` made the plan confirmed while the operation now under way held the draft lock. */
  predicate ConfirmedAt(rules: Rules, start: System, steps: seq<Step>, k: nat)
    requires Run(rules, start, steps) && k < |steps|
  {
    && TurnsConfirmed(steps[k], At(rules, start, steps, k).store, At(rules, start, steps, k + 1).store)
    && HeldSince(steps, k)
  }

  ghost predicate ConfirmedMeanwhile(rules: Rules, start: System, steps: seq<Step>)
    requires Run(rules, start, steps)
  {
    exists k: nat :: k < |steps| && ConfirmedAt(rules, start, steps, k)
  }

  lemma StepConfirms(rules: Rules, sys: System, step: Step)
    requires Enabled(sys, step)
    requires var next := Next(rules, sys, step);
             next.lock.Some? && Edits(next.lock.value) && FormalConfirmed(next.store)
    ensures sys.lock == Next(rules, sys, step).lock && !TakesLock(step)
    ensures FormalConfirmed(sys.store) || step.SetConfirmed? || step.WriteFormal?
  {}

  lemma HeldOn(steps: seq<Step>, k: nat)
    requires steps != [] && HeldSince(steps[..|steps| - 1], k) && !TakesLock(steps[|steps| - 1])
    ensures HeldSince(steps, k)
  {
    var before := steps[..|steps| - 1];
    assert forall j :: 0 <= j < |before| ==> before[j] == steps[j];
  }

  lemma ConfirmedBefore(rules: Rules, start: System, steps: seq<Step>, k: nat)
    requires Run(rules, start, steps) && k < |steps| - 1 && !TakesLock(steps[|steps| - 1])
    requires ConfirmedAt(rules, start, steps[..|steps| - 1], k)
    ensures ConfirmedAt(rules, start, steps, k)
  {
    AtBefore(rules, start, steps, k);
    AtBefore(rules, start, steps, k + 1);
    HeldOn(steps, k);
  }

  /**
   In every run, an editing operation under way on a confirmed plan has looked, and the plan became confirmed
   since: neither a copy, nor an acceptance, nor a commit is ever late by itself.
   */
  lemma {:induction false} LateOnlyIfConfirmedMeanwhile(rules: Rules, start: System, steps: seq<Step>)
    requires Idle(start) && Run(rules, start, steps)
    requires var sys := After(rules, start, steps);
             sys.lock.Some? && Edits(sys.lock.value) && FormalConfirmed(sys.store)
    ensures ConfirmedMeanwhile(rules, start, steps)
  {
    if steps != [] {
      var n := |steps| - 1;
      var before, step := steps[..n], steps[n];
      StepConfirms(rules, After(rules, start, before), step);
      if FormalConfirmed(After(rules, start, before).store) {
        LateOnlyIfConfirmedMeanwhile(rules, start, before);
        var k: nat :| k < n && ConfirmedAt(rules, start, before, k);
        ConfirmedBefore(rules, start, steps, k);
      } else {
        AtBefore(rules, start, steps, n);
        assert ConfirmedAt(rules, start, steps, n);
      }
    }
  }

  // ---- the races themselves ----------------------------------------------------------------

  /** Nothing on file but an unconfirmed plan of one segment; every content is valid. */
  const PLAN: Json := Object(map["segments" := Array([Null])])
  const START: System := System(Store(Some(Parsed(PLAN)), Missing, None, Null), None, map[])
  const LENIENT: Rules := Rules(
    Shapes.Narration,
    (project, content, source) => Clean(content, content),
    (project, answer, source) => Clean(answer, answer),
    (project, source) => true)

  /** Opened, judged, confirmed by someone who looked before the draft was there, committed. */
  ghost predicate Raced(rules: Rules, start: System, revision: Revision) {
    Idle(start) && start.store.draft.Missing? && Enabled(start, BeginOpening(None)) &&
    var asked := Next(rules, start, BeginOpening(None));
    Enabled(asked, CommitOpening) &&
    var copied := Next(rules, asked, CommitOpening);
    Enabled(copied, BeginPromotion(revision)) &&
    var begun := Next(rules, copied, BeginPromotion(revision));
    var confirmed := Next(rules, begun, SetConfirmed(FingerprintOf(start.store.formal)));
    Enabled(confirmed, CommitPromotion) && ReplacesConfirmed(rules, confirmed, CommitPromotion)
  }

  /**
   Confirmed while there is no draft, between an opening's look and its copy. A formal write away while the
   promotion looks, and back before it commits, is enough for the confirmed plan to be replaced.
   */
  ghost predicate CopiedLate(rules: Rules, start: System, revision: Revision) {
    Idle(start) && start.store.draft.Missing? && Enabled(start, BeginOpening(None)) &&
    var asked := Next(rules, start, BeginOpening(None));
    var confirmed := Next(rules, asked, SetConfirmed(FingerprintOf(start.store.formal)));
    confirmed.store.draft.Missing? && Enabled(confirmed, CommitOpening) &&
    var copied := Next(rules, confirmed, CommitOpening);
    var away := Next(rules, copied, WriteFormal(None));
    Enabled(away, BeginPromotion(revision)) &&
    var begun := Next(rules, away, BeginPromotion(revision));
    var back := Next(rules, begun, WriteFormal(start.store.formal));
    Enabled(back, CommitPromotion) && ReplacesConfirmed(rules, back, CommitPromotion)
  }

  const COPY := Draft(PLAN, [], Meta(From(None), Recorded(FingerprintOf(START.store.formal)), true))

  lemma PlanIsCopied()
    ensures Shapes.DraftShape(Shapes.Narration, PLAN) == Some(PLAN)
  {
    var segments := map["segments" := Array([Null])];
    assert Shapes.NewAssetsOf(PLAN.fields) + segments == segments;
  }

  lemma ConfirmationRace()
    ensures exists rules, start, revision :: Raced(rules, start, revision)
  {
    PlanIsCopied();
    var asked := Next(LENIENT, START, BeginOpening(None));
    var copied := Next(LENIENT, asked, CommitOpening);
    assert copied.store.draft == Written(COPY);
    var begun := Next(LENIENT, copied, BeginPromotion(Revision(COPY)));
    assert begun.lock == Some(Promoting(Ticket(COPY, Null, PLAN)));
    assert Raced(LENIENT, START, Revision(COPY));
  }

  lemma CopyRace()
    ensures exists rules, start, revision :: CopiedLate(rules, start, revision)
  {
    PlanIsCopied();
    var confirmed := Next(
      LENIENT, Next(LENIENT, START, BeginOpening(None)), SetConfirmed(FingerprintOf(START.store.formal)));
    var copied := Next(LENIENT, confirmed, CommitOpening);
    assert copied.store.draft == Written(COPY);
    var away := Next(LENIENT, copied, WriteFormal(None));
    var begun := Next(LENIENT, away, BeginPromotion(Revision(COPY)));
    assert begun.lock == Some(Promoting(Ticket(COPY, Null, PLAN)));
    assert CopiedLate(LENIENT, START, Revision(COPY));
  }
}
