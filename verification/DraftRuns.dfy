/**
 Every run of the script plan protocol: openings, patches and promotions in two steps each, discards,
 generation jobs, and changes by anyone else in between.
 */
module DraftRuns {
  import opened Wrappers
  import opened Json
  import opened DraftStore

  /** An operation that has begun and holds the draft lock until it commits. */
  datatype Holder =
    | Opening(source: Option<string>)
    | Patching(draft: Draft, change: Change)
    | Promoting(ticket: Ticket)

  /** The store, the holder of the draft lock if any, and the jobs waiting for the model. */
  datatype System = System(store: Store, lock: Option<Holder>, jobs: map<nat, Job>)

  datatype Step =
    | BeginOpening(source: Option<string>)
    | CommitOpening
    | BeginPatching(base: Revision, change: Change)
    | CommitPatching
    | BeginPromotion(base: Revision)
    | CommitPromotion
    | DiscardDraft(base: Revision)
    | StartGeneration(id: nat, project: Json, source: Option<string>)
    | FinishGeneration(id: nat, answer: Json)
    | WriteFormal(formal: Option<Document>)
    | ChangeProject(project: Json)
    | SetConfirmed(confirmed: Option<Fingerprint>)

  predicate IsOpening(sys: System) { sys.lock.Some? && sys.lock.value.Opening? }

  predicate IsPatching(sys: System) { sys.lock.Some? && sys.lock.value.Patching? }

  predicate IsPromoting(sys: System) { sys.lock.Some? && sys.lock.value.Promoting? }

  /** Nothing that takes the draft lock happens while another operation holds it. */
  predicate Enabled(sys: System, step: Step) {
    match step
    case CommitOpening => IsOpening(sys)
    case CommitPatching => IsPatching(sys)
    case CommitPromotion => IsPromoting(sys)
    case StartGeneration(id, _, _) => sys.lock.None? && id !in sys.jobs
    case FinishGeneration(id, _) => sys.lock.None? && id in sys.jobs
    case WriteFormal(_) => true
    case ChangeProject(_) => true
    case SetConfirmed(_) => true
    case _ => sys.lock.None?
  }

  function Next(rules: Rules, sys: System, step: Step): System
    requires Enabled(sys, step)
  {
    var s := sys.store;
    match step
    case BeginOpening(source) =>
      if BeginOpen(rules, s, source) == Ok(None) then sys.(lock := Some(Opening(source))) else sys
    case CommitOpening => sys.(store := CopyFormal(rules, s, sys.lock.value.source).store, lock := None)
    case BeginPatching(base, change) =>
      var begun := BeginPatch(rules, s, base, change);
      if begun.Ok? then sys.(lock := Some(Patching(begun.value, change))) else sys
    case CommitPatching =>
      sys.(store := FinishPatch(s, sys.lock.value.draft, sys.lock.value.change).store, lock := None)
    case BeginPromotion(base) =>
      var o := BeginPromote(rules, s, base);
      sys.(store := o.store, lock := if o.reply.Ok? then Some(Promoting(o.reply.value)) else None)
    case CommitPromotion => sys.(store := CommitPromote(s, sys.lock.value.ticket).store, lock := None)
    case DiscardDraft(base) => sys.(store := Discard(s, base).store)
    case StartGeneration(id, project, source) => sys.(jobs := sys.jobs[id := StartJob(s, project, source)])
    case FinishGeneration(id, answer) =>
      sys.(store := FinishJob(rules, s, sys.jobs[id], answer).store, jobs := sys.jobs - {id})
    case WriteFormal(formal) => sys.(store := s.(formal := formal))
    case ChangeProject(project) => sys.(store := s.(project := project))
    case SetConfirmed(confirmed) => sys.(store := s.(confirmed := confirmed))
  }

  /** Anything may be on disk at first; nothing is under way. */
  predicate Idle(sys: System) { sys.lock.None? && sys.jobs == map[] }

  predicate Run(rules: Rules, start: System, steps: seq<Step>)
    ensures Run(rules, start, steps) && steps != [] ==> Run(rules, start, steps[..|steps| - 1])
    decreases |steps|, 0
  {
    steps == [] ||
    (Run(rules, start, steps[..|steps| - 1])
     && Enabled(After(rules, start, steps[..|steps| - 1]), steps[|steps| - 1]))
  }

  function After(rules: Rules, start: System, steps: seq<Step>): System
    requires Run(rules, start, steps)
    decreases |steps|, 1
  {
    if steps == [] then start
    else Next(rules, After(rules, start, steps[..|steps| - 1]), steps[|steps| - 1])
  }

  /** The system before the step at `k`, or at the end. */
  function At(rules: Rules, start: System, steps: seq<Step>, k: nat): System
    requires Run(rules, start, steps) && k <= |steps|
    decreases |steps|
  {
    if k == |steps| then After(rules, start, steps) else At(rules, start, steps[..|steps| - 1], k)
  }

  lemma AtBefore(rules: Rules, start: System, steps: seq<Step>, k: nat)
    requires Run(rules, start, steps) && k < |steps|
    ensures At(rules, start, steps, k) == At(rules, start, steps[..|steps| - 1], k)
    ensures k < |steps| - 1 ==> steps[k] == steps[..|steps| - 1][k]
    ensures k == |steps| - 1 ==> At(rules, start, steps, k) == After(rules, start, steps[..k])
  {}

  // ---- the draft lock ----------------------------------------------------------------------

  /** The step begins or commits an operation in two steps. */
  predicate TakesLock(step: Step) {
    step.BeginOpening? || step.CommitOpening? || step.BeginPatching? || step.CommitPatching? || step.BeginPromotion?
    || step.CommitPromotion?
  }

  /** The operation under way was begun by this very step. */
  predicate BegunBy(steps: seq<Step>, begin: Step) {
    exists i: nat :: i < |steps| && BegunAt(steps, i, begin)
  }

  predicate BegunAt(steps: seq<Step>, i: nat, begin: Step)
    requires i < |steps|
  {
    steps[i] == begin && forall k :: i < k < |steps| ==> !TakesLock(steps[k])
  }

  lemma BegunBefore(steps: seq<Step>, step: Step, begin: Step)
    requires BegunBy(steps, begin) && !TakesLock(step)
    ensures BegunBy(steps + [step], begin)
  {
    var i: nat :| i < |steps| && BegunAt(steps, i, begin);
    assert BegunAt(steps + [step], i, begin);
  }

  lemma BegunNow(steps: seq<Step>, begin: Step)
    ensures BegunBy(steps + [begin], begin)
  {
    assert BegunAt(steps + [begin], |steps|, begin);
  }

  /** The step that began what holds the lock. */
  function BeginOf(holder: Holder): Step {
    match holder
    case Opening(source) => BeginOpening(source)
    case Patching(d, change) => BeginPatching(Revision(d), change)
    case Promoting(t) => BeginPromotion(Revision(t.draft))
  }

  /** While the lock is held, the draft is the one the holder found, which a promotion also judged clean. */
  predicate Holds(rules: Rules, s: Store, holder: Holder) {
    match holder
    case Opening(_) => s.draft.Missing?
    case Patching(d, _) => s.draft.Envelope? && s.draft.draft == d
    case Promoting(t) => s.draft.Envelope? && s.draft.draft == t.draft && JudgedClean(rules, t)
  }

  predicate Locked(rules: Rules, steps: seq<Step>, sys: System) {
    sys.lock.Some? ==> Holds(rules, sys.store, sys.lock.value) && BegunBy(steps, BeginOf(sys.lock.value))
  }

  predicate JudgedClean(rules: Rules, t: Ticket) {
    var v := rules.judge(t.project, t.draft.content, t.draft.meta.source);
    v.Clean? && v.formal == t.formal
  }

  lemma {:induction false} LockedAlways(rules: Rules, start: System, steps: seq<Step>)
    requires Idle(start) && Run(rules, start, steps)
    ensures Locked(rules, steps, After(rules, start, steps))
  {
    if steps != [] {
      var before, step := steps[..|steps| - 1], steps[|steps| - 1];
      LockedAlways(rules, start, before);
      StepLocked(rules, before, After(rules, start, before), step);
      assert steps == before + [step];
    }
  }

  lemma StepLocked(rules: Rules, before: seq<Step>, sys: System, step: Step)
    requires Locked(rules, before, sys) && Enabled(sys, step)
    ensures Locked(rules, before + [step], Next(rules, sys, step))
  {
    BegunNow(before, step);
    if sys.lock.Some? && !TakesLock(step) {
      BegunBefore(before, step, BeginOf(sys.lock.value));
    }
  }

  // ---- drafts are conserved ----------------------------------------------------------------

  /** Whoever takes the step showed that it knew the draft. */
  predicate Carries(sys: System, steps: seq<Step>, step: Step, d: Draft) {
    match step
    case CommitPatching => IsPatching(sys) && BegunBy(steps, BeginPatching(Revision(d), sys.lock.value.change))
    case BeginPromotion(base) => base == Revision(d)
    case CommitPromotion => BegunBy(steps, BeginPromotion(Revision(d)))
    case DiscardDraft(base) => base == Revision(d)
    case FinishGeneration(id, _) => id in sys.jobs && sys.jobs[id].draftBaseline == FileRevisionOf(sys.store.draft)
    case _ => false
  }

  /** In every run, a step that changes or removes a readable draft carried that draft's revision. */
  lemma {:induction false} DraftConserved(rules: Rules, start: System, steps: seq<Step>, step: Step)
    requires Idle(start) && Run(rules, start, steps) && Enabled(After(rules, start, steps), step)
    ensures var sys := After(rules, start, steps);
            sys.store.draft.Envelope? && Next(rules, sys, step).store.draft != sys.store.draft
            ==> Carries(sys, steps, step, sys.store.draft.draft)
  {
    LockedAlways(rules, start, steps);
  }

  // ---- no update is lost -------------------------------------------------------------------

  /** A promotion or a generation commit that goes through. */
  predicate Replaces(rules: Rules, sys: System, step: Step)
    requires Enabled(sys, step)
  {
    match step
    case CommitPromotion => CommitPromote(sys.store, sys.lock.value.ticket).reply.Ok?
    case FinishGeneration(id, answer) => FinishJob(rules, sys.store, sys.jobs[id], answer).reply.Ok?
    case _ => false
  }

  /** The base the step compares against. */
  function BaseOf(sys: System, step: Step): Base
    requires Enabled(sys, step)
  {
    match step
    case CommitPromotion => sys.lock.value.ticket.draft.meta.base
    case FinishGeneration(id, _) => Recorded(sys.jobs[id].formalBaseline)
    case _ => Unchecked
  }

  /** The job in flight under the id before step `n` was started when `formal` was on file. */
  ghost predicate JobShown(
    rules: Rules, start: System, steps: seq<Step>, n: nat, id: nat, formal: Option<Document>)
    requires Run(rules, start, steps) && n <= |steps|
  {
    exists i: nat :: i < n && JobShownAt(rules, start, steps, n, i, id, formal)
  }

  predicate JobShownAt(
    rules: Rules, start: System, steps: seq<Step>, n: nat, i: nat, id: nat, formal: Option<Document>)
    requires Run(rules, start, steps) && i < n <= |steps|
  {
    StartedAt(steps, n, i, id) && At(rules, start, steps, i).store.formal == formal
  }

  /** The step at `i` starts the job, which does not finish before step `n`. */
  predicate StartedAt(steps: seq<Step>, n: nat, i: nat, id: nat)
    requires i < n <= |steps|
  {
    && steps[i].StartGeneration? && steps[i].id == id
    && forall k :: i < k < n ==> !(steps[k].FinishGeneration? && steps[k].id == id)
  }

  /** The step writes a draft with a newly recorded base. */
  predicate RecordsBase(rules: Rules, sys: System, step: Step) {
    match step
    case CommitOpening =>
      IsOpening(sys) && sys.store.draft.Missing? && CopyFormal(rules, sys.store, sys.lock.value.source).reply.Ok?
    case CommitPatching =>
      && IsPatching(sys) && sys.lock.value.change.accept.Some?
      && FinishPatch(sys.store, sys.lock.value.draft, sys.lock.value.change).reply.Ok?
    case FinishGeneration(id, answer) =>
      id in sys.jobs && FinishJob(rules, sys.store, sys.jobs[id], answer).reply == Err(GenerationQuarantined)
    case _ => false
  }

  /** A copy or an acceptance with `formal` on file, or the quarantine of a job started with it on file. */
  ghost predicate RecordedAt(rules: Rules, start: System, steps: seq<Step>, i: nat, formal: Option<Document>)
    requires Run(rules, start, steps) && i < |steps|
  {
    && RecordsBase(rules, At(rules, start, steps, i), steps[i])
    && if steps[i].FinishGeneration? then JobShown(rules, start, steps, i, steps[i].id, formal)
       else At(rules, start, steps, i).store.formal == formal
  }

  predicate HasBase(s: Store, base: Base) { s.draft.Envelope? && s.draft.draft.meta.base == base }

  /** After the step at `from`, a draft with this base has been on file throughout, and none has been recorded. */
  ghost predicate Kept(rules: Rules, start: System, steps: seq<Step>, from: int, base: Base)
    requires Run(rules, start, steps)
  {
    && (forall k: nat :: from < k <= |steps| ==> HasBase(At(rules, start, steps, k).store, base))
    && (forall k: nat :: from < k < |steps| ==> !RecordsBase(rules, At(rules, start, steps, k), steps[k]))
  }

  /** The draft on file has kept its base since a step that recorded it with `formal` shown. */
  ghost predicate DraftShown(rules: Rules, start: System, steps: seq<Step>, formal: Option<Document>)
    requires Run(rules, start, steps)
  {
    exists i: nat :: i < |steps| && DraftShownAt(rules, start, steps, i, formal)
  }

  ghost predicate DraftShownAt(rules: Rules, start: System, steps: seq<Step>, i: nat, formal: Option<Document>)
    requires Run(rules, start, steps) && i < |steps|
  {
    RecordedAt(rules, start, steps, i, formal) && Kept(rules, start, steps, i, Recorded(FingerprintOf(formal)))
  }

  /** The draft on file has had its base since before the run. */
  ghost predicate Inherited(rules: Rules, start: System, steps: seq<Step>, base: Base)
    requires Run(rules, start, steps)
  {
    Kept(rules, start, steps, -1, base)
  }

  ghost predicate Explained(rules: Rules, start: System, steps: seq<Step>, base: Base)
    requires Run(rules, start, steps)
  {
    || Inherited(rules, start, steps, base)
    || (base.Recorded? && DraftShown(rules, start, steps, FormalOf(base.fingerprint)))
  }

  ghost predicate AllKnown(rules: Rules, start: System, steps: seq<Step>, sys: System)
    requires Run(rules, start, steps)
  {
    && (sys.store.draft.Envelope? ==> Explained(rules, start, steps, sys.store.draft.draft.meta.base))
    && (forall id :: id in sys.jobs ==>
          JobShown(rules, start, steps, |steps|, id, FormalOf(sys.jobs[id].formalBaseline)))
  }

  /** What was shown of a job before an earlier step still was. */
  lemma JobShownEarlier(rules: Rules, start: System, steps: seq<Step>, n: nat, id: nat, formal: Option<Document>)
    requires Run(rules, start, steps) && n < |steps|
    requires JobShown(rules, start, steps[..|steps| - 1], n, id, formal)
    ensures JobShown(rules, start, steps, n, id, formal)
  {
    var before := steps[..|steps| - 1];
    var i: nat :| i < n && JobShownAt(rules, start, before, n, i, id, formal);
    assert forall k :: i <= k < n ==> steps[k] == before[k];
    assert JobShownAt(rules, start, steps, n, i, id, formal);
  }

  lemma StillStarted(steps: seq<Step>, i: nat, id: nat)
    requires i < |steps| - 1 && StartedAt(steps, |steps| - 1, i, id)
    requires !(steps[|steps| - 1].FinishGeneration? && steps[|steps| - 1].id == id)
    ensures StartedAt(steps, |steps|, i, id)
  {}

  lemma JobStillShown(rules: Rules, start: System, steps: seq<Step>, id: nat, formal: Option<Document>)
    requires Run(rules, start, steps) && steps != []
    requires JobShown(rules, start, steps, |steps| - 1, id, formal)
    requires !(steps[|steps| - 1].FinishGeneration? && steps[|steps| - 1].id == id)
    ensures JobShown(rules, start, steps, |steps|, id, formal)
  {
    var n := |steps| - 1;
    var i: nat :| i < n && JobShownAt(rules, start, steps, n, i, id, formal);
    StillStarted(steps, i, id);
    assert JobShownAt(rules, start, steps, |steps|, i, id, formal);
  }

  lemma JobJustShown(rules: Rules, start: System, steps: seq<Step>, id: nat)
    requires Run(rules, start, steps) && steps != []
    requires steps[|steps| - 1].StartGeneration? && steps[|steps| - 1].id == id
    ensures JobShown(rules, start, steps, |steps|, id, After(rules, start, steps[..|steps| - 1]).store.formal)
  {
    var last := |steps| - 1;
    var formal := After(rules, start, steps[..last]).store.formal;
    assert JobShownAt(rules, start, steps, |steps|, last, id, formal);
  }

  /** A job in flight has just started, or was in flight before and did not finish. */
  lemma JobsMove(rules: Rules, sys: System, step: Step, id: nat)
    requires Enabled(sys, step) && id in Next(rules, sys, step).jobs
    ensures var job := Next(rules, sys, step).jobs[id];
            if step.StartGeneration? && step.id == id then job.formalBaseline == FingerprintOf(sys.store.formal)
            else id in sys.jobs && sys.jobs[id] == job && !(step.FinishGeneration? && step.id == id)
  {}

  lemma KeptOn(rules: Rules, start: System, steps: seq<Step>, from: int, base: Base)
    requires Run(rules, start, steps) && steps != [] && from < |steps| - 1
    requires Kept(rules, start, steps[..|steps| - 1], from, base)
    requires !RecordsBase(rules, After(rules, start, steps[..|steps| - 1]), steps[|steps| - 1])
    requires HasBase(After(rules, start, steps).store, base)
    ensures Kept(rules, start, steps, from, base)
  {
    var before := steps[..|steps| - 1];
    forall k: nat | from < k <= |steps| ensures HasBase(At(rules, start, steps, k).store, base) {
      assert k < |steps| ==> At(rules, start, steps, k) == At(rules, start, before, k);
    }
    forall k: nat | from < k < |steps| ensures !RecordsBase(rules, At(rules, start, steps, k), steps[k]) {
      assert At(rules, start, steps, k) == At(rules, start, before, k);
      assert k < |before| ==> steps[k] == before[k];
    }
  }

  lemma RecordedEarlier(rules: Rules, start: System, steps: seq<Step>, i: nat, formal: Option<Document>)
    requires Run(rules, start, steps) && steps != [] && i < |steps| - 1
    requires RecordedAt(rules, start, steps[..|steps| - 1], i, formal)
    ensures RecordedAt(rules, start, steps, i, formal)
  {
    var before := steps[..|steps| - 1];
    assert At(rules, start, steps, i) == At(rules, start, before, i) && steps[i] == before[i];
    if steps[i].FinishGeneration? {
      JobShownEarlier(rules, start, steps, i, steps[i].id, formal);
    }
  }

  lemma ExplainedOn(rules: Rules, start: System, steps: seq<Step>, base: Base)
    requires Run(rules, start, steps) && steps != []
    requires Explained(rules, start, steps[..|steps| - 1], base)
    requires !RecordsBase(rules, After(rules, start, steps[..|steps| - 1]), steps[|steps| - 1])
    requires HasBase(After(rules, start, steps).store, base)
    ensures Explained(rules, start, steps, base)
  {
    var before := steps[..|steps| - 1];
    if Inherited(rules, start, before, base) {
      KeptOn(rules, start, steps, -1, base);
    } else {
      var formal := FormalOf(base.fingerprint);
      var i: nat :| i < |before| && DraftShownAt(rules, start, before, i, formal);
      KeptOn(rules, start, steps, i, base);
      RecordedEarlier(rules, start, steps, i, formal);
      assert DraftShownAt(rules, start, steps, i, formal);
    }
  }

  /** Only recording steps give a draft another base; they record the formal version, or that of their job. */
  lemma BaseMoves(rules: Rules, sys: System, step: Step)
    requires Enabled(sys, step) && Next(rules, sys, step).store.draft.Envelope?
    requires sys.lock.Some? ==> Holds(rules, sys.store, sys.lock.value)
    ensures var base := Next(rules, sys, step).store.draft.draft.meta.base;
            && (!RecordsBase(rules, sys, step) ==> HasBase(sys.store, base))
            && (RecordsBase(rules, sys, step) && !step.FinishGeneration? ==>
                  base == Recorded(FingerprintOf(sys.store.formal)))
            && (RecordsBase(rules, sys, step) && step.FinishGeneration? ==>
                  base == Recorded(sys.jobs[step.id].formalBaseline))
  {}

  lemma DraftKnown(rules: Rules, start: System, before: seq<Step>, steps: seq<Step>)
    requires Idle(start) && Run(rules, start, steps) && steps != [] && before == steps[..|steps| - 1]
    requires AllKnown(rules, start, before, After(rules, start, before))
    requires After(rules, start, steps).store.draft.Envelope?
    ensures Explained(rules, start, steps, After(rules, start, steps).store.draft.draft.meta.base)
  {
    var sys, step := After(rules, start, before), steps[|steps| - 1];
    var base := After(rules, start, steps).store.draft.draft.meta.base;
    LockedAlways(rules, start, before);
    BaseMoves(rules, sys, step);
    if RecordsBase(rules, sys, step) {
      var formal := FormalOf(base.fingerprint);
      assert At(rules, start, steps, |before|) == sys;
      if step.FinishGeneration? {
        assert JobShown(rules, start, before, |before|, step.id, formal);
        JobShownEarlier(rules, start, steps, |before|, step.id, formal);
      }
      assert RecordedAt(rules, start, steps, |before|, formal);
      assert Kept(rules, start, steps, |before|, base);
      assert DraftShownAt(rules, start, steps, |before|, formal);
    } else {
      ExplainedOn(rules, start, steps, base);
    }
  }

  /** Where the base of the draft on file and of every job in flight comes from. */
  lemma {:induction false} AlwaysKnown(rules: Rules, start: System, steps: seq<Step>)
    requires Idle(start) && Run(rules, start, steps)
    ensures AllKnown(rules, start, steps, After(rules, start, steps))
  {
    if steps == [] {
      assert start.store.draft.Envelope? ==> Inherited(rules, start, [], start.store.draft.draft.meta.base);
    } else {
      var before := steps[..|steps| - 1];
      AlwaysKnown(rules, start, before);
      forall id | id in After(rules, start, steps).jobs
        ensures JobShown(rules, start, steps, |steps|, id, FormalOf(After(rules, start, steps).jobs[id].formalBaseline))
      {
        var sys, step := After(rules, start, before), steps[|before|];
        JobsMove(rules, sys, step, id);
        if step.StartGeneration? && step.id == id {
          JobJustShown(rules, start, steps, id);
        } else {
          JobShownEarlier(rules, start, steps, |before|, id, FormalOf(sys.jobs[id].formalBaseline));
          JobStillShown(rules, start, steps, id, FormalOf(sys.jobs[id].formalBaseline));
        }
      }
      if After(rules, start, steps).store.draft.Envelope? {
        DraftKnown(rules, start, before, steps);
      }
    }
  }

  /**
   In every run, a generation commit replaces the very formal text that was on file when that job was
   started, and a promotion replaces the very text that was on file when its draft's base was recorded: by
   the copy or the acceptance since which the draft has kept that base, or at the start of the job whose
   quarantined answer it is. Only a promotion whose draft has had its base since before the run, recorded or
   not, is left to that base.
   */
  lemma {:induction false} NoLostUpdate(rules: Rules, start: System, steps: seq<Step>, step: Step)
    requires Idle(start) && Run(rules, start, steps) && Enabled(After(rules, start, steps), step)
    requires Replaces(rules, After(rules, start, steps), step)
    ensures step.FinishGeneration? ==>
              JobShown(rules, start, steps, |steps|, step.id, After(rules, start, steps).store.formal)
    ensures !step.FinishGeneration? ==>
              var base := BaseOf(After(rules, start, steps), step);
              var formal := After(rules, start, steps).store.formal;
              || (DraftShown(rules, start, steps, formal) && base == Recorded(FingerprintOf(formal)))
              || (Inherited(rules, start, steps, base) && BaseHolds(base, formal))
  {
    AlwaysKnown(rules, start, steps);
    LockedAlways(rules, start, steps);
    var sys := After(rules, start, steps);
    ReplacedEqualsBase(rules, sys, step);
    assert FormalOf(FingerprintOf(sys.store.formal)) == sys.store.formal;
  }

  /** Each step that replaces the formal text found it equal to the base it had recorded, if any. */
  lemma ReplacedEqualsBase(rules: Rules, sys: System, step: Step)
    requires Enabled(sys, step)
    ensures Replaces(rules, sys, step) ==> BaseHolds(BaseOf(sys, step), sys.store.formal)
    ensures !Replaces(rules, sys, step) && !step.WriteFormal? ==>
              Next(rules, sys, step).store.formal == sys.store.formal
  {}

  // ---- what is formal was found clean ------------------------------------------------------

  /** Found without violations by this very promotion or job. */
  ghost predicate FoundClean(rules: Rules, sys: System, step: Step, formal: Json)
    requires Enabled(sys, step)
  {
    match step
    case CommitPromotion => sys.lock.value.ticket.formal == formal && JudgedClean(rules, sys.lock.value.ticket)
    case FinishGeneration(id, answer) =>
      var v := rules.inspect(sys.jobs[id].project, answer, sys.jobs[id].source);
      v.Clean? && v.formal == formal
    case _ => false
  }

  lemma {:induction false} FormalValidity(rules: Rules, start: System, steps: seq<Step>, step: Step)
    requires Idle(start) && Run(rules, start, steps) && Enabled(After(rules, start, steps), step)
    requires Replaces(rules, After(rules, start, steps), step)
    ensures var next := Next(rules, After(rules, start, steps), step).store;
            && next.formal.Some? && next.formal.value.Parsed?
            && FoundClean(rules, After(rules, start, steps), step, next.formal.value.json)
            && next.draft == Missing
  {
    LockedAlways(rules, start, steps);
  }
}
