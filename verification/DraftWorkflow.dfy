/**
 The workflow over the stored documents: each locked section is one method, and each method does exactly
 what its step does in the runs of the protocol.
 */
module DraftWorkflow {
  import opened Wrappers
  import opened Json
  import opened DraftStore
  import DraftRuns
  import DraftRecovery
  import Shapes = ScriptPlanShapes

  class Workspace {
    const rules: Rules
    var formal: Option<Document>
    var draft: DraftFile
    var confirmed: Option<Fingerprint>
    var project: Json
    /** The operation holding the draft lock. */
    var lock: Option<DraftRuns.Holder>
    /** The generation jobs waiting for the model. */
    var jobs: map<nat, Job>

    constructor (rules: Rules, s: Store)
      ensures this.rules == rules && System() == DraftRuns.System(s, None, map[])
    {
      this.rules := rules;
      formal, draft, confirmed, project := s.formal, s.draft, s.confirmed, s.project;
      lock, jobs := None, map[];
    }

    function Files(): Store
      reads this
    {
      Store(formal, draft, confirmed, project)
    }

    function System(): DraftRuns.System
      reads this
    {
      DraftRuns.System(Files(), lock, jobs)
    }

    /** The first half of `open`: return the draft there is, or look whether the plan may be copied. */
    method BeginOpen(source: Option<string>) returns (reply: Result<Option<Payload>, Error>)
      requires lock.None?
      modifies `lock
      ensures System() == DraftRuns.Next(rules, old(System()), DraftRuns.BeginOpening(source))
      ensures reply == DraftStore.BeginOpen(rules, Files(), source)
      ensures reply == Ok(None) <==> lock == Some(DraftRuns.Opening(source))
      ensures reply != Ok(None) ==> lock.None?
      ensures draft.Envelope? ==> reply.Ok? && reply.value.Some?
      ensures draft.Corrupt? ==> reply == Err(DraftNotFound)
      ensures draft.Missing? && FormalConfirmed(Files()) ==> reply == Err(ScriptPlanConfirmed)
      ensures draft.Missing? && !FormalConfirmed(Files()) ==>
                reply == if source.Some? && !rules.readable(project, source) then Err(DraftOpenFailed) else Ok(None)
      ensures reply.Ok? && reply.value.Some? ==> DraftRecovery.Shows(reply.value.value, Files())
    {
      match draft {
        case Envelope(d, _) =>
          return Ok(Some(PayloadOf(Files(), d)));
        case Corrupt(_) =>
          return Err(DraftNotFound);
        case Missing =>
      }
      if FormalConfirmed(Files()) {
        return Err(ScriptPlanConfirmed);
      }
      if source.Some? && !rules.readable(project, source) {
        return Err(DraftOpenFailed);
      }
      lock := Some(DraftRuns.Opening(source));
      return Ok(None);
    }

    /** The second half, under the formal plan's lock: copy the formal plan, unless a draft has come. */
    method CommitOpen() returns (reply: Result<Payload, Error>)
      requires DraftRuns.IsOpening(System())
      modifies `draft, `lock
      ensures System() == DraftRuns.Next(rules, old(System()), DraftRuns.CommitOpening)
      ensures reply == CopyFormal(rules, old(Files()), old(lock).value.source).reply
      ensures lock.None?
      ensures reply.Err? ==> draft == old(draft)
      ensures old(draft).Missing? && reply.Err? ==>
                && reply.error == DraftSourceMissing
                && (formal.Some? && formal.value.Parsed? ==>
                      Shapes.DraftShape(rules.variant, formal.value.json) == None)
      ensures old(draft).Envelope? ==> reply.Ok? && draft == old(draft)
      ensures reply.Ok? ==> DraftRecovery.Shows(reply.value, Files())
      ensures reply.Ok? && old(draft).Missing? ==>
                && formal.Some? && formal.value.Parsed?
                && Shapes.DraftShape(rules.variant, formal.value.json) == Some(draft.draft.content)
                && draft.draft.violations == [] && draft.draft.meta.formalEdit
                && draft.draft.meta.base == Recorded(FingerprintOf(formal))
                && draft.draft.meta.source
                == From(if old(lock).value.source == Some("") then None else old(lock).value.source)
    {
      var source := lock.value.source;
      lock := None;
      match draft {
        case Envelope(d, _) =>
          return Ok(PayloadOf(Files(), d));
        case Corrupt(_) =>
          return Err(DraftNotFound);
        case Missing =>
      }
      if formal.None? || formal.value.Garbled? {
        return Err(DraftSourceMissing);
      }
      var content := Shapes.DraftShape(rules.variant, formal.value.json);
      if content.None? {
        return Err(DraftSourceMissing);
      }
      var d := Draft(content.value, [], Meta(From(OrNone(source)), Recorded(FingerprintOf(formal)), true));
      draft := Written(d);
      return Ok(PayloadOf(Files(), d));
    }

    method Open(source: Option<string>) returns (reply: Result<Payload, Error>)
      requires lock.None?
      modifies `draft, `lock
      ensures lock.None?
      ensures Files() == DraftStore.Open(rules, old(Files()), source).store
      ensures reply == DraftStore.Open(rules, old(Files()), source).reply
      ensures reply.Err? ==> draft == old(draft)
      ensures reply.Ok? ==> DraftRecovery.Shows(reply.value, Files())
      ensures old(draft).Envelope? ==> reply.Ok? && draft == old(draft)
    {
      var begun := BeginOpen(source);
      match begun {
        case Err(e) =>
          return Err(e);
        case Ok(Some(payload)) =>
          return Ok(payload);
        case Ok(None) =>
          reply := CommitOpen();
      }
    }

    /** The first half of `patch`: find the draft and check revision, confirmation and source. */
    method BeginPatch(base: Revision, change: Change) returns (reply: Result<Draft, Error>)
      requires lock.None?
      modifies `lock
      ensures System() == DraftRuns.Next(rules, old(System()), DraftRuns.BeginPatching(base, change))
      ensures reply == DraftStore.BeginPatch(rules, Files(), base, change)
      ensures reply.Err? ==> lock.None?
      ensures reply.Ok? ==> lock == Some(DraftRuns.Patching(reply.value, change))
      ensures reply.Ok? ==> draft.Envelope? && draft.draft == reply.value && base == Revision(reply.value)
                            && !EditRefused(Files(), reply.value)
      ensures !draft.Envelope? ==> reply == Err(DraftNotFound)
      ensures draft.Envelope? && base != Revision(draft.draft) ==> reply == Err(RevisionConflict)
      ensures draft.Envelope? && base == Revision(draft.draft) && EditRefused(Files(), draft.draft) ==>
                reply == Err(ScriptPlanConfirmed)
      ensures draft.Envelope? && base == Revision(draft.draft) && !EditRefused(Files(), draft.draft) ==>
                (reply == Err(SourceUnreadable)
                 <==> change.source.Some? && !rules.readable(project, change.source.value))
                && (reply.Err? ==> reply == Err(SourceUnreadable))
    {
      if !draft.Envelope? {
        return Err(DraftNotFound);
      }
      var d := draft.draft;
      if base != Revision(d) {
        return Err(RevisionConflict);
      }
      if EditRefused(Files(), d) {
        return Err(ScriptPlanConfirmed);
      }
      if change.source.Some? && !rules.readable(project, change.source.value) {
        return Err(SourceUnreadable);
      }
      lock := Some(DraftRuns.Patching(d, change));
      return Ok(d);
    }

    /** The second half: compare an accepted formal version with the one on file, and write. */
    method CommitPatch() returns (reply: Result<Payload, Error>)
      requires DraftRuns.IsPatching(System())
      modifies `draft, `lock
      ensures System() == DraftRuns.Next(rules, old(System()), DraftRuns.CommitPatching)
      ensures reply == FinishPatch(old(Files()), old(lock).value.draft, old(lock).value.change).reply
      ensures lock.None?
      ensures reply.Err? ==> draft == old(draft)
      ensures var d, change := old(lock).value.draft, old(lock).value.change;
              && (reply.Err? <==> change.accept.Some? && change.accept.value != FingerprintOf(formal))
              && (reply.Err? ==> reply.error == FormalRevisionConflict(FingerprintOf(formal)))
              && (reply.Ok? ==>
                    && DraftRecovery.Shows(reply.value, Files())
                    && draft.draft.content == change.content && draft.draft.violations == d.violations
                    && draft.draft.meta.source
                    == (if change.source.Some? then From(change.source.value) else d.meta.source)
                    && draft.draft.meta.base
                    == (if change.accept.Some? then Recorded(FingerprintOf(formal)) else d.meta.base)
                    && draft.draft.meta.formalEdit == d.meta.formalEdit)
    {
      var d, change := lock.value.draft, lock.value.change;
      lock := None;
      var meta := d.meta;
      if change.source.Some? {
        meta := meta.(source := From(change.source.value));
      }
      if change.accept.Some? {
        var actual := FingerprintOf(formal);
        if change.accept.value != actual {
          return Err(FormalRevisionConflict(actual));
        }
        meta := meta.(base := Recorded(actual));
      }
      draft := Written(Draft(change.content, d.violations, meta));
      return Ok(PayloadOf(Files(), draft.draft));
    }

    method Patch(base: Revision, change: Change) returns (reply: Result<Payload, Error>)
      requires lock.None?
      modifies `draft, `lock
      ensures lock.None?
      ensures Files() == DraftStore.Patch(rules, old(Files()), base, change).store
      ensures reply == DraftStore.Patch(rules, old(Files()), base, change).reply
      ensures reply.Err? ==> draft == old(draft)
      ensures reply.Ok? ==> old(draft).Envelope? && base == Revision(old(draft).draft)
      ensures reply.Ok? ==> DraftRecovery.Shows(reply.value, Files())
      ensures reply.Ok? ==> draft.draft.content == change.content
                            && draft.draft.violations == old(draft).draft.violations
    {
      var begun := BeginPatch(base, change);
      if begun.Err? {
        return Err(begun.error);
      }
      reply := CommitPatch();
    }

    method Discard(base: Revision) returns (reply: Result<bool, Error>)
      requires lock.None?
      modifies `draft
      ensures System() == DraftRuns.Next(rules, old(System()), DraftRuns.DiscardDraft(base))
      ensures reply == DraftStore.Discard(old(Files()), base).reply
      ensures reply.Err? <==> old(draft).Envelope? && base != Revision(old(draft).draft)
      ensures reply.Err? ==> draft == old(draft) && reply.error == RevisionConflict
      ensures reply.Ok? ==> (reply.value <==> !old(draft).Missing?)
      ensures reply.Ok? ==> draft == Missing && (old(draft).Envelope? ==> base == Revision(old(draft).draft))
    {
      if draft.Envelope? && base != Revision(draft.draft) {
        return Err(RevisionConflict);
      }
      var discarded := !draft.Missing?;
      draft := Missing;
      return Ok(discarded);
    }

    /** The first half of `promote`: take the lock, check and revalidate; the lock stays held when clean. */
    method BeginPromote(base: Revision) returns (reply: Result<Ticket, Error>)
      requires lock.None?
      modifies `draft, `lock
      ensures System() == DraftRuns.Next(rules, old(System()), DraftRuns.BeginPromotion(base))
      ensures reply == DraftStore.BeginPromote(rules, old(Files()), base).reply
      ensures reply.Err? ==> lock.None?
      ensures !old(draft).Envelope? ==> reply == Err(DraftNotFound) && draft == old(draft)
      ensures old(draft).Envelope? && base != Revision(old(draft).draft) ==>
                reply == Err(RevisionConflict) && draft == old(draft)
      ensures old(draft).Envelope? && base == Revision(old(draft).draft) ==>
                if EditRefused(old(Files()), old(draft).draft) then
                  reply == Err(ScriptPlanConfirmed) && draft == old(draft)
                else match rules.judge(project, old(draft).draft.content, old(draft).draft.meta.source)
                  case Clean(_, _) => reply.Ok?
                  case Unreadable => reply == Err(DraftInvalid(false)) && draft == old(draft)
                  case _ => reply == Err(DraftInvalid(true))
      ensures reply.Ok? ==> lock == Some(DraftRuns.Promoting(reply.value))
      ensures reply.Ok? ==> draft == old(draft) && draft.Envelope? && reply.value.draft == draft.draft
      ensures old(draft).Envelope? ==> draft.Envelope? && draft.draft.meta == old(draft).draft.meta
      ensures reply == Err(DraftInvalid(true)) ==>
                var d := old(draft).draft;
                var verdict := rules.judge(project, d.content, d.meta.source);
                || (verdict.SchemaFailed? && DraftRecovery.OnFile(Files(), d.content, verdict.violations, d.meta))
                || (verdict.Violating? && DraftRecovery.OnFile(Files(), verdict.content, verdict.violations, d.meta))
      ensures reply.Ok? ==>
                var verdict := rules.judge(project, draft.draft.content, draft.draft.meta.source);
                verdict.Clean? && reply.value.formal == verdict.formal
    {
      if !draft.Envelope? {
        return Err(DraftNotFound);
      }
      var d := draft.draft;
      if base != Revision(d) {
        return Err(RevisionConflict);
      }
      if EditRefused(Files(), d) {
        return Err(ScriptPlanConfirmed);
      }
      match rules.judge(project, d.content, d.meta.source) {
        case Unreadable =>
          return Err(DraftInvalid(false));
        case SchemaFailed(violations) =>
          draft := Written(d.(violations := violations));
          return Err(DraftInvalid(true));
        case Violating(content, violations) =>
          draft := Written(d.(content := content, violations := violations));
          return Err(DraftInvalid(true));
        case Clean(_, content) =>
          var ticket := Ticket(d, project, content);
          lock := Some(DraftRuns.Promoting(ticket));
          return Ok(ticket);
      }
    }

    /** The second half: compare the base, write the formal text, clear the draft. */
    method CommitPromote() returns (reply: Result<(), Error>)
      requires DraftRuns.IsPromoting(System())
      modifies `formal, `draft, `lock
      ensures System() == DraftRuns.Next(rules, old(System()), DraftRuns.CommitPromotion)
      ensures reply == DraftStore.CommitPromote(old(Files()), old(lock).value.ticket).reply
      ensures lock.None?
      ensures reply.Ok? <==> BaseHolds(old(lock).value.ticket.draft.meta.base, old(formal))
      ensures reply.Err? ==> reply.error == FormalRevisionConflict(FingerprintOf(formal))
      ensures reply.Err? ==> formal == old(formal) && draft == old(draft)
      ensures reply.Ok? ==> formal == Some(Parsed(old(lock).value.ticket.formal)) && draft == Missing
    {
      var ticket := lock.value.ticket;
      lock := None;
      match ticket.draft.meta.base {
        case Recorded(expected) =>
          var actual := FingerprintOf(formal);
          if expected != actual {
            return Err(FormalRevisionConflict(actual));
          }
        case Unchecked =>
      }
      formal := Some(Parsed(ticket.formal));
      draft := Missing;
      return Ok(());
    }

    method Promote(base: Revision) returns (reply: Result<(), Error>)
      requires lock.None?
      modifies `formal, `draft, `lock
      ensures lock.None?
      ensures Files() == DraftRecovery.Promote(rules, old(Files()), base).store
      ensures reply == DraftRecovery.Promote(rules, old(Files()), base).reply
      ensures reply.Err? ==> formal == old(formal) && (old(draft).Envelope? ==> draft.Envelope?)
      ensures reply.Ok? ==>
                var d := old(draft).draft;
                var verdict := rules.judge(project, d.content, d.meta.source);
                verdict.Clean? && formal == Some(Parsed(verdict.formal)) && draft == Missing
      ensures reply == Err(DraftInvalid(true)) ==>
                var d := old(draft).draft;
                var verdict := rules.judge(project, d.content, d.meta.source);
                || (verdict.SchemaFailed? && DraftRecovery.OnFile(Files(), d.content, verdict.violations, d.meta))
                || (verdict.Violating? && DraftRecovery.OnFile(Files(), verdict.content, verdict.violations, d.meta))
    {
      var begun := BeginPromote(base);
      if begun.Err? {
        return Err(begun.error);
      }
      reply := CommitPromote();
    }

    method Save(content: Json, base: Revision) returns (reply: Result<DraftRecovery.Saved, Error>)
      requires lock.None?
      modifies `formal, `draft, `lock
      ensures lock.None?
      ensures Files() == DraftRecovery.Save(rules, old(Files()), content, base).store
      ensures reply == DraftRecovery.Save(rules, old(Files()), content, base).reply
      ensures reply == Ok(DraftRecovery.Adopted) ==> draft == Missing
      ensures reply != Ok(DraftRecovery.Adopted) ==> formal == old(formal)
      ensures reply.Ok? && reply.value.StillInvalid? ==> DraftRecovery.Shows(reply.value.draft, Files())
    {
      DraftRecovery.SaveAdoptsExactlyWhen(rules, Files(), content, base);
      if draft.Envelope? && draft.draft.meta.formalEdit {
        return Err(DraftAgentOwned);
      }
      var patched := Patch(base, Change(content, None, None));
      if patched.Err? {
        return Err(patched.error);
      }
      var promoted := Promote(patched.value.revision);
      if promoted.Ok? {
        return Ok(DraftRecovery.Adopted);
      }
      if promoted.error != DraftInvalid(true) {
        return Err(promoted.error);
      }
      return Ok(DraftRecovery.StillInvalid(PayloadOf(Files(), draft.draft)));
    }

    method StartGeneration(id: nat, snapshot: Json, source: Option<string>)
      requires lock.None? && id !in jobs
      modifies `jobs
      ensures System() == DraftRuns.Next(rules, old(System()), DraftRuns.StartGeneration(id, snapshot, source))
      ensures id in jobs && jobs[id].formalBaseline == FingerprintOf(formal)
    {
      var draftBaseline, formalBaseline := FileRevisionOf(draft), FingerprintOf(formal);
      jobs := jobs[id := Job(draftBaseline, formalBaseline, snapshot, source)];
    }

    method FinishGeneration(id: nat, answer: Json) returns (reply: Result<(), Error>)
      requires lock.None? && id in jobs
      modifies `formal, `draft, `jobs
      ensures System() == DraftRuns.Next(rules, old(System()), DraftRuns.FinishGeneration(id, answer))
      ensures reply == FinishJob(rules, old(Files()), old(jobs)[id], answer).reply
      ensures reply.Err? ==> formal == old(formal)
      ensures reply.Ok? ==> formal.Some? && draft == Missing && id !in jobs
      ensures var job := old(jobs)[id];
              var verdict := rules.inspect(job.project, answer, job.source);
              && (reply.Ok? ==> verdict.Clean? && formal == Some(Parsed(verdict.formal)))
              && (reply == Err(GenerationFailed) <==> verdict.Unreadable? || verdict.SchemaFailed?)
              && (reply == Err(DraftRevisionConflict)
                  <==> (verdict.Violating? || verdict.Clean?) && FileRevisionOf(old(draft)) != job.draftBaseline)
              && (reply.Ok? || reply == Err(GenerationQuarantined) || draft == old(draft))
              && (reply == Err(GenerationQuarantined) ==>
                    && draft.Envelope? && !draft.draft.meta.formalEdit
                    && draft.draft.meta.base == Recorded(job.formalBaseline)
                    && (verdict.Violating? || verdict.Clean?)
                    && draft.draft.content == verdict.content
                    && draft.draft.violations == (if verdict.Clean? then [FORMAL_CHANGED] else verdict.violations)
                    && draft.draft.meta.source
                    == From(if verdict.Violating? && job.source == Some("") then None else job.source))
    {
      var job := jobs[id];
      jobs := jobs - {id};
      var verdict := rules.inspect(job.project, answer, job.source);
      if verdict.Unreadable? || verdict.SchemaFailed? {
        return Err(GenerationFailed);
      }
      if FileRevisionOf(draft) != job.draftBaseline {
        return Err(DraftRevisionConflict);
      }
      if verdict.Violating? {
        var meta := Meta(From(OrNone(job.source)), Recorded(job.formalBaseline), false);
        draft := Written(Draft(verdict.content, verdict.violations, meta));
        return Err(GenerationQuarantined);
      }
      if job.formalBaseline == FingerprintOf(formal) {
        formal := Some(Parsed(verdict.formal));
        draft := Missing;
        return Ok(());
      }
      var meta := Meta(From(job.source), Recorded(job.formalBaseline), false);
      draft := Written(Draft(verdict.content, [FORMAL_CHANGED], meta));
      return Err(GenerationQuarantined);
    }
  }
}
