/**
 What becomes of a draft that cannot be promoted, and of an answer that cannot be committed: when exactly
 each is refused, that nothing is lost, and that every conflict can be resolved.
 */
module DraftRecovery {
  import opened Wrappers
  import opened Json
  import opened DraftStore
  import opened DraftRuns
  import Shapes = ScriptPlanShapes

  /** `promote` when nothing happens between its two steps. */
  function Promote(rules: Rules, s: Store, base: Revision): Outcome<()> {
    var begun := BeginPromote(rules, s, base);
    match begun.reply
    case Ok(ticket) => CommitPromote(begun.store, ticket)
    case Err(e) => Outcome(begun.store, Err(e))
  }

  // ---- when each is refused ----------------------------------------------------------------

  /** Undisturbed, a promotion goes through exactly for the current, editable, clean draft on a current base. */
  lemma PromotedExactlyWhen(rules: Rules, s: Store, base: Revision)
    ensures Promote(rules, s, base).reply.Ok? <==>
              && s.draft.Envelope?
              && base == Revision(s.draft.draft)
              && !EditRefused(s, s.draft.draft)
              && rules.judge(s.project, s.draft.draft.content, s.draft.draft.meta.source).Clean?
              && BaseHolds(s.draft.draft.meta.base, s.formal)
  {}

  /** The draft on file, whatever else of its bytes. */
  predicate OnFile(s: Store, content: Json, violations: seq<Violation>, meta: Meta) {
    s.draft.Envelope? && s.draft.draft.content == content && s.draft.draft.violations == violations
    && s.draft.draft.meta == meta
  }

  /**
   What promoting the current, editable draft leaves behind, by the verdict on it: the report is exactly the
   violations found, the content as it was when it fits no schema and else as validation normalised it.
   */
  lemma BlockedPromotionReports(rules: Rules, s: Store, base: Revision)
    requires s.draft.Envelope? && base == Revision(s.draft.draft) && !EditRefused(s, s.draft.draft)
    ensures var d := s.draft.draft;
            var after := Promote(rules, s, base);
            match rules.judge(s.project, d.content, d.meta.source) {
              case Unreadable => after.reply == Err(DraftInvalid(false)) && after.store == s
              case SchemaFailed(found) =>
                && after.reply == Err(DraftInvalid(true)) && after.store.(draft := s.draft) == s
                && OnFile(after.store, d.content, found, d.meta)
              case Violating(normalised, found) =>
                && after.reply == Err(DraftInvalid(true)) && after.store.(draft := s.draft) == s
                && OnFile(after.store, normalised, found, d.meta)
              case Clean(_, formal) =>
                if BaseHolds(d.meta.base, s.formal) then
                  && after.reply == Ok(()) && after.store.draft == Missing
                  && after.store.formal == Some(Parsed(formal))
                else after.reply == Err(FormalRevisionConflict(FingerprintOf(s.formal))) && after.store == s
            }
  {}

  /** Blocked by violations, the formal text is unchanged and the draft is there with the same meta. */
  lemma BlockedPromotionKeepsDraft(rules: Rules, s: Store, base: Revision, refreshed: bool)
    requires BeginPromote(rules, s, base).reply == Err(DraftInvalid(refreshed))
    ensures s.draft.Envelope?
    ensures var d, after := s.draft.draft, BeginPromote(rules, s, base).store;
            && after.(draft := s.draft) == s
            && (!refreshed ==> after.draft == s.draft)
            && (refreshed ==>
                  var verdict := rules.judge(s.project, d.content, d.meta.source);
                  || (verdict.SchemaFailed? && OnFile(after, d.content, verdict.violations, d.meta))
                  || (verdict.Violating? && OnFile(after, verdict.content, verdict.violations, d.meta)))
  {}

  /** An answer becomes formal exactly when it is clean and neither document changed during generation. */
  lemma GenerationCommitsExactlyWhen(rules: Rules, started: Store, s: Store, project: Json, source: Option<string>,
                                     answer: Json)
    ensures FinishJob(rules, s, StartJob(started, project, source), answer).reply.Ok? <==>
              && rules.inspect(project, answer, source).Clean?
              && s.draft == started.draft
              && s.formal == started.formal
  {
    if FingerprintOf(s.formal) == FingerprintOf(started.formal) {
      FingerprintIdentifies(s.formal, started.formal);
    }
  }

  // ---- losing a race -----------------------------------------------------------------------

  /** The step compares against a formal version that is no longer on file. */
  predicate Conflicts(rules: Rules, sys: System, step: Step)
    requires Enabled(sys, step)
  {
    match step
    case CommitPatching => FinishPatch(sys.store, sys.lock.value.draft, sys.lock.value.change).reply.Err?
    case CommitPromotion => CommitPromote(sys.store, sys.lock.value.ticket).reply.Err?
    case FinishGeneration(id, answer) =>
      var job := sys.jobs[id];
      && rules.inspect(job.project, answer, job.source).Clean?
      && FileRevisionOf(sys.store.draft) == job.draftBaseline
      && job.formalBaseline != FingerprintOf(sys.store.formal)
    case _ => false
  }

  /** A loser leaves the formal text alone and a readable draft behind, generation with its answer and old base. */
  lemma {:induction false} LoserLosesNothing(rules: Rules, start: System, steps: seq<Step>, step: Step)
    requires Idle(start) && Run(rules, start, steps) && Enabled(After(rules, start, steps), step)
    requires Conflicts(rules, After(rules, start, steps), step)
    ensures var sys := After(rules, start, steps);
            var next := Next(rules, sys, step);
            && next.lock.None?
            && next.store.formal == sys.store.formal
            && next.store.draft.Envelope?
            && (step.FinishGeneration? ==>
                  var job := sys.jobs[step.id];
                  && next.store.draft.draft.content == rules.inspect(job.project, step.answer, job.source).content
                  && next.store.draft.draft.meta.base == Recorded(job.formalBaseline)
                  && !BaseHolds(next.store.draft.draft.meta.base, next.store.formal))
            && (!step.FinishGeneration? ==> next.store == sys.store)
  {
    LockedAlways(rules, start, steps);
  }

  // ---- resolving a conflict ----------------------------------------------------------------

  /** Promoting again without accepting the new version meets the same conflict, whatever the content. */
  lemma ConflictPersistsUnaccepted(rules: Rules, s: Store, change: Change)
    requires s.draft.Envelope? && !BaseHolds(s.draft.draft.meta.base, s.formal) && change.accept.None?
    requires Patch(rules, s, Revision(s.draft.draft), change).reply.Ok?
    ensures var patched := Patch(rules, s, Revision(s.draft.draft), change);
            !Promote(rules, patched.store, patched.reply.value.revision).reply.Ok?
  {}

  /** Open, patch accepting the formal revision reported (null included), promote with the revision returned. */
  function Resolve(rules: Rules, s: Store, content: Json): Outcome<()> {
    var fetched := Open(rules, s, None);
    match fetched.reply
    case Err(e) => Outcome(fetched.store, Err(e))
    case Ok(shown) =>
      var patched := Patch(rules, fetched.store, shown.revision, Change(content, Some(shown.formalRevision), None));
      match patched.reply
      case Err(e) => Outcome(patched.store, Err(e))
      case Ok(draft) => Promote(rules, patched.store, draft.revision)
  }

  /** With a readable draft, undisturbed resolution succeeds exactly for valid content not refused to edits. */
  lemma ResolvesExactlyWhen(rules: Rules, s: Store, content: Json)
    requires s.draft.Envelope?
    ensures var verdict := rules.judge(s.project, content, s.draft.draft.meta.source);
            && (Resolve(rules, s, content).reply.Ok? <==> verdict.Clean? && !EditRefused(s, s.draft.draft))
            && (Resolve(rules, s, content).reply.Ok? ==>
                  Resolve(rules, s, content).store == s.(formal := Some(Parsed(verdict.formal)), draft := Missing))
  {}

  /** In every run, whatever step met a conflict, resolving it is possible from where it leaves the system. */
  lemma {:induction false} ConflictsAreResolvable(
    rules: Rules, start: System, steps: seq<Step>, step: Step, content: Json)
    requires Idle(start) && Run(rules, start, steps) && Enabled(After(rules, start, steps), step)
    requires Conflicts(rules, After(rules, start, steps), step)
    ensures var next := Next(rules, After(rules, start, steps), step);
            && next.lock.None?
            && next.store.draft.Envelope?
            && var verdict := rules.judge(next.store.project, content, next.store.draft.draft.meta.source);
               !FormalConfirmed(next.store) && verdict.Clean? ==>
                 Resolve(rules, next.store, content)
                 == Outcome(next.store.(formal := Some(Parsed(verdict.formal)), draft := Missing), Ok(()))
  {
    LoserLosesNothing(rules, start, steps, step);
    ResolvesExactlyWhen(rules, Next(rules, After(rules, start, steps), step).store, content);
  }

  // ---- saving ------------------------------------------------------------------------------

  datatype Saved = Adopted | StillInvalid(draft: Payload)

  /** The author's repair: for drafts generation left, patched and promoted in one go. */
  function Save(rules: Rules, s: Store, content: Json, base: Revision): Outcome<Saved> {
    if s.draft.Envelope? && s.draft.draft.meta.formalEdit then Outcome(s, Err(DraftAgentOwned))
    else
      var patched := Patch(rules, s, base, Change(content, None, None));
      match patched.reply
      case Err(e) => Outcome(s, Err(e))
      case Ok(p) =>
        var promoted := Promote(rules, patched.store, p.revision);
        match promoted.reply
        case Ok(_) => Outcome(promoted.store, Ok(Adopted))
        case Err(DraftInvalid(true)) =>
          var d := promoted.store.draft.draft;
          Outcome(promoted.store, Ok(StillInvalid(PayloadOf(promoted.store, d))))
        case Err(e) => Outcome(promoted.store, Err(e))
  }

  /** The text is adopted exactly when it is valid, its base revision current, and the formal base too. */
  lemma SaveAdoptsExactlyWhen(rules: Rules, s: Store, content: Json, base: Revision)
    ensures Save(rules, s, content, base).reply == Ok(Adopted) <==>
              && s.draft.Envelope?
              && base == Revision(s.draft.draft)
              && !s.draft.draft.meta.formalEdit
              && rules.judge(s.project, content, s.draft.draft.meta.source).Clean?
              && BaseHolds(s.draft.draft.meta.base, s.formal)
    ensures Save(rules, s, content, base).reply == Ok(Adopted) ==>
              var verdict := rules.judge(s.project, content, s.draft.draft.meta.source);
              Save(rules, s, content, base).store == s.(formal := Some(Parsed(verdict.formal)), draft := Missing)
    ensures Save(rules, s, content, base).reply != Ok(Adopted) ==>
              var left := Save(rules, s, content, base).store;
              left.formal == s.formal && (s.draft.Envelope? ==> left.draft.Envelope?)
  {}

  /** The payload shows the draft on file and the formal version on file. */
  predicate Shows(p: Payload, s: Store) {
    && s.draft.Envelope?
    && p.content == s.draft.draft.content && p.violations == s.draft.draft.violations
    && p.revision == Revision(s.draft.draft) && p.formalRevision == FingerprintOf(s.formal)
  }

  /** What saving to a current draft of one's own leaves behind and answers when the text is not adopted. */
  lemma SaveReports(rules: Rules, s: Store, content: Json, base: Revision)
    requires s.draft.Envelope? && base == Revision(s.draft.draft) && !s.draft.draft.meta.formalEdit
    ensures var d := s.draft.draft;
            var after := Save(rules, s, content, base);
            match rules.judge(s.project, content, d.meta.source) {
              case Unreadable =>
                after.reply == Err(DraftInvalid(false)) && OnFile(after.store, content, d.violations, d.meta)
              case SchemaFailed(found) =>
                && OnFile(after.store, content, found, d.meta)
                && after.reply.Ok? && after.reply.value.StillInvalid? && Shows(after.reply.value.draft, after.store)
              case Violating(normalised, found) =>
                && OnFile(after.store, normalised, found, d.meta)
                && after.reply.Ok? && after.reply.value.StillInvalid? && Shows(after.reply.value.draft, after.store)
              case Clean(_, formal) =>
                if BaseHolds(d.meta.base, s.formal) then
                  after.reply == Ok(Adopted) && after.store.formal == Some(Parsed(formal))
                else
                  && after.reply == Err(FormalRevisionConflict(FingerprintOf(s.formal)))
                  && OnFile(after.store, content, d.violations, d.meta)
            }
  {}

  /** The text is on file: in the draft, as it is or as validation normalised it, or formal. */
  predicate TextOnFile(rules: Rules, judged: Json, source: Source, s: Store, content: Json) {
    var v := rules.judge(judged, content, source);
    || (s.draft.Envelope? && s.draft.draft.content == content)
    || (s.draft.Envelope? && v.Violating? && s.draft.draft.content == v.content)
    || (v.Clean? && s.formal == Some(Parsed(v.formal)))
  }

  /**
   Once `save` has written its text into the draft, the text stays on file however the rest of it ends and
   whatever others do to the formal document, the project and the confirmation before and after judging.
   */
  lemma SaveKeepsText(rules: Rules, s: Store, d: Draft, content: Json, judging: Store, committing: Store)
    requires var patched := FinishPatch(s, d, Change(content, None, None));
             && patched.reply.Ok? && judging.draft == patched.store.draft
             && committing.draft == BeginPromote(rules, judging, patched.reply.value.revision).store.draft
    ensures var revision := FinishPatch(s, d, Change(content, None, None)).reply.value.revision;
            var source := judging.draft.draft.meta.source;
            var begun := BeginPromote(rules, judging, revision);
            var left := if begun.reply.Ok? then CommitPromote(committing, begun.reply.value).store else committing;
            TextOnFile(rules, judging.project, source, left, content)
  {}

  // ---- reading back ------------------------------------------------------------------------

  /** A promoted reference plan, opened again while unconfirmed, shows the very content that was promoted. */
  lemma PromotedPlanReopens(rules: Rules, s: Store, base: Revision, key: Shapes.NameKey, flat: seq<Shapes.FlatUnit>,
                            assets: seq<map<string, Json>>, episode: nat)
    requires rules.variant == Shapes.Reference && flat != []
    requires Promote(rules, s, base).reply.Ok?
    requires Promote(rules, s, base).store.formal == Some(Parsed(Shapes.ReferenceFormal(key, flat, assets, episode)))
    ensures var after := Promote(rules, s, base).store;
            var fetched := Open(rules, after, None);
            !FormalConfirmed(after) ==>
              && fetched.reply.Ok?
              && fetched.reply.value.content == Shapes.ReferenceDraft(key, flat, assets)
              && fetched.reply.value.formalRevision == FingerprintOf(fetched.store.formal)
              && BaseHolds(fetched.store.draft.draft.meta.base, fetched.store.formal)
  {
    Shapes.ReopenedReferencePlan(key, flat, assets, episode);
  }
}
