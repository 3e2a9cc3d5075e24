/**
 One episode's script plan: the formal document, its draft, and what each operation on them does.

 The formal document is shared by the agent, the web interface and generation jobs; whoever wants to
 replace it records the fingerprint of the version it started from. Validation is an arbitrary
 deterministic function of the project, the content and the recorded source range.
 */
module DraftStore {
  import opened Wrappers
  import opened Json
  import Shapes = ScriptPlanShapes

  // ---- documents and revisions -------------------------------------------------------------

  /** The formal file: a JSON document, or bytes that are none. */
  datatype Document = Parsed(json: Json) | Garbled(bytes: string)

  /** A digest identifies the document it was taken of. */
  datatype Fingerprint = Digest(document: Document)

  /** `content_fingerprint`: none for a file that is not there. */
  function FingerprintOf(formal: Option<Document>): (f: Option<Fingerprint>)
    ensures f.None? <==> formal.None?
  {
    if formal.None? then None else Some(Digest(formal.value))
  }

  /** The formal file a fingerprint was taken of. */
  function FormalOf(fingerprint: Option<Fingerprint>): (formal: Option<Document>)
    ensures FingerprintOf(formal) == fingerprint
  {
    if fingerprint.None? then None else Some(fingerprint.value.document)
  }

  lemma FingerprintIdentifies(a: Option<Document>, b: Option<Document>)
    requires FingerprintOf(a) == FingerprintOf(b)
    ensures a == b
  {}

  // ---- drafts ------------------------------------------------------------------------------

  datatype Violation = Violation(code: string, message: string)

  /** The source range recorded with the draft; an explicit null stands for the episode's own source. */
  datatype Source = Unrecorded | From(path: Option<string>)

  /** The formal version a draft started from; an explicit null when there was none. */
  datatype Base = Unchecked | Recorded(fingerprint: Option<Fingerprint>)

  /** `formalEdit` marks an agent's working copy; without it the draft waits for repair by its author. */
  datatype Meta = Meta(source: Source, base: Base, formalEdit: bool)

  datatype Draft = Draft(content: Json, violations: seq<Violation>, meta: Meta)

  /** The token of optimistic concurrency on drafts. */
  datatype Revision = Revision(draft: Draft)

  /** The draft file; `rest` is what of its bytes does not reach the draft read from it. */
  datatype DraftFile = Missing | Corrupt(bytes: string) | Envelope(draft: Draft, rest: string)

  function Written(draft: Draft): DraftFile { Envelope(draft, "") }

  /** A digest of the whole draft file. */
  datatype FileRevision = FileRevision(file: DraftFile)

  function FileRevisionOf(file: DraftFile): Option<FileRevision> {
    if file.Missing? then None else Some(FileRevision(file))
  }

  // ---- validation --------------------------------------------------------------------------

  datatype Verdict =
    | Unreadable
    | SchemaFailed(violations: seq<Violation>)
    | Violating(content: Json, violations: seq<Violation>)
    | Clean(content: Json, formal: Json)

  /**
   `judge` revalidates a draft, `inspect` a generated answer, `readable` checks a source range. The first
   argument is the project with everything else validation depends on.
   */
  datatype Rules = Rules(
    variant: Shapes.Variant,
    judge: (Json, Json, Source) -> Verdict,
    inspect: (Json, Json, Option<string>) -> Verdict,
    readable: (Json, Option<string>) -> bool)

  // ---- the store ---------------------------------------------------------------------------

  datatype Store = Store(
    formal: Option<Document>, draft: DraftFile, confirmed: Option<Fingerprint>, project: Json)

  datatype Error =
    | DraftNotFound
    | DraftSourceMissing
    | DraftOpenFailed
    | SourceUnreadable
    | ScriptPlanConfirmed
    | DraftAgentOwned
    | RevisionConflict
    | FormalRevisionConflict(actual: Option<Fingerprint>)
    | DraftInvalid(refreshed: bool)
    | GenerationFailed
    | DraftRevisionConflict
    | GenerationQuarantined

  /** The store afterwards, and what the caller is told. */
  datatype Outcome<+T> = Outcome(store: Store, reply: Result<T, Error>)

  datatype Payload = Payload(
    content: Json, violations: seq<Violation>, revision: Revision, formalRevision: Option<Fingerprint>)

  function PayloadOf(s: Store, d: Draft): Payload {
    Payload(d.content, d.violations, Revision(d), FingerprintOf(s.formal))
  }

  /** Confirmed is the version whose fingerprint the confirmation carries. */
  predicate FormalConfirmed(s: Store) { s.formal.Some? && s.confirmed == FingerprintOf(s.formal) }

  /** A confirmed plan is read-only to the agent's working copies, not to drafts left by generation. */
  predicate EditRefused(s: Store, d: Draft) { d.meta.formalEdit && FormalConfirmed(s) }

  // ---- opening, patching, discarding -------------------------------------------------------

  function OrNone(source: Option<string>): Option<string> { if source == Some("") then None else source }

  function FormalShape(rules: Rules, s: Store): Option<Json> {
    match s.formal
    case Some(Parsed(json)) => Shapes.DraftShape(rules.variant, json)
    case _ => None
  }

  /** The first half of an opening: the draft there is, or the go-ahead to copy the formal plan. */
  function BeginOpen(rules: Rules, s: Store, source: Option<string>): Result<Option<Payload>, Error> {
    match s.draft
    case Envelope(d, _) => Ok(Some(PayloadOf(s, d)))
    case Corrupt(_) => Err(DraftNotFound)
    case Missing =>
      if FormalConfirmed(s) then Err(ScriptPlanConfirmed)
      else if source.Some? && !rules.readable(s.project, source) then Err(DraftOpenFailed)
      else Ok(None)
  }

  /** The second half, under the formal plan's lock; it does not look at the confirmation again. */
  function CopyFormal(rules: Rules, s: Store, source: Option<string>): Outcome<Payload> {
    match s.draft
    case Envelope(d, _) => Outcome(s, Ok(PayloadOf(s, d)))
    case Corrupt(_) => Outcome(s, Err(DraftNotFound))
    case Missing =>
      match FormalShape(rules, s)
      case None => Outcome(s, Err(DraftSourceMissing))
      case Some(content) =>
        var d := Draft(content, [], Meta(From(OrNone(source)), Recorded(FingerprintOf(s.formal)), true));
        Outcome(s.(draft := Written(d)), Ok(PayloadOf(s, d)))
  }

  /** `open` when nothing happens between its halves. */
  function Open(rules: Rules, s: Store, source: Option<string>): Outcome<Payload> {
    match BeginOpen(rules, s, source)
    case Err(e) => Outcome(s, Err(e))
    case Ok(Some(payload)) => Outcome(s, Ok(payload))
    case Ok(None) => CopyFormal(rules, s, source)
  }

  /** What a patch changes besides the content; accepting a formal version and a source may be null. */
  datatype Change = Change(content: Json, accept: Option<Option<Fingerprint>>, source: Option<Option<string>>)

  /** The first half of a patch: the draft it is to change. */
  function BeginPatch(rules: Rules, s: Store, base: Revision, c: Change): Result<Draft, Error> {
    if !s.draft.Envelope? then Err(DraftNotFound)
    else
      var d := s.draft.draft;
      if base != Revision(d) then Err(RevisionConflict)
      else if EditRefused(s, d) then Err(ScriptPlanConfirmed)
      else if c.source.Some? && !rules.readable(s.project, c.source.value) then Err(SourceUnreadable)
      else Ok(d)
  }

  /** The second half: compare an accepted formal version with the one on file, and write. */
  function FinishPatch(s: Store, d: Draft, c: Change): Outcome<Payload> {
    if c.accept.Some? && c.accept.value != FingerprintOf(s.formal) then
      Outcome(s, Err(FormalRevisionConflict(FingerprintOf(s.formal))))
    else
      var e := Draft(c.content, d.violations, PatchedMeta(d.meta, c));
      Outcome(s.(draft := Written(e)), Ok(PayloadOf(s, e)))
  }

  /** `patch` when nothing happens between its halves. */
  function Patch(rules: Rules, s: Store, base: Revision, c: Change): Outcome<Payload> {
    match BeginPatch(rules, s, base, c)
    case Err(e) => Outcome(s, Err(e))
    case Ok(d) => FinishPatch(s, d, c)
  }

  function PatchedMeta(meta: Meta, c: Change): Meta {
    Meta(
      if c.source.Some? then From(c.source.value) else meta.source,
      if c.accept.Some? then Recorded(c.accept.value) else meta.base,
      meta.formalEdit)
  }

  /** The reply says whether there was a file to remove. */
  function Discard(s: Store, base: Revision): Outcome<bool> {
    if s.draft.Envelope? && base != Revision(s.draft.draft) then Outcome(s, Err(RevisionConflict))
    else Outcome(s.(draft := Missing), Ok(!s.draft.Missing?))
  }

  // ---- promotion ---------------------------------------------------------------------------

  /** A promotion whose draft was found clean; it holds the draft lock until it commits. */
  datatype Ticket = Ticket(draft: Draft, project: Json, formal: Json)

  function BeginPromote(rules: Rules, s: Store, base: Revision): Outcome<Ticket> {
    if !s.draft.Envelope? then Outcome(s, Err(DraftNotFound))
    else
      var d := s.draft.draft;
      if base != Revision(d) then Outcome(s, Err(RevisionConflict))
      else if EditRefused(s, d) then Outcome(s, Err(ScriptPlanConfirmed))
      else match rules.judge(s.project, d.content, d.meta.source)
        case Unreadable => Outcome(s, Err(DraftInvalid(false)))
        case SchemaFailed(vs) => Outcome(s.(draft := Written(Draft(d.content, vs, d.meta))), Err(DraftInvalid(true)))
        case Violating(c, vs) => Outcome(s.(draft := Written(Draft(c, vs, d.meta))), Err(DraftInvalid(true)))
        case Clean(_, formal) => Outcome(s, Ok(Ticket(d, s.project, formal)))
  }

  /** `assert_base_fingerprint` */
  predicate BaseHolds(base: Base, formal: Option<Document>) {
    base.Recorded? ==> base.fingerprint == FingerprintOf(formal)
  }

  function CommitPromote(s: Store, t: Ticket): Outcome<()> {
    if !BaseHolds(t.draft.meta.base, s.formal) then Outcome(s, Err(FormalRevisionConflict(FingerprintOf(s.formal))))
    else Outcome(s.(formal := Some(Parsed(t.formal)), draft := Missing), Ok(()))
  }

  // ---- generation --------------------------------------------------------------------------

  /** What a job remembers while the model answers. */
  datatype Job = Job(
    draftBaseline: Option<FileRevision>, formalBaseline: Option<Fingerprint>, project: Json, source: Option<string>)

  function StartJob(s: Store, project: Json, source: Option<string>): Job {
    Job(FileRevisionOf(s.draft), FingerprintOf(s.formal), project, source)
  }

  const FORMAL_CHANGED := Violation("formal_revision_conflict", "the formal content changed during generation")

  function FinishJob(rules: Rules, s: Store, job: Job, answer: Json): Outcome<()> {
    match rules.inspect(job.project, answer, job.source)
    case Unreadable => Outcome(s, Err(GenerationFailed))
    case SchemaFailed(_) => Outcome(s, Err(GenerationFailed))
    case Violating(content, vs) =>
      if FileRevisionOf(s.draft) != job.draftBaseline then Outcome(s, Err(DraftRevisionConflict))
      else
        var meta := Meta(From(OrNone(job.source)), Recorded(job.formalBaseline), false);
        Outcome(s.(draft := Written(Draft(content, vs, meta))), Err(GenerationQuarantined))
    case Clean(content, formal) =>
      if FileRevisionOf(s.draft) != job.draftBaseline then Outcome(s, Err(DraftRevisionConflict))
      else if job.formalBaseline == FingerprintOf(s.formal) then
        Outcome(s.(formal := Some(Parsed(formal)), draft := Missing), Ok(()))
      else
        var meta := Meta(From(job.source), Recorded(job.formalBaseline), false);
        Outcome(s.(draft := Written(Draft(content, [FORMAL_CHANGED], meta))), Err(GenerationQuarantined))
  }
}
