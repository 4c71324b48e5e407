/**
 * The records of the annotation tool (`src/lib/types.ts`), as values.
 * Fields the source declares optional, or that older documents may lack, are `Option`s.
 */
module Types {
  import opened Wrappers

  datatype Verdict = Verdict(
    verdict: string,
    context: string,
    verdictNeedsRevision: bool,
    contextNeedsRevision: bool,
    isPrimary: bool,
    justificationIds: Option<seq<string>>)

  datatype SourceKind = Quran | Hadits

  datatype PrimarySource = PrimarySource(
    id: string,
    kind: SourceKind,
    textTranslation: string,
    reference: string,
    textTranslationNeedsRevision: bool,
    referenceNeedsRevision: bool)

  datatype SecondarySource = SecondarySource(
    id: string,
    scholar: string,
    sourceDetail: string,
    quoteVerbatim: string,
    scholarNeedsRevision: bool,
    sourceDetailNeedsRevision: bool,
    quoteVerbatimNeedsRevision: bool)

  datatype Justification = Justification(
    primarySources: seq<PrimarySource>,
    secondarySources: seq<SecondarySource>)

  datatype AnnotationStatus = Draft | Completed | NonFatwa

  datatype QuestionRevisionReason = Syntax | Semantic | Unanswerable | Unfocused | Other

  /** The justification lists of a saved annotation; either list may be missing. */
  datatype StoredJustification = StoredJustification(
    primarySources: Option<seq<PrimarySource>>,
    secondarySources: Option<seq<SecondarySource>>)

  /**
   * A saved annotation as the admin screens read it back. `originalId` is not a
   * field the annotation form writes (it writes `annotationItemId`), so it is
   * `None` for every record the form saved.
   */
  datatype Annotation = Annotation(
    userId: string,
    annotationItemId: string,
    originalId: Option<string>,
    status: AnnotationStatus,
    questionNeedsRevision: bool,
    verdicts: Option<seq<Verdict>>,
    justifications: Option<StoredJustification>,
    durationSeconds: Option<int>)

  /** The seed verdicts and sources an item is imported with. */
  datatype SeedVerdict = SeedVerdict(verdict: string, context: string, isPrimary: Option<bool>)

  datatype SeedPrimarySource = SeedPrimarySource(kind: SourceKind, textTranslation: string, reference: string)

  datatype SeedSecondarySource = SeedSecondarySource(scholar: string, sourceDetail: string, quoteVerbatim: string)

  datatype SeedJustification = SeedJustification(
    primarySources: Option<seq<SeedPrimarySource>>,
    secondarySources: Option<seq<SeedSecondarySource>>)

  datatype Dataset = Main | Pilot

  datatype AnnotationItem = AnnotationItem(
    id: string,
    originalId: string,
    topic: string,
    question: string,
    verdicts: Option<seq<SeedVerdict>>,
    justifications: Option<SeedJustification>,
    dataset: Dataset)

  datatype AssignmentStatus = Pending | Draft | Completed | NonFatwa

  datatype ItemAssignment = ItemAssignment(
    originalId: string,
    userId: string,
    status: AssignmentStatus,
    dataset: Dataset)

  datatype User = User(id: string, name: string)

  /** An assignment whose annotation was submitted, as completed or as non-fatwa. */
  predicate IsFinished(a: ItemAssignment) {
    a.status == AssignmentStatus.Completed || a.status == AssignmentStatus.NonFatwa
  }
}
