/**
 * The annotation form of `src/components/annotator/annotation-interface.tsx`:
 * the `annotationReducer` state machine over verdicts and justification
 * sources, the form's seed state `getInitialState`, the staged validator
 * `validateForm`, and the status `handleAction` saves with.
 */
module AnnotationInterface {
  import opened Wrappers
  import opened Text
  import opened Collections
  import opened Types

  /** The reducer's state: an annotation without its ids and timestamps. */
  datatype FormState = FormState(
    status: AnnotationStatus,
    isFatwa: Option<bool>,
    nonFatwaReason: string,
    question: string,
    isQuestionAnswerable: Option<bool>,
    questionNeedsRevision: bool,
    questionRevisionReason: Option<QuestionRevisionReason>,
    otherRevisionReason: string,
    verdicts: seq<Verdict>,
    justifications: Justification)

  // ---------------------------------------------------------------------------
  // Fields that `UPDATE_FIELD` may set (every field but `status`)

  datatype Field =
    | IsFatwaField
    | NonFatwaReasonField
    | QuestionField
    | IsQuestionAnswerableField
    | QuestionNeedsRevisionField
    | QuestionRevisionReasonField
    | OtherRevisionReasonField
    | VerdictsField
    | JustificationsField

  /** A value of one of the form's field types. */
  datatype FieldValue =
    | Flag(flag: bool)
    | Choice(choice: Option<bool>)
    | Text(text: string)
    | Reason(reason: Option<QuestionRevisionReason>)
    | VerdictList(verdicts: seq<Verdict>)
    | Sources(sources: Justification)

  /** `value` has the type the state declares for `field`. */
  predicate Fits(field: Field, value: FieldValue) {
    match field
    case IsFatwaField => value.Choice?
    case NonFatwaReasonField => value.Text?
    case QuestionField => value.Text?
    case IsQuestionAnswerableField => value.Choice?
    case QuestionNeedsRevisionField => value.Flag?
    case QuestionRevisionReasonField => value.Reason?
    case OtherRevisionReasonField => value.Text?
    case VerdictsField => value.VerdictList?
    case JustificationsField => value.Sources?
  }

  /** `state[field]`. */
  function Get(s: FormState, field: Field): (v: FieldValue)
    ensures Fits(field, v)
  {
    match field
    case IsFatwaField => Choice(s.isFatwa)
    case NonFatwaReasonField => Text(s.nonFatwaReason)
    case QuestionField => Text(s.question)
    case IsQuestionAnswerableField => Choice(s.isQuestionAnswerable)
    case QuestionNeedsRevisionField => Flag(s.questionNeedsRevision)
    case QuestionRevisionReasonField => Reason(s.questionRevisionReason)
    case OtherRevisionReasonField => Text(s.otherRevisionReason)
    case VerdictsField => VerdictList(s.verdicts)
    case JustificationsField => Sources(s.justifications)
  }

  /** `{ ...state, [field]: value }`. */
  function Set(s: FormState, field: Field, value: FieldValue): FormState
    requires Fits(field, value)
  {
    match field
    case IsFatwaField => s.(isFatwa := value.choice)
    case NonFatwaReasonField => s.(nonFatwaReason := value.text)
    case QuestionField => s.(question := value.text)
    case IsQuestionAnswerableField => s.(isQuestionAnswerable := value.choice)
    case QuestionNeedsRevisionField => s.(questionNeedsRevision := value.flag)
    case QuestionRevisionReasonField => s.(questionRevisionReason := value.reason)
    case OtherRevisionReasonField => s.(otherRevisionReason := value.text)
    case VerdictsField => s.(verdicts := value.verdicts)
    case JustificationsField => s.(justifications := value.sources)
  }

  /** Setting a field changes that field and no other, and leaves the status alone. */
  lemma GetSet(s: FormState, field: Field, value: FieldValue, other: Field)
    requires Fits(field, value)
    ensures Get(Set(s, field, value), field) == value
    ensures other != field ==> Get(Set(s, field, value), other) == Get(s, other)
    ensures Set(s, field, value).status == s.status
  {
  }

  /** Setting a field to the value it has changes nothing. */
  lemma SetGet(s: FormState, field: Field)
    ensures Set(s, field, Get(s, field)) == s
  {
  }

  // ---------------------------------------------------------------------------
  // Partial updates (`Partial<Verdict>`, `Partial<PrimarySource>`, ...): a `None` field is absent

  datatype VerdictPatch = VerdictPatch(
    verdict: Option<string>,
    context: Option<string>,
    verdictNeedsRevision: Option<bool>,
    contextNeedsRevision: Option<bool>,
    isPrimary: Option<bool>,
    justificationIds: Option<Option<seq<string>>>)

  datatype PrimaryPatch = PrimaryPatch(
    id: Option<string>,
    kind: Option<SourceKind>,
    textTranslation: Option<string>,
    reference: Option<string>,
    textTranslationNeedsRevision: Option<bool>,
    referenceNeedsRevision: Option<bool>)

  datatype SecondaryPatch = SecondaryPatch(
    id: Option<string>,
    scholar: Option<string>,
    sourceDetail: Option<string>,
    quoteVerbatim: Option<string>,
    scholarNeedsRevision: Option<bool>,
    sourceDetailNeedsRevision: Option<bool>,
    quoteVerbatimNeedsRevision: Option<bool>)

  /** `{ ...v, ...p }`. */
  function MergeVerdict(v: Verdict, p: VerdictPatch): Verdict {
    Verdict(
      p.verdict.GetOr(v.verdict),
      p.context.GetOr(v.context),
      p.verdictNeedsRevision.GetOr(v.verdictNeedsRevision),
      p.contextNeedsRevision.GetOr(v.contextNeedsRevision),
      p.isPrimary.GetOr(v.isPrimary),
      p.justificationIds.GetOr(v.justificationIds))
  }

  function MergePrimary(s: PrimarySource, p: PrimaryPatch): PrimarySource {
    PrimarySource(
      p.id.GetOr(s.id),
      p.kind.GetOr(s.kind),
      p.textTranslation.GetOr(s.textTranslation),
      p.reference.GetOr(s.reference),
      p.textTranslationNeedsRevision.GetOr(s.textTranslationNeedsRevision),
      p.referenceNeedsRevision.GetOr(s.referenceNeedsRevision))
  }

  function MergeSecondary(s: SecondarySource, p: SecondaryPatch): SecondarySource {
    SecondarySource(
      p.id.GetOr(s.id),
      p.scholar.GetOr(s.scholar),
      p.sourceDetail.GetOr(s.sourceDetail),
      p.quoteVerbatim.GetOr(s.quoteVerbatim),
      p.scholarNeedsRevision.GetOr(s.scholarNeedsRevision),
      p.sourceDetailNeedsRevision.GetOr(s.sourceDetailNeedsRevision),
      p.quoteVerbatimNeedsRevision.GetOr(s.quoteVerbatimNeedsRevision))
  }

  /** An empty patch leaves the element as it was; a patch's present fields win. */
  lemma MergeVerdictLaws(v: Verdict, p: VerdictPatch)
    ensures MergeVerdict(v, VerdictPatch(None, None, None, None, None, None)) == v
    ensures p.context.Some? ==> MergeVerdict(v, p).context == p.context.value
    ensures p.isPrimary.None? ==> MergeVerdict(v, p).isPrimary == v.isPrimary
    ensures p.justificationIds.None? ==> MergeVerdict(v, p).justificationIds == v.justificationIds
  {
  }

  // ---------------------------------------------------------------------------
  // Actions

  /**
   * The reducer's actions. The ids of added sources come from the clock
   * (`Date.now()`), which is the parameter `now`.
   */
  datatype Action =
    | SetEntireState(payload: FormState)
    | UpdateField(field: Field, value: FieldValue)
    | UpdateVerdict(index: int, patch: VerdictPatch)
    | AddVerdict
    | DeleteVerdict(index: int)
    | SetPrimaryVerdict(index: int)
    | ToggleVerdictJustification(verdictIndex: int, justificationId: string)
    | UpdatePrimarySource(index: int, primary: PrimaryPatch)
    | AddPrimarySource(now: nat)
    | DeletePrimarySource(index: int)
    | UpdateSecondarySource(index: int, secondary: SecondaryPatch)
    | AddSecondarySource(now: nat)
    | DeleteSecondarySource(index: int)

  /**
   * The actions the reducer handles without failing or leaving a hole in an
   * array: an update or toggle needs an existing element, a source delete
   * reads the deleted source's id for every verdict, and a field update
   * carries a value of the field's type. Deleting a verdict and choosing the
   * primary verdict accept any index.
   */
  predicate Applicable(s: FormState, a: Action) {
    match a
    case UpdateField(field, value) => Fits(field, value)
    case UpdateVerdict(i, _) => 0 <= i < |s.verdicts|
    case ToggleVerdictJustification(i, _) => 0 <= i < |s.verdicts|
    case UpdatePrimarySource(i, _) => 0 <= i < |s.justifications.primarySources|
    case UpdateSecondarySource(i, _) => 0 <= i < |s.justifications.secondarySources|
    case DeletePrimarySource(i) => 0 <= i < |s.justifications.primarySources| || s.verdicts == []
    case DeleteSecondarySource(i) => 0 <= i < |s.justifications.secondarySources| || s.verdicts == []
    case _ => true
  }

  predicate HasPrimary(vs: seq<Verdict>) {
    exists j :: 0 <= j < |vs| && vs[j].isPrimary
  }

  predicate AtMostOnePrimary(vs: seq<Verdict>) {
    forall i, j :: 0 <= i < |vs| && 0 <= j < |vs| && vs[i].isPrimary && vs[j].isPrimary ==> i == j
  }

  /** The shape the form keeps: at most one primary verdict, and one whenever there are verdicts. */
  predicate PrimaryShape(vs: seq<Verdict>) {
    AtMostOnePrimary(vs) && (vs != [] ==> HasPrimary(vs))
  }

  /** The verdict `ADD_VERDICT` appends. */
  function NewVerdict(primary: bool): Verdict {
    Verdict("", "", false, false, primary, Some([]))
  }

  /** `SET_PRIMARY_VERDICT`: the verdict at `index` is primary, all others are not. */
  function MarkPrimary(vs: seq<Verdict>, index: int): (r: seq<Verdict>)
    ensures |r| == |vs|
  {
    seq(|vs|, j requires 0 <= j < |vs| => vs[j].(isPrimary := j == index))
  }

  /** `DELETE_VERDICT`: drops the verdict at `index`, then makes the first one primary if none is. */
  function DeleteVerdictAt(vs: seq<Verdict>, index: int): seq<Verdict> {
    var rest := RemoveAt(vs, index);
    if |rest| > 0 && !HasPrimary(rest) then rest[0 := rest[0].(isPrimary := true)] else rest
  }

  /** `TOGGLE_VERDICT_JUSTIFICATION` on one id list (a missing list counts as empty). */
  function ToggleId(ids: seq<string>, id: string): (r: seq<string>)
    ensures id in ids ==> id !in r && forall x :: x != id ==> multiset(r)[x] == multiset(ids)[x]
    ensures id !in ids ==> r == ids + [id]
  {
    if id in ids then RemoveAll(ids, id) else ids + [id]
  }

  /** Toggling an unlinked id twice gives the original list back. */
  lemma ToggleTwice(ids: seq<string>, id: string)
    requires id !in ids
    ensures ToggleId(ToggleId(ids, id), id) == ids
  {
    var once := ids + [id];
    assert id in once;
    RemoveAllOfAppended(ids, id);
  }

  lemma {:induction false} RemoveAllOfAppended<T(!new)>(s: seq<T>, x: T)
    requires x !in s
    ensures RemoveAll(s + [x], x) == s
  {
    if s != [] {
      RemoveAllOfAppended(s[1..], x);
      RemoveAllPrefix(s, x);
    }
  }

  lemma {:induction false} RemoveAllPrefix<T(!new)>(s: seq<T>, x: T)
    requires x !in s
    ensures RemoveAll(s, x) == s
  {
    if s != [] {
      RemoveAllPrefix(s[..|s| - 1], x);
      assert s == s[..|s| - 1] + [s[|s| - 1]];
    }
  }

  /** `v.justificationIds?.filter(x => x !== id)` on every verdict. */
  function Unlink(vs: seq<Verdict>, id: string): (r: seq<Verdict>)
    ensures |r| == |vs|
  {
    seq(|vs|, j requires 0 <= j < |vs| =>
      vs[j].(justificationIds := match vs[j].justificationIds
        case None => None
        case Some(ids) => Some(RemoveAll(ids, id))))
  }

  /** `annotationReducer(state, action)`. */
  function Reduce(s: FormState, a: Action): FormState
    requires Applicable(s, a)
  {
    var ps := s.justifications.primarySources;
    var ss := s.justifications.secondarySources;
    match a
    case SetEntireState(payload) => payload
    case UpdateField(field, value) =>
      if field == QuestionNeedsRevisionField && value == Flag(false) then
        s.(questionNeedsRevision := false, questionRevisionReason := None, otherRevisionReason := "")
      else Set(s, field, value)
    case UpdateVerdict(i, p) => s.(verdicts := s.verdicts[i := MergeVerdict(s.verdicts[i], p)])
    case AddVerdict => s.(verdicts := s.verdicts + [NewVerdict(|s.verdicts| == 0)])
    case DeleteVerdict(i) => s.(verdicts := DeleteVerdictAt(s.verdicts, i))
    case SetPrimaryVerdict(i) => s.(verdicts := MarkPrimary(s.verdicts, i))
    case ToggleVerdictJustification(i, id) =>
      var v := s.verdicts[i];
      s.(verdicts := s.verdicts[i := v.(justificationIds := Some(ToggleId(v.justificationIds.GetOr([]), id)))])
    case UpdatePrimarySource(i, p) =>
      s.(justifications := s.justifications.(primarySources := ps[i := MergePrimary(ps[i], p)]))
    case AddPrimarySource(now) =>
      var source := PrimarySource("p_" + Decimal(now), Hadits, "", "", false, false);
      s.(justifications := s.justifications.(primarySources := ps + [source]))
    case DeletePrimarySource(i) =>
      s.(verdicts := if 0 <= i < |ps| then Unlink(s.verdicts, ps[i].id) else s.verdicts,
         justifications := s.justifications.(primarySources := RemoveAt(ps, i)))
    case UpdateSecondarySource(i, p) =>
      s.(justifications := s.justifications.(secondarySources := ss[i := MergeSecondary(ss[i], p)]))
    case AddSecondarySource(now) =>
      var source := SecondarySource("s_" + Decimal(now), "", "", "", false, false, false);
      s.(justifications := s.justifications.(secondarySources := ss + [source]))
    case DeleteSecondarySource(i) =>
      s.(verdicts := if 0 <= i < |ss| then Unlink(s.verdicts, ss[i].id) else s.verdicts,
         justifications := s.justifications.(secondarySources := RemoveAt(ss, i)))
  }

  // ---------------------------------------------------------------------------
  // What each action does

  /** `UPDATE_FIELD`: clearing the revision flag also clears both reason fields. */
  lemma UpdateFieldClearsReasons(s: FormState)
    ensures var r := Reduce(s, UpdateField(QuestionNeedsRevisionField, Flag(false)));
      && !r.questionNeedsRevision && r.questionRevisionReason == None && r.otherRevisionReason == ""
      && r == s.(questionNeedsRevision := false, questionRevisionReason := None, otherRevisionReason := "")
  {
  }

  /** `UPDATE_FIELD`: any other update sets the named field and leaves every other field, and the status, as they were. */
  lemma UpdateFieldOnlyNamed(s: FormState, field: Field, value: FieldValue, other: Field)
    requires Fits(field, value) && !(field == QuestionNeedsRevisionField && value == Flag(false))
    ensures var r := Reduce(s, UpdateField(field, value));
      && Get(r, field) == value
      && (other != field ==> Get(r, other) == Get(s, other))
      && r.status == s.status
  {
    GetSet(s, field, value, other);
  }

  /** `UPDATE_VERDICT`: merges the patch into the verdict at `index` only. */
  lemma UpdateVerdictEffect(s: FormState, index: int, p: VerdictPatch)
    requires 0 <= index < |s.verdicts|
    ensures var r := Reduce(s, UpdateVerdict(index, p));
      && |r.verdicts| == |s.verdicts|
      && r.verdicts[index] == MergeVerdict(s.verdicts[index], p)
      && (forall j :: 0 <= j < |s.verdicts| && j != index ==> r.verdicts[j] == s.verdicts[j])
      && r.justifications == s.justifications
  {
  }

  /** `UPDATE_PRIMARY_SOURCE`: merges the patch into one primary source; nothing else changes. */
  lemma UpdatePrimarySourceEffect(s: FormState, index: int, p: PrimaryPatch)
    requires 0 <= index < |s.justifications.primarySources|
    ensures var r := Reduce(s, UpdatePrimarySource(index, p));
      var ps := s.justifications.primarySources;
      && |r.justifications.primarySources| == |ps|
      && r.justifications.primarySources[index] == MergePrimary(ps[index], p)
      && (forall j :: 0 <= j < |ps| && j != index ==> r.justifications.primarySources[j] == ps[j])
      && r.justifications.secondarySources == s.justifications.secondarySources
      && r.verdicts == s.verdicts
  {
  }

  /** `UPDATE_SECONDARY_SOURCE`: merges the patch into one secondary source; nothing else changes. */
  lemma UpdateSecondarySourceEffect(s: FormState, index: int, p: SecondaryPatch)
    requires 0 <= index < |s.justifications.secondarySources|
    ensures var r := Reduce(s, UpdateSecondarySource(index, p));
      var ss := s.justifications.secondarySources;
      && |r.justifications.secondarySources| == |ss|
      && r.justifications.secondarySources[index] == MergeSecondary(ss[index], p)
      && (forall j :: 0 <= j < |ss| && j != index ==> r.justifications.secondarySources[j] == ss[j])
      && r.justifications.primarySources == s.justifications.primarySources
      && r.verdicts == s.verdicts
  {
  }

  /** `ADD_VERDICT`: one blank, unlinked verdict at the end, primary exactly when it is the first. */
  lemma AddVerdictEffect(s: FormState)
    ensures var r := Reduce(s, AddVerdict);
      && |r.verdicts| == |s.verdicts| + 1
      && r.verdicts[..|s.verdicts|] == s.verdicts
      && var v := r.verdicts[|s.verdicts|];
         v.verdict == "" && v.context == "" && !v.verdictNeedsRevision && !v.contextNeedsRevision
         && v.justificationIds == Some([]) && (v.isPrimary <==> s.verdicts == [])
  {
    assert Reduce(s, AddVerdict).verdicts[..|s.verdicts|] == s.verdicts;
  }

  /** `SET_PRIMARY_VERDICT`: exactly verdict `index` is primary; nothing else about the verdicts changes. */
  lemma SetPrimaryVerdictEffect(s: FormState, index: int)
    ensures var r := Reduce(s, SetPrimaryVerdict(index));
      && |r.verdicts| == |s.verdicts|
      && (forall j :: 0 <= j < |r.verdicts| ==> (r.verdicts[j].isPrimary <==> j == index))
      && (forall j :: 0 <= j < |r.verdicts| ==> r.verdicts[j].(isPrimary := s.verdicts[j].isPrimary) == s.verdicts[j])
      && r.justifications == s.justifications
  {
  }

  /** With an index in range, `SET_PRIMARY_VERDICT` leaves exactly one primary verdict. */
  lemma SetPrimaryVerdictShape(s: FormState, index: int)
    requires 0 <= index < |s.verdicts|
    ensures PrimaryShape(Reduce(s, SetPrimaryVerdict(index)).verdicts)
  {
    var r := Reduce(s, SetPrimaryVerdict(index)).verdicts;
    assert r[index].isPrimary;
  }

  /**
   * `DELETE_VERDICT`: exactly the verdict at `index` is gone (the others keep
   * their order), and the first verdict is made primary if no primary remains.
   */
  lemma DeleteVerdictEffect(s: FormState, index: int)
    ensures var r := Reduce(s, DeleteVerdict(index)).verdicts;
      var rest := RemoveAt(s.verdicts, index);
      && |r| == |rest|
      && (forall j :: 0 <= j < |r| ==> r[j].(isPrimary := rest[j].isPrimary) == rest[j])
      && (forall j :: 0 <= j < |r| ==> r[j].isPrimary == (rest[j].isPrimary || (j == 0 && !HasPrimary(rest))))
  {
  }

  /**
   * After `DELETE_VERDICT` a non-empty list always has a primary verdict, and
   * at most one primary verdict stays at most one.
   */
  lemma DeleteVerdictShape(vs: seq<Verdict>, index: int)
    requires AtMostOnePrimary(vs)
    ensures PrimaryShape(DeleteVerdictAt(vs, index))
  {
    var rest := RemoveAt(vs, index);
    RemoveAtKeepsAtMostOne(vs, index);
    if |rest| > 0 && !HasPrimary(rest) {
      var r := DeleteVerdictAt(vs, index);
      assert r[0].isPrimary;
      assert forall i :: 0 < i < |r| ==> r[i] == rest[i];
      assert forall i :: 0 <= i < |rest| ==> !rest[i].isPrimary;
    }
  }

  lemma RemoveAtKeepsAtMostOne(vs: seq<Verdict>, index: int)
    requires AtMostOnePrimary(vs)
    ensures AtMostOnePrimary(RemoveAt(vs, index))
  {
    var r := RemoveAt(vs, index);
    if 0 <= index < |vs| {
      forall i, j | 0 <= i < |r| && 0 <= j < |r| && r[i].isPrimary && r[j].isPrimary ensures i == j {
        var i' := if i < index then i else i + 1;
        var j' := if j < index then j else j + 1;
        assert vs[i'].isPrimary && vs[j'].isPrimary;
      }
    }
  }

  /** `TOGGLE_VERDICT_JUSTIFICATION`: only the chosen verdict's id list changes, and it is toggled. */
  lemma ToggleEffect(s: FormState, index: int, id: string)
    requires 0 <= index < |s.verdicts|
    ensures var r := Reduce(s, ToggleVerdictJustification(index, id));
      var before := s.verdicts[index].justificationIds.GetOr([]);
      && |r.verdicts| == |s.verdicts|
      && r.verdicts[index].justificationIds.Some?
      && (id in before ==> id !in r.verdicts[index].justificationIds.value)
      && (id !in before ==> r.verdicts[index].justificationIds.value == before + [id])
      && r.verdicts[index].(justificationIds := s.verdicts[index].justificationIds) == s.verdicts[index]
      && (forall j :: 0 <= j < |s.verdicts| && j != index ==> r.verdicts[j] == s.verdicts[j])
  {
  }

  /** `ADD_PRIMARY_SOURCE`: appends a blank Hadits source whose id is `p_` and the clock reading. */
  lemma AddPrimarySourceEffect(s: FormState, now: nat)
    ensures var r := Reduce(s, AddPrimarySource(now));
      var ps := s.justifications.primarySources;
      && |r.justifications.primarySources| == |ps| + 1
      && r.justifications.primarySources[..|ps|] == ps
      && r.justifications.primarySources[|ps|] == PrimarySource("p_" + Decimal(now), Hadits, "", "", false, false)
      && r.justifications.secondarySources == s.justifications.secondarySources
      && r.verdicts == s.verdicts
  {
    var ps := s.justifications.primarySources;
    assert Reduce(s, AddPrimarySource(now)).justifications.primarySources[..|ps|] == ps;
  }

  /** `ADD_SECONDARY_SOURCE`: appends a blank source whose id is `s_` and the clock reading. */
  lemma AddSecondarySourceEffect(s: FormState, now: nat)
    ensures var r := Reduce(s, AddSecondarySource(now));
      var ss := s.justifications.secondarySources;
      && |r.justifications.secondarySources| == |ss| + 1
      && r.justifications.secondarySources[..|ss|] == ss
      && r.justifications.secondarySources[|ss|] == SecondarySource("s_" + Decimal(now), "", "", "", false, false, false)
      && r.justifications.primarySources == s.justifications.primarySources
      && r.verdicts == s.verdicts
  {
    var ss := s.justifications.secondarySources;
    assert Reduce(s, AddSecondarySource(now)).justifications.secondarySources[..|ss|] == ss;
  }

  /** `Unlink` removes the id from every list, keeps the other ids, and changes nothing else in a verdict. */
  lemma UnlinkEffect(vs: seq<Verdict>, id: string)
    ensures var r := Unlink(vs, id);
      && (forall j :: 0 <= j < |r| ==> r[j].justificationIds.Some? == vs[j].justificationIds.Some?)
      && (forall j :: 0 <= j < |r| && r[j].justificationIds.Some? ==> id !in r[j].justificationIds.value)
      && (forall j, x :: 0 <= j < |r| && r[j].justificationIds.Some? && x != id ==>
            multiset(r[j].justificationIds.value)[x] == multiset(vs[j].justificationIds.value)[x])
      && (forall j :: 0 <= j < |r| ==> r[j].(justificationIds := vs[j].justificationIds) == vs[j])
  {
  }

  /**
   * `DELETE_PRIMARY_SOURCE`: the source at `index` is gone, its id is unlinked
   * from every verdict, and the secondary sources are untouched.
   */
  lemma DeletePrimarySourceEffect(s: FormState, index: int)
    requires 0 <= index < |s.justifications.primarySources|
    ensures var r := Reduce(s, DeletePrimarySource(index));
      var ps := s.justifications.primarySources;
      && r.justifications.primarySources == RemoveAt(ps, index)
      && |r.justifications.primarySources| == |ps| - 1
      && r.verdicts == Unlink(s.verdicts, ps[index].id)
      && (forall j :: 0 <= j < |r.verdicts| && r.verdicts[j].justificationIds.Some? ==>
            ps[index].id !in r.verdicts[j].justificationIds.value)
      && r.justifications.secondarySources == s.justifications.secondarySources
  {
    UnlinkEffect(s.verdicts, s.justifications.primarySources[index].id);
  }

  /**
   * `DELETE_SECONDARY_SOURCE`: the source at `index` is gone, its id is
   * unlinked from every verdict, and the primary sources are untouched.
   */
  lemma DeleteSecondarySourceEffect(s: FormState, index: int)
    requires 0 <= index < |s.justifications.secondarySources|
    ensures var r := Reduce(s, DeleteSecondarySource(index));
      var ss := s.justifications.secondarySources;
      && r.justifications.secondarySources == RemoveAt(ss, index)
      && |r.justifications.secondarySources| == |ss| - 1
      && r.verdicts == Unlink(s.verdicts, ss[index].id)
      && (forall j :: 0 <= j < |r.verdicts| && r.verdicts[j].justificationIds.Some? ==>
            ss[index].id !in r.verdicts[j].justificationIds.value)
      && r.justifications.primarySources == s.justifications.primarySources
  {
    UnlinkEffect(s.verdicts, s.justifications.secondarySources[index].id);
  }

  /**
   * The actions that keep the primary-verdict shape: all but replacing the
   * whole state or the verdict list, patching a verdict's primary flag, and
   * choosing a primary verdict that does not exist.
   */
  predicate KeepsPrimaryShape(s: FormState, a: Action) {
    match a
    case SetEntireState(_) => false
    case UpdateField(field, _) => field != VerdictsField
    case UpdateVerdict(_, p) => p.isPrimary.None?
    case SetPrimaryVerdict(i) => 0 <= i < |s.verdicts|
    case _ => true
  }

  /** Every other action keeps at most one primary verdict, and one whenever there are verdicts. */
  lemma ReducePreservesPrimaryShape(s: FormState, a: Action)
    requires Applicable(s, a) && KeepsPrimaryShape(s, a)
    requires PrimaryShape(s.verdicts)
    ensures PrimaryShape(Reduce(s, a).verdicts)
  {
    var vs := s.verdicts;
    var r := Reduce(s, a).verdicts;
    match a {
      case UpdateField(field, value) =>
        UpdateFieldKeepsVerdicts(s, field, value);
      case UpdateVerdict(i, p) =>
        SameFlags(vs, r);
      case AddVerdict =>
        AddVerdictShape(vs);
      case DeleteVerdict(i) =>
        DeleteVerdictShape(vs, i);
      case SetPrimaryVerdict(i) =>
        SetPrimaryVerdictShape(s, i);
      case ToggleVerdictJustification(i, id) =>
        SameFlags(vs, r);
      case DeletePrimarySource(i) =>
        SameFlags(vs, r);
      case DeleteSecondarySource(i) =>
        SameFlags(vs, r);
      case _ =>
    }
  }

  /** `UPDATE_FIELD` on any field but the verdicts leaves the verdicts as they are. */
  lemma UpdateFieldKeepsVerdicts(s: FormState, field: Field, value: FieldValue)
    requires Fits(field, value) && field != VerdictsField
    ensures Reduce(s, UpdateField(field, value)).verdicts == s.verdicts
  {
    if !(field == QuestionNeedsRevisionField && value == Flag(false)) {
      GetSet(s, field, value, VerdictsField);
      assert Get(Set(s, field, value), VerdictsField) == Get(s, VerdictsField);
    }
  }

  /** `ADD_VERDICT` appends a verdict that is primary exactly when it is the first. */
  lemma AddVerdictShape(vs: seq<Verdict>)
    requires PrimaryShape(vs)
    ensures PrimaryShape(vs + [NewVerdict(|vs| == 0)])
  {
    var r := vs + [NewVerdict(|vs| == 0)];
    if vs != [] {
      var k :| 0 <= k < |vs| && vs[k].isPrimary;
      assert r[k].isPrimary;
    } else {
      assert r[0].isPrimary;
    }
  }

  /** Lists with the same primary flags position by position have the same primary shape. */
  lemma SameFlags(vs: seq<Verdict>, r: seq<Verdict>)
    requires |vs| == |r| && forall j :: 0 <= j < |vs| ==> r[j].isPrimary == vs[j].isPrimary
    requires PrimaryShape(vs)
    ensures PrimaryShape(r)
  {
    if vs != [] {
      var k :| 0 <= k < |vs| && vs[k].isPrimary;
      assert r[k].isPrimary;
    }
  }

  // ---------------------------------------------------------------------------
  // The two cases that change verdict objects shared with the previous state

  /**
   * A verdict as the object the reducer's arrays point to. `[...state.verdicts]`
   * and `filter` copy the array but not these objects, so a copied array shares
   * them with the previous state.
   */
  class VerdictObject {
    var verdict: string
    var context: string
    var verdictNeedsRevision: bool
    var contextNeedsRevision: bool
    var isPrimary: bool
    var justificationIds: Option<seq<string>>

    constructor (v: Verdict)
      ensures Value() == v
    {
      verdict, context := v.verdict, v.context;
      verdictNeedsRevision, contextNeedsRevision := v.verdictNeedsRevision, v.contextNeedsRevision;
      isPrimary, justificationIds := v.isPrimary, v.justificationIds;
    }

    function Value(): Verdict
      reads this
    {
      Verdict(verdict, context, verdictNeedsRevision, contextNeedsRevision, isPrimary, justificationIds)
    }
  }

  /** The verdict values an array of objects currently holds. */
  function Values(objs: seq<VerdictObject>): (r: seq<Verdict>)
    reads objs
    ensures |r| == |objs|
  {
    seq(|objs|, j reads objs requires 0 <= j < |objs| => objs[j].Value())
  }

  /** `newVerdicts.some(v => v.is_primary_verdict)`. */
  method AnyPrimary(objs: seq<VerdictObject>) returns (anyPrimary: bool)
    ensures anyPrimary <==> exists j :: 0 <= j < |objs| && objs[j].isPrimary
  {
    anyPrimary := false;
    var k := 0;
    while k < |objs|
      invariant 0 <= k <= |objs|
      invariant anyPrimary <==> exists j :: 0 <= j < k && objs[j].isPrimary
    {
      anyPrimary := anyPrimary || objs[k].isPrimary;
      k := k + 1;
    }
  }

  /**
   * `DELETE_VERDICT` as written: the new array holds the same objects minus
   * the deleted one, and the repair `newVerdicts[0].is_primary_verdict = true`
   * writes into an object the previous state still holds. The new values are
   * those of the pure `DeleteVerdictAt`, and the previous array now shows the
   * repaired flag too.
   */
  method DeleteVerdictShared(verdicts: seq<VerdictObject>, index: int) returns (newVerdicts: seq<VerdictObject>)
    requires NoDuplicates(verdicts)
    modifies verdicts
    ensures newVerdicts == RemoveAt(verdicts, index)
    ensures Values(newVerdicts) == DeleteVerdictAt(old(Values(verdicts)), index)
    ensures forall o :: o in verdicts && o !in newVerdicts ==> o.Value() == old(o.Value())
  {
    ghost var before := Values(verdicts);
    newVerdicts := RemoveAt(verdicts, index);
    assert Values(newVerdicts) == RemoveAt(before, index);
    var anyPrimary := AnyPrimary(newVerdicts);
    if |newVerdicts| > 0 && !anyPrimary {
      assert !HasPrimary(RemoveAt(before, index));
      RemoveAtNoDuplicates(verdicts, index);
      newVerdicts[0].isPrimary := true;
      assert newVerdicts[0] !in newVerdicts[1..] by {
        forall j | 1 <= j < |newVerdicts| ensures newVerdicts[j] != newVerdicts[0] {
        }
      }
    } else if anyPrimary {
      var j :| 0 <= j < |newVerdicts| && newVerdicts[j].isPrimary;
      assert RemoveAt(before, index)[j].isPrimary;
    }
  }

  /**
   * `TOGGLE_VERDICT_JUSTIFICATION` as written: the new array holds the very
   * same objects, and the toggled id list is assigned into the shared verdict,
   * so the previous state shows the toggle as well. Replaying the action on
   * that previous state, as a second run of the reducer would, toggles the id
   * back (`ToggleTwice`).
   */
  method ToggleShared(verdicts: seq<VerdictObject>, verdictIndex: int, id: string) returns (newVerdicts: seq<VerdictObject>)
    requires 0 <= verdictIndex < |verdicts| && NoDuplicates(verdicts)
    modifies verdicts[verdictIndex]
    ensures newVerdicts == verdicts
    ensures var v := old(Values(verdicts))[verdictIndex];
      Values(newVerdicts) == old(Values(verdicts))[verdictIndex := v.(justificationIds := Some(ToggleId(v.justificationIds.GetOr([]), id)))]
  {
    newVerdicts := verdicts;
    var verdict := newVerdicts[verdictIndex];
    var currentIds := verdict.justificationIds.GetOr([]);
    var isLinked := id in currentIds;
    if isLinked {
      verdict.justificationIds := Some(RemoveAll(currentIds, id));
    } else {
      verdict.justificationIds := Some(currentIds + [id]);
    }
    forall j | 0 <= j < |verdicts| && j != verdictIndex ensures verdicts[j] != verdict { }
  }

  // ---------------------------------------------------------------------------
  // getInitialState

  const VerdictLabelOptions: seq<string> :=
    ["Wajib", "Sunnah", "Haram", "Makruh", "Mubah", "Boleh/Sah", "Tidak Boleh/Tidak Sah"]

  /** A seed verdict in the form: labels outside the options are blanked, the first verdict is primary by default. */
  function SeedToVerdict(v: SeedVerdict, i: nat): Verdict {
    Verdict(if v.verdict in VerdictLabelOptions then v.verdict else "", v.context, false, false,
      v.isPrimary.GetOr(i == 0), Some([]))
  }

  function InitialVerdicts(item: AnnotationItem): (r: seq<Verdict>)
    ensures |r| == |item.verdicts.GetOr([])|
  {
    var seeds := item.verdicts.GetOr([]);
    seq(|seeds|, i requires 0 <= i < |seeds| => SeedToVerdict(seeds[i], i))
  }

  function InitialPrimarySources(item: AnnotationItem): (r: seq<PrimarySource>)
  {
    var seeds := if item.justifications.Some? then item.justifications.value.primarySources.GetOr([]) else [];
    seq(|seeds|, i requires 0 <= i < |seeds| =>
      PrimarySource("p_" + Decimal(i), seeds[i].kind, seeds[i].textTranslation, seeds[i].reference, false, false))
  }

  function InitialSecondarySources(item: AnnotationItem): (r: seq<SecondarySource>)
  {
    var seeds := if item.justifications.Some? then item.justifications.value.secondarySources.GetOr([]) else [];
    seq(|seeds|, i requires 0 <= i < |seeds| =>
      SecondarySource("s_" + Decimal(i), seeds[i].scholar, seeds[i].sourceDetail, seeds[i].quoteVerbatim, false, false, false))
  }

  /** `getInitialState(item)`. */
  function InitialState(item: AnnotationItem): FormState {
    FormState(AnnotationStatus.Draft, None, "", item.question, None, false, None, "",
      InitialVerdicts(item), Justification(InitialPrimarySources(item), InitialSecondarySources(item)))
  }

  /** The seeded form is an undecided draft holding the item's question. */
  lemma InitialStateFields(item: AnnotationItem)
    ensures var s := InitialState(item);
      && s.status == AnnotationStatus.Draft && s.isFatwa == None && s.isQuestionAnswerable == None
      && !s.questionNeedsRevision && s.questionRevisionReason == None
      && s.nonFatwaReason == "" && s.otherRevisionReason == "" && s.question == item.question
  {
  }

  /**
   * Seeded verdicts: one per seed verdict, a label kept exactly when it is
   * one of the seven options (blank otherwise), context copied, no revision
   * flag, no linked justification, primary as the seed says or else exactly
   * when it is the first.
   */
  lemma InitialVerdictsFacts(item: AnnotationItem)
    ensures var vs := InitialState(item).verdicts; var seeds := item.verdicts.GetOr([]);
      && |vs| == |seeds|
      && forall i :: 0 <= i < |vs| ==>
        && (vs[i].verdict == seeds[i].verdict <==> seeds[i].verdict in VerdictLabelOptions || seeds[i].verdict == "")
        && (vs[i].verdict in VerdictLabelOptions || vs[i].verdict == "")
        && vs[i].context == seeds[i].context
        && !vs[i].verdictNeedsRevision && !vs[i].contextNeedsRevision
        && vs[i].justificationIds == Some([])
        && vs[i].isPrimary == (if seeds[i].isPrimary.Some? then seeds[i].isPrimary.value else i == 0)
  {
  }

  /** With no seed saying otherwise, the seeded verdicts have the primary shape. */
  lemma InitialVerdictsShape(item: AnnotationItem)
    requires forall v :: v in item.verdicts.GetOr([]) ==> v.isPrimary.None?
    ensures PrimaryShape(InitialState(item).verdicts)
  {
    var vs := InitialState(item).verdicts;
    var seeds := item.verdicts.GetOr([]);
    forall i | 0 <= i < |vs| ensures vs[i].isPrimary <==> i == 0 {
      assert seeds[i] in seeds;
    }
    if vs != [] { assert vs[0].isPrimary; }
  }

  /**
   * Seeded sources: ids `p_0, p_1, ...` and `s_0, s_1, ...`, pairwise
   * distinct, the seed's text copied and every revision flag cleared; a
   * missing justification gives empty lists.
   */
  lemma InitialSourcesFacts(item: AnnotationItem)
    ensures var j := InitialState(item).justifications;
      && (forall i :: 0 <= i < |j.primarySources| ==>
            j.primarySources[i].id == "p_" + Decimal(i)
            && !j.primarySources[i].textTranslationNeedsRevision && !j.primarySources[i].referenceNeedsRevision)
      && (forall i :: 0 <= i < |j.secondarySources| ==>
            j.secondarySources[i].id == "s_" + Decimal(i)
            && !j.secondarySources[i].scholarNeedsRevision && !j.secondarySources[i].sourceDetailNeedsRevision
            && !j.secondarySources[i].quoteVerbatimNeedsRevision)
      && (item.justifications.None? ==> j.primarySources == [] && j.secondarySources == [])
  {
  }

  lemma InitialSourceIdsDistinct(item: AnnotationItem)
    ensures var j := InitialState(item).justifications;
      && (forall a, b :: 0 <= a < b < |j.primarySources| ==> j.primarySources[a].id != j.primarySources[b].id)
      && (forall a, b :: 0 <= a < b < |j.secondarySources| ==> j.secondarySources[a].id != j.secondarySources[b].id)
  {
    var j := InitialState(item).justifications;
    forall a, b | 0 <= a < b < |j.primarySources| ensures j.primarySources[a].id != j.primarySources[b].id {
      PrefixedDecimalInjective("p_", a, b);
    }
    forall a, b | 0 <= a < b < |j.secondarySources| ensures j.secondarySources[a].id != j.secondarySources[b].id {
      PrefixedDecimalInjective("s_", a, b);
    }
  }

  lemma PrefixedDecimalInjective(prefix: string, a: nat, b: nat)
    ensures a != b ==> prefix + Decimal(a) != prefix + Decimal(b)
  {
    if prefix + Decimal(a) == prefix + Decimal(b) {
      assert Decimal(a) == (prefix + Decimal(a))[|prefix|..];
      assert Decimal(b) == (prefix + Decimal(b))[|prefix|..];
      DecimalInjective(a, b);
    }
  }

  // ---------------------------------------------------------------------------
  // validateForm

  /** The validator's failures, in the order it checks for them; indices are 0-based. */
  datatype ValidationError =
    | FatwaUndecided
    | AnswerabilityUndecided
    | RevisionReasonMissing
    | OtherReasonBlank
    | RevisedQuestionBlank
    | NoVerdicts
    | VerdictLabelEmpty(index: nat)
    | VerdictContextBlank(index: nat)
    | PrimarySourceIncomplete(index: nat)
    | SecondarySourceIncomplete(index: nat)

  function VerdictProblem(v: Verdict, i: nat): Option<ValidationError> {
    if v.verdict == "" then Some(VerdictLabelEmpty(i))
    else if IsBlank(v.context) then Some(VerdictContextBlank(i))
    else None
  }

  function PrimaryProblem(p: PrimarySource, i: nat): Option<ValidationError> {
    if IsBlank(p.textTranslation) || IsBlank(p.reference) then Some(PrimarySourceIncomplete(i)) else None
  }

  function SecondaryProblem(p: SecondarySource, i: nat): Option<ValidationError> {
    if IsBlank(p.scholar) || IsBlank(p.sourceDetail) || IsBlank(p.quoteVerbatim) then Some(SecondarySourceIncomplete(i)) else None
  }

  /** The problem of the first element from `from` on that has one. */
  function FirstProblem<T>(xs: seq<T>, check: (T, nat) -> Option<ValidationError>, from: nat): Option<ValidationError>
    decreases |xs| - from
  {
    if from >= |xs| then None
    else if check(xs[from], from).Some? then check(xs[from], from)
    else FirstProblem(xs, check, from + 1)
  }

  /** No problem is reported exactly when no element from `from` on has one. */
  lemma {:induction false} FirstProblemNone<T>(xs: seq<T>, check: (T, nat) -> Option<ValidationError>, from: nat)
    ensures FirstProblem(xs, check, from) == None <==> forall i :: from <= i < |xs| ==> check(xs[i], i) == None
    decreases |xs| - from
  {
    if from < |xs| {
      FirstProblemNone(xs, check, from + 1);
    }
  }

  /** A reported problem is that of some element, and no earlier element has one. */
  lemma {:induction false} FirstProblemIsFirst<T>(xs: seq<T>, check: (T, nat) -> Option<ValidationError>, from: nat)
    requires FirstProblem(xs, check, from).Some?
    ensures exists i ::
      && from <= i < |xs|
      && check(xs[i], i) == FirstProblem(xs, check, from)
      && (forall j :: from <= j < i ==> check(xs[j], j) == None)
    decreases |xs| - from
  {
    if check(xs[from], from).None? {
      FirstProblemIsFirst(xs, check, from + 1);
      var i :| from + 1 <= i < |xs| && check(xs[i], i) == FirstProblem(xs, check, from + 1)
        && forall j :: from + 1 <= j < i ==> check(xs[j], j) == None;
      assert forall j :: from <= j < i ==> check(xs[j], j) == None;
    }
  }

  /** What `validateForm` checks, stage by stage: the first failure, or `None` when the form passes. */
  function FirstError(s: FormState): Option<ValidationError> {
    if s.isFatwa == None then Some(FatwaUndecided)
    else if s.isFatwa == Some(false) then None
    else if s.isQuestionAnswerable == None then Some(AnswerabilityUndecided)
    else if s.questionNeedsRevision && s.questionRevisionReason == None then Some(RevisionReasonMissing)
    else if s.questionNeedsRevision && s.questionRevisionReason == Some(Other) && IsBlank(s.otherRevisionReason) then Some(OtherReasonBlank)
    else if s.questionNeedsRevision && IsBlank(s.question) then Some(RevisedQuestionBlank)
    else if |s.verdicts| == 0 then Some(NoVerdicts)
    else if FirstProblem(s.verdicts, VerdictProblem, 0).Some? then FirstProblem(s.verdicts, VerdictProblem, 0)
    else if FirstProblem(s.justifications.primarySources, PrimaryProblem, 0).Some? then FirstProblem(s.justifications.primarySources, PrimaryProblem, 0)
    else FirstProblem(s.justifications.secondarySources, SecondaryProblem, 0)
  }

  /** Every verdict has a label and a non-blank context. */
  predicate VerdictsFilled(vs: seq<Verdict>) {
    forall i :: 0 <= i < |vs| ==> vs[i].verdict != "" && !IsBlank(vs[i].context)
  }

  /** Every primary source has a non-blank translation and reference. */
  predicate PrimarySourcesFilled(ps: seq<PrimarySource>) {
    forall i :: 0 <= i < |ps| ==> !IsBlank(ps[i].textTranslation) && !IsBlank(ps[i].reference)
  }

  /** Every secondary source has a non-blank scholar, detail and quote. */
  predicate SecondarySourcesFilled(ss: seq<SecondarySource>) {
    forall i :: 0 <= i < |ss| ==> !IsBlank(ss[i].scholar) && !IsBlank(ss[i].sourceDetail) && !IsBlank(ss[i].quoteVerbatim)
  }

  /** The form's requirements for a submission, stated all at once. */
  predicate Complete(s: FormState) {
    && s.isFatwa.Some?
    && (s.isFatwa.value ==>
      && s.isQuestionAnswerable.Some?
      && (s.questionNeedsRevision ==>
            && s.questionRevisionReason.Some?
            && (s.questionRevisionReason == Some(Other) ==> !IsBlank(s.otherRevisionReason))
            && !IsBlank(s.question))
      && |s.verdicts| > 0
      && VerdictsFilled(s.verdicts)
      && PrimarySourcesFilled(s.justifications.primarySources)
      && SecondarySourcesFilled(s.justifications.secondarySources))
  }

  lemma VerdictScanNone(vs: seq<Verdict>)
    ensures FirstProblem(vs, VerdictProblem, 0) == None <==> VerdictsFilled(vs)
  {
    FirstProblemNone(vs, VerdictProblem, 0);
  }

  lemma PrimaryScanNone(ps: seq<PrimarySource>)
    ensures FirstProblem(ps, PrimaryProblem, 0) == None <==> PrimarySourcesFilled(ps)
  {
    FirstProblemNone(ps, PrimaryProblem, 0);
  }

  lemma SecondaryScanNone(ss: seq<SecondarySource>)
    ensures FirstProblem(ss, SecondaryProblem, 0) == None <==> SecondarySourcesFilled(ss)
  {
    FirstProblemNone(ss, SecondaryProblem, 0);
  }

  /** The staged validator passes exactly the complete forms. */
  lemma FirstErrorNoneIffComplete(s: FormState)
    ensures FirstError(s) == None <==> Complete(s)
  {
    VerdictScanNone(s.verdicts);
    PrimaryScanNone(s.justifications.primarySources);
    SecondaryScanNone(s.justifications.secondarySources);
  }

  /** An undecided fatwa question always fails; a non-fatwa article always passes. */
  lemma FatwaGate(s: FormState)
    ensures s.isFatwa == None ==> FirstError(s) == Some(FatwaUndecided)
    ensures s.isFatwa == Some(false) ==> FirstError(s) == None && Complete(s)
  {
  }

  /** A reported verdict error names the first verdict that fails, and every earlier verdict passes. */
  lemma VerdictErrorIsFirst(s: FormState, e: ValidationError)
    requires FirstError(s) == Some(e) && (e.VerdictLabelEmpty? || e.VerdictContextBlank?)
    ensures e.index < |s.verdicts|
    ensures e.VerdictLabelEmpty? ==> s.verdicts[e.index].verdict == ""
    ensures e.VerdictContextBlank? ==> s.verdicts[e.index].verdict != "" && IsBlank(s.verdicts[e.index].context)
    ensures forall j :: 0 <= j < e.index ==> s.verdicts[j].verdict != "" && !IsBlank(s.verdicts[j].context)
  {
    var p := FirstProblem(s.verdicts, VerdictProblem, 0);
    if p.None? {
      if FirstProblem(s.justifications.primarySources, PrimaryProblem, 0).Some? {
        FirstProblemIsFirst(s.justifications.primarySources, PrimaryProblem, 0);
      } else {
        FirstProblemIsFirst(s.justifications.secondarySources, SecondaryProblem, 0);
      }
      assert false;
    }
    FirstProblemIsFirst(s.verdicts, VerdictProblem, 0);
    var i :| 0 <= i < |s.verdicts| && VerdictProblem(s.verdicts[i], i) == p
      && forall j :: 0 <= j < i ==> VerdictProblem(s.verdicts[j], j) == None;
    assert e.index == i;
    forall j | 0 <= j < i ensures s.verdicts[j].verdict != "" && !IsBlank(s.verdicts[j].context) {
      assert VerdictProblem(s.verdicts[j], j) == None;
    }
  }

  /**
   * `validateForm(isSubmitting)`: stops at the first failed stage or element.
   * It returns whether the form passed, and the failure it would toast, which
   * it only does when submitting.
   */
  method ValidateForm(s: FormState, isSubmitting: bool) returns (ok: bool, toast: Option<ValidationError>)
    ensures ok <==> FirstError(s) == None
    ensures toast == if isSubmitting then FirstError(s) else None
  {
    var error: Option<ValidationError> := None;
    if s.isFatwa == None {
      error := Some(FatwaUndecided);
    } else if s.isFatwa == Some(false) {
      return true, None;
    } else if s.isQuestionAnswerable == None {
      error := Some(AnswerabilityUndecided);
    } else if s.questionNeedsRevision && s.questionRevisionReason == None {
      error := Some(RevisionReasonMissing);
    } else if s.questionNeedsRevision && s.questionRevisionReason == Some(Other) && IsBlank(s.otherRevisionReason) {
      error := Some(OtherReasonBlank);
    } else if s.questionNeedsRevision && IsBlank(s.question) {
      error := Some(RevisedQuestionBlank);
    } else if |s.verdicts| == 0 {
      error := Some(NoVerdicts);
    } else {
      error := ScanVerdicts(s.verdicts);
      if error == None {
        error := ScanPrimarySources(s.justifications.primarySources);
      }
      if error == None {
        error := ScanSecondarySources(s.justifications.secondarySources);
      }
    }
    ok := error == None;
    toast := if isSubmitting then error else None;
  }

  /** The `for` loop over the verdicts, with its early return. */
  method ScanVerdicts(vs: seq<Verdict>) returns (error: Option<ValidationError>)
    ensures error == FirstProblem(vs, VerdictProblem, 0)
  {
    var i := 0;
    while i < |vs|
      invariant 0 <= i <= |vs|
      invariant FirstProblem(vs, VerdictProblem, 0) == FirstProblem(vs, VerdictProblem, i)
    {
      var verdict := vs[i];
      if verdict.verdict == "" {
        return Some(VerdictLabelEmpty(i));
      }
      if IsBlank(verdict.context) {
        return Some(VerdictContextBlank(i));
      }
      i := i + 1;
    }
    return None;
  }

  /** The `for` loop over the primary sources. */
  method ScanPrimarySources(ps: seq<PrimarySource>) returns (error: Option<ValidationError>)
    ensures error == FirstProblem(ps, PrimaryProblem, 0)
  {
    var i := 0;
    while i < |ps|
      invariant 0 <= i <= |ps|
      invariant FirstProblem(ps, PrimaryProblem, 0) == FirstProblem(ps, PrimaryProblem, i)
    {
      if IsBlank(ps[i].textTranslation) || IsBlank(ps[i].reference) {
        return Some(PrimarySourceIncomplete(i));
      }
      i := i + 1;
    }
    return None;
  }

  /** The `for` loop over the secondary sources. */
  method ScanSecondarySources(ss: seq<SecondarySource>) returns (error: Option<ValidationError>)
    ensures error == FirstProblem(ss, SecondaryProblem, 0)
  {
    var i := 0;
    while i < |ss|
      invariant 0 <= i <= |ss|
      invariant FirstProblem(ss, SecondaryProblem, 0) == FirstProblem(ss, SecondaryProblem, i)
    {
      if IsBlank(ss[i].scholar) || IsBlank(ss[i].sourceDetail) || IsBlank(ss[i].quoteVerbatim) {
        return Some(SecondarySourceIncomplete(i));
      }
      i := i + 1;
    }
    return None;
  }

  // ---------------------------------------------------------------------------
  // handleAction

  /** The status `handleAction(isDraft)` chooses before validating. */
  function FinalStatus(s: FormState, isDraft: bool): AnnotationStatus {
    if isDraft then AnnotationStatus.Draft
    else if s.isFatwa == Some(false) then AnnotationStatus.NonFatwa
    else AnnotationStatus.Completed
  }

  /**
   * The status `handleAction` saves with, or `None` when a submission fails
   * validation and nothing is saved. Drafts are saved without validating.
   */
  function SavedStatus(s: FormState, isDraft: bool): Option<AnnotationStatus> {
    if !isDraft && FirstError(s) != None then None else Some(FinalStatus(s, isDraft))
  }

  /** A submission is non-fatwa exactly when the article was marked as not a fatwa, and completed otherwise. */
  lemma FinalStatusChoice(s: FormState, isDraft: bool)
    ensures FinalStatus(s, isDraft) == AnnotationStatus.Draft <==> isDraft
    ensures FinalStatus(s, isDraft) == AnnotationStatus.NonFatwa <==> !isDraft && s.isFatwa == Some(false)
    ensures FinalStatus(s, isDraft) == AnnotationStatus.Completed <==> !isDraft && s.isFatwa != Some(false)
  {
  }

  /**
   * What gets saved: a draft always; a submission only when the form is
   * complete, as non-fatwa when the article is not a fatwa and as completed
   * only for a decided, complete fatwa.
   */
  lemma SavedStatusFacts(s: FormState, isDraft: bool)
    ensures isDraft ==> SavedStatus(s, isDraft) == Some(AnnotationStatus.Draft)
    ensures !isDraft ==> (SavedStatus(s, isDraft).Some? <==> Complete(s))
    ensures SavedStatus(s, isDraft) == Some(AnnotationStatus.NonFatwa) <==> !isDraft && s.isFatwa == Some(false)
    ensures SavedStatus(s, isDraft) == Some(AnnotationStatus.Completed) ==> s.isFatwa == Some(true) && Complete(s)
  {
    FirstErrorNoneIffComplete(s);
  }
}
