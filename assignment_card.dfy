/**
 * The schema of `src/components/admin/assignment-card.tsx`: a start index of
 * at least 1, an optional end index of at least 1 (or left blank), a chosen
 * annotator, and a refinement that a given end index is not below the start.
 *
 * The index inputs are strings that the schema converts with `Number`; the
 * model takes the outcome of that conversion. A bound that is too small
 * fails without aborting the parse, so the refinement still runs; a value
 * that is not a number aborts it, so the refinement is skipped.
 */
module AssignmentCard {

  /** What `Number(input)` gives. */
  datatype Coerced = NotANumber | Num(x: real)

  /** The end index field: missing, the empty string, or any other string. */
  datatype EndField = Missing | Blank | Given(c: Coerced)

  datatype FormValues = FormValues(startIndex: Coerced, endIndex: EndField, annotatorId: string)

  /** The issues the schema reports, in the order it reports them. */
  datatype Issue =
    | StartNotANumber
    | StartBelowOne        // "Start index must be at least 1."
    | EndInvalid           // neither a number nor ''
    | EndBelowOne
    | AnnotatorMissing     // "Please select an annotator."
    | EndBeforeStart       // "End index must be greater than or equal to start index.", under endIndex

  /** Whether a field's failure stops the refinement from running. */
  predicate Aborts(v: FormValues) {
    v.startIndex.NotANumber? || v.endIndex == Given(NotANumber)
  }

  /** `if (data.endIndex)`: a parsed end index that is a non-zero number. */
  predicate EndTruthy(e: EndField) {
    e.Given? && e.c.Num? && e.c.x != 0.0
  }

  function StartIssues(c: Coerced): seq<Issue> {
    match c
    case NotANumber => [StartNotANumber]
    case Num(x) => if x < 1.0 then [StartBelowOne] else []
  }

  /** `z.coerce.number().min(1).optional().or(z.literal(''))`. */
  function EndIssues(e: EndField): seq<Issue> {
    match e
    case Missing => []
    case Blank => []
    case Given(NotANumber) => [EndInvalid]
    case Given(Num(x)) => if x < 1.0 then [EndBelowOne] else []
  }

  /** `formSchema`: the three fields in order, then the refinement unless a field aborted. */
  function Validate(v: FormValues): seq<Issue> {
    StartIssues(v.startIndex)
    + EndIssues(v.endIndex)
    + (if v.annotatorId == "" then [AnnotatorMissing] else [])
    + (if !Aborts(v) && EndTruthy(v.endIndex) && v.endIndex.c.x < v.startIndex.x then [EndBeforeStart] else [])
  }

  /**
   * A form is accepted exactly when the start index is a number of at least
   * 1, an annotator is chosen, and the end index is missing, blank, or a
   * number of at least 1 that is not below the start.
   */
  lemma ValidateAccepts(v: FormValues)
    ensures Validate(v) == [] <==>
      && v.startIndex.Num? && v.startIndex.x >= 1.0
      && v.annotatorId != ""
      && (v.endIndex.Given? ==> v.endIndex.c.Num? && v.endIndex.c.x >= 1.0 && v.endIndex.c.x >= v.startIndex.x)
  {
    if Validate(v) == [] {
      assert StartIssues(v.startIndex) == [] && EndIssues(v.endIndex) == [] by {
        assert |Validate(v)| >= |StartIssues(v.startIndex)| + |EndIssues(v.endIndex)|;
      }
    }
  }

  /**
   * An end index that is a number not below 1 is reported as before the
   * start exactly when it is below a numeric start index; a blank or
   * missing end index never is.
   */
  lemma EndBeforeStartReported(v: FormValues)
    ensures !v.endIndex.Given? ==> EndBeforeStart !in Validate(v)
    ensures v.startIndex.Num? && v.endIndex.Given? && v.endIndex.c.Num? && v.endIndex.c.x >= 1.0 ==>
      (EndBeforeStart in Validate(v) <==> v.endIndex.c.x < v.startIndex.x)
  {
    var tail := if v.annotatorId == "" then [AnnotatorMissing] else [];
    assert EndBeforeStart !in StartIssues(v.startIndex) + EndIssues(v.endIndex) + tail;
  }

  /** An end index of 0 fails only its own bound: the refinement reads 0 as no end index. */
  lemma ZeroEndSkipsRefinement()
    ensures Validate(FormValues(Num(5.0), Given(Num(0.0)), "u")) == [EndBelowOne]
  {
  }

  /** A start index that is not a number keeps the refinement from running even when the end is below the start. */
  lemma NotANumberSkipsRefinement(end: real, annotatorId: string)
    requires end >= 1.0 && annotatorId != ""
    ensures Validate(FormValues(NotANumber, Given(Num(end)), annotatorId)) == [StartNotANumber]
  {
  }

  // ---------------------------------------------------------------------------
  // Submitting

  datatype Action = Assign | Unassign

  datatype Call = OnAssignTasks(values: FormValues) | OnUnassignTasks(values: FormValues)

  /** `defaultValues`: both indices '' and no annotator. */
  const Defaults := FormValues(Num(0.0), Blank, "")

  /** `onSubmit`: one call to the chosen callback with the parsed values, then a reset to the defaults. */
  function Submit(action: Action, v: FormValues): (Call, FormValues) {
    (if action == Assign then OnAssignTasks(v) else OnUnassignTasks(v), Defaults)
  }

  /** A submit calls exactly the pressed button's callback, and the reset form is rejected until filled in again. */
  lemma SubmitEffect(action: Action, v: FormValues)
    ensures var (call, reset) := Submit(action, v);
      && (call.OnAssignTasks? <==> action == Assign)
      && call.values == v
      && Validate(reset) == [StartBelowOne, AnnotatorMissing]
  {
  }
}
