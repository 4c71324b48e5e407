/**
 * The form logic of `src/components/admin/task-assignment-card.tsx`: the
 * schema's field rule and its two refinements, the `fiqih` prefix added to
 * the ID numbers, the dispatch to assign or unassign, and the values the form
 * is reset to after a submit.
 *
 * Every rule of this schema fails without aborting the parse, so all of them
 * are checked and every failure is reported, in declaration order.
 */
module TaskAssignmentCard {
  import opened Wrappers

  datatype AssignmentType = Range | List

  /** The form's fields; an optional string field may be missing. */
  datatype FormValues = FormValues(
    annotatorId: string,
    assignmentType: AssignmentType,
    startIdNumber: Option<string>,
    endIdNumber: Option<string>,
    idList: Option<string>)

  /** A validation message and the field it is shown under. */
  datatype FieldError = FieldError(path: string, message: string)

  /** `!!s` for an optional string: present and not empty. */
  predicate Truthy(s: Option<string>) {
    s.Some? && s.value != ""
  }

  const AnnotatorMissing := FieldError("annotatorId", "Silakan pilih seorang annotator.")
  const StartMissing := FieldError("startIdNumber", "Start ID harus diisi untuk penugasan rentang.")
  const ListMissing := FieldError("idList", "Daftar ID tidak boleh kosong.")

  /** `formSchema`: the `nonempty` rule on the annotator, then the range refinement, then the list refinement. */
  function Validate(v: FormValues): seq<FieldError> {
    (if v.annotatorId == "" then [AnnotatorMissing] else [])
    + (if v.assignmentType == Range && !Truthy(v.startIdNumber) then [StartMissing] else [])
    + (if v.assignmentType == List && !Truthy(v.idList) then [ListMissing] else [])
  }

  /**
   * The form is accepted exactly when an annotator is chosen and the field
   * the assignment type needs is filled; each error is reported exactly when
   * its own condition fails, under its own field, and at most once.
   */
  lemma ValidateCases(v: FormValues)
    ensures Validate(v) == [] <==>
      v.annotatorId != ""
      && (v.assignmentType == Range ==> Truthy(v.startIdNumber))
      && (v.assignmentType == List ==> Truthy(v.idList))
    ensures AnnotatorMissing in Validate(v) <==> v.annotatorId == ""
    ensures StartMissing in Validate(v) <==> v.assignmentType == Range && !Truthy(v.startIdNumber)
    ensures ListMissing in Validate(v) <==> v.assignmentType == List && !Truthy(v.idList)
    ensures forall e :: e in Validate(v) ==> e == AnnotatorMissing || e == StartMissing || e == ListMissing
    ensures |Validate(v)| <= 2
  {
  }

  /** `AssignmentFormValues`: what the card hands to its caller. */
  datatype Processed = Processed(
    annotatorId: string,
    assignmentType: AssignmentType,
    startId: Option<string>,
    endId: Option<string>,
    idList: Option<string>)

  const Prefix := "fiqih"

  /** `` s ? `fiqih${s}` : undefined ``. */
  function WithPrefix(s: Option<string>): (r: Option<string>)
    ensures r.Some? <==> Truthy(s)
  {
    if Truthy(s) then Some(Prefix + s.value) else None
  }

  /** Removes the prefix again, the inverse of `WithPrefix` on filled fields. */
  function StripPrefix(id: string): Option<string> {
    if |id| > |Prefix| && id[..|Prefix|] == Prefix then Some(id[|Prefix|..]) else None
  }

  /** `processedValues`. */
  function Process(v: FormValues): Processed {
    Processed(v.annotatorId, v.assignmentType, WithPrefix(v.startIdNumber), WithPrefix(v.endIdNumber), v.idList)
  }

  /** A prefixed ID starts with "fiqih" and stripping it gives back the field; an empty field gives no ID. */
  lemma WithPrefixRoundTrip(s: Option<string>)
    ensures Truthy(s) ==> WithPrefix(s).value[..5] == "fiqih" && StripPrefix(WithPrefix(s).value) == s
    ensures !Truthy(s) ==> WithPrefix(s) == None
  {
    if Truthy(s) {
      var r := Prefix + s.value;
      assert r[..|Prefix|] == Prefix;
      assert r[|Prefix|..] == s.value;
    }
  }

  /**
   * The annotator, the type and the list pass through unchanged; each ID is
   * present exactly when its number was filled in, and then it is that number
   * behind the prefix.
   */
  lemma ProcessFaithful(v: FormValues)
    ensures var p := Process(v);
      && p.annotatorId == v.annotatorId && p.assignmentType == v.assignmentType && p.idList == v.idList
      && (p.startId.Some? <==> Truthy(v.startIdNumber))
      && (p.endId.Some? <==> Truthy(v.endIdNumber))
      && (p.startId.Some? ==> StripPrefix(p.startId.value) == v.startIdNumber)
      && (p.endId.Some? ==> StripPrefix(p.endId.value) == v.endIdNumber)
  {
    WithPrefixRoundTrip(v.startIdNumber);
    WithPrefixRoundTrip(v.endIdNumber);
  }

  /** Distinct filled ID numbers give distinct IDs. */
  lemma WithPrefixInjective(s: Option<string>, t: Option<string>)
    requires Truthy(s) && Truthy(t) && WithPrefix(s) == WithPrefix(t)
    ensures s == t
  {
    WithPrefixRoundTrip(s);
    WithPrefixRoundTrip(t);
  }

  // ---------------------------------------------------------------------------
  // Submitting

  /** Which submit button was pressed last. */
  datatype Action = Assign | Unassign

  /** The callback the submit invokes, with its argument. */
  datatype Call = OnAssignTasks(values: Processed) | OnUnassignTasks(values: Processed)

  /** `onSubmit`: one call to the chosen callback, and the values the form is reset to. */
  function Submit(action: Action, v: FormValues): (Call, FormValues) {
    var p := Process(v);
    (if action == Assign then OnAssignTasks(p) else OnUnassignTasks(p),
     FormValues(v.annotatorId, v.assignmentType, Some(""), Some(""), Some("")))
  }

  /**
   * A submit calls exactly the callback of the pressed button with the
   * processed values; the reset keeps the annotator and the type and clears
   * the three ID fields, so the next submit of a range or list form is
   * rejected until its field is filled again.
   */
  lemma SubmitEffect(action: Action, v: FormValues)
    requires Validate(v) == []
    ensures var (call, reset) := Submit(action, v);
      && (call.OnAssignTasks? <==> action == Assign)
      && call.values == Process(v)
      && reset.annotatorId == v.annotatorId && reset.assignmentType == v.assignmentType
      && reset.startIdNumber == Some("") && reset.endIdNumber == Some("") && reset.idList == Some("")
      && Validate(reset) == (if v.assignmentType == Range then [StartMissing] else [ListMissing])
  {
    ValidateCases(v);
  }
}
