/**
 * The progress counters of `src/components/annotator/annotation-task-header.tsx`:
 * the main-dataset and pilot statistics, which of them the header shows, and
 * the zero defaults when they are absent.
 *
 * The three Firestore queries are modelled by their guards and their filters
 * over a loaded collection: a collection still loading is `None`, and a query
 * that is not issued yields no data.
 */
module TaskHeader {
  import opened Wrappers
  import opened Collections
  import opened Types
  import opened AnnotatorsView

  datatype Progress = Progress(completed: nat, total: nat, completionPercentage: real)

  /** `mainStats`: finished (completed or non-fatwa) assignments over all assignments. */
  function MainStats(mainAssignments: Option<seq<ItemAssignment>>): Option<Progress> {
    match mainAssignments
    case None => None
    case Some(a) =>
      var totalFinished := Count(a, IsCompleted) + Count(a, IsNonFatwa);
      Some(Progress(totalFinished, |a|, Percentage(totalFinished, |a|)))
  }

  /** `pilotStats`: finished pilot assignments of the user over all pilot items. */
  function PilotStats(pilotItems: Option<seq<AnnotationItem>>, pilotAssignments: Option<seq<ItemAssignment>>): Option<Progress> {
    if pilotItems.None? || pilotAssignments.None? then None
    else
      var completedItems := Count(pilotAssignments.value, IsFinished);
      var totalItems := |pilotItems.value|;
      Some(Progress(completedItems, totalItems, Percentage(completedItems, totalItems)))
  }

  /**
   * Main statistics count the finished assignments and all assignments; the
   * count never exceeds the total, and the percentage is 0 without
   * assignments and otherwise at most 100.
   */
  lemma MainStatsFacts(a: seq<ItemAssignment>)
    ensures var p := MainStats(Some(a)).value;
      && p.completed == Count(a, IsFinished)
      && p.total == |a|
      && p.completed <= p.total
      && (|a| == 0 ==> p.completionPercentage == 0.0)
      && 0.0 <= p.completionPercentage <= 100.0
      && p.completionPercentage == Percentage(Count(a, IsFinished), |a|)
  {
    CountUnion(a, IsCompleted, IsNonFatwa, IsFinished);
    PercentageFacts(Count(a, IsFinished), |a|);
  }

  /**
   * Pilot statistics count the user's finished pilot assignments over the
   * number of pilot items; the percentage is 0 without items.
   */
  lemma PilotStatsFacts(items: seq<AnnotationItem>, assignments: seq<ItemAssignment>)
    ensures var p := PilotStats(Some(items), Some(assignments)).value;
      && p.completed == Count(assignments, IsFinished)
      && p.total == |items|
      && (|items| == 0 ==> p.completionPercentage == 0.0)
      && 0.0 <= p.completionPercentage
  {
    PercentageFacts(Count(assignments, IsFinished), |items|);
  }

  /** The pilot count is not bounded by the pilot total: one finished assignment with no pilot items shows 1 of 0. */
  lemma PilotCompletedCanExceedTotal()
    ensures var a := ItemAssignment("Q1", "u", AssignmentStatus.Completed, Pilot);
      PilotStats(Some([]), Some([a])).value.completed > PilotStats(Some([]), Some([a])).value.total
  {
    var a := ItemAssignment("Q1", "u", AssignmentStatus.Completed, Pilot);
    assert Filter([a], IsFinished) == Filter([], IsFinished) + [a];
  }

  // ---------------------------------------------------------------------------
  // Queries

  /** `where('userId', '==', uid), where('dataset', '==', ds)`. */
  function OwnedIn(uid: string, ds: Dataset): ItemAssignment -> bool {
    (a: ItemAssignment) => a.userId == uid && a.dataset == ds
  }

  predicate IsPilotItem(item: AnnotationItem) { item.dataset == Pilot }

  /** A query's data: the filtered collection once loaded, nothing when the query is not issued. */
  function Query<T(!new)>(issued: bool, loaded: Option<seq<T>>, p: T -> bool): (r: Option<seq<T>>)
    ensures r.Some? <==> issued && loaded.Some?
    ensures r.Some? ==> forall x :: x in r.value <==> x in loaded.value && p(x)
  {
    if issued && loaded.Some? then FilterMembers(loaded.value, p); Some(Filter(loaded.value, p)) else None
  }

  /** The guard of `mainAssignmentsQuery` as written: issued only on a pilot item. */
  predicate MainQueryIssued(firestoreReady: bool, user: Option<User>, isPilot: bool) {
    !(!firestoreReady || user.None? || !isPilot)
  }

  /** The guard as evidently intended: issued on a main-dataset item. */
  predicate MainQueryIssuedFixed(firestoreReady: bool, user: Option<User>, isPilot: bool) {
    !(!firestoreReady || user.None? || isPilot)
  }

  predicate PilotItemsQueryIssued(firestoreReady: bool, isPilot: bool) {
    !(!firestoreReady || !isPilot)
  }

  predicate PilotAssignmentsQueryIssued(firestoreReady: bool, user: Option<User>, isPilot: bool) {
    !(!firestoreReady || user.None? || !isPilot)
  }

  // ---------------------------------------------------------------------------
  // The header

  /** What the header shows: the title, whether counts are still loading, and the counts with their bar. */
  datatype HeaderView = HeaderView(
    title: string,
    showTimer: bool,
    isLoading: bool,
    completedCount: nat,
    totalCount: nat,
    progressPercentage: real)

  /** The collections as loaded so far, and the loading flags of the three queries. */
  datatype Store = Store(
    assignments: Option<seq<ItemAssignment>>,
    items: Option<seq<AnnotationItem>>,
    loadingMain: bool,
    loadingPilotItems: bool,
    loadingPilotAssignments: bool)

  /** The header once the three queries' data is known; `?? 0` for absent statistics. */
  function Display(item: AnnotationItem, startTime: Option<int>, store: Store,
                   mainAssignments: Option<seq<ItemAssignment>>,
                   pilotItems: Option<seq<AnnotationItem>>,
                   pilotAssignments: Option<seq<ItemAssignment>>): HeaderView
  {
    var isPilot := item.dataset == Pilot;
    var progressStats := if isPilot then PilotStats(pilotItems, pilotAssignments) else MainStats(mainAssignments);
    HeaderView(
      if isPilot then "Pilot Test" else "Tugas Anotasi",
      // `startTime && <Timer/>`: a start time of 0 is falsy
      isPilot && startTime.Some? && startTime.value != 0,
      if isPilot then store.loadingPilotItems || store.loadingPilotAssignments else store.loadingMain,
      if progressStats.Some? then progressStats.value.completed else 0,
      if progressStats.Some? then progressStats.value.total else 0,
      if progressStats.Some? then progressStats.value.completionPercentage else 0.0)
  }

  /** `AnnotationTaskHeader` as written. */
  function Header(item: AnnotationItem, startTime: Option<int>, firestoreReady: bool, user: Option<User>, store: Store): HeaderView {
    var isPilot := item.dataset == Pilot;
    var uid := if user.Some? then user.value.id else "";
    Display(item, startTime, store,
      Query(MainQueryIssued(firestoreReady, user, isPilot), store.assignments, OwnedIn(uid, Main)),
      Query(PilotItemsQueryIssued(firestoreReady, isPilot), store.items, IsPilotItem),
      Query(PilotAssignmentsQueryIssued(firestoreReady, user, isPilot), store.assignments, OwnedIn(uid, Pilot)))
  }

  /** `AnnotationTaskHeader` with the main query's guard corrected. */
  function HeaderFixed(item: AnnotationItem, startTime: Option<int>, firestoreReady: bool, user: Option<User>, store: Store): HeaderView {
    var isPilot := item.dataset == Pilot;
    var uid := if user.Some? then user.value.id else "";
    Display(item, startTime, store,
      Query(MainQueryIssuedFixed(firestoreReady, user, isPilot), store.assignments, OwnedIn(uid, Main)),
      Query(PilotItemsQueryIssued(firestoreReady, isPilot), store.items, IsPilotItem),
      Query(PilotAssignmentsQueryIssued(firestoreReady, user, isPilot), store.assignments, OwnedIn(uid, Pilot)))
  }

  /** Absent statistics show 0 of 0 at 0%. */
  lemma DisplayDefaults(item: AnnotationItem, startTime: Option<int>, store: Store,
                        mainAssignments: Option<seq<ItemAssignment>>,
                        pilotItems: Option<seq<AnnotationItem>>,
                        pilotAssignments: Option<seq<ItemAssignment>>)
    requires item.dataset == Pilot ==> pilotItems.None? || pilotAssignments.None?
    requires item.dataset == Main ==> mainAssignments.None?
    ensures var v := Display(item, startTime, store, mainAssignments, pilotItems, pilotAssignments);
      v.completedCount == 0 && v.totalCount == 0 && v.progressPercentage == 0.0
  {
  }

  /**
   * As written, the main query is never issued on a main-dataset item, so
   * the header of every main item shows 0 of 0 at 0%, whatever the user's
   * assignments are.
   */
  lemma MainHeaderAlwaysEmpty(item: AnnotationItem, startTime: Option<int>, firestoreReady: bool, user: Option<User>, store: Store)
    requires item.dataset == Main
    ensures var v := Header(item, startTime, firestoreReady, user, store);
      v.completedCount == 0 && v.totalCount == 0 && v.progressPercentage == 0.0
  {
  }

  /**
   * With the guard corrected, a signed-in user on a main item with the
   * collection loaded sees the finished count and the number of their own
   * main-dataset assignments, and the matching percentage.
   */
  lemma MainHeaderShowsOwnAssignments(item: AnnotationItem, startTime: Option<int>, user: User, store: Store)
    requires item.dataset == Main && store.assignments.Some?
    ensures var mine := Filter(store.assignments.value, OwnedIn(user.id, Main));
      var v := HeaderFixed(item, startTime, true, Some(user), store);
      && v.title == "Tugas Anotasi"
      && v.completedCount == Count(mine, IsFinished)
      && v.totalCount == |mine|
      && v.completedCount <= v.totalCount
      && v.progressPercentage == Percentage(Count(mine, IsFinished), |mine|)
  {
    MainStatsFacts(Filter(store.assignments.value, OwnedIn(user.id, Main)));
  }

  /** The correction changes nothing on pilot items. */
  lemma PilotHeaderUnchanged(item: AnnotationItem, startTime: Option<int>, firestoreReady: bool, user: Option<User>, store: Store)
    requires item.dataset == Pilot
    ensures HeaderFixed(item, startTime, firestoreReady, user, store) == Header(item, startTime, firestoreReady, user, store)
  {
  }

  /**
   * On a pilot item, once both pilot collections are loaded, the header
   * shows the user's finished pilot assignments over all pilot items.
   */
  lemma PilotHeaderShowsPilotProgress(item: AnnotationItem, startTime: Option<int>, user: User, store: Store)
    requires item.dataset == Pilot && store.assignments.Some? && store.items.Some?
    ensures var mine := Filter(store.assignments.value, OwnedIn(user.id, Pilot));
      var pilot := Filter(store.items.value, IsPilotItem);
      var v := Header(item, startTime, true, Some(user), store);
      && v.title == "Pilot Test"
      && v.completedCount == Count(mine, IsFinished)
      && v.totalCount == |pilot|
      && v.progressPercentage == Percentage(Count(mine, IsFinished), |pilot|)
  {
  }
}
