/**
 * The derivations and view state of the item table in
 * `src/components/admin/data-view.tsx`: the per-item status map, the topic
 * list, the filtered and sorted item list, pagination, and the row
 * selection.
 */
module DataView {
  import opened Wrappers
  import opened Text
  import opened Collections
  import opened Types
  import opened Paging

  /** The status badge of an item. */
  datatype ItemStatus = Pending | Assigned | Completed

  datatype StatusInfo = StatusInfo(status: ItemStatus, assignedTo: seq<string>)

  /** The value the status filter compares with. */
  function StatusName(s: ItemStatus): string {
    match s
    case Pending => "Pending"
    case Assigned => "Assigned"
    case Completed => "Completed"
  }

  lemma StatusNamesDistinct(a: ItemStatus, b: ItemStatus)
    ensures StatusName(a) == StatusName(b) <==> a == b
    ensures StatusName(a) != "all"
  {
  }

  function AssignmentItemKey(a: ItemAssignment): string { a.originalId }

  /**
   * The status of an item from its assignments: "Pending" without
   * assignments, "Completed" when every assignment is completed or
   * non-fatwa, "Assigned" otherwise.
   */
  function Classify(itemAssignments: seq<ItemAssignment>): ItemStatus {
    if |itemAssignments| == 0 then ItemStatus.Pending
    else if forall i :: 0 <= i < |itemAssignments| ==> IsFinished(itemAssignments[i]) then ItemStatus.Completed
    else ItemStatus.Assigned
  }

  /** `itemAssignments.map(a => a.userId)`. */
  function UserIds(s: seq<ItemAssignment>): (r: seq<string>)
    ensures |r| == |s| && forall i :: 0 <= i < |s| ==> r[i] == s[i].userId
  {
    if s == [] then [] else UserIds(s[..|s| - 1]) + [s[|s| - 1].userId]
  }

  /** The entry of `item`: its assignments are the ones sharing its `originalId`. */
  function InfoFor(item: AnnotationItem, assignments: seq<ItemAssignment>): StatusInfo {
    var mine := WithKey(assignments, AssignmentItemKey, item.originalId);
    StatusInfo(Classify(mine), UserIds(mine))
  }

  /** The status map: empty while assignments are not loaded, else one entry per item id, later items overwriting earlier ones. */
  function StatusMapOf(items: seq<AnnotationItem>, assignments: Option<seq<ItemAssignment>>): map<string, StatusInfo> {
    if assignments.None? || items == [] then map[]
    else
      var last := items[|items| - 1];
      StatusMapOf(items[..|items| - 1], assignments)[last.id := InfoFor(last, assignments.value)]
  }

  /** `assignments.every(a => a.status === 'completed' || a.status === 'non-fatwa')`. */
  method AllFinished(itemAssignments: seq<ItemAssignment>) returns (allCompleted: bool)
    ensures allCompleted <==> forall i :: 0 <= i < |itemAssignments| ==> IsFinished(itemAssignments[i])
  {
    allCompleted := true;
    var i := 0;
    while i < |itemAssignments|
      invariant 0 <= i <= |itemAssignments|
      invariant allCompleted
      invariant forall j :: 0 <= j < i ==> IsFinished(itemAssignments[j])
    {
      if !(itemAssignments[i].status == AssignmentStatus.Completed || itemAssignments[i].status == AssignmentStatus.NonFatwa) {
        allCompleted := false;
        break;
      }
      i := i + 1;
    }
  }

  /** The body of the `items.forEach` callback: the item's status and its assignees. */
  method EntryFor(itemAssignments: seq<ItemAssignment>) returns (info: StatusInfo)
    ensures info == StatusInfo(Classify(itemAssignments), UserIds(itemAssignments))
  {
    var assignedUserIds := UserIds(itemAssignments);
    var status := ItemStatus.Pending;
    if |itemAssignments| > 0 {
      var allCompleted := AllFinished(itemAssignments);
      if allCompleted {
        status := ItemStatus.Completed;
      } else {
        status := ItemStatus.Assigned;
      }
    }
    info := StatusInfo(status, assignedUserIds);
  }

  /** The grouped assignments of `item`, looked up with `|| []`, and the entry built from them. */
  method EntryOf(item: AnnotationItem, assignments: seq<ItemAssignment>, assignmentsByOriginalId: map<string, seq<ItemAssignment>>)
    returns (info: StatusInfo)
    requires forall k :: k in assignmentsByOriginalId ==> assignmentsByOriginalId[k] == WithKey(assignments, AssignmentItemKey, k)
    requires forall k :: k !in assignmentsByOriginalId ==> WithKey(assignments, AssignmentItemKey, k) == []
    ensures info == InfoFor(item, assignments)
  {
    var itemAssignments := if item.originalId in assignmentsByOriginalId then assignmentsByOriginalId[item.originalId] else [];
    info := EntryFor(itemAssignments);
  }

  /** Adding one more item sets that item's entry. */
  lemma StatusMapOfStep(items: seq<AnnotationItem>, i: nat, assignments: seq<ItemAssignment>)
    requires i < |items|
    ensures StatusMapOf(items[..i + 1], Some(assignments))
      == StatusMapOf(items[..i], Some(assignments))[items[i].id := InfoFor(items[i], assignments)]
  {
    assert items[..i + 1][..i] == items[..i];
  }

  /**
   * `itemStatusMap`: groups the assignments by `originalId`, then sets one
   * entry per item, keyed by the item's id.
   */
  method ItemStatusMap(items: seq<AnnotationItem>, assignments: Option<seq<ItemAssignment>>) returns (m: map<string, StatusInfo>)
    ensures m == StatusMapOf(items, assignments)
  {
    m := map[];
    if assignments.None? {
      return;
    }
    var assignmentsByOriginalId := GroupBy(assignments.value, AssignmentItemKey);
    for i := 0 to |items|
      invariant m == StatusMapOf(items[..i], assignments)
    {
      var info := EntryOf(items[i], assignments.value, assignmentsByOriginalId);
      StatusMapOfStep(items, i, assignments.value);
      m := m[items[i].id := info];
    }
    assert items[..|items|] == items;
  }

  /**
   * Once assignments are loaded, the map has an entry for exactly the item
   * ids; the entry of the last item with a given id classifies that item's
   * assignments and lists their users in assignment order.
   */
  lemma {:induction false} StatusMapEntries(items: seq<AnnotationItem>, assignments: seq<ItemAssignment>)
    ensures forall id :: id in StatusMapOf(items, Some(assignments)) <==> exists i :: 0 <= i < |items| && items[i].id == id
    ensures forall i :: 0 <= i < |items| && (forall j :: i < j < |items| ==> items[j].id != items[i].id) ==>
      StatusMapOf(items, Some(assignments))[items[i].id] == InfoFor(items[i], assignments)
  {
    if items != [] {
      var init := items[..|items| - 1];
      StatusMapEntries(init, assignments);
      forall id ensures id in StatusMapOf(items, Some(assignments)) <==> exists i :: 0 <= i < |items| && items[i].id == id {
        if id in StatusMapOf(init, Some(assignments)) {
          var i :| 0 <= i < |init| && init[i].id == id;
          assert items[i].id == id;
        }
        if exists i :: 0 <= i < |items| && items[i].id == id {
          var i :| 0 <= i < |items| && items[i].id == id;
          if i < |items| - 1 {
            assert init[i].id == id;
          }
        }
      }
      forall i | 0 <= i < |items| && (forall j :: i < j < |items| ==> items[j].id != items[i].id)
        ensures StatusMapOf(items, Some(assignments))[items[i].id] == InfoFor(items[i], assignments)
      {
        if i < |items| - 1 {
          assert init[i] == items[i];
          assert forall j :: i < j < |init| ==> init[j].id != init[i].id by {
            forall j | i < j < |init| ensures init[j].id != init[i].id {
              assert init[j] == items[j];
            }
          }
        }
      }
    }
  }

  /**
   * The status of an item: "Pending" iff it has no assignments, "Completed"
   * iff it has some and all are finished, "Assigned" iff some assignment is
   * still open.
   */
  lemma ClassifyCases(itemAssignments: seq<ItemAssignment>)
    ensures Classify(itemAssignments) == ItemStatus.Pending <==> itemAssignments == []
    ensures Classify(itemAssignments) == ItemStatus.Completed <==>
      itemAssignments != [] && forall a :: a in itemAssignments ==> IsFinished(a)
    ensures Classify(itemAssignments) == ItemStatus.Assigned <==>
      exists a :: a in itemAssignments && !IsFinished(a)
  {
    if Classify(itemAssignments) == ItemStatus.Assigned {
      var i :| 0 <= i < |itemAssignments| && !IsFinished(itemAssignments[i]);
      assert itemAssignments[i] in itemAssignments;
    }
  }

  // ---------------------------------------------------------------------------
  // Topics and filtering

  function Topics(items: seq<AnnotationItem>): (r: seq<string>)
    ensures |r| == |items| && forall i :: 0 <= i < |items| ==> r[i] == items[i].topic
  {
    if items == [] then [] else Topics(items[..|items| - 1]) + [items[|items| - 1].topic]
  }

  /** `["all", ...new Set(items.map(item => item.topic))]`. */
  function UniqueTopics(items: seq<AnnotationItem>): seq<string> {
    ["all"] + Distinct(Topics(items))
  }

  /** "all" comes first, then each topic of some item exactly once. */
  lemma UniqueTopicsFacts(items: seq<AnnotationItem>)
    ensures var r := UniqueTopics(items);
      && r[0] == "all"
      && NoDuplicates(r[1..])
      && forall t :: t in r[1..] <==> exists i :: 0 <= i < |items| && items[i].topic == t
  {
    var r := UniqueTopics(items);
    assert r[1..] == Distinct(Topics(items));
    forall t ensures t in r[1..] <==> exists i :: 0 <= i < |items| && items[i].topic == t {
      if t in r[1..] {
        var i :| 0 <= i < |Topics(items)| && Topics(items)[i] == t;
      }
      if exists i :: 0 <= i < |items| && items[i].topic == t {
        var i :| 0 <= i < |items| && items[i].topic == t;
        assert Topics(items)[i] == t;
      }
    }
  }

  /** The search box matches the item's `originalId`, both sides lower-cased. */
  predicate MatchesSearch(item: AnnotationItem, searchQuery: string) {
    Contains(Lower(item.originalId), Lower(searchQuery))
  }

  predicate MatchesTopic(item: AnnotationItem, topicFilter: string) {
    topicFilter == "all" || item.topic == topicFilter
  }

  /** An item without a map entry matches only the "all" status. */
  predicate MatchesStatus(item: AnnotationItem, statusMap: map<string, StatusInfo>, statusFilter: string) {
    statusFilter == "all" || (item.id in statusMap && StatusName(statusMap[item.id].status) == statusFilter)
  }

  predicate Keep(item: AnnotationItem, statusMap: map<string, StatusInfo>, searchQuery: string, topicFilter: string, statusFilter: string) {
    MatchesSearch(item, searchQuery) && MatchesTopic(item, topicFilter) && MatchesStatus(item, statusMap, statusFilter)
  }

  function Keeper(statusMap: map<string, StatusInfo>, searchQuery: string, topicFilter: string, statusFilter: string): AnnotationItem -> bool {
    item => Keep(item, statusMap, searchQuery, topicFilter, statusFilter)
  }

  /** `a.originalId.localeCompare(b.originalId, undefined, { numeric: true }) <= 0`, the order on ids as a parameter. */
  function ByOriginalId(idLe: (string, string) -> bool): (AnnotationItem, AnnotationItem) -> bool {
    (a: AnnotationItem, b: AnnotationItem) => idLe(a.originalId, b.originalId)
  }

  /** `filteredItems`: the items passing the three filters, sorted by `originalId`. */
  function FilteredItems(items: seq<AnnotationItem>, statusMap: map<string, StatusInfo>, searchQuery: string,
                         topicFilter: string, statusFilter: string, idLe: (string, string) -> bool): seq<AnnotationItem>
  {
    SortBy(Filter(items, Keeper(statusMap, searchQuery, topicFilter, statusFilter)), ByOriginalId(idLe))
  }

  /**
   * The filtered list holds exactly the items that match the search, the
   * topic and the status, each as often as in `items`, in `originalId` order
   * when that order is a total preorder.
   */
  lemma FilteredItemsExact(items: seq<AnnotationItem>, statusMap: map<string, StatusInfo>, searchQuery: string,
                           topicFilter: string, statusFilter: string, idLe: (string, string) -> bool)
    ensures var r := FilteredItems(items, statusMap, searchQuery, topicFilter, statusFilter, idLe);
      && (forall x :: x in r <==> x in items && Keep(x, statusMap, searchQuery, topicFilter, statusFilter))
      && multiset(r) == multiset(Filter(items, Keeper(statusMap, searchQuery, topicFilter, statusFilter)))
      && (TotalPreorder(idLe) ==> forall i, j :: 0 <= i < j < |r| ==> idLe(r[i].originalId, r[j].originalId))
  {
    var r := FilteredItems(items, statusMap, searchQuery, topicFilter, statusFilter, idLe);
    var kept := Filter(items, Keeper(statusMap, searchQuery, topicFilter, statusFilter));
    FilterMembers(items, Keeper(statusMap, searchQuery, topicFilter, statusFilter));
    forall x ensures x in r <==> x in kept {
      assert x in r <==> x in multiset(r);
      assert x in kept <==> x in multiset(kept);
    }
    if TotalPreorder(idLe) {
      var le := ByOriginalId(idLe);
      assert TotalPreorder(le) by {
        forall a, b ensures le(a, b) || le(b, a) {
          assert idLe(a.originalId, b.originalId) || idLe(b.originalId, a.originalId);
        }
        forall a, b, c | le(a, b) && le(b, c) ensures le(a, c) {
          assert idLe(a.originalId, b.originalId) && idLe(b.originalId, c.originalId);
        }
      }
      SortBySorted(kept, le);
    }
  }

  /** With an empty search and both filters at "all", every item is kept. */
  lemma NoFilterKeepsAll(items: seq<AnnotationItem>, statusMap: map<string, StatusInfo>, idLe: (string, string) -> bool)
    ensures multiset(FilteredItems(items, statusMap, "", "all", "all", idLe)) == multiset(items)
  {
    forall i | 0 <= i < |items| ensures Keep(items[i], statusMap, "", "all", "all") {
      assert Lower("") == "";
    }
    FilterAll(items, Keeper(statusMap, "", "all", "all"));
  }

  lemma {:induction false} FilterAll<T(!new)>(s: seq<T>, p: T -> bool)
    requires forall i :: 0 <= i < |s| ==> p(s[i])
    ensures Filter(s, p) == s
  {
    if s != [] {
      var init := s[..|s| - 1];
      assert forall i :: 0 <= i < |init| ==> init[i] == s[i];
      FilterAll(init, p);
      assert p(s[|s| - 1]);
      assert init + [s[|s| - 1]] == s;
    }
  }

  // ---------------------------------------------------------------------------
  // Selection

  function Ids(items: seq<AnnotationItem>): (r: seq<string>)
    ensures |r| == |items| && forall i :: 0 <= i < |items| ==> r[i] == items[i].id
  {
    if items == [] then [] else Ids(items[..|items| - 1]) + [items[|items| - 1].id]
  }

  /** `filteredItems.length > 0 && selectedItemIds.length === filteredItems.length`: a comparison of counts. */
  predicate IsAllSelected(filtered: seq<AnnotationItem>, selected: seq<string>) {
    |filtered| > 0 && |selected| == |filtered|
  }

  predicate IsIndeterminate(filtered: seq<AnnotationItem>, selected: seq<string>) {
    |selected| > 0 && !IsAllSelected(filtered, selected)
  }

  /**
   * The two header flags never hold together, and one of them holds exactly
   * when something is selected and, for "all", when the counts agree on a
   * non-empty list; selecting every filtered id sets "all".
   */
  lemma SelectionFlags(filtered: seq<AnnotationItem>, selected: seq<string>)
    ensures !(IsAllSelected(filtered, selected) && IsIndeterminate(filtered, selected))
    ensures IsAllSelected(filtered, selected) || IsIndeterminate(filtered, selected) <==> |selected| > 0
    ensures filtered != [] ==> IsAllSelected(filtered, Ids(filtered))
    ensures !IsAllSelected(filtered, []) && !IsIndeterminate(filtered, [])
  {
  }

  /** The header checkbox reports `true`, `false` or "indeterminate". */
  datatype CheckState = Checked | Unchecked | Indeterminate

  const RowsPerPageOptions: seq<nat> := [5, 10, 20, 50, 100]

  /** The view state of the table: current page, page size, the three filters, and the selected ids. */
  class ItemTable {
    var currentPage: int
    var rowsPerPage: nat
    var searchQuery: string
    var topicFilter: string
    var statusFilter: string
    var selectedItemIds: seq<string>

    predicate Valid()
      reads this
    {
      rowsPerPage in RowsPerPageOptions
    }

    constructor()
      ensures Valid()
      ensures currentPage == 1 && rowsPerPage == 5
      ensures searchQuery == "" && topicFilter == "all" && statusFilter == "all"
      ensures selectedItemIds == []
    {
      currentPage, rowsPerPage := 1, 5;
      searchQuery, topicFilter, statusFilter := "", "all", "all";
      selectedItemIds := [];
    }

    function TotalPagesOf(filtered: seq<AnnotationItem>): nat
      reads this
      requires Valid()
    {
      TotalPages(|filtered|, rowsPerPage)
    }

    function PaginatedItems(filtered: seq<AnnotationItem>): seq<AnnotationItem>
      reads this
    {
      Page(filtered, currentPage, rowsPerPage)
    }

    /** Changing any filter recomputes `filteredItems`, which sends the table back to page 1. */
    method SetFilters(query: string, topic: string, status: string)
      modifies this
      ensures searchQuery == query && topicFilter == topic && statusFilter == status
      ensures currentPage == 1
      ensures rowsPerPage == old(rowsPerPage) && selectedItemIds == old(selectedItemIds)
    {
      searchQuery, topicFilter, statusFilter := query, topic, status;
      currentPage := 1;
    }

    method GoToNextPage(totalPages: int)
      modifies this
      ensures currentPage == NextPage(old(currentPage), totalPages)
      ensures rowsPerPage == old(rowsPerPage) && selectedItemIds == old(selectedItemIds)
      ensures searchQuery == old(searchQuery) && topicFilter == old(topicFilter) && statusFilter == old(statusFilter)
    {
      currentPage := if currentPage + 1 < totalPages then currentPage + 1 else totalPages;
    }

    method GoToPreviousPage()
      modifies this
      ensures currentPage == PreviousPage(old(currentPage))
      ensures rowsPerPage == old(rowsPerPage) && selectedItemIds == old(selectedItemIds)
      ensures searchQuery == old(searchQuery) && topicFilter == old(topicFilter) && statusFilter == old(statusFilter)
    {
      currentPage := if currentPage - 1 > 1 then currentPage - 1 else 1;
    }

    /** `handleRowsPerPageChange`: one of the offered sizes, and back to page 1. */
    method ChangeRowsPerPage(value: nat)
      requires value in RowsPerPageOptions
      modifies this
      ensures Valid() && rowsPerPage == value && currentPage == 1
      ensures selectedItemIds == old(selectedItemIds)
      ensures searchQuery == old(searchQuery) && topicFilter == old(topicFilter) && statusFilter == old(statusFilter)
    {
      rowsPerPage := value;
      currentPage := 1;
    }

    /** `handleSelectAll`: `true` selects the ids of the filtered items, anything else clears the selection. */
    method SelectAll(checked: CheckState, filtered: seq<AnnotationItem>)
      modifies this
      ensures selectedItemIds == if checked == Checked then Ids(filtered) else []
      ensures currentPage == old(currentPage) && rowsPerPage == old(rowsPerPage)
      ensures searchQuery == old(searchQuery) && topicFilter == old(topicFilter) && statusFilter == old(statusFilter)
    {
      if checked == Checked {
        selectedItemIds := Ids(filtered);
      } else {
        selectedItemIds := [];
      }
    }

    /** `handleRowSelect`: checking appends the id, unchecking removes every occurrence of it. */
    method RowSelect(id: string, checked: bool)
      modifies this
      ensures selectedItemIds == if checked then old(selectedItemIds) + [id] else RemoveAll(old(selectedItemIds), id)
      ensures currentPage == old(currentPage) && rowsPerPage == old(rowsPerPage)
      ensures searchQuery == old(searchQuery) && topicFilter == old(topicFilter) && statusFilter == old(statusFilter)
    {
      selectedItemIds := if checked then selectedItemIds + [id] else RemoveAll(selectedItemIds, id);
    }
  }

  /**
   * Row selection: checking adds one occurrence of the id and no other,
   * unchecking removes all of its occurrences and keeps every other id as
   * often as before, and checking then unchecking leaves no trace of the id.
   */
  lemma RowSelectEffect(selected: seq<string>, id: string)
    ensures multiset(selected + [id]) == multiset(selected) + multiset{id}
    ensures id !in RemoveAll(selected, id)
    ensures forall other :: other != id ==> multiset(RemoveAll(selected, id))[other] == multiset(selected)[other]
    ensures RemoveAll(selected + [id], id) == RemoveAll(selected, id)
  {
    assert (selected + [id])[..|selected + [id]| - 1] == selected;
  }
}
