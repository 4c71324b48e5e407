/**
 * The derivations of `src/components/admin/disagreement-table.tsx`: the empty
 * message, the sorted set of annotator headers, pages of five rows, the cell
 * lookup through a per-row map, and how a cell value is shown.
 */
module DisagreementTable {
  import opened Wrappers
  import opened Text
  import opened Collections
  import opened Paging

  /** The kinds of `details[].value` the display tells apart. */
  datatype Value = Bool(b: bool) | Number(n: int) | Str(s: string) | Null | Undefined

  datatype Detail = Detail(user: string, value: Value)

  datatype Disagreement = Disagreement(
    itemOriginalId: string,
    annotatorPair: seq<string>,
    criteria: string,
    details: seq<Detail>)

  const RowsPerPage: nat := 5

  /** How a value appears: booleans and numbers in a badge, anything else as plain text. */
  datatype Shown = Badge(text: string) | Plain(text: string)

  /** `ValueDisplay`: "Ya"/"Tidak" for booleans, the number itself, else `String(value)`. */
  function ValueDisplay(v: Value): Shown {
    match v
    case Bool(b) => Badge(if b then "Ya" else "Tidak")
    case Number(n) => Badge(IntString(n))
    case Str(s) => Plain(s)
    case Null => Plain("null")
    case Undefined => Plain("undefined")
  }

  /**
   * A boolean is shown as "Ya" exactly when it is true, a number's text reads
   * back as that number, and a string is shown unchanged; only booleans and
   * numbers get a badge.
   */
  lemma ValueDisplayFaithful(v: Value)
    ensures v.Bool? ==> (ValueDisplay(v) == Badge("Ya") <==> v.b) && (ValueDisplay(v) == Badge("Tidak") <==> !v.b)
    ensures v.Number? ==> ValueDisplay(v).Badge? && ParseInt(ValueDisplay(v).text) == v.n
    ensures v.Str? ==> ValueDisplay(v) == Plain(v.s)
    ensures ValueDisplay(v).Badge? <==> v.Bool? || v.Number?
  {
    if v.Number? {
      IntStringRoundTrip(v.n);
    }
  }

  // ---------------------------------------------------------------------------
  // Headers

  /** The user names of one row's details, in order. */
  function Users(details: seq<Detail>): (r: seq<string>)
    ensures |r| == |details| && forall i :: 0 <= i < |details| ==> r[i] == details[i].user
  {
    if details == [] then [] else Users(details[..|details| - 1]) + [details[|details| - 1].user]
  }

  /** `disagreements.flatMap(d => d.details.map(det => det.user))`. */
  function AllUsers(ds: seq<Disagreement>): seq<string> {
    if ds == [] then [] else AllUsers(ds[..|ds| - 1]) + Users(ds[|ds| - 1].details)
  }

  lemma {:induction false} AllUsersMembers(ds: seq<Disagreement>, u: string)
    ensures u in AllUsers(ds) <==> exists i, j :: 0 <= i < |ds| && 0 <= j < |ds[i].details| && ds[i].details[j].user == u
  {
    if ds != [] {
      var init := ds[..|ds| - 1];
      AllUsersMembers(init, u);
      var last := ds[|ds| - 1];
      if u in Users(last.details) {
        var j :| 0 <= j < |last.details| && Users(last.details)[j] == u;
        assert ds[|ds| - 1].details[j].user == u;
      }
      if exists i, j :: 0 <= i < |ds| && 0 <= j < |ds[i].details| && ds[i].details[j].user == u {
        var i, j :| 0 <= i < |ds| && 0 <= j < |ds[i].details| && ds[i].details[j].user == u;
        if i < |ds| - 1 {
          assert init[i] == ds[i];
        } else {
          assert Users(last.details)[j] == u;
        }
      }
    }
  }

  /** `[...new Set(users)].sort()`: distinct names in code-unit order. */
  function Headers(ds: seq<Disagreement>): seq<string> {
    SortBy(Distinct(AllUsers(ds)), StrLe)
  }

  lemma StrLeIsTotalPreorder()
    ensures TotalPreorder(StrLe)
  {
    forall a, b ensures StrLe(a, b) || StrLe(b, a) {
      StrLeTotal(a, b);
    }
    forall a, b, c | StrLe(a, b) && StrLe(b, c) ensures StrLe(a, c) {
      StrLeTransitive(a, b, c);
    }
  }

  /**
   * The headers are exactly the users that appear in some row's details,
   * each once, in strictly ascending code-unit order.
   */
  lemma HeadersFacts(ds: seq<Disagreement>)
    ensures var h := Headers(ds);
      && (forall u :: u in h <==> exists i, j :: 0 <= i < |ds| && 0 <= j < |ds[i].details| && ds[i].details[j].user == u)
      && NoDuplicates(h)
      && (forall i, j :: 0 <= i < j < |h| ==> StrLe(h[i], h[j]) && h[i] != h[j])
  {
    var d := Distinct(AllUsers(ds));
    var h := Headers(ds);
    forall u ensures u in h <==> exists i, j :: 0 <= i < |ds| && 0 <= j < |ds[i].details| && ds[i].details[j].user == u {
      assert u in h <==> u in multiset(h);
      assert u in d <==> u in multiset(d);
      AllUsersMembers(ds, u);
    }
    PermutationNoDuplicates(d, h);
    StrLeIsTotalPreorder();
    SortBySorted(d, StrLe);
  }

  // ---------------------------------------------------------------------------
  // Cells

  /** `new Map(details.map(d => [d.user, d.value]))`: a later detail for the same user overwrites an earlier one. */
  function DetailsMap(details: seq<Detail>): map<string, Value> {
    if details == [] then map[]
    else
      var last := details[|details| - 1];
      DetailsMap(details[..|details| - 1])[last.user := last.value]
  }

  datatype Cell = Show(shown: Shown) | Dash

  /** The cell of a row under `header`: the shown value when the map has the user, else "-". */
  function CellFor(details: seq<Detail>, header: string): Cell {
    var m := DetailsMap(details);
    if header in m then Show(ValueDisplay(m[header])) else Dash
  }

  lemma {:induction false} DetailsMapKeys(details: seq<Detail>, header: string)
    ensures header in DetailsMap(details) <==> exists i :: 0 <= i < |details| && details[i].user == header
  {
    if details != [] {
      var init := details[..|details| - 1];
      DetailsMapKeys(init, header);
      if header in DetailsMap(init) {
        var i :| 0 <= i < |init| && init[i].user == header;
        assert details[i] == init[i];
      }
      if exists i :: 0 <= i < |details| && details[i].user == header {
        var i :| 0 <= i < |details| && details[i].user == header;
        if i < |init| {
          assert init[i] == details[i];
        }
      }
    }
  }

  /** The last detail whose user is `header`. */
  predicate LastFor(details: seq<Detail>, header: string, i: int) {
    0 <= i < |details| && details[i].user == header && forall j :: i < j < |details| ==> details[j].user != header
  }

  lemma {:induction false} DetailsMapLastWins(details: seq<Detail>, header: string)
    requires header in DetailsMap(details)
    ensures exists i :: LastFor(details, header, i) && DetailsMap(details)[header] == details[i].value
  {
    var init := details[..|details| - 1];
    var last := details[|details| - 1];
    if last.user == header {
      assert LastFor(details, header, |details| - 1);
    } else {
      DetailsMapLastWins(init, header);
      var i :| LastFor(init, header, i) && DetailsMap(init)[header] == init[i].value;
      assert details[i] == init[i];
      assert LastFor(details, header, i);
    }
  }

  /**
   * A cell is "-" exactly when no detail of the row names the header's user;
   * otherwise it shows the value of the last detail naming that user.
   */
  lemma CellLookup(details: seq<Detail>, header: string)
    ensures CellFor(details, header) == Dash <==> forall i :: 0 <= i < |details| ==> details[i].user != header
    ensures CellFor(details, header) != Dash ==>
      exists i :: LastFor(details, header, i) && CellFor(details, header) == Show(ValueDisplay(details[i].value))
  {
    DetailsMapKeys(details, header);
    if header in DetailsMap(details) {
      DetailsMapLastWins(details, header);
    }
  }

  // ---------------------------------------------------------------------------
  // The rendered view

  datatype Row = Row(itemOriginalId: string, cells: seq<Cell>)

  datatype View = EmptyMessage | Table(headers: seq<string>, rows: seq<Row>)

  function RowOf(d: Disagreement, headers: seq<string>): (r: Row)
    ensures |r.cells| == |headers| && forall k :: 0 <= k < |headers| ==> r.cells[k] == CellFor(d.details, headers[k])
  {
    Row(d.itemOriginalId, seq(|headers|, k requires 0 <= k < |headers| => CellFor(d.details, headers[k])))
  }

  /** The rows of a page: one per disagreement on it, in order. */
  function RowsOf(page: seq<Disagreement>, headers: seq<string>): (rows: seq<Row>)
    ensures |rows| == |page|
    ensures forall i :: 0 <= i < |rows| ==> rows[i] == RowOf(page[i], headers)
  {
    seq(|page|, i requires 0 <= i < |page| => RowOf(page[i], headers))
  }

  /** The component's output for a (possibly missing) list of disagreements on a given page. */
  function Render(disagreements: Option<seq<Disagreement>>, currentPage: int): View {
    if disagreements.None? || |disagreements.value| == 0 then EmptyMessage
    else
      var ds := disagreements.value;
      var headers := Headers(ds);
      Table(headers, RowsOf(Page(ds, currentPage, RowsPerPage), headers))
  }

  /** A non-empty list on a page from 1 on: the page's rows, each with one cell per header. */
  lemma TableShape(ds: seq<Disagreement>, currentPage: int)
    requires ds != [] && currentPage >= 1
    ensures var t := Render(Some(ds), currentPage);
      && t.Table?
      && t.headers == Headers(ds)
      && |t.rows| <= RowsPerPage
      && forall i :: 0 <= i < |t.rows| ==>
           t.rows[i].itemOriginalId == ds[(currentPage - 1) * RowsPerPage + i].itemOriginalId
           && |t.rows[i].cells| == |t.headers|
  {
    var headers := Headers(ds);
    assert Render(Some(ds), currentPage) == Table(headers, RowsOf(Page(ds, currentPage, RowsPerPage), headers));
    PageRows(ds, currentPage, headers, Render(Some(ds), currentPage).rows);
  }

  /** The rows of a page from 1 on: at most five, the disagreements from `(page - 1) * 5` on, one cell per header. */
  lemma PageRows(ds: seq<Disagreement>, currentPage: int, headers: seq<string>, rows: seq<Row>)
    requires currentPage >= 1
    requires rows == RowsOf(Page(ds, currentPage, RowsPerPage), headers)
    ensures |rows| <= RowsPerPage
    ensures forall i :: 0 <= i < |rows| ==>
      (currentPage - 1) * RowsPerPage + i < |ds|
      && rows[i].itemOriginalId == ds[(currentPage - 1) * RowsPerPage + i].itemOriginalId
      && |rows[i].cells| == |headers|
  {
    PageContents(ds, currentPage, RowsPerPage);
  }

  /**
   * A missing or empty list renders the empty message and anything else a
   * table; on a page from 1 on the table has at most five rows, the rows
   * from `(page - 1) * 5` on, each with one cell per header.
   */
  lemma RenderShape(disagreements: Option<seq<Disagreement>>, currentPage: int)
    ensures Render(disagreements, currentPage) == EmptyMessage <==> disagreements.None? || disagreements.value == []
    ensures Render(disagreements, currentPage).Table? && currentPage >= 1 ==>
      var ds, t := disagreements.value, Render(disagreements, currentPage);
      && t.headers == Headers(ds)
      && |t.rows| <= RowsPerPage
      && forall i :: 0 <= i < |t.rows| ==>
           t.rows[i].itemOriginalId == ds[(currentPage - 1) * RowsPerPage + i].itemOriginalId
           && |t.rows[i].cells| == |t.headers|
  {
    if disagreements.Some? && disagreements.value != [] && currentPage >= 1 {
      TableShape(disagreements.value, currentPage);
    }
  }

  /** The page state of the table, over a fixed list of disagreements. */
  class Pager {
    const disagreements: seq<Disagreement>
    var currentPage: int

    function TotalPagesOf(): nat
      reads this
    {
      TotalPages(|disagreements|, RowsPerPage)
    }

    /** The current page is a page of the table whenever the table is shown. */
    predicate Valid()
      reads this
    {
      disagreements == [] || 1 <= currentPage <= TotalPagesOf()
    }

    constructor(ds: seq<Disagreement>)
      ensures disagreements == ds && currentPage == 1 && Valid()
    {
      disagreements := ds;
      currentPage := 1;
      new;
      TotalPagesIsCeiling(|ds|, RowsPerPage);
    }

    method GoToNextPage()
      requires Valid()
      modifies this
      ensures currentPage == NextPage(old(currentPage), TotalPagesOf())
      ensures Valid()
    {
      currentPage := if currentPage + 1 < TotalPagesOf() then currentPage + 1 else TotalPagesOf();
      NavigationStaysInRange(old(currentPage), TotalPagesOf());
    }

    method GoToPreviousPage()
      requires Valid()
      modifies this
      ensures currentPage == PreviousPage(old(currentPage))
      ensures Valid()
    {
      currentPage := if currentPage - 1 > 1 then currentPage - 1 else 1;
    }
  }
}
