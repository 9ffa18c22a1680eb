/** The leads table component's state and its event handlers: the fetched
    leads, the column order and visibility, and the current page. Each React
    state setter becomes an assignment to a field of LeadsTable, and handlers
    run one at a time, each seeing the state its predecessor left (as if the
    component re-rendered between them). */
module LeadsPage {
  import opened JsValues
  import opened ColumnOrder
  import opened Pagination
  import opened Visibility
  import opened TableCells
  import LeadChart

  /** The settled outcome of the one fetch made on mount: a failure (network
      error, non-2xx status, unreadable body), or the body's `data` field,
      which may be absent. */
  datatype FetchOutcome = Failed | Fetched(data: Option<seq<Lead>>)

  /** The eleven columns, in their initial order. */
  const DefaultColumns: seq<Column> := [
    Column("id", "ID"),
    Column("client_name", "Client Name"),
    Column("project_type", "Project Type"),
    Column("country", "Country"),
    Column("value", "Value"),
    Column("deadline", "Deadline"),
    Column("project_link", "Project Link"),
    Column("bidding_time", "Bidding Time"),
    Column("actual_value", "Actual Value"),
    Column("deal_status", "Status"),
    Column("added_by", "Added By")
  ]

  lemma DefaultColumnsDistinct()
    ensures DistinctIds(DefaultColumns)
  {
    forall p, q | 0 <= p < q < |DefaultColumns|
      ensures DefaultColumns[p].id != DefaultColumns[q].id
    {
      // Any two ids differ in length, first letter or last letter.
      var a, b := DefaultColumns[p].id, DefaultColumns[q].id;
      assert |a| != |b| || a[0] != b[0] || a[|a| - 1] != b[|b| - 1];
    }
  }

  /** The item react-dnd carries while a header is dragged; `index` tracks
      where the dragged column currently sits. */
  class DragItem {
    var index: int

    constructor (index: int)
      ensures this.index == index
    {
      this.index := index;
    }
  }

  class LeadsTable {
    var leads: seq<Lead>
    var columns: seq<Column>
    var columnVisibility: VisibilityMap
    var currentPage: int
    var totalPosts: nat

    /** The count matches the list, column ids are unique, and every column
        has a visibility entry. */
    ghost predicate Valid()
      reads this
    {
      && totalPosts == |leads|
      && DistinctIds(columns)
      && Ids(columns) <= columnVisibility.Keys
    }

    /** On mount: no leads yet, the default columns all shown, page 1. */
    constructor ()
      ensures Valid()
      ensures leads == [] && totalPosts == 0 && currentPage == 1
      ensures columns == DefaultColumns
      ensures columnVisibility.Keys == Ids(columns)
      ensures forall id :: id in columnVisibility ==> columnVisibility[id]
    {
      leads := [];
      var initialColumns := DefaultColumns;
      columns := initialColumns;
      columnVisibility := InitialVisibility(initialColumns);
      currentPage := 1;
      totalPosts := 0;
      DefaultColumnsDistinct();
    }

    /** The table replaces the "Loading..." placeholder once there are
        leads, which is exactly when there is at least one page button. */
    predicate TableShown()
      reads this
      requires Valid()
      ensures TableShown() <==> PageCount(totalPosts) >= 1
    {
      |leads| > 0
    }

    /** The result assignment of the fetch: `leads := data.data || []` and
        `totalPosts := data.data.length || 0`. A failed fetch changes nothing. */
    method OnFetchSettled(outcome: FetchOutcome)
      requires Valid()
      modifies this
      ensures Valid()
      ensures outcome.Failed? ==> leads == old(leads)
      ensures outcome.Fetched? ==> leads == outcome.data.GetOr([])
      ensures totalPosts == |leads|
      ensures columns == old(columns) && columnVisibility == old(columnVisibility)
      ensures currentPage == old(currentPage)
      ensures old(currentPage) == 1 && TableShown() ==> PageInRange(currentPage, totalPosts)
    {
      match outcome
      case Failed =>
      case Fetched(data) =>
        leads := data.GetOr([]);
        totalPosts := |leads|;
    }

    /** `moveColumn`: splice the column out of a copy, splice it back in at
        `toIndex`, and install the copy. */
    method MoveColumn(fromIndex: nat, toIndex: nat)
      requires Valid()
      requires fromIndex < |columns| && toIndex < |columns|
      modifies this
      ensures Valid()
      ensures columns == Moved(old(columns), fromIndex, toIndex)
      ensures multiset(columns) == multiset(old(columns))
      ensures columns[toIndex] == old(columns)[fromIndex]
      ensures Remove(columns, toIndex) == Remove(old(columns), fromIndex)
      ensures Ids(columns) == Ids(old(columns))
      ensures leads == old(leads) && totalPosts == old(totalPosts)
      ensures columnVisibility == old(columnVisibility) && currentPage == old(currentPage)
    {
      var updatedColumns := columns;
      var movedColumn := updatedColumns[fromIndex];
      updatedColumns := updatedColumns[..fromIndex] + updatedColumns[fromIndex + 1..];
      updatedColumns := updatedColumns[..toIndex] + [movedColumn] + updatedColumns[toIndex..];
      MovedPermutes(columns, fromIndex, toIndex);
      MovedKeepsIds(columns, fromIndex, toIndex);
      columns := updatedColumns;
    }

    /** The drop target's hover handler of the header at `index`: reorder only
        when the dragged item is tracked elsewhere, then track it here. */
    method Hover(item: DragItem, index: nat)
      requires Valid()
      requires 0 <= item.index < |columns| && index < |columns|
      modifies this, item
      ensures Valid()
      ensures item.index == index
      ensures columns == Moved(old(columns), old(item.index), index)
      ensures Ids(columns) == Ids(old(columns))
      ensures old(item.index) == index ==> columns == old(columns)
      ensures leads == old(leads) && columnVisibility == old(columnVisibility)
      ensures currentPage == old(currentPage) && totalPosts == old(totalPosts)
    {
      if item.index != index {
        MoveColumn(item.index, index);
        item.index := index;
      } else {
        MovedToSelf(columns, index);
      }
    }

    /** `handleColumnVisibilityChange`: flip one entry. */
    method ToggleColumnVisibility(columnId: string)
      requires Valid()
      modifies this
      ensures Valid()
      ensures columnVisibility == Toggle(old(columnVisibility), columnId)
      ensures IsVisible(columnVisibility, columnId) == !IsVisible(old(columnVisibility), columnId)
      ensures forall id :: id != columnId ==> IsVisible(columnVisibility, id) == IsVisible(old(columnVisibility), id)
      ensures columnId in Ids(columns) ==> columnVisibility.Keys == old(columnVisibility.Keys)
      ensures leads == old(leads) && columns == old(columns)
      ensures currentPage == old(currentPage) && totalPosts == old(totalPosts)
    {
      columnVisibility := Toggle(columnVisibility, columnId);
    }

    /** `paginate`: set the page, with no clamping. */
    method Paginate(pageNumber: int)
      modifies this
      ensures currentPage == pageNumber
      ensures leads == old(leads) && columns == old(columns)
      ensures columnVisibility == old(columnVisibility) && totalPosts == old(totalPosts)
    {
      currentPage := pageNumber;
    }

    /** A click on Prev, which is disabled on page 1. */
    method ClickPrev()
      requires Valid() && TableShown()
      modifies this
      ensures Valid()
      ensures currentPage == if PrevDisabled(old(currentPage)) then old(currentPage) else old(currentPage) - 1
      ensures old(PageInRange(currentPage, totalPosts)) ==> PageInRange(currentPage, totalPosts)
      ensures leads == old(leads) && columns == old(columns) && columnVisibility == old(columnVisibility)
    {
      if !PrevDisabled(currentPage) {
        Paginate(currentPage - 1);
      }
    }

    /** A click on Next, which is disabled on the last page. */
    method ClickNext()
      requires Valid() && TableShown()
      modifies this
      ensures Valid()
      ensures currentPage == if NextDisabled(old(currentPage), totalPosts) then old(currentPage) else old(currentPage) + 1
      ensures old(PageInRange(currentPage, totalPosts)) ==> PageInRange(currentPage, totalPosts)
      ensures leads == old(leads) && columns == old(columns) && columnVisibility == old(columnVisibility)
    {
      if !NextDisabled(currentPage, totalPosts) {
        Paginate(currentPage + 1);
      }
    }

    /** A click on the numbered button at `index`; buttons exist for
        0 <= index < PageCount(totalPosts) and are labelled index + 1. */
    method ClickPageButton(index: nat)
      requires Valid() && TableShown()
      requires index < PageCount(totalPosts)
      modifies this
      ensures Valid()
      ensures currentPage == index + 1
      ensures PageInRange(currentPage, totalPosts)
      ensures leads == old(leads) && columns == old(columns) && columnVisibility == old(columnVisibility)
    {
      Paginate(index + 1);
    }

    /** `currentPosts`: the leads of the current page. */
    function CurrentPosts(): (r: seq<Lead>)
      reads this
      requires Valid()
      ensures |r| <= PostsPerPage
      ensures PageInRange(currentPage, totalPosts) ==> 1 <= |r|
      ensures currentPage >= 1 ==> r == leads[Min((currentPage - 1) * PostsPerPage, |leads|)..Min(currentPage * PostsPerPage, |leads|)]
    {
      PageSliceOccupancy(leads, currentPage);
      PageSlice(leads, currentPage)
    }

    /** The header row's captions. */
    function Header(): (r: seq<string>)
      reads this
      ensures |r| == |VisibleColumns(columns, columnVisibility)| <= |columns|
      ensures forall k :: 0 <= k < |r| ==> r[k] == VisibleColumns(columns, columnVisibility)[k].caption
    {
      HeaderCaptions(columns, columnVisibility)
    }

    /** The body: one row per lead on the current page, one cell per visible
        column in column order. */
    function Rows(): (r: seq<seq<CellContent>>)
      reads this
      requires Valid()
      ensures |r| == |CurrentPosts()|
      ensures forall i :: 0 <= i < |r| ==> |r[i]| == |VisibleColumns(columns, columnVisibility)|
      ensures forall i, k :: 0 <= i < |r| && 0 <= k < |r[i]| ==>
        r[i][k] == CellText(VisibleColumns(columns, columnVisibility)[k], CurrentPosts()[i])
    {
      var posts, cols, visibility := CurrentPosts(), columns, columnVisibility;
      seq(|posts|, i requires 0 <= i < |posts| => RowCells(cols, visibility, posts[i]))
    }

    /** `<LeadChart leadsData={leads} />`: the chart gets the whole list. */
    function Chart(): (r: LeadChart.ChartData)
      reads this
      ensures |r.labels| == |leads| && |r.datasets| == 1 && |r.datasets[0].data| == |leads|
    {
      LeadChart.ChartDataOf(leads)
    }
  }

  /** Two hovers of one continuous drag, first over j and then, after the
      re-render that applies the first move, over k, leave the columns as one
      move from the dragged column's start i to k would. */
  method DragOverTwo(table: LeadsTable, item: DragItem, j: nat, k: nat)
    requires table.Valid()
    requires 0 <= item.index < |table.columns| && j < |table.columns| && k < |table.columns|
    modifies table, item
    ensures table.Valid()
    ensures item.index == k
    ensures table.columns == Moved(old(table.columns), old(item.index), k)
    ensures table.leads == old(table.leads) && table.columnVisibility == old(table.columnVisibility)
    ensures table.currentPage == old(table.currentPage) && table.totalPosts == old(table.totalPosts)
  {
    ghost var start, i := table.columns, item.index;
    table.Hover(item, j);
    table.Hover(item, k);
    MovedCompose(start, i, j, k);
  }
}
