# Leads table and chart — a verified model

The page shows a table of sales leads that it fetches once when it mounts.
The table has five rows per page, with Prev and Next buttons and one button
per page. Its columns can be reordered by dragging a header and hidden from a
settings panel. Under the table, a bar chart is built from the same lead list.

This project models the logic in `app/page.js` and `app/LeadChart.jsx`:

- `JsValues` holds the JavaScript semantics the page relies on:
  - the JSON values a lead field can hold, and which of them are falsy;
  - reading a field that is missing, which gives `undefined`;
  - `Array.prototype.slice`, including how it normalises out-of-range and negative bounds;
  - the decimal text a number gets inside a template literal.
- `ColumnOrder` holds the `{id, label}` columns and the two-`splice` move
  behind `moveColumn`. `label` is a Dafny keyword, so the field is named `caption`.
- `Pagination` covers:
  - the current page's slice, with a fixed page size of 5;
  - the page-button count `ceil(totalPosts / 5)`;
  - when Prev and Next are disabled.
- `Visibility` covers the initial all-visible map, built by `reduce`, and the
  spread-based toggle.
- `TableCells` covers:
  - the text rule for a single cell: the `deal_status` column shows "Converted to Deal" only when the value is strictly the number 1, and any other column shows its value or "N/A" when the value is falsy;
  - the header row and the body rows, which list the visible columns in the current order.
- `LeadsPage` holds the component state as the class `LeadsTable`:
  - the fields are `leads`, `columns`, `columnVisibility`, `currentPage` and `totalPosts`;
  - its methods are the event handlers: the fetch result assignment, `moveColumn`, the header's hover rule, the visibility toggle, `paginate`, and the Prev, Next and numbered buttons;
  - `DragItem` is the object react-dnd carries during a drag. The hover handler updates its `index` in place.
- `LeadChart` models `chartData`. It gives one label and one bar per lead.
  Label k reads `"25k+1 - 25k+25"`, and bar k is lead k's own `deal_status`.
  The chart title says "for Every 25 Leads", and the code comment on the
  values says "deals won for each group", but the code performs no grouping.
  This model follows the code, and `ChartOfAppend` states that the bars are
  per lead.

## Model

| member | source | states |
|---|---|---|
| `JsValues.Falsy` | app/page.js:187 | the values `lead[column.id] \|\| "N/A"` replaces are exactly `undefined`, `null`, `false`, `0` and the empty string |
| `JsValues.SliceBound` | app/page.js:96 | a `slice` bound never exceeds the length; a non-negative bound is truncated to the length, and a negative one counts back from the end, stopping at 0 |
| `JsValues.Slice` | app/page.js:96 | `slice` never yields more than the list; with `0 <= begin <= end` it is the list between the two bounds, each truncated to the length; with `0 <= end <= begin` it is empty |
| `JsValues.NatToString` | app/LeadChart.jsx:28 | a number's text is a non-empty string of decimal digits with no leading zero |
| `JsValues.NatToStringValue` | app/LeadChart.jsx:28 | reading the digits back gives the number, so the text loses nothing |
| `JsValues.CanonicalDigits` | app/LeadChart.jsx:28 | a digit string without a leading zero is the decimal text of the number it reads back as, so a template literal's rendering is the only such string |
| `JsValues.NatToStringInjective` | app/LeadChart.jsx:28 | different numbers get different texts |
| `ColumnOrder.Remove` | app/page.js:88 | `splice(i, 1)` gives a list one shorter, in which the columns after i move up by one and the others keep their positions |
| `ColumnOrder.Insert` | app/page.js:89 | `splice(i, 0, x)` puts x at position i, and the columns from i on move down by one |
| `ColumnOrder.RemoveInsert` | app/page.js:88-89 | removing what was just inserted at the same index restores the list |
| `ColumnOrder.InsertRemove` | app/page.js:88-89 | putting a removed column back at its old index restores the list |
| `ColumnOrder.Moved` | app/page.js:86-91 | after a move the length is unchanged, the moved column is at `toIndex`, and taking it out again leaves the other columns in their old relative order |
| `ColumnOrder.MovedPermutes` | app/page.js:86-91 | a move is a permutation: the multiset of columns is unchanged |
| `ColumnOrder.MovedToSelf` | app/page.js:88-89 | moving a column from i to i leaves the order unchanged |
| `ColumnOrder.MovedCompose` | app/page.js:19-24 | two successive moves of one dragged column, from i to j and then from j to k, give the same order as one move from i to k |
| `ColumnOrder.MovedBack` | app/page.js:86-91 | moving a column back to its old index undoes the move |
| `ColumnOrder.RemoveKeepsDistinct` | app/page.js:88 | `splice(i, 1)` on a list with distinct ids leaves distinct ids, none of them the removed column's |
| `ColumnOrder.InsertKeepsDistinct` | app/page.js:89 | `splice(i, 0, x)` with an id not yet in the list keeps the ids distinct |
| `ColumnOrder.MovedKeepsIds` | app/page.js:86-91 | a move keeps the set of column ids, and keeps them distinct |
| `Pagination.PageInRange` | app/page.js:213 | a page has a button exactly when it is 1 or more and its first index `(p-1)*5` still holds a lead |
| `Pagination.PrevDisabled` | app/page.js:204 | from a page that has a button, Prev is disabled exactly when the page before it has none |
| `Pagination.NextDisabled` | app/page.js:233 | Next is disabled exactly on the page that holds the last lead (page 0 when there are none); from a page that has a button, it is disabled exactly when the page after it has none |
| `Pagination.PageSlice` | app/page.js:94-96 | the current page holds at most 5 leads; for a page p >= 1 it is `leads[(p-1)*5 .. p*5]`, with both bounds truncated to the list length |
| `Pagination.PageCount` | app/page.js:213 | the page count is the least r with `totalPosts <= 5r`, that is `ceil(totalPosts / 5)` |
| `Pagination.PagesPrefix` | app/page.js:94-96 | concatenating pages 1..c gives the first `min(5c, n)` leads |
| `Pagination.PagesRebuildLeads` | app/page.js:94-96 | concatenating every page that has a button rebuilds the lead list exactly |
| `Pagination.PageSliceOccupancy` | app/page.js:94-96 | a page p >= 1 is non-empty exactly when it has a button, and every page before the last is full |
| `Pagination.NavigationInRange` | app/page.js:199-233 | from a page in range, enabled Prev and Next buttons and every numbered button lead to a page in range |
| `Pagination.TwelveLeads` | app/page.js:94-96 | twelve leads give three pages: page 1 is leads 1-5 and page 3 is leads 11-12 |
| `Visibility.IsVisible` | app/page.js:162 | a column is shown exactly when `columnVisibility[column.id]` is truthy, where a missing key reads as `undefined` |
| `Visibility.InitialVisibility` | app/page.js:55-60 | the initial map's keys are exactly the column ids, and every key maps to true |
| `Visibility.Toggle` | app/page.js:102-107 | a toggle flips the given id's visibility, adds it as a key if it was missing, and leaves every other key unchanged |
| `Visibility.ToggleTwice` | app/page.js:102-107 | toggling a known id twice restores the map |
| `Visibility.ToggleTwiceUnknown` | app/page.js:102-107 | toggling an unknown id twice leaves a stray `false` entry, so the map is not restored |
| `TableCells.CellText` | app/page.js:183-187 | a `deal_status` cell reads "Converted to Deal" iff the value is strictly the number 1, and "Not Converted to Deal" otherwise; any other cell reads "N/A" iff its value is falsy, and otherwise shows the value |
| `TableCells.VisibleColumns` | app/page.js:170-172 | a row's columns are exactly the visible columns of the column list, and no more of them than there are columns |
| `TableCells.VisibleColumnsAppend` | app/page.js:170-172 | hiding columns keeps the column order: filtering a concatenation gives the concatenation of the filtered parts |
| `TableCells.AllVisible` | app/page.js:170-172 | when every column is visible, a row shows every column in order |
| `TableCells.InitiallyAllVisible` | app/page.js:55-60 | under the initial map, every column is shown, in order |
| `TableCells.HeaderCaptions` | app/page.js:156-164 | the header has one caption per visible column, in column order |
| `TableCells.RowCells` | app/page.js:170-190 | a row has exactly one cell per visible column, in column order, and each cell follows the cell text rule |
| `LeadChart.RangeLabel` | app/LeadChart.jsx:28 | label k is a digit string without a leading zero that reads back as 25k+1, then " - ", then a digit string without a leading zero that reads back as 25k+25 |
| `LeadChart.RangeTextIsTemplate` | app/LeadChart.jsx:28 | any string of that shape is exactly the template literal's text `${lo} - ${hi}`, so the label's contract fixes it character for character |
| `LeadChart.ChartDataOf` | app/LeadChart.jsx:26-39 | there is one label per lead and one dataset; label k is the range text for k, and bar k is lead k's own `deal_status` |
| `LeadChart.FirstRangeLabel` | app/LeadChart.jsx:27-29 | label 0 is "1 - 25" |
| `LeadChart.SecondRangeLabel` | app/LeadChart.jsx:27-29 | label 1 is "26 - 50" |
| `LeadChart.RangeLabelsDistinct` | app/LeadChart.jsx:27-29 | different positions get different labels |
| `LeadChart.ChartOfAppend` | app/LeadChart.jsx:27-33 | bars are per lead: the chart of a concatenation has the bars of the first part followed by those of the second, and its first labels are the first part's labels |
| `LeadChart.EmptyChart` | app/LeadChart.jsx:27-33 | an empty lead list gives no labels and no bars |
| `LeadsPage.DefaultColumnsDistinct` | app/page.js:42-54 | the eleven default column ids are distinct |
| `LeadsPage.DragItem.constructor` | app/page.js:14 | a drag item starts out tracking the index of the header it was picked up from |
| `LeadsPage.LeadsTable.constructor` | app/page.js:41-63 | the initial state has no leads, a post count of 0 and page 1; the columns are the defaults, and every column id is a key of the visibility map that maps to true |
| `LeadsPage.LeadsTable.TableShown` | app/page.js:109 | the table is shown instead of "Loading..." exactly when there is at least one page button |
| `LeadsPage.LeadsTable.OnFetchSettled` | app/page.js:75-78 | a failed fetch changes nothing; a successful one sets `leads` to the body's `data`, or to `[]` when it is absent, and sets `totalPosts` to the list length; if this happens on page 1 and there are leads, the page is in range |
| `LeadsPage.LeadsTable.MoveColumn` | app/page.js:86-91 | the new column order is the move of the old one: a permutation, with the moved column at `toIndex` and the others in their old relative order; the set of column ids is unchanged, and no other state changes |
| `LeadsPage.LeadsTable.Hover` | app/page.js:19-24 | the columns are moved only when the tracked index differs from the target, and afterwards the tracked index is the target, so a second hover on the same header changes nothing; the set of column ids is unchanged |
| `LeadsPage.DragOverTwo` | app/page.js:19-24 | hovering over two headers in one drag, with a render between the two hovers, gives the same order as one move from where the drag started to the last header; the leads, the visibility map, the page and the post count are unchanged |
| `LeadsPage.LeadsTable.ToggleColumnVisibility` | app/page.js:102-107 | only the given column's visibility flips; for a column that exists, the set of keys is unchanged |
| `LeadsPage.LeadsTable.Paginate` | app/page.js:99 | the page is set to the given number without clamping, and nothing else changes |
| `LeadsPage.LeadsTable.ClickPrev` | app/page.js:199-207 | Prev does nothing on page 1 and otherwise goes back one page, and it keeps an in-range page in range |
| `LeadsPage.LeadsTable.ClickNext` | app/page.js:226-236 | Next does nothing on the last page and otherwise goes forward one page, and it keeps an in-range page in range |
| `LeadsPage.LeadsTable.ClickPageButton` | app/page.js:213-223 | the button at index i goes to page i+1, which is in range |
| `LeadsPage.LeadsTable.CurrentPosts` | app/page.js:94-96 | the rows shown are at most 5 leads, at least one when the page is in range, and they are the leads between the page's bounds |
| `LeadsPage.LeadsTable.Header` | app/page.js:154-165 | the header shows the captions of the visible columns, in column order |
| `LeadsPage.LeadsTable.Rows` | app/page.js:167-193 | the body has one row per lead on the current page; each row has one cell per visible column, and each cell follows the cell text rule for that lead |
| `LeadsPage.LeadsTable.Chart` | app/page.js:239 | the chart is built from the whole lead list, not the current page: it has one label and one bar per lead |

## Left out

- The `fetch` request is not modelled: the network call, `response.ok`, `json()` and the `console.error` report are I/O. A fetch is modelled only by its settled outcome, as the argument of `OnFetchSettled`.
- A fetch that resolves after the component has unmounted is not modelled, because it is asynchronous and lifecycle behaviour.
- The react-dnd wiring is not modelled, because it is library internals: `DndProvider`, `HTML5Backend` and the `useDrag`/`useDrop` refs. Only the hover rule and the drag item's tracked index are modelled.
- JSX markup, CSS class strings (including the green and red style of the status cell), the settings image, and the `modalOpen` flag that shows the settings panel are not modelled, because they are presentation.
- The "Loading..." early return is recorded only as the predicate `TableShown` (there is at least one lead). The navigation methods require it, because their buttons exist only when the table is shown.
- Event handlers are modelled as running one at a time, each against the state of the last render, with its state updates applied before the next handler runs. React applies `setColumns` only at the next render, while `item.index` changes at once. So two hovers that arrive before a re-render make the second `moveColumn` read a stale `columns`; that interleaving is not modelled by `LeadsPage.LeadsTable.Hover` or `LeadsPage.DragOverTwo`.
- The chart.js registration, colours and `options` are not modelled, because they are configuration of a foreign library.
- Numbers are modelled as integers. Floating point and `NaN` are not modelled, so `Falsy` does not include `NaN`.
- Field values are modelled as JSON scalars. How React renders a value in a cell (for example that `true` renders as nothing) is not modelled: a cell carries the value itself.
- A fetched `data` field that is present but not an array is not modelled. `data.data` is taken to be a list of leads or absent.
- `LeadsPage.LeadsTable.ClickPrev`, `LeadsPage.LeadsTable.ClickNext`, `LeadsPage.LeadsTable.ClickPageButton`: a click on a disabled button does nothing, because the browser dispatches no click for it. These methods model the click as the handler guarded by the disabled condition.
- `LeadsPage.LeadsTable.Chart`: states only the shape of the chart data. `LeadChart.ChartDataOf` states its content.
