/** What one table row and the header row show: the visible columns in the
    current column order, and the text rule for a single cell. */
module TableCells {
  import opened JsValues
  import opened ColumnOrder
  import opened Visibility

  const DealStatusId := "deal_status"
  const ConvertedText := "Converted to Deal"
  const NotConvertedText := "Not Converted to Deal"
  const MissingText := "N/A"

  /** A cell shows either fixed text or the lead's own value. */
  datatype CellContent = Text(text: string) | Value(value: JsValue)

  /** The cell of `lead` under `column`. The status column compares strictly
      with the number 1; any other column falls back to "N/A" on a falsy
      value. */
  function CellText(column: Column, lead: Lead): (r: CellContent)
    ensures column.id == DealStatusId ==>
      (r == Text(ConvertedText) || r == Text(NotConvertedText)) &&
      (r == Text(ConvertedText) <==> Field(lead, DealStatusId) == Num(1))
    ensures column.id != DealStatusId ==>
      (r == Text(MissingText) <==> Falsy(Field(lead, column.id))) &&
      (r != Text(MissingText) ==> r == Value(Field(lead, column.id)))
  {
    if column.id == DealStatusId then
      if Field(lead, DealStatusId) == Num(1) then Text(ConvertedText) else Text(NotConvertedText)
    else
      var v := Field(lead, column.id);
      if Falsy(v) then Text(MissingText) else Value(v)
  }

  /** The columns a row renders, in column order. */
  function VisibleColumns(columns: seq<Column>, visibility: VisibilityMap): (r: seq<Column>)
    ensures |r| <= |columns|
    ensures forall c :: c in r <==> c in columns && IsVisible(visibility, c.id)
  {
    if columns == [] then []
    else
      (if IsVisible(visibility, columns[0].id) then [columns[0]] else [])
      + VisibleColumns(columns[1..], visibility)
  }

  /** Hiding preserves order: the visible part of a concatenation is the
      concatenation of the visible parts. */
  lemma {:induction false} VisibleColumnsAppend(a: seq<Column>, b: seq<Column>, visibility: VisibilityMap)
    ensures VisibleColumns(a + b, visibility) == VisibleColumns(a, visibility) + VisibleColumns(b, visibility)
  {
    if a == [] {
      assert a + b == b;
    } else {
      assert (a + b)[1..] == a[1..] + b;
      VisibleColumnsAppend(a[1..], b, visibility);
    }
  }

  /** With every column shown, a row shows every column in order. */
  lemma {:induction false} AllVisible(columns: seq<Column>, visibility: VisibilityMap)
    requires forall c :: c in columns ==> IsVisible(visibility, c.id)
    ensures VisibleColumns(columns, visibility) == columns
  {
    if columns != [] {
      AllVisible(columns[1..], visibility);
    }
  }

  /** Under the initial map every column is shown. */
  lemma InitiallyAllVisible(columns: seq<Column>)
    ensures VisibleColumns(columns, InitialVisibility(columns)) == columns
  {
    AllVisible(columns, InitialVisibility(columns));
  }

  /** The header row: one caption per visible column. */
  function HeaderCaptions(columns: seq<Column>, visibility: VisibilityMap): (r: seq<string>)
    ensures |r| == |VisibleColumns(columns, visibility)|
    ensures forall k :: 0 <= k < |r| ==> r[k] == VisibleColumns(columns, visibility)[k].caption
  {
    if columns == [] then []
    else
      var shown := IsVisible(visibility, columns[0].id);
      var rest := HeaderCaptions(columns[1..], visibility);
      assert VisibleColumns(columns, visibility)
        == (if shown then [columns[0]] else []) + VisibleColumns(columns[1..], visibility);
      (if shown then [columns[0].caption] else []) + rest
  }

  /** One body row: a cell per visible column. */
  function RowCells(columns: seq<Column>, visibility: VisibilityMap, lead: Lead): (r: seq<CellContent>)
    ensures |r| == |VisibleColumns(columns, visibility)|
    ensures forall k :: 0 <= k < |r| ==> r[k] == CellText(VisibleColumns(columns, visibility)[k], lead)
  {
    if columns == [] then []
    else
      var shown := IsVisible(visibility, columns[0].id);
      var rest := RowCells(columns[1..], visibility, lead);
      assert VisibleColumns(columns, visibility)
        == (if shown then [columns[0]] else []) + VisibleColumns(columns[1..], visibility);
      (if shown then [CellText(columns[0], lead)] else []) + rest
  }
}
