/** The column-visibility map: column id to shown/hidden. */
module Visibility {
  import opened JsValues
  import opened ColumnOrder

  type VisibilityMap = map<string, bool>

  /** `columnVisibility[id]` read as a condition: a missing key is undefined,
      hence hidden. */
  predicate IsVisible(visibility: VisibilityMap, id: string)
    ensures IsVisible(visibility, id) <==>
      !Falsy(if id in visibility then Bool(visibility[id]) else Undefined)
  {
    id in visibility && visibility[id]
  }

  /** The initial map, built by `reduce` over the columns: every column id
      maps to true, and nothing else is a key. */
  function InitialVisibility(columns: seq<Column>): (r: VisibilityMap)
    ensures r.Keys == Ids(columns)
    ensures forall id :: id in r ==> r[id]
  {
    if columns == [] then map[]
    else
      var init := columns[..|columns| - 1];
      assert columns == init + [columns[|columns| - 1]];
      InitialVisibility(init)[columns[|columns| - 1].id := true]
  }

  /** `{...prevState, [columnId]: !prevState[columnId]}`. */
  function Toggle(visibility: VisibilityMap, columnId: string): (r: VisibilityMap)
    ensures r.Keys == visibility.Keys + {columnId}
    ensures IsVisible(r, columnId) == !IsVisible(visibility, columnId)
    ensures forall id :: id != columnId && id in visibility ==> r[id] == visibility[id]
  {
    visibility[columnId := !IsVisible(visibility, columnId)]
  }

  /** Toggling a known column twice restores the map. */
  lemma ToggleTwice(visibility: VisibilityMap, columnId: string)
    requires columnId in visibility
    ensures Toggle(Toggle(visibility, columnId), columnId) == visibility
  {
  }

  /** Toggling an unknown id twice does not restore the map: the first toggle
      adds the id as shown, the second leaves a stray hidden entry. */
  lemma ToggleTwiceUnknown(visibility: VisibilityMap, columnId: string)
    requires columnId !in visibility
    ensures Toggle(Toggle(visibility, columnId), columnId) == visibility[columnId := false]
    ensures Toggle(Toggle(visibility, columnId), columnId) != visibility
  {
    assert columnId in Toggle(Toggle(visibility, columnId), columnId);
  }
}
