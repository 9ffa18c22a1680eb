/** The table's ordered column list and the drag-to-reorder move on it. */
module ColumnOrder {

  /** One displayable field: `id` names the lead field, `caption` is the
      header text (the source calls it `label`, a keyword here). */
  datatype Column = Column(id: string, caption: string)

  function Ids(columns: seq<Column>): set<string> {
    set c | c in columns :: c.id
  }

  /** Column identity is the id: no two positions share one. */
  predicate DistinctIds(columns: seq<Column>) {
    forall p, q :: 0 <= p < q < |columns| ==> columns[p].id != columns[q].id
  }

  /** `splice(i, 1)` on a copy: the list without position i. */
  function Remove(s: seq<Column>, i: nat): (r: seq<Column>)
    requires i < |s|
    ensures |r| == |s| - 1
    ensures forall k :: 0 <= k < i ==> r[k] == s[k]
    ensures forall k :: i <= k < |r| ==> r[k] == s[k + 1]
  {
    s[..i] + s[i + 1..]
  }

  /** `splice(i, 0, x)`: x inserted so that it lands at position i. */
  function Insert(s: seq<Column>, i: nat, x: Column): (r: seq<Column>)
    requires i <= |s|
    ensures |r| == |s| + 1 && r[i] == x
    ensures forall k :: 0 <= k < i ==> r[k] == s[k]
    ensures forall k :: i < k < |r| ==> r[k] == s[k - 1]
  {
    s[..i] + [x] + s[i..]
  }

  /** Inserting an element and taking it out again gives back the list. */
  lemma RemoveInsert(s: seq<Column>, i: nat, x: Column)
    requires i <= |s|
    ensures Remove(Insert(s, i, x), i) == s
  {
  }

  /** Taking an element out and putting it back where it was gives back the list. */
  lemma InsertRemove(s: seq<Column>, i: nat)
    requires i < |s|
    ensures Insert(Remove(s, i), i, s[i]) == s
  {
  }

  /** The column order after dragging the column at `from` to `to`: the
      same length, the dragged column at `to`, and taking it out again leaves
      the other columns in their old relative order. */
  function Moved(columns: seq<Column>, from: nat, to: nat): (r: seq<Column>)
    requires from < |columns| && to < |columns|
    ensures |r| == |columns| && r[to] == columns[from]
    ensures Remove(r, to) == Remove(columns, from)
  {
    RemoveInsert(Remove(columns, from), to, columns[from]);
    Insert(Remove(columns, from), to, columns[from])
  }

  /** The move is a permutation: the multiset of columns is unchanged. */
  lemma {:induction false} MovedPermutes(columns: seq<Column>, from: nat, to: nat)
    requires from < |columns| && to < |columns|
    ensures multiset(Moved(columns, from, to)) == multiset(columns)
  {
    var rest, x := Remove(columns, from), columns[from];
    assert columns == columns[..from] + [x] + columns[from + 1..];
    assert rest == rest[..to] + rest[to..];
    calc {
      multiset(Moved(columns, from, to));
      multiset(rest[..to] + [x] + rest[to..]);
      multiset(rest[..to]) + multiset{x} + multiset(rest[to..]);
      multiset(rest) + multiset{x};
      multiset(columns[..from]) + multiset(columns[from + 1..]) + multiset{x};
      multiset(columns);
    }
  }

  /** Hovering a column over its own slot changes nothing. */
  lemma MovedToSelf(columns: seq<Column>, i: nat)
    requires i < |columns|
    ensures Moved(columns, i, i) == columns
  {
    InsertRemove(columns, i);
  }

  /** Two successive hovers of one drag, from i to j and then on from j to k,
      leave the same order as a single move from i to k. */
  lemma {:induction false} MovedCompose(columns: seq<Column>, i: nat, j: nat, k: nat)
    requires i < |columns| && j < |columns| && k < |columns|
    ensures Moved(Moved(columns, i, j), j, k) == Moved(columns, i, k)
  {
  }

  /** Dragging back to where the column came from restores the order. */
  lemma MovedBack(columns: seq<Column>, i: nat, j: nat)
    requires i < |columns| && j < |columns|
    ensures Moved(Moved(columns, i, j), j, i) == columns
  {
    MovedCompose(columns, i, j, i);
    MovedToSelf(columns, i);
  }

  /** Taking a column out keeps the remaining ids distinct, and none of them
      is the removed column's id. */
  lemma RemoveKeepsDistinct(s: seq<Column>, i: nat)
    requires i < |s| && DistinctIds(s)
    ensures DistinctIds(Remove(s, i))
    ensures forall k :: 0 <= k < |s| - 1 ==> Remove(s, i)[k].id != s[i].id
  {
    var r := Remove(s, i);
    forall p, q | 0 <= p < q < |r| ensures r[p].id != r[q].id {
      var p', q' := if p < i then p else p + 1, if q < i then q else q + 1;
      assert r[p] == s[p'] && r[q] == s[q'];
    }
    forall k | 0 <= k < |r| ensures r[k].id != s[i].id {
      var k' := if k < i then k else k + 1;
      assert r[k] == s[k'];
    }
  }

  /** Inserting a column whose id is new keeps the ids distinct. */
  lemma InsertKeepsDistinct(s: seq<Column>, i: nat, x: Column)
    requires i <= |s| && DistinctIds(s)
    requires forall k :: 0 <= k < |s| ==> s[k].id != x.id
    ensures DistinctIds(Insert(s, i, x))
  {
    var r := Insert(s, i, x);
    forall p, q | 0 <= p < q < |r| ensures r[p].id != r[q].id {
      if p != i && q != i {
        var p', q' := if p < i then p else p - 1, if q < i then q else q - 1;
        assert r[p] == s[p'] && r[q] == s[q'];
      } else if p == i {
        assert r[q] == s[q - 1];
      } else {
        assert r[p] == s[p];
      }
    }
  }

  /** Lists with the same members have the same ids. */
  lemma SameMembersSameIds(a: seq<Column>, b: seq<Column>)
    requires forall c :: c in a <==> c in b
    ensures Ids(a) == Ids(b)
  {
  }

  /** A move keeps the set of ids and their distinctness. */
  lemma {:induction false} MovedKeepsIds(columns: seq<Column>, from: nat, to: nat)
    requires from < |columns| && to < |columns|
    ensures Ids(Moved(columns, from, to)) == Ids(columns)
    ensures DistinctIds(columns) ==> DistinctIds(Moved(columns, from, to))
  {
    var m := Moved(columns, from, to);
    MovedPermutes(columns, from, to);
    forall c ensures c in m <==> c in columns {
      assert c in m <==> c in multiset(m);
      assert c in columns <==> c in multiset(columns);
    }
    SameMembersSameIds(m, columns);
    if DistinctIds(columns) {
      RemoveKeepsDistinct(columns, from);
      InsertKeepsDistinct(Remove(columns, from), to, columns[from]);
    }
  }
}
