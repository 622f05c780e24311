/**
 * The category list kept by the real-time category feed: how a category card is
 * built from a changed document (with its defaults), how one batch of document
 * changes is merged into the previous list (keyed by id), and the stable sort by
 * `row` that the feed applies to the merged list.
 */
module Categories {
  import opened Wrappers
  import opened JsText

  /** The fields of a category document the feed reads; an `undefined` field is `None`. */
  datatype CategoryDoc = CategoryDoc(
    title: string,
    amount: string,
    icon: Option<string>,
    color: Option<string>,
    row: Option<string>,     // the field's value converted to text
    isVisible: Option<bool>)

  /** A category card of the list (its rendered icon element is not modelled, its icon name is). */
  datatype CategoryCard = CategoryCard(
    id: string,
    title: string,
    amount: string,
    iconName: Option<string>,
    color: string,
    row: int,
    isVisible: bool)

  const DefaultColor: string := "bg-emerald-500"

  /** The row of a document: its text parsed as an integer, or 1 when parsing gives NaN or zero. */
  function RowOf(row: Option<string>): (r: int)
    ensures r != 0
    ensures row == None ==> r == 1
  {
    var text := if row.Some? then row.value else "undefined";
    match ParseInt(text)
    case None => 1
    case Some(n) => if n == 0 then 1 else n
  }

  /** A `row` stored as the number `n` reads as `n`, except that 0 reads as 1. */
  lemma RowOfNumber(n: int)
    ensures RowOf(Some(IntText(n))) == if n == 0 then 1 else n
  {
    ParseIntOfIntText(n);
  }

  /** The card for document `id` with contents `data`, with the feed's defaults filled in. */
  function BuildCard(id: string, data: CategoryDoc): (c: CategoryCard)
    ensures c.id == id && c.title == data.title && c.amount == data.amount && c.iconName == data.icon
    ensures c.color != "" && c.row != 0 && c.row == RowOf(data.row)
    ensures data.color.Some? && data.color.value != "" ==> c.color == data.color.value
    ensures !(data.color.Some? && data.color.value != "") ==> c.color == DefaultColor
    ensures data.isVisible.Some? ==> c.isVisible == data.isVisible.value
    ensures data.isVisible == None ==> c.isVisible
  {
    CategoryCard(
      id, data.title, data.amount, data.icon,
      if data.color.Some? && data.color.value != "" then data.color.value else DefaultColor,
      RowOf(data.row),
      if data.isVisible.Some? then data.isVisible.value else true)
  }

  // ---------------------------------------------------------------- ids

  /** The ids present in `list`. */
  function Ids(list: seq<CategoryCard>): set<string> {
    set i | 0 <= i < |list| :: list[i].id
  }

  /** No id occurs twice in `list`. */
  predicate UniqueIds(list: seq<CategoryCard>) {
    forall i, j :: 0 <= i < j < |list| ==> list[i].id != list[j].id
  }

  /** The first position of a card with id `id`, or -1 when there is none. */
  function FindIndex(list: seq<CategoryCard>, id: string): (i: int)
    ensures -1 <= i < |list|
    ensures i == -1 <==> id !in Ids(list)
    ensures i >= 0 ==> list[i].id == id && forall j :: 0 <= j < i ==> list[j].id != id
  {
    if list == [] then -1
    else if list[0].id == id then 0
    else
      var k := FindIndex(list[1..], id);
      assert Ids(list) == {list[0].id} + Ids(list[1..]) by {
        assert forall j :: 0 < j < |list| ==> list[j] == list[1..][j - 1];
      }
      if k == -1 then -1 else k + 1
  }

  // ---------------------------------------------------------------- merging a batch of changes

  datatype ChangeKind = Added | Modified | Removed

  /** One entry of `snapshot.docChanges()`. */
  datatype DocChange = DocChange(kind: ChangeKind, id: string, data: CategoryDoc)

  /**
   * One change applied to the list, and whether it changed anything: an addition
   * appends a card for an unknown id, a modification replaces the card with that id
   * when it differs, a removal splices the card with that id out; anything else is ignored.
   */
  function Step(list: seq<CategoryCard>, change: DocChange): (seq<CategoryCard>, bool) {
    var card := BuildCard(change.id, change.data);
    var index := FindIndex(list, card.id);
    if change.kind == Added && index == -1 then (list + [card], true)
    else if change.kind == Modified && index != -1 then
      if list[index] != card then (list[index := card], true) else (list, false)
    else if change.kind == Removed && index != -1 then (list[..index] + list[index + 1..], true)
    else (list, false)
  }

  /** All changes of a batch applied in order, and whether any of them changed something. */
  function Merge(list: seq<CategoryCard>, changes: seq<DocChange>): (seq<CategoryCard>, bool)
    decreases |changes|
  {
    if changes == [] then (list, false)
    else
      var (before, changedBefore) := Merge(list, changes[..|changes| - 1]);
      var (after, changedLast) := Step(before, changes[|changes| - 1]);
      (after, changedBefore || changedLast)
  }

  /** Merging the first `i + 1` changes is merging the first `i`, then applying change `i`. */
  lemma MergePrefix(list: seq<CategoryCard>, changes: seq<DocChange>, i: nat)
    requires i < |changes|
    ensures var (before, changedBefore) := Merge(list, changes[..i]);
      Merge(list, changes[..i + 1]) == (Step(before, changes[i]).0, changedBefore || Step(before, changes[i]).1)
  {
    assert changes[..i + 1][..i] == changes[..i];
  }

  /** The ids named by changes of kind `kind`. */
  function IdsOfKind(changes: seq<DocChange>, kind: ChangeKind): set<string> {
    set i | 0 <= i < |changes| && changes[i].kind == kind :: changes[i].id
  }

  /** The ids named by any change. */
  function NamedIds(changes: seq<DocChange>): set<string> {
    set i | 0 <= i < |changes| :: changes[i].id
  }

  // ---------------------------------------------------------------- sorting by row

  /** Non-decreasing by `row`. */
  predicate SortedByRow(list: seq<CategoryCard>) {
    forall i, j :: 0 <= i < j < |list| ==> list[i].row <= list[j].row
  }

  /** The cards of `list` whose row is `row`, in their order in `list`. */
  function WithRow(list: seq<CategoryCard>, row: int): seq<CategoryCard> {
    if list == [] then []
    else (if list[0].row == row then [list[0]] else []) + WithRow(list[1..], row)
  }

  /** Insert `c` into `sorted` before the first card whose row is not smaller. */
  function InsertByRow(c: CategoryCard, sorted: seq<CategoryCard>): seq<CategoryCard> {
    if sorted == [] || c.row <= sorted[0].row then [c] + sorted
    else [sorted[0]] + InsertByRow(c, sorted[1..])
  }

  /**
   * A stable sort of a copy of `list` by ascending row. (The comparator falls back
   * to 0 for a falsy row, but a card's row is never 0, so the key is the row itself.)
   */
  function SortByRow(list: seq<CategoryCard>): seq<CategoryCard> {
    if list == [] then [] else InsertByRow(list[0], SortByRow(list[1..]))
  }

  // ---------------------------------------------------------------- facts about ids

  lemma IdsCons(c: CategoryCard, list: seq<CategoryCard>)
    ensures Ids([c] + list) == {c.id} + Ids(list)
    ensures UniqueIds([c] + list) <==> c.id !in Ids(list) && UniqueIds(list)
  {
    var l := [c] + list;
    assert forall j :: 0 < j < |l| ==> l[j] == list[j - 1];
    assert forall j :: 0 <= j < |list| ==> list[j] == l[j + 1];
    forall x | x in Ids(l) ensures x in {c.id} + Ids(list) {
      var j :| 0 <= j < |l| && l[j].id == x;
      if j > 0 { assert list[j - 1].id == x; }
    }
    forall x | x in Ids(list) ensures x in Ids(l) {
      var j :| 0 <= j < |list| && list[j].id == x;
      assert l[j + 1].id == x;
    }
    assert l[0] == c;
  }

  lemma IdsAppend(list: seq<CategoryCard>, c: CategoryCard)
    ensures Ids(list + [c]) == Ids(list) + {c.id}
    ensures UniqueIds(list + [c]) <==> UniqueIds(list) && c.id !in Ids(list)
  {
    var l := list + [c];
    assert forall j :: 0 <= j < |list| ==> l[j] == list[j];
    forall x | x in Ids(l) ensures x in Ids(list) + {c.id} {
      var j :| 0 <= j < |l| && l[j].id == x;
      if j < |list| { assert list[j].id == x; }
    }
    forall x | x in Ids(list) ensures x in Ids(l) {
      var j :| 0 <= j < |list| && list[j].id == x;
      assert l[j].id == x;
    }
    assert l[|list|] == c;
  }

  lemma IdsRemoveAt(list: seq<CategoryCard>, i: nat)
    requires i < |list|
    ensures var l := list[..i] + list[i + 1..];
      && Ids(list) - {list[i].id} <= Ids(l) <= Ids(list)
      && (UniqueIds(list) ==> UniqueIds(l) && Ids(l) == Ids(list) - {list[i].id})
  {
    var l := list[..i] + list[i + 1..];
    assert forall j :: 0 <= j < i ==> l[j] == list[j];
    assert forall j :: i <= j < |l| ==> l[j] == list[j + 1];
    forall x | x in Ids(list) - {list[i].id} ensures x in Ids(l) {
      var j :| 0 <= j < |list| && list[j].id == x;
      if j < i { assert l[j].id == x; } else { assert l[j - 1].id == x; }
    }
    if UniqueIds(list) {
      forall a, b | 0 <= a < b < |l| ensures l[a].id != l[b].id {
        var a' := if a < i then a else a + 1;
        var b' := if b < i then b else b + 1;
        assert l[a] == list[a'] && l[b] == list[b'];
      }
      forall j | 0 <= j < |l| ensures l[j].id != list[i].id {
        var j' := if j < i then j else j + 1;
        assert l[j] == list[j'];
      }
    }
  }

  lemma IdsReplaceAt(list: seq<CategoryCard>, i: nat, c: CategoryCard)
    requires i < |list| && c.id == list[i].id
    ensures Ids(list[i := c]) == Ids(list)
    ensures UniqueIds(list) ==> UniqueIds(list[i := c])
  {
    var l := list[i := c];
    assert forall j :: 0 <= j < |list| ==> l[j].id == list[j].id;
    forall x | x in Ids(list) ensures x in Ids(l) {
      var j :| 0 <= j < |list| && list[j].id == x;
      assert l[j].id == x;
    }
  }

  // ---------------------------------------------------------------- one change

  /** An `added` change appends its card exactly when no card has that id; otherwise it is ignored. */
  lemma StepAdded(list: seq<CategoryCard>, change: DocChange)
    requires change.kind == Added
    ensures var (after, changed) := Step(list, change);
      && (change.id !in Ids(list) ==> after == list + [BuildCard(change.id, change.data)] && changed)
      && (change.id in Ids(list) ==> after == list && !changed)
  {
  }

  /**
   * A `modified` change replaces the first card with its id, and reports a change
   * exactly when the new card differs; for an unknown id it is ignored.
   */
  lemma StepModified(list: seq<CategoryCard>, change: DocChange)
    requires change.kind == Modified
    ensures var (after, changed) := Step(list, change); var card := BuildCard(change.id, change.data);
      && (change.id !in Ids(list) ==> after == list && !changed)
      && forall i :: 0 <= i < |list| && list[i].id == change.id && (forall j :: 0 <= j < i ==> list[j].id != change.id)
           ==> after == list[i := card] && changed == (list[i] != card)
  {
    var index := FindIndex(list, change.id);
    forall i | 0 <= i < |list| && list[i].id == change.id && (forall j :: 0 <= j < i ==> list[j].id != change.id)
      ensures i == index
    {
    }
  }

  /** A `removed` change splices out the first card with its id; for an unknown id it is ignored. */
  lemma StepRemoved(list: seq<CategoryCard>, change: DocChange)
    requires change.kind == Removed
    ensures var (after, changed) := Step(list, change);
      && (change.id !in Ids(list) ==> after == list && !changed)
      && forall i :: 0 <= i < |list| && list[i].id == change.id && (forall j :: 0 <= j < i ==> list[j].id != change.id)
           ==> after == list[..i] + list[i + 1..] && changed
  {
    var index := FindIndex(list, change.id);
    forall i | 0 <= i < |list| && list[i].id == change.id && (forall j :: 0 <= j < i ==> list[j].id != change.id)
      ensures i == index
    {
    }
  }

  /** How one change moves the set of ids, and that it keeps ids unique. */
  lemma StepIds(list: seq<CategoryCard>, change: DocChange)
    ensures var after := Step(list, change).0;
      && (change.kind == Added ==> Ids(after) == Ids(list) + {change.id})
      && (change.kind == Modified ==> Ids(after) == Ids(list))
      && (change.kind == Removed ==> Ids(list) - {change.id} <= Ids(after) <= Ids(list))
      && (UniqueIds(list) ==> UniqueIds(after))
      && (UniqueIds(list) && change.kind == Removed ==> Ids(after) == Ids(list) - {change.id})
  {
    var card := BuildCard(change.id, change.data);
    var index := FindIndex(list, card.id);
    var after := Step(list, change).0;
    if index == -1 {
      assert change.kind == Added ==> after == list + [card];
      assert change.kind != Added ==> after == list;
      IdsAppend(list, card);
    } else if change.kind == Added {
      assert after == list;
    } else if change.kind == Modified {
      assert after == list[index := card] || after == list;
      IdsReplaceAt(list, index, card);
    } else {
      assert after == list[..index] + list[index + 1..];
      IdsRemoveAt(list, index);
    }
  }

  lemma ReplaceKeepsOthers(list: seq<CategoryCard>, i: nat, card: CategoryCard, c: CategoryCard)
    requires i < |list| && c != list[i] && c != card
    ensures c in list[i := card] <==> c in list
  {
    var l := list[i := card];
    if c in list {
      var j :| 0 <= j < |list| && list[j] == c;
      assert l[j] == c;
    }
    if c in l {
      var j :| 0 <= j < |l| && l[j] == c;
      assert list[j] == c;
    }
  }

  lemma RemoveKeepsOthers(list: seq<CategoryCard>, i: nat, c: CategoryCard)
    requires i < |list| && c != list[i]
    ensures c in list[..i] + list[i + 1..] <==> c in list
  {
    assert list == list[..i] + [list[i]] + list[i + 1..];
  }

  /** A change leaves every card whose id it does not name where it was found: present or absent. */
  lemma StepKeepsOthers(list: seq<CategoryCard>, change: DocChange, c: CategoryCard)
    requires c.id != change.id
    ensures c in Step(list, change).0 <==> c in list
  {
    var card := BuildCard(change.id, change.data);
    var index := FindIndex(list, card.id);
    var after := Step(list, change).0;
    if index == -1 {
      assert after == list + [card] || after == list;
    } else if change.kind == Modified {
      assert after == list[index := card] || after == list;
      ReplaceKeepsOthers(list, index, card, c);
    } else if change.kind == Removed {
      assert after == list[..index] + list[index + 1..];
      RemoveKeepsOthers(list, index, c);
    } else {
      assert after == list;
    }
  }

  // ---------------------------------------------------------------- a batch of changes

  lemma IdsOfKindAppend(changes: seq<DocChange>, change: DocChange, kind: ChangeKind)
    ensures IdsOfKind(changes + [change], kind) == IdsOfKind(changes, kind) + (if change.kind == kind then {change.id} else {})
    ensures NamedIds(changes + [change]) == NamedIds(changes) + {change.id}
  {
    var cs := changes + [change];
    assert forall i :: 0 <= i < |changes| ==> cs[i] == changes[i];
    assert cs[|changes|] == change;
  }

  /** A batch that reports no change leaves the list as it was. */
  lemma {:induction false} MergeNoChange(list: seq<CategoryCard>, changes: seq<DocChange>)
    ensures !Merge(list, changes).1 ==> Merge(list, changes).0 == list
    decreases |changes|
  {
    if changes != [] {
      MergeNoChange(list, changes[..|changes| - 1]);
    }
  }

  /** A batch keeps ids unique. */
  lemma {:induction false} MergeKeepsIdsUnique(list: seq<CategoryCard>, changes: seq<DocChange>)
    requires UniqueIds(list)
    ensures UniqueIds(Merge(list, changes).0)
    decreases |changes|
  {
    if changes != [] {
      MergeKeepsIdsUnique(list, changes[..|changes| - 1]);
      StepIds(Merge(list, changes[..|changes| - 1]).0, changes[|changes| - 1]);
    }
  }

  /** A batch adds ids only through `added` changes and drops them only through `removed` changes. */
  lemma {:induction false} MergeIds(list: seq<CategoryCard>, changes: seq<DocChange>)
    ensures Ids(list) - IdsOfKind(changes, Removed) <= Ids(Merge(list, changes).0)
    ensures Ids(Merge(list, changes).0) <= Ids(list) + IdsOfKind(changes, Added)
    decreases |changes|
  {
    if changes != [] {
      var init, last := changes[..|changes| - 1], changes[|changes| - 1];
      assert changes == init + [last];
      MergeIds(list, init);
      StepIds(Merge(list, init).0, last);
      IdsOfKindAppend(init, last, Removed);
      IdsOfKindAppend(init, last, Added);
    }
  }

  /** Cards whose id no change of the batch names survive unchanged, and no such card appears. */
  lemma {:induction false} MergeKeepsUntouched(list: seq<CategoryCard>, changes: seq<DocChange>, c: CategoryCard)
    requires c.id !in NamedIds(changes)
    ensures c in Merge(list, changes).0 <==> c in list
    decreases |changes|
  {
    if changes != [] {
      var init, last := changes[..|changes| - 1], changes[|changes| - 1];
      assert changes == init + [last];
      IdsOfKindAppend(init, last, Added);
      MergeKeepsUntouched(list, init, c);
      StepKeepsOthers(Merge(list, init).0, last, c);
    }
  }

  // ---------------------------------------------------------------- facts about the sort

  lemma {:induction false} InsertByRowPermutes(c: CategoryCard, sorted: seq<CategoryCard>)
    ensures multiset(InsertByRow(c, sorted)) == multiset(sorted) + multiset{c}
  {
    if sorted != [] && c.row > sorted[0].row {
      InsertByRowPermutes(c, sorted[1..]);
      assert sorted == [sorted[0]] + sorted[1..];
    }
  }

  lemma {:induction false} InsertByRowBound(c: CategoryCard, sorted: seq<CategoryCard>, bound: int)
    requires c.row >= bound && forall i :: 0 <= i < |sorted| ==> sorted[i].row >= bound
    ensures forall i :: 0 <= i < |InsertByRow(c, sorted)| ==> InsertByRow(c, sorted)[i].row >= bound
  {
    if sorted != [] && c.row > sorted[0].row {
      InsertByRowBound(c, sorted[1..], bound);
    }
  }

  lemma {:induction false} InsertByRowSorted(c: CategoryCard, sorted: seq<CategoryCard>)
    requires SortedByRow(sorted)
    ensures SortedByRow(InsertByRow(c, sorted))
  {
    if sorted != [] && c.row > sorted[0].row {
      var rest := sorted[1..];
      InsertByRowSorted(c, rest);
      InsertByRowBound(c, rest, sorted[0].row);
      var r := InsertByRow(c, rest);
      assert InsertByRow(c, sorted) == [sorted[0]] + r;
    }
  }

  /** The sort yields a list sorted by row holding the same cards as its input. */
  lemma {:induction false} SortByRowSortsAndPermutes(list: seq<CategoryCard>)
    ensures SortedByRow(SortByRow(list))
    ensures multiset(SortByRow(list)) == multiset(list)
  {
    if list != [] {
      SortByRowSortsAndPermutes(list[1..]);
      InsertByRowSorted(list[0], SortByRow(list[1..]));
      InsertByRowPermutes(list[0], SortByRow(list[1..]));
      assert list == [list[0]] + list[1..];
    }
  }

  lemma {:induction false} InsertByRowWithRow(c: CategoryCard, sorted: seq<CategoryCard>, row: int)
    ensures WithRow(InsertByRow(c, sorted), row) == (if c.row == row then [c] else []) + WithRow(sorted, row)
  {
    var l := InsertByRow(c, sorted);
    if sorted == [] || c.row <= sorted[0].row {
      assert l == [c] + sorted;
      assert l[0] == c && l[1..] == sorted;
    } else {
      var rest := InsertByRow(c, sorted[1..]);
      InsertByRowWithRow(c, sorted[1..], row);
      assert l == [sorted[0]] + rest;
      assert l[0] == sorted[0] && l[1..] == rest;
      assert WithRow(l, row) == (if sorted[0].row == row then [sorted[0]] else []) + WithRow(rest, row);
    }
  }

  /** The sort is stable: the cards of any one row keep their input order. */
  lemma {:induction false} SortByRowStable(list: seq<CategoryCard>, row: int)
    ensures WithRow(SortByRow(list), row) == WithRow(list, row)
  {
    if list != [] {
      SortByRowStable(list[1..], row);
      InsertByRowWithRow(list[0], SortByRow(list[1..]), row);
    }
  }

  lemma {:induction false} InsertByRowIds(c: CategoryCard, sorted: seq<CategoryCard>)
    ensures Ids(InsertByRow(c, sorted)) == Ids(sorted) + {c.id}
    ensures UniqueIds(InsertByRow(c, sorted)) <==> UniqueIds(sorted) && c.id !in Ids(sorted)
  {
    if sorted == [] || c.row <= sorted[0].row {
      IdsCons(c, sorted);
    } else {
      var rest := sorted[1..];
      assert sorted == [sorted[0]] + rest;
      InsertByRowIds(c, rest);
      IdsCons(sorted[0], rest);
      IdsCons(sorted[0], InsertByRow(c, rest));
    }
  }

  /** The sort keeps the set of ids, and keeps them unique. */
  lemma {:induction false} SortByRowIds(list: seq<CategoryCard>)
    ensures Ids(SortByRow(list)) == Ids(list)
    ensures UniqueIds(SortByRow(list)) <==> UniqueIds(list)
  {
    if list != [] {
      SortByRowIds(list[1..]);
      InsertByRowIds(list[0], SortByRow(list[1..]));
      IdsCons(list[0], list[1..]);
      assert list == [list[0]] + list[1..];
    }
  }
}
