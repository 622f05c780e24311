/**
 * The category feed's state updater: each batch of document changes is merged into
 * the previous list in a loop, and the merged list, sorted by row, replaces the
 * previous one when something changed or when the batch is the first one.
 */
module UseCategories {
  import opened Categories

  /**
   * The callback run for each change: build the card, find its position by id, then
   * push it, assign it at that position, or splice that position out, and note
   * whether anything changed.
   */
  method ApplyChange(list: seq<CategoryCard>, hasChanges: bool, change: DocChange)
    returns (updated: seq<CategoryCard>, hasChangesAfter: bool)
    ensures updated == Step(list, change).0
    ensures hasChangesAfter == (hasChanges || Step(list, change).1)
  {
    updated, hasChangesAfter := list, hasChanges;
    var card := BuildCard(change.id, change.data);
    var index := FindIndex(updated, card.id);
    if change.kind == Added && index == -1 {
      updated := updated + [card];
      hasChangesAfter := true;
    } else if change.kind == Modified && index != -1 {
      if updated[index] != card {
        updated := updated[index := card];
        hasChangesAfter := true;
      }
    } else if change.kind == Removed && index != -1 {
      updated := updated[..index] + updated[index + 1..];
      hasChangesAfter := true;
    }
  }

  /**
   * The body of the state updater: copy the previous list, then run the callback for
   * each change of the batch in order.
   */
  method MergeChanges(prev: seq<CategoryCard>, changes: seq<DocChange>) returns (updated: seq<CategoryCard>, hasChanges: bool)
    ensures (updated, hasChanges) == Merge(prev, changes)
    ensures UniqueIds(prev) ==> UniqueIds(updated)
    ensures !hasChanges ==> updated == prev
  {
    updated := prev;
    hasChanges := false;
    for i := 0 to |changes|
      invariant (updated, hasChanges) == Merge(prev, changes[..i])
    {
      MergePrefix(prev, changes, i);
      updated, hasChanges := ApplyChange(updated, hasChanges, changes[i]);
    }
    assert changes[..|changes|] == changes;
    if UniqueIds(prev) {
      MergeKeepsIdsUnique(prev, changes);
    }
    MergeNoChange(prev, changes);
  }

  /** The state the updater works on: the visible list and the first-batch flag. */
  class CategoryFeed {
    var categories: seq<CategoryCard>
    var initialLoad: bool

    /** The visible list is sorted by row and holds each id once. */
    ghost predicate Valid()
      reads this
    {
      SortedByRow(categories) && UniqueIds(categories)
    }

    /** Before any batch: no categories, and the first batch still to come. */
    constructor ()
      ensures categories == [] && initialLoad
      ensures Valid()
    {
      categories := [];
      initialLoad := true;
    }

    /**
     * One snapshot delivered to the listener: the merged list, sorted by row, becomes
     * visible when the batch changed something or is the first one; otherwise the
     * previous list stays.
     */
    method OnSnapshot(changes: seq<DocChange>)
      requires Valid()
      modifies this
      ensures Valid()
      ensures var (updated, changed) := Merge(old(categories), changes);
        if changed || old(initialLoad) then
          && categories == SortByRow(updated)
          && multiset(categories) == multiset(updated)
          && !initialLoad
        else
          categories == old(categories) && initialLoad == old(initialLoad)
    {
      var updated, hasChanges := MergeChanges(categories, changes);
      if hasChanges || initialLoad {
        initialLoad := false;
        SortByRowSortsAndPermutes(updated);
        SortByRowIds(updated);
        categories := SortByRow(updated);
      }
    }
  }
}
