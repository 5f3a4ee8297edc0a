/**
 * The bulk-delete screen: a toggled set of grid positions and the removal
 * of exactly those positions from the stored list.
 */
module DeleteScreen {
  import opened Wrappers
  import opened Figures
  import opened Persistence
  import opened Selection

  class DeleteFiguresViewController {
    var figures: seq<Figure>
    var selectedIndexes: set<nat>
    const defaults: FigureDefaults

    /**
     * Every selected position names a figure on screen, so each
     * `remove(at:)` of `deleteSelected` stays inside the list.
     */
    ghost predicate Valid()
      reads this
    {
      forall i :: i in selectedIndexes ==> i < |figures|
    }

    /** `viewDidLoad`: nothing selected, then `loadFigures`. */
    constructor (defaults: FigureDefaults)
      ensures this.defaults == defaults
      ensures figures == StoredOrEmpty(defaults.slot)
      ensures selectedIndexes == {}
      ensures Valid()
    {
      this.defaults := defaults;
      figures := [];
      selectedIndexes := {};
      new;
      LoadFigures();
    }

    /** `loadFigures`: take the stored list when it decodes, otherwise keep the current one. */
    method LoadFigures()
      modifies this`figures
      ensures Restore(defaults.slot).Some? ==> figures == Restore(defaults.slot).value
      ensures Restore(defaults.slot).None? ==> figures == old(figures)
    {
      var decoded := Restore(defaults.slot);
      if decoded.Some? {
        figures := decoded.value;
      }
    }

    /**
     * `collectionView(_:didSelectItemAt:)`: toggle the tapped position, which
     * is always one of the items on screen.
     */
    method DidSelectItem(item: nat)
      requires Valid() && item < |figures|
      modifies this`selectedIndexes
      ensures Valid()
      ensures selectedIndexes == Toggle(old(selectedIndexes), item)
    {
      if item in selectedIndexes {
        selectedIndexes := selectedIndexes - {item};
      } else {
        selectedIndexes := selectedIndexes + {item};
      }
    }

    /**
     * `deleteFigure(at:)`: remove one position; the store is not written and
     * the selection is not pruned, so the invariant survives only when every
     * selected position is below the new length.
     */
    method DeleteFigure(item: nat)
      requires item < |figures|
      modifies this`figures
      ensures figures == RemoveAt(old(figures), item)
      ensures figures == Without(old(figures), {item})
      ensures Valid() <==> forall i :: i in selectedIndexes ==> i < |old(figures)| - 1
    {
      RemoveAtIsWithoutSingle(figures, item);
      figures := RemoveAt(figures, item);
    }

    /**
     * `deleteSelected`: with an empty selection nothing happens; otherwise
     * remove the selected positions from the highest down (each `remove(at:)`
     * traps on a position outside the list), store the result, clear the
     * selection and reload.
     */
    method DeleteSelected()
      requires Valid()
      modifies this`figures, this`selectedIndexes, defaults
      ensures Valid()
      ensures old(selectedIndexes) == {} ==>
        figures == old(figures) && selectedIndexes == {} && defaults.slot == old(defaults.slot)
      ensures old(selectedIndexes) != {} ==>
        && figures == Without(old(figures), old(selectedIndexes))
        && |figures| == |old(figures)| - |old(selectedIndexes)|
        && defaults.slot == Some(Encode(figures))
        && selectedIndexes == {}
    {
      var indexes := SortedDescending(selectedIndexes);
      if indexes == [] {
        return;
      }
      WithoutLength(figures, selectedIndexes);
      assert Elements(indexes) == selectedIndexes;
      RemoveAll(indexes);
      defaults.Save(figures);
      selectedIndexes := {};
      LoadFigures();
    }

    /**
     * The loop of `deleteSelected`: `remove(at:)` for each position of
     * `indexes`, highest first, so that no removal shifts a later target.
     */
    method RemoveAll(indexes: seq<nat>)
      requires forall i, j :: 0 <= i < j < |indexes| ==> indexes[i] > indexes[j]
      requires forall i :: 0 <= i < |indexes| ==> indexes[i] < |figures|
      modifies this`figures
      ensures figures == Without(old(figures), Elements(indexes))
    {
      ghost var original := figures;
      ghost var removed: set<nat> := {};
      WithoutNothing(original, removed);
      for k := 0 to |indexes|
        invariant forall x :: x in removed <==> x in indexes[..k]
        invariant figures == Without(original, removed)
      {
        var item := indexes[k];
        EarlierAreLarger(indexes, k);
        RemoveBelowRemoved(original, removed, item);
        figures := RemoveAt(figures, item);
        removed := removed + {item};
        assert indexes[..k + 1] == indexes[..k] + [item];
      }
      assert indexes[..|indexes|] == indexes;
      assert removed == Elements(indexes);
    }
  }
}
