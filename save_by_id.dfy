/**
 * Saving a figure handed back by the add/edit screen: replace the first
 * figure with the same id in place, or append when there is none.
 */
module SaveById {
  import opened Wrappers
  import opened Figures

  /** `figures.firstIndex(where: { $0.id == id })`. */
  function FirstIndexOf(figs: seq<Figure>, id: FigureId): (r: Option<nat>)
    ensures r.None? <==> !HasId(figs, id)
    ensures r.Some? ==> r.value < |figs| && figs[r.value].id == id
    ensures r.Some? ==> forall j :: 0 <= j < r.value ==> figs[j].id != id
    decreases |figs|
  {
    if figs == [] then None
    else if figs[0].id == id then Some(0)
    else
      match FirstIndexOf(figs[1..], id)
      case None => None
      case Some(k) => Some(k + 1)
  }

  /** Saving never shrinks the list, grows it by at most one, and leaves the saved figure in it. */
  function Upsert(figs: seq<Figure>, f: Figure): (r: seq<Figure>)
    ensures |figs| <= |r| <= |figs| + 1
    ensures f in r && HasId(r, f.id)
  {
    match FirstIndexOf(figs, f.id)
    case Some(i) => assert figs[i := f][i] == f; figs[i := f]
    case None => figs + [f]
  }

  /**
   * A known id: the first figure with that id is replaced at its position;
   * the length and every other position are unchanged.
   */
  lemma UpsertReplacesFirstMatch(figs: seq<Figure>, f: Figure, i: nat)
    requires i < |figs| && figs[i].id == f.id
    requires forall j :: 0 <= j < i ==> figs[j].id != f.id
    ensures |Upsert(figs, f)| == |figs|
    ensures Upsert(figs, f)[i] == f
    ensures forall j :: 0 <= j < |figs| && j != i ==> Upsert(figs, f)[j] == figs[j]
  {
    assert HasId(figs, f.id);
    assert FirstIndexOf(figs, f.id) == Some(i);
  }

  /** An unknown id: the figure is appended, so the list grows by exactly one. */
  lemma UpsertAppendsUnknown(figs: seq<Figure>, f: Figure)
    requires !HasId(figs, f.id)
    ensures Upsert(figs, f) == figs + [f]
    ensures |Upsert(figs, f)| == |figs| + 1
  {
  }

  /** Unique identifiers stay unique after a save. */
  lemma UpsertKeepsUniqueIds(figs: seq<Figure>, f: Figure)
    requires UniqueIds(figs)
    ensures UniqueIds(Upsert(figs, f))
  {
    match FirstIndexOf(figs, f.id)
    case None =>
      AppendFreshKeepsUnique(figs, f);
    case Some(i) =>
      var r := figs[i := f];
      forall a, b | 0 <= a < b < |r|
        ensures r[a].id != r[b].id
      {
        if a == i {
          assert r[a].id == figs[i].id;
        } else if b == i {
          assert r[b].id == figs[i].id;
        }
      }
  }

  /**
   * With a repeated id, saving an edit of the later figure overwrites the
   * earlier one and leaves the edited figure as it was.
   */
  lemma RepeatedIdEditHitsFirst(a: Figure, b: Figure, g: Figure)
    requires a.id == g.id && b.id == g.id
    ensures Upsert([a, b], g) == [g, b]
  {
    assert FirstIndexOf([a, b], g.id) == Some(0);
  }
}
