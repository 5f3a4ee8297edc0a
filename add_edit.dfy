/**
 * The add/edit screen: it validates the form and hands one figure to its
 * delegate, keeping the edited figure's identifier.
 */
module AddEditFigure {
  import opened Wrappers
  import opened Figures
  import opened FigureForm
  import opened SaveById

  /** The navigation title chosen in `viewDidLoad`. */
  function ScreenTitle(figureToEdit: Option<Figure>): (t: string)
    ensures t == "Editar Figura" <==> figureToEdit.Some?
    ensures t == "Agregar Figura" <==> figureToEdit.None?
  {
    if figureToEdit.None? then "Agregar Figura" else "Editar Figura"
  }

  /**
   * `saveFigure`: the figure passed to `delegate?.didSaveFigure`, or `None`
   * when the guard fails and the delegate is not called. `newId` stands for
   * the `UUID()` drawn when no figure is being edited.
   */
  function SavedFigure(figureToEdit: Option<Figure>, title: Option<string>, description: Option<string>,
                       image: Option<Image>, newId: FigureId): (r: Option<Figure>)
    ensures r.Some? <==> Complete(title, description, image)
    ensures r.Some? && figureToEdit.Some? ==> r.value.id == figureToEdit.value.id
    ensures r.Some? && figureToEdit.None? ==> r.value.id == newId
    ensures r.Some? ==> r.value.title == title.value && r.value.description == description.value
    ensures r.Some? ==> r.value.imageData == image.value.jpeg.value
  {
    var id := if figureToEdit.Some? then figureToEdit.value.id else newId;
    BuildFigure(id, title, description, image)
  }

  /**
   * Editing a figure of a list with unique ids and saving it replaces that
   * figure at its own position.
   */
  lemma EditReplacesInPlace(figs: seq<Figure>, i: nat, title: Option<string>, description: Option<string>,
                            image: Option<Image>, newId: FigureId)
    requires UniqueIds(figs) && i < |figs|
    requires SavedFigure(Some(figs[i]), title, description, image, newId).Some?
    ensures var g := SavedFigure(Some(figs[i]), title, description, image, newId).value;
      Upsert(figs, g) == figs[i := g]
  {
    var g := SavedFigure(Some(figs[i]), title, description, image, newId).value;
    UpsertReplacesFirstMatch(figs, g, i);
    assert HasId(figs, g.id);
  }

  /**
   * Adding with an identifier the list does not hold appends the new figure
   * and keeps identifiers unique.
   */
  lemma AddAppendsFresh(figs: seq<Figure>, title: Option<string>, description: Option<string>,
                        image: Option<Image>, newId: FigureId)
    requires UniqueIds(figs) && !HasId(figs, newId)
    requires SavedFigure(None, title, description, image, newId).Some?
    ensures var g := SavedFigure(None, title, description, image, newId).value;
      Upsert(figs, g) == figs + [g] && UniqueIds(Upsert(figs, g))
  {
    var g := SavedFigure(None, title, description, image, newId).value;
    UpsertAppendsUnknown(figs, g);
    AppendFreshKeepsUnique(figs, g);
  }
}
