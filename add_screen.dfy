/**
 * The stand-alone add screen: it validates the form and appends the new
 * figure directly to the stored list.
 */
module AddScreen {
  import opened Wrappers
  import opened Figures
  import opened Persistence
  import opened FigureForm

  class AddFigureViewController {
    var selectedImage: Option<Image>
    const defaults: FigureDefaults

    constructor (defaults: FigureDefaults)
      ensures this.defaults == defaults
      ensures selectedImage == None
    {
      this.defaults := defaults;
      selectedImage := None;
    }

    /**
     * `imagePickerController(_:didFinishPickingMediaWithInfo:)`: prefer the
     * edited image, then the original; keep the old one when neither came back.
     */
    method DidFinishPicking(edited: Option<Image>, original: Option<Image>)
      modifies this`selectedImage
      ensures edited.Some? ==> selectedImage == edited
      ensures edited.None? && original.Some? ==> selectedImage == original
      ensures edited.None? && original.None? ==> selectedImage == old(selectedImage)
    {
      if edited.Some? {
        selectedImage := edited;
      } else if original.Some? {
        selectedImage := original;
      }
    }

    /**
     * `saveFigure`: when the form is complete, load the stored list (or start
     * from an empty one if it is missing or undecodable), append the new
     * figure and store the result. `newId` stands for the `UUID()` drawn.
     */
    method SaveFigure(title: Option<string>, description: Option<string>, newId: FigureId) returns (saved: bool)
      modifies defaults
      ensures saved <==> Complete(title, description, selectedImage)
      ensures !saved ==> defaults.slot == old(defaults.slot)
      ensures saved ==>
        var f := BuildFigure(newId, title, description, selectedImage).value;
        Restore(defaults.slot) == Some(StoredOrEmpty(old(defaults.slot)) + [f])
      ensures saved && UniqueIds(StoredOrEmpty(old(defaults.slot))) && !HasId(StoredOrEmpty(old(defaults.slot)), newId) ==>
        UniqueIds(StoredOrEmpty(defaults.slot))
    {
      var newFigure := BuildFigure(newId, title, description, selectedImage);
      if newFigure.None? {
        return false;
      }
      var savedFigures: seq<Figure> := [];
      var decoded := Restore(defaults.slot);
      if decoded.Some? {
        savedFigures := decoded.value;
      }
      if UniqueIds(savedFigures) && !HasId(savedFigures, newId) {
        AppendFreshKeepsUnique(savedFigures, newFigure.value);
      }
      savedFigures := savedFigures + [newFigure.value];
      defaults.Save(savedFigures);
      saved := true;
    }
  }
}
