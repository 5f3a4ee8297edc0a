# Figure collection store, modelled in Dafny

A model of the state-handling core of an iOS app for a personal collection of
figures. Each figure has an immutable identifier, a title, a description and
a JPEG photo. The app keeps the ordered list of figures under the key
"figures" in the platform preference store. It shows the list four figures
per page. It saves figures from an add/edit screen, which replaces a figure
with the same id in place or appends a new one. It deletes figures in bulk by
grid position, and it imports or exports the whole list as one JSON document.

Modules, one per source component:

- `Figures` (`figure.dfy`): the figure record, Swift's field assignments on it,
  its synthesized equality, and the `HasId`/`UniqueIds` predicates.
- `Persistence` (`persistence.dfy`): the "figures" preference key, modelled as
  the class `FigureDefaults`. The JSON codec is modelled by `Encode` and
  `Decode`: a stored blob is either the encoding of a list or bytes that do
  not decode.
- `Paging` (`paging.dfy`): the page window and the last reachable page. Swift's
  truncating `/` is written out as `TruncatingDiv`.
- `SaveById` (`save_by_id.dfy`): `firstIndex(where:)` and the
  replace-or-append step of `didSaveFigure`.
- `Selection` (`selection.dfy`): the toggled position set, its
  descending-sorted order, `remove(at:)`, and `Without`. `Without` is the list
  with a set of positions filtered out.
- `FigureForm` (`figure_form.dfy`): the form check shared by both add screens.
- `AddEditFigure` (`add_edit.dfy`): the add/edit screen. It is a pure choice
  of the figure handed to the delegate.
- `CollectionScreen`, `DeleteScreen`, `AddScreen`: the three view controllers
  that change state. Each is a class whose fields are the controller's
  properties, and each method states the controller's new state.

Behaviour of the code worth knowing:

- Import does not validate the records it decodes. A file whose records have
  empty titles, or repeat an id, is accepted as long as it decodes. With a
  repeated id, editing the later of two figures that share it overwrites the
  earlier one and leaves the edited figure unchanged (`RepeatedIdEditHitsFirst`);
  this is why `EditReplacesInPlace` assumes unique ids.
- `loadFigures` does not reset the list to empty when the stored data is
  missing or corrupt. It keeps whatever list the screen already holds. On
  first load that list is empty.
- Import stores the file's own bytes under "figures". It does not store a
  re-encoding of the decoded list.
- `deleteFigure(at:)` removes one figure from the screen's list and does not
  write the store. It does not prune the selection either, so it can break the
  delete screen's invariant (every selected position is inside the list). A
  later `deleteSelected` would then trap in `remove(at:)`. `deleteFigure(at:)`
  has no caller in the app.
- Bulk delete works on grid positions, not identifiers.
- No page count is computed. Paging is bounded by `MaxPage`, and the "next"
  button cannot go past the last non-empty page.

## Model

| member | source | states |
|---|---|---|
| `Figures.ApplyEdit` | FigureCollection/Figure.swift:13-15 | assigning title, description or image data changes that one field and keeps the id and the other two fields |
| `Figures.EditsKeepId` | FigureCollection/Figure.swift:12 | no sequence of field assignments changes a figure's id |
| `Figures.ReachableByEditsIffSameId` | FigureCollection/Figure.swift:12-15 | a figure can be turned into another by field assignments exactly when both have the same id: the three payload fields are the whole mutable part |
| `Figures.SameFigure` | FigureCollection/Figure.swift:11-16 | synthesized `==` holds exactly when all four fields are equal |
| `Figures.DistinctIdsNeverEqual` | FigureCollection/Figure.swift:11-12 | figures with different ids are never equal, whatever their payload |
| `Figures.AppendFreshKeepsUnique` | FigureCollection/AddFigureViewController.swift:153-160 | appending a figure whose id is not in a list of unique ids keeps the ids unique |
| `Persistence.Decode` | FigureCollection/CollectionViewController.swift:217 | decoding gives the whole list or fails; a partial list is never produced |
| `Persistence.Encode` | FigureCollection/CollectionViewController.swift:270 | decoding an encoded list gives back exactly that list |
| `Persistence.EncodeInjective` | FigureCollection/CollectionViewController.swift:269-273 | two different lists are never stored as the same data |
| `Persistence.Restore` | FigureCollection/CollectionViewController.swift:98-99 | reading the key gives no list both when the key is absent and when its data does not decode |
| `Persistence.StoredOrEmpty` | FigureCollection/AddFigureViewController.swift:155-159 | the list a writer starts from is the stored list, or the empty list when it is missing or undecodable |
| `Persistence.FigureDefaults.Set` | FigureCollection/CollectionViewController.swift:221 | storing data makes it the key's value |
| `Persistence.FigureDefaults.Save` | FigureCollection/CollectionViewController.swift:269-273 | after saving a list, reading the key gives back that list |
| `Paging.TruncatingDiv` | FigureCollection/CollectionViewController.swift:164 | Swift's `Int /` rounds toward zero: the remainder has the sign of the dividend and is smaller than the divisor |
| `Paging.MaxPage` | FigureCollection/CollectionViewController.swift:164 | `(count - 1) / 4` with truncating division is 0 for an empty list and otherwise the index of the page holding the last figure |
| `Paging.MaxPageMonotone` | FigureCollection/CollectionViewController.swift:163-165 | a longer list never has a smaller last page |
| `Paging.PageWindow` | FigureCollection/CollectionViewController.swift:105-108 | the visible page has at most 4 figures; it is empty when the page starts past the end; otherwise it has `min(4, count - 4*page)` figures, and its i-th figure is list position `4*page + i` |
| `Paging.WindowNonEmptyUpToMaxPage` | FigureCollection/CollectionViewController.swift:163-168 | on a non-empty list every page from 0 to the last reachable page shows at least one figure |
| `Paging.WindowEmptyPastMaxPage` | FigureCollection/CollectionViewController.swift:163-168 | every page after the last reachable one would be empty |
| `Paging.PagesUpToIsPrefix` | FigureCollection/CollectionViewController.swift:105-108 | the first n pages, put together in order, are exactly the first `min(4n, count)` figures |
| `Paging.ReachablePagesCoverList` | FigureCollection/CollectionViewController.swift:163-169 | pages 0 to the last reachable page, in order, show every figure exactly once in list order |
| `SaveById.FirstIndexOf` | FigureCollection/CollectionViewController.swift:260 | gives the first position holding the id, or none exactly when the id is absent |
| `SaveById.UpsertReplacesFirstMatch` | FigureCollection/CollectionViewController.swift:260-261 | saving a known id replaces the first figure with that id at its position and leaves the length and every other position unchanged |
| `SaveById.UpsertAppendsUnknown` | FigureCollection/CollectionViewController.swift:262-263 | saving an unknown id appends the figure, so the list grows by exactly one |
| `SaveById.Upsert` | FigureCollection/CollectionViewController.swift:260-264 | a save never shrinks the list, grows it by at most one, and leaves the saved figure in it; where it lands is stated by `UpsertReplacesFirstMatch`, `UpsertAppendsUnknown` and `UpsertKeepsUniqueIds` |
| `SaveById.RepeatedIdEditHitsFirst` | FigureCollection/CollectionViewController.swift:260-261 | when two figures share the saved id, the first is overwritten and the second is left as it was |
| `SaveById.UpsertKeepsUniqueIds` | FigureCollection/CollectionViewController.swift:259-264 | if ids were unique before a save, they are unique after it |
| `Selection.Toggle` | FigureCollection/DeleteFiguresViewController.swift:139-144 | tapping item i flips whether i is selected and no other item changes |
| `Selection.ToggleTwice` | FigureCollection/DeleteFiguresViewController.swift:139-144 | tapping the same item twice restores the selection |
| `Selection.MaxExists` | FigureCollection/DeleteFiguresViewController.swift:108 | a non-empty selection has a largest position |
| `Selection.MaxOf` | FigureCollection/DeleteFiguresViewController.swift:108 | gives the largest selected position |
| `Selection.SortedDescending` | FigureCollection/DeleteFiguresViewController.swift:108 | the sorted positions are exactly the selected ones, each once, strictly decreasing |
| `Selection.EarlierAreLarger` | FigureCollection/DeleteFiguresViewController.swift:108-113 | every position removed before `indexes[k]` is larger than it |
| `Selection.RemoveAt` | FigureCollection/DeleteFiguresViewController.swift:76 | `remove(at: i)` shortens the list by one, keeps positions below i and shifts later ones down by one |
| `Selection.Without` | FigureCollection/DeleteFiguresViewController.swift:112-114 | filtering out positions keeps only figures from the list and never lengthens it |
| `Selection.WithoutDependsOnlyOnInRange` | FigureCollection/DeleteFiguresViewController.swift:112-114 | positions outside the list do not affect the result |
| `Selection.WithoutNothing` | FigureCollection/DeleteFiguresViewController.swift:110 | removing no position inside the list leaves it unchanged |
| `Selection.RemoveBelowRemoved` | FigureCollection/DeleteFiguresViewController.swift:108-114 | when every position removed so far is above m, position m of the shrunk list is still the original figure m, and `remove(at: m)` there removes original position m |
| `Selection.RemoveAtIsWithoutSingle` | FigureCollection/DeleteFiguresViewController.swift:75-76 | `remove(at: i)` is the deletion of the single position i |
| `Selection.WithoutLength` | FigureCollection/DeleteFiguresViewController.swift:112-114 | deleting n distinct in-range positions shortens the list by exactly n |
| `Selection.WithoutKeepsUniqueIds` | FigureCollection/DeleteFiguresViewController.swift:112-114 | deleting positions keeps ids unique |
| `Selection.AppendThenDeleteRestores` | FigureCollection/DeleteFiguresViewController.swift:112-114 | appending a figure and then deleting its position gives back the original list |
| `FigureForm.BuildFigure` | FigureCollection/AddFigureViewController.swift:143-153 | a figure is built exactly when title and description are present and non-empty and the image is present and compresses; it carries the given id, the entered text and the JPEG bytes |
| `AddEditFigure.ScreenTitle` | FigureCollection/AddEditFigureViewController.swift:59 | the title is "Editar Figura" exactly when a figure is being edited and "Agregar Figura" otherwise |
| `AddEditFigure.SavedFigure` | FigureCollection/AddEditFigureViewController.swift:116-134 | the delegate gets one figure exactly when the form is complete; it keeps the edited figure's id, or has the new id when adding, and carries the entered title, description and image bytes |
| `AddEditFigure.EditReplacesInPlace` | FigureCollection/AddEditFigureViewController.swift:127-134 | saving an edit of the figure at position i of a unique-id list replaces exactly position i |
| `AddEditFigure.AddAppendsFresh` | FigureCollection/AddEditFigureViewController.swift:127-134 | adding with a fresh id appends the figure and keeps ids unique |
| `CollectionScreen.BarItemFor` | FigureCollection/CollectionViewController.swift:49-55 | the bar button is Import exactly when the list is empty and Export otherwise |
| `CollectionScreen.CollectionViewController.constructor` | FigureCollection/CollectionViewController.swift:39-47 | the screen opens on page 0 with the stored list, or an empty list when nothing decodes, and its invariant holds |
| `CollectionScreen.CollectionViewController.LoadFigures` | FigureCollection/CollectionViewController.swift:97-103 | a stored list that decodes replaces the list; otherwise the list is left as it was; the page is refreshed |
| `CollectionScreen.CollectionViewController.ApplyPagination` | FigureCollection/CollectionViewController.swift:105-112 | the visible figures become the window of the current page and the bar button matches the list |
| `CollectionScreen.CollectionViewController.SetupNavigationItems` | FigureCollection/CollectionViewController.swift:49-55 | the bar button matches the list |
| `CollectionScreen.CollectionViewController.PrevPage` | FigureCollection/CollectionViewController.swift:156-161 | the page decreases by one only when above 0, is a no-op at page 0, and the page invariant is kept |
| `CollectionScreen.CollectionViewController.NextPage` | FigureCollection/CollectionViewController.swift:163-169 | the page increases by one only while below the last reachable page, is a no-op there, and the page invariant is kept |
| `CollectionScreen.CollectionViewController.DidSaveFigure` | FigureCollection/CollectionViewController.swift:259-267 | the list becomes the replace-or-append of the figure, the page stays and stays in bounds, and the store then decodes to the new list |
| `CollectionScreen.CollectionViewController.SaveFigures` | FigureCollection/CollectionViewController.swift:269-273 | the store holds the encoding of the current list |
| `CollectionScreen.CollectionViewController.ExportFigures` | FigureCollection/CollectionViewController.swift:171-184 | the export is named "figures_export.figures.json" and decodes to exactly the current list; nothing changes |
| `CollectionScreen.CollectionViewController.DidPickDocuments` | FigureCollection/CollectionViewController.swift:193-239 | with no document or no access nothing happens and there is no alert; a read or decode failure shows an error and leaves list, page and store unchanged; a file that decodes replaces the list wholesale, is stored as is, resets the page to 0 and reports the count |
| `CollectionScreen.ShownPageNonEmpty` | FigureCollection/CollectionViewController.swift:105-108 | while the list is non-empty the screen never shows an empty page, and never more than 4 figures |
| `DeleteScreen.DeleteFiguresViewController.constructor` | FigureCollection/DeleteFiguresViewController.swift:51-57 | the screen opens with nothing selected and the stored list, or an empty list when nothing decodes, and its invariant holds |
| `DeleteScreen.DeleteFiguresViewController.LoadFigures` | FigureCollection/DeleteFiguresViewController.swift:99-105 | a stored list that decodes replaces the list; otherwise the list is left as it was |
| `DeleteScreen.DeleteFiguresViewController.DidSelectItem` | FigureCollection/DeleteFiguresViewController.swift:139-146 | tapping an item on screen toggles it in the selection and keeps every selected position inside the list |
| `DeleteScreen.DeleteFiguresViewController.DeleteFigure` | FigureCollection/DeleteFiguresViewController.swift:75-79 | exactly the one figure at the position is removed and the others keep their order; the invariant holds afterwards exactly when every selected position is below the new length |
| `DeleteScreen.DeleteFiguresViewController.DeleteSelected` | FigureCollection/DeleteFiguresViewController.swift:107-124 | an empty selection changes nothing, not even the store; otherwise the list is the original with exactly the selected positions filtered out, in order, its length drops by the number selected, the store holds it, the selection is empty, and the invariant holds |
| `DeleteScreen.DeleteFiguresViewController.RemoveAll` | FigureCollection/DeleteFiguresViewController.swift:112-114 | removing strictly decreasing in-range positions one by one removes exactly those positions of the original list |
| `AddScreen.AddFigureViewController.constructor` | FigureCollection/AddFigureViewController.swift:17 | no image is selected when the screen opens |
| `AddScreen.AddFigureViewController.DidFinishPicking` | FigureCollection/AddFigureViewController.swift:131-140 | the edited image wins over the original, and the old selection stays when neither came back |
| `AddScreen.AddFigureViewController.SaveFigure` | FigureCollection/AddFigureViewController.swift:142-167 | an incomplete form stores nothing; otherwise the store decodes to the previously stored list (empty if missing or undecodable) with the new figure appended, and unique ids stay unique when the new id is fresh |

## Left out

- Figures.SameFigure: title and description compare code point by code point, while Swift's `String ==` compares by Unicode canonical equivalence ("\u{E9}" equals "e\u{301}" in Swift, not here). No modelled operation compares whole figures; saving compares ids only.
- UIKit presentation is not modelled: layout, cells, alerts' wording, gestures, keyboard handling, `reloadData`/`deleteItems`, the page label text, and audio playback (`playTrashSound`).
- The long-press edit flow (`handleLongPress`, `editFigure`) is not modelled as a method. It only pushes the edit screen with `filteredFigures[item]`. `PageWindow` says which list figure that is, and `EditReplacesInPlace` says what saving it does.
- The JSON wire format is not modelled; the codec is the `Encode`/`Decode` pair.
- Encoding is modelled as always succeeding. The `try?` around `JSONEncoder().encode` cannot fail for a record of a UUID, two strings and bytes.
- Reading an import file is not modelled. Security-scoped access, copying into the documents directory and `Data(contentsOf:)` become the `PickedDocument` input, which says which step failed. The copy left in the documents directory is not modelled.
- Writing the export file and the share sheet are not modelled. `ExportFigures` returns the file name and the encoded data.
- `UUID()` is not modelled. The fresh identifier is a parameter, and uniqueness results assume it is not already in the list.
- JPEG compression (`jpegData(compressionQuality: 0.8)`) is not modelled. Each `Image` carries the result of compressing it, which may be absent.
- The add/edit screen's image view is not modelled. The image it submits, including the one rebuilt from an edited figure's bytes, is the `image` parameter.
- The intro video, the web catalog, the menu and home screens, and the cell view are not part of this model.
