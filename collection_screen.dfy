/**
 * The browsing screen: the in-memory figure list, the page shown, saving a
 * figure from the add/edit screen, and import/export of the whole list.
 */
module CollectionScreen {
  import opened Wrappers
  import opened Figures
  import opened Persistence
  import opened Paging
  import opened SaveById

  /** The right bar button that `setupNavigationItems` installs. */
  datatype BarItem = ImportItem | ExportItem

  /** "Importar" on an empty collection, "Exportar" otherwise. */
  function BarItemFor(figs: seq<Figure>): (b: BarItem)
    ensures b == ImportItem <==> figs == []
    ensures b == ExportItem <==> figs != []
  {
    if figs == [] then ImportItem else ExportItem
  }

  const ExportFileName: string := "figures_export.figures.json"

  /** What the document picker and the file read produced. */
  datatype PickedDocument =
    | NoDocument                  // `urls.first` is nil
    | AccessDenied                // `startAccessingSecurityScopedResource()` refused
    | ReadFailed                  // copying or reading the file threw
    | ReadData(data: Blob)        // the bytes of the copied file

  /** The alert shown at the end of an import. */
  datatype ImportAlert = NoAlert | ImportSucceeded(count: nat) | ImportFailed

  class CollectionViewController {
    var figures: seq<Figure>
    var currentPage: int
    var filteredFigures: seq<Figure>
    var rightBarItem: BarItem
    const defaults: FigureDefaults

    /** The page index stays within `0 .. MaxPage` and the grid shows that page. */
    ghost predicate Valid()
      reads this
    {
      && 0 <= currentPage <= MaxPage(|figures|)
      && filteredFigures == PageWindow(figures, currentPage)
      && rightBarItem == BarItemFor(figures)
    }

    /** `viewDidLoad`: an empty list on page 0, then `loadFigures`. */
    constructor (defaults: FigureDefaults)
      ensures this.defaults == defaults
      ensures Valid() && currentPage == 0
      ensures figures == StoredOrEmpty(defaults.slot)
    {
      this.defaults := defaults;
      figures := [];
      currentPage := 0;
      filteredFigures := [];
      rightBarItem := ImportItem;
      new;
      LoadFigures();
    }

    /**
     * `loadFigures`: take the stored list when it decodes, otherwise keep the
     * current one. Its only caller runs it on page 0.
     */
    method LoadFigures()
      requires currentPage == 0
      modifies this`figures, this`filteredFigures, this`rightBarItem
      ensures Restore(defaults.slot).Some? ==> figures == Restore(defaults.slot).value
      ensures Restore(defaults.slot).None? ==> figures == old(figures)
      ensures Valid()
    {
      var decoded := Restore(defaults.slot);
      if decoded.Some? {
        figures := decoded.value;
      }
      ApplyPagination();
    }

    /** `applyPagination`: recompute the visible window and the bar button. */
    method ApplyPagination()
      requires 0 <= currentPage
      modifies this`filteredFigures, this`rightBarItem
      ensures filteredFigures == PageWindow(figures, currentPage)
      ensures rightBarItem == BarItemFor(figures)
    {
      var start := currentPage * PageSize;
      var end := Min(start + PageSize, |figures|);
      filteredFigures := if start < end then figures[start..end] else [];
      SetupNavigationItems();
    }

    /** `setupNavigationItems`: import on an empty list, export otherwise. */
    method SetupNavigationItems()
      modifies this`rightBarItem
      ensures rightBarItem == BarItemFor(figures)
    {
      if figures == [] {
        rightBarItem := ImportItem;
      } else {
        rightBarItem := ExportItem;
      }
    }

    /** `prevPage`: step back unless already on the first page. */
    method PrevPage()
      requires Valid()
      modifies this`currentPage, this`filteredFigures, this`rightBarItem
      ensures Valid()
      ensures old(currentPage) > 0 ==> currentPage == old(currentPage) - 1
      ensures old(currentPage) == 0 ==> currentPage == 0 && filteredFigures == old(filteredFigures)
    {
      if currentPage > 0 {
        currentPage := currentPage - 1;
        ApplyPagination();
      }
    }

    /** `nextPage`: step forward only while a later non-empty page exists. */
    method NextPage()
      requires Valid()
      modifies this`currentPage, this`filteredFigures, this`rightBarItem
      ensures Valid()
      ensures old(currentPage) < MaxPage(|figures|) ==> currentPage == old(currentPage) + 1
      ensures old(currentPage) == MaxPage(|figures|) ==> currentPage == old(currentPage) && filteredFigures == old(filteredFigures)
    {
      var maxPage := TruncatingDiv(|figures| - 1, PageSize);
      if currentPage < maxPage {
        currentPage := currentPage + 1;
        ApplyPagination();
      }
    }

    /**
     * `didSaveFigure`: replace the first figure with the same id in place, or
     * append; then persist and refresh the page.
     */
    method DidSaveFigure(figure: Figure)
      requires Valid()
      modifies this`figures, this`filteredFigures, this`rightBarItem, defaults
      ensures Valid()
      ensures figures == Upsert(old(figures), figure)
      ensures currentPage == old(currentPage)
      ensures defaults.slot == Some(Encode(figures))
      ensures Restore(defaults.slot) == Some(figures)
    {
      ghost var before := figures;
      var index := FirstIndexOf(figures, figure.id);
      if index.Some? {
        figures := figures[index.value := figure];
      } else {
        figures := figures + [figure];
      }
      MaxPageMonotone(|before|, |figures|);
      SaveFigures();
      ApplyPagination();
    }

    /** `saveFigures`: encode the list and store it under "figures". */
    method SaveFigures()
      modifies defaults
      ensures defaults.slot == Some(Encode(figures))
    {
      defaults.Save(figures);
    }

    /** `exportFigures`: the file name and the encoded list handed to the share sheet. */
    method ExportFigures() returns (fileName: string, data: Blob)
      ensures fileName == ExportFileName
      ensures Decode(data) == Some(figures)
    {
      data := Encode(figures);
      fileName := ExportFileName;
    }

    /**
     * `documentPicker(_:didPickDocumentsAt:)`: on a file that decodes,
     * replace the list wholesale, store the file's bytes and go back to page
     * 0; on any failure leave everything as it was.
     */
    method DidPickDocuments(picked: PickedDocument) returns (alert: ImportAlert)
      requires Valid()
      modifies this`figures, this`currentPage, this`filteredFigures, this`rightBarItem, defaults
      ensures Valid()
      ensures picked.NoDocument? || picked.AccessDenied? ==> alert == NoAlert
      ensures picked.ReadFailed? ==> alert == ImportFailed
      ensures picked.ReadData? && Decode(picked.data).None? ==> alert == ImportFailed
      ensures alert.ImportSucceeded? <==> picked.ReadData? && Decode(picked.data).Some?
      ensures !alert.ImportSucceeded? ==>
        && figures == old(figures) && currentPage == old(currentPage)
        && filteredFigures == old(filteredFigures) && defaults.slot == old(defaults.slot)
      ensures alert.ImportSucceeded? ==>
        && figures == Decode(picked.data).value && currentPage == 0
        && alert.count == |figures|
        && defaults.slot == Some(picked.data) && Restore(defaults.slot) == Some(figures)
    {
      match picked
      case NoDocument =>
        alert := NoAlert;
      case AccessDenied =>
        alert := NoAlert;
      case ReadFailed =>
        alert := ImportFailed;
      case ReadData(data) =>
        var imported := Decode(data);
        if imported.None? {
          alert := ImportFailed;
        } else {
          figures := imported.value;
          defaults.Set(data);
          currentPage := 0;
          ApplyPagination();
          alert := ImportSucceeded(|imported.value|);
        }
    }
  }

  /** While the list is non-empty, the grid never shows an empty page. */
  lemma ShownPageNonEmpty(c: CollectionViewController)
    requires c.Valid() && c.figures != []
    ensures c.filteredFigures != []
    ensures |c.filteredFigures| <= PageSize
  {
    WindowNonEmptyUpToMaxPage(c.figures, c.currentPage);
  }
}
