/**
 * The form both add screens validate before building a figure: a title, a
 * description and a picked image whose JPEG compression succeeds.
 */
module FigureForm {
  import opened Wrappers
  import opened Figures

  /**
   * A picked photo, known to the model only through what
   * `jpegData(compressionQuality: 0.8)` returns for it.
   */
  datatype Image = Image(jpeg: Option<Bytes>)

  /** Both text fields hold non-empty text and the image compresses. */
  predicate Complete(title: Option<string>, description: Option<string>, image: Option<Image>)
  {
    && title.Some? && title.value != []
    && description.Some? && description.value != []
    && image.Some? && image.value.jpeg.Some?
  }

  /** The `guard` of `saveFigure` followed by `Figure(id:title:description:imageData:)`. */
  function BuildFigure(id: FigureId, title: Option<string>, description: Option<string>, image: Option<Image>): (r: Option<Figure>)
    ensures r.Some? <==> Complete(title, description, image)
    ensures r.Some? ==> r.value.id == id
    ensures r.Some? ==> r.value.title == title.value && r.value.title != []
    ensures r.Some? ==> r.value.description == description.value && r.value.description != []
    ensures r.Some? ==> r.value.imageData == image.value.jpeg.value
  {
    if Complete(title, description, image) then
      Some(Figure(id, title.value, description.value, image.value.jpeg.value))
    else
      None
  }
}
