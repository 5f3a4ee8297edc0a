/**
 * The figure record: one catalog entry with an immutable identifier and
 * three replaceable payload fields (title, description, JPEG bytes).
 */
module Figures {

  type Bytes = seq<bv8>

  /** A UUID, kept opaque: the model only compares identifiers. */
  datatype FigureId = FigureId(raw: nat)

  datatype Figure = Figure(id: FigureId, title: string, description: string, imageData: Bytes)

  /** The only updates Swift allows on a `Figure`: its three `var` fields. */
  datatype FieldEdit =
    | SetTitle(title: string)
    | SetDescription(description: string)
    | SetImageData(imageData: Bytes)

  function ApplyEdit(f: Figure, e: FieldEdit): (r: Figure)
    ensures r.id == f.id
    ensures e.SetTitle? ==> r.title == e.title && r.description == f.description && r.imageData == f.imageData
    ensures e.SetDescription? ==> r.title == f.title && r.description == e.description && r.imageData == f.imageData
    ensures e.SetImageData? ==> r.title == f.title && r.description == f.description && r.imageData == e.imageData
  {
    match e
    case SetTitle(t) => f.(title := t)
    case SetDescription(d) => f.(description := d)
    case SetImageData(b) => f.(imageData := b)
  }

  /** The figure after a run of field assignments, applied left to right. */
  function ApplyEdits(f: Figure, edits: seq<FieldEdit>): Figure
    decreases |edits|
  {
    if edits == [] then f else ApplyEdits(ApplyEdit(f, edits[0]), edits[1..])
  }

  /** No sequence of field assignments changes a figure's identifier. */
  lemma {:induction false} EditsKeepId(f: Figure, edits: seq<FieldEdit>)
    ensures ApplyEdits(f, edits).id == f.id
    decreases |edits|
  {
    if edits != [] {
      EditsKeepId(ApplyEdit(f, edits[0]), edits[1..]);
    }
  }

  /**
   * The payload fields are exactly what can be replaced: `g` is reachable
   * from `f` by field assignments if and only if both carry the same id.
   */
  lemma ReachableByEditsIffSameId(f: Figure, g: Figure)
    ensures (exists edits: seq<FieldEdit> :: ApplyEdits(f, edits) == g) <==> f.id == g.id
  {
    var edits := [SetTitle(g.title), SetDescription(g.description), SetImageData(g.imageData)];
    if f.id == g.id {
      var f1 := ApplyEdit(f, edits[0]);
      var f2 := ApplyEdit(f1, edits[1]);
      var f3 := ApplyEdit(f2, edits[2]);
      assert edits[1..] == [edits[1], edits[2]];
      assert edits[1..][1..] == [edits[2]];
      assert ApplyEdits(f, edits) == ApplyEdits(f1, [edits[1], edits[2]]);
      assert ApplyEdits(f1, [edits[1], edits[2]]) == ApplyEdits(f2, [edits[2]]);
      assert ApplyEdits(f2, [edits[2]]) == ApplyEdits(f3, []);
      assert f3 == g;
    }
    forall edits: seq<FieldEdit> | ApplyEdits(f, edits) == g
      ensures f.id == g.id
    {
      EditsKeepId(f, edits);
    }
  }

  /** Swift's synthesized `Equatable` conformance: field by field. */
  function SameFigure(a: Figure, b: Figure): (r: bool)
    ensures r <==> a == b
  {
    a.id == b.id && a.title == b.title && a.description == b.description && a.imageData == b.imageData
  }

  /** Figures with different identifiers are never equal, whatever their payload. */
  lemma DistinctIdsNeverEqual(a: Figure, b: Figure)
    requires a.id != b.id
    ensures !SameFigure(a, b)
  {
  }

  /** Some figure of `figs` carries `id`. */
  predicate HasId(figs: seq<Figure>, id: FigureId)
  {
    exists i :: 0 <= i < |figs| && figs[i].id == id
  }

  /** No two positions of `figs` carry the same identifier. */
  predicate UniqueIds(figs: seq<Figure>)
  {
    forall i, j :: 0 <= i < j < |figs| ==> figs[i].id != figs[j].id
  }

  /** Appending a figure whose id is new keeps identifiers unique. */
  lemma AppendFreshKeepsUnique(figs: seq<Figure>, f: Figure)
    requires UniqueIds(figs) && !HasId(figs, f.id)
    ensures UniqueIds(figs + [f])
  {
    var r := figs + [f];
    forall i, j | 0 <= i < j < |r|
      ensures r[i].id != r[j].id
    {
      if j == |figs| {
        assert r[i] == figs[i];
      }
    }
  }
}
