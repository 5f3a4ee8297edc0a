/**
 * The "figures" key of the platform preference store and the JSON codec
 * behind it. The wire format is not modelled: a blob is either the encoding
 * of a figure list or bytes the decoder rejects.
 */
module Persistence {
  import opened Wrappers
  import opened Figures

  datatype Blob =
    | Encoded(figures: seq<Figure>)
    | Undecodable(bytes: Bytes)

  /** `JSONDecoder().decode([Figure].self, from:)`: all or nothing. */
  function Decode(b: Blob): (r: Option<seq<Figure>>)
    ensures r.Some? <==> b.Encoded?
    ensures b.Encoded? ==> r.value == b.figures
  {
    match b
    case Encoded(figs) => Some(figs)
    case Undecodable(_) => None
  }

  /** `JSONEncoder().encode(figures)`. */
  function Encode(figs: seq<Figure>): (b: Blob)
    ensures Decode(b) == Some(figs)
  {
    Encoded(figs)
  }

  /** Encoding is injective: different lists never share a stored form. */
  lemma EncodeInjective(a: seq<Figure>, b: seq<Figure>)
    requires Encode(a) == Encode(b)
    ensures a == b
  {
    assert Decode(Encode(a)) == Some(a);
  }

  /**
   * Reading the key and decoding it: `None` both when the key is absent and
   * when its data does not decode.
   */
  function Restore(slot: Option<Blob>): (r: Option<seq<Figure>>)
    ensures slot.None? ==> r.None?
    ensures slot.Some? ==> r == Decode(slot.value)
  {
    match slot
    case None => None
    case Some(b) => Decode(b)
  }

  /** What a writer that starts from the stored list sees: the list, or `[]`. */
  function StoredOrEmpty(slot: Option<Blob>): (figs: seq<Figure>)
    ensures Restore(slot).Some? ==> figs == Restore(slot).value
    ensures Restore(slot).None? ==> figs == []
  {
    Restore(slot).GetOr([])
  }

  /** The preference-store entry under the key "figures". */
  class FigureDefaults {
    var slot: Option<Blob>

    constructor (initial: Option<Blob>)
      ensures slot == initial
    {
      slot := initial;
    }

    /** `UserDefaults.standard.set(data, forKey: "figures")`. */
    method Set(data: Blob)
      modifies this
      ensures slot == Some(data)
    {
      slot := Some(data);
    }

    /** Encode and store a list, as every mutating screen does after a change. */
    method Save(figs: seq<Figure>)
      modifies this
      ensures slot == Some(Encode(figs))
      ensures Restore(slot) == Some(figs)
    {
      slot := Some(Encode(figs));
    }
  }
}
