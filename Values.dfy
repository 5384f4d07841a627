/** Shared value types: optional and failing results, property values, rectangular grids. */
module Values {

  datatype Option<+T> = None | Some(value: T)

  datatype Result<+T, +E> = Ok(value: T) | Err(error: E)

  /** A value stored in a property map of a content, an annotation or an extraction. */
  datatype Value =
    | Null
    | Str(s: string)
    | Int(i: int)
    | Real(r: real)
    | Ref(id: nat)          // the id of another content
    | Temporal(instant: int)

  /** The key of a property: one of the framework's conventional keys, or a key
      spelled out literally. The conventional keys are taken to differ from every
      literal key and from each other. */
  datatype PropertyKey =
    | Parent
    | Name
    | Page
    | Title
    | Subtype
    | Index
    | Mimetype
    | Probability
    | Key(text: string)

  type Properties = map<PropertyKey, Value>

  /** A grid of `cols` columns and `|cells|` rows; `Valid` says every row has `cols` cells. */
  datatype Grid<T> = Grid(cols: nat, cells: seq<seq<T>>) {
    predicate Valid() {
      forall r :: 0 <= r < |cells| ==> |cells[r]| == cols
    }

    function Rows(): nat {
      |cells|
    }
  }
}
