/** `AttributeBuilder`: the per-column accumulator that turns harmonised attribute
    values into one Arrow column. */
module AttributeBuilders {
  import opened Wrappers
  import opened Attribute

  /** A finished Arrow array: its column type and its cells, `None` for a null. */
  datatype ArrowArray = ArrowArray(dataType: DataType, cells: seq<Option<AttributeValue>>)

  /** Offsets into a child buffer never decrease. */
  predicate Ascending(offsets: seq<nat>)
  {
    forall i, j :: 0 <= i <= j < |offsets| ==> offsets[i] <= offsets[j]
  }

  /** Every present cell of a column holds a value of the column's type. */
  predicate CellsOfType(t: AttributeType, cells: seq<Option<AttributeValue>>)
  {
    forall i :: 0 <= i < |cells| ==> cells[i].Some? ==> TypeOf(cells[i].value) == t
  }

  /** The builder of one attribute column. `ty` says which Arrow builder it wraps:
      for `String`, a string builder (one text per row, empty at nulls); for `Array`,
      a list builder over a string child builder (the children of all rows in one
      buffer, and one offset per row boundary). Both keep a validity flag per row. */
  class AttributeBuilder {
    const ty: AttributeType
    var texts: seq<string>
    var children: seq<string>
    var offsets: seq<nat>
    var validity: seq<bool>

    ghost predicate Valid()
      reads this
    {
      match ty
      case String =>
        && |texts| == |validity|
        && (forall i :: 0 <= i < |texts| ==> !validity[i] ==> texts[i] == "")
        && children == [] && offsets == [0]
      case Array =>
        && texts == []
        && |offsets| == |validity| + 1
        && offsets[0] == 0
        && Ascending(offsets)
        && offsets[|validity|] == |children|
    }

    /** The number of rows appended so far. */
    function Len(): nat
      reads this
    {
      |validity|
    }

    /** The cell of row `i`: `None` where a null was appended, the value otherwise. */
    function Cell(i: nat): (c: Option<AttributeValue>)
      reads this
      requires Valid() && i < Len()
      ensures c.Some? ==> TypeOf(c.value) == ty
    {
      if !validity[i] then None
      else match ty
        case String => Some(AttributeValue.String(texts[i]))
        case Array => Some(AttributeValue.Array(children[offsets[i]..offsets[i + 1]]))
    }

    /** The column built so far, one cell per appended row. */
    function Column(): (col: seq<Option<AttributeValue>>)
      reads this
      requires Valid()
      ensures |col| == Len()
      ensures CellsOfType(ty, col)
    {
      seq(Len(), i requires 0 <= i < Len() && Valid() reads this => Cell(i))
    }

    /** `AttributeBuilder::new`: an empty builder of the given type. */
    constructor (attrType: AttributeType)
      ensures Valid()
      ensures ty == attrType
      ensures Column() == []
    {
      ty := attrType;
      texts, children, offsets, validity := [], [], [0], [];
    }

    /** `append_null`: adds one null row (a null string, or a null list with no children). */
    method AppendNull()
      requires Valid()
      modifies this
      ensures Valid()
      ensures Column() == old(Column()) + [None]
    {
      ghost var before := Column();
      match ty
      case String =>
        texts := texts + [""];
        validity := validity + [false];
      case Array =>
        offsets := offsets + [|children|];
        validity := validity + [false];
      assert forall i :: 0 <= i < |before| ==> Cell(i) == before[i];
    }

    /** `append_value`: adds one present row holding `value` when the value's variant
        matches the builder's; otherwise fails with `InvalidInput` and changes nothing. */
    method AppendValue(value: AttributeValue) returns (r: Result<()>)
      requires Valid()
      modifies this
      ensures Valid()
      ensures r.Ok? <==> TypeOf(value) == ty
      ensures r.Err? ==> r.error == InvalidInput && unchanged(this)
      ensures r.Ok? ==> Column() == old(Column()) + [Some(value)]
    {
      ghost var before := Column();
      match ty {
        case String =>
          match value {
            case String(v) =>
              texts := texts + [v];
              validity := validity + [true];
              assert forall i :: 0 <= i < |before| ==> Cell(i) == before[i];
              r := Ok(());
            case Array(_) =>
              r := Err(InvalidInput);
          }
        case Array =>
          match value {
            case Array(items) =>
              for k := 0 to |items|
                invariant children == old(children) + items[..k]
                invariant texts == old(texts) && offsets == old(offsets) && validity == old(validity)
              {
                children := children + [items[k]];
              }
              assert items[..|items|] == items;
              offsets := offsets + [|children|];
              validity := validity + [true];
              forall i | 0 <= i < |before|
                ensures Cell(i) == before[i]
              {
                assert before[i] == old(Cell(i));
                assert offsets[i] <= offsets[i + 1] <= |old(children)|;
                assert children[offsets[i]..offsets[i + 1]] == old(children)[offsets[i]..offsets[i + 1]];
              }
              assert Cell(|before|).value.items == items;
              r := Ok(());
            case String(_) =>
              r := Err(InvalidInput);
          }
      }
    }

    /** `finish`: hands out the column built so far, typed by `ArrowType`, and leaves
        the builder empty and ready for the next batch. */
    method Finish() returns (finished: ArrowArray)
      requires Valid()
      modifies this
      ensures Valid()
      ensures finished.dataType == ArrowType(ty)
      ensures finished.cells == old(Column())
      ensures Column() == []
    {
      finished := ArrowArray(ArrowType(ty), Column());
      texts, children, offsets, validity := [], [], [0], [];
    }
  }
}
