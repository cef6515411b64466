/**
  The drawing surface, reduced to what the animation relies on: creating an
  item returns a fresh handle, and deleting an item is recorded. A handle is
  the position of the item in the log of everything ever created, so handles
  are allocated by a counter and never reused.
 */
module Drawing {

  type Handle = nat

  /** A created canvas item, as the coordinates and fill it was created with. */
  datatype Shape =
    | Oval(x0: real, y0: real, x1: real, y1: real, fill: string)
    | Line(x0: real, y0: real, x1: real, y1: real, fill: string)

  class Canvas {
    /** Every item ever created; the handle of `shapes[h]` is `h`. */
    var shapes: seq<Shape>
    /** Every handle passed to `Delete`, in call order. */
    var deleted: seq<Handle>

    constructor ()
      ensures shapes == [] && deleted == []
    {
      shapes := [];
      deleted := [];
    }

    method CreateOval(x0: real, y0: real, x1: real, y1: real, fill: string) returns (h: Handle)
      modifies this
      ensures h == old(|shapes|)
      ensures shapes == old(shapes) + [Oval(x0, y0, x1, y1, fill)]
      ensures deleted == old(deleted)
    {
      h := |shapes|;
      shapes := shapes + [Oval(x0, y0, x1, y1, fill)];
    }

    method CreateLine(x0: real, y0: real, x1: real, y1: real, fill: string) returns (h: Handle)
      modifies this
      ensures h == old(|shapes|)
      ensures shapes == old(shapes) + [Line(x0, y0, x1, y1, fill)]
      ensures deleted == old(deleted)
    {
      h := |shapes|;
      shapes := shapes + [Line(x0, y0, x1, y1, fill)];
    }

    /** Deleting an unknown or already deleted handle is harmless, as on a Tk canvas. */
    method Delete(h: Handle)
      modifies this
      ensures deleted == old(deleted) + [h]
      ensures shapes == old(shapes)
    {
      deleted := deleted + [h];
    }
  }
}
