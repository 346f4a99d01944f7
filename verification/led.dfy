/**
 * The pixel record of the render table: a layer counter with a floor at the
 * idle value, and a colour.
 */
module LedRecord {

  /** A colour as the program stores it: three integers, read as
      (red, green, blue) or, in gradient mode, as (hue, saturation, value). */
  datatype Triple = Triple(c0: int, c1: int, c2: int)

  /** The layer of an idle pixel; the layer setter never stores less. */
  const IdleLayer: int := -1

  function Max(a: int, b: int): int { if a < b then b else a }

  /** What the layer setter stores when asked to store `value`: the least
      layer that is at least `value` and not below the idle floor. */
  function Clamped(value: int): (r: int)
    ensures r >= IdleLayer && r >= value
    ensures r == value || r == IdleLayer
  {
    if value < IdleLayer then IdleLayer else value
  }

  /** The layer after `n` successive `layer -= 1` updates starting from `layer`. */
  function Decremented(layer: int, n: nat): int
  {
    if n == 0 then layer else Clamped(Decremented(layer, n - 1) - 1)
  }

  /** However many decrements are applied, the layer stops at the idle floor;
      this holds even for a layer the constructor stored below the floor. */
  lemma {:induction false} RepeatedDecrements(layer: int, n: nat)
    ensures n == 0 ==> Decremented(layer, n) == layer
    ensures n > 0 ==> Decremented(layer, n) == Max(layer - n, IdleLayer)
  {
    if n > 1 {
      RepeatedDecrements(layer, n - 1);
    }
  }

  /** Decrementing an idle layer leaves it idle, however often it is done:
      the case of `RepeatedDecrements` that starts at the floor. */
  lemma DecrementAtFloor(layer: int)
    requires layer == IdleLayer
    ensures Clamped(layer - 1) == layer
    ensures forall n: nat :: Decremented(layer, n) == layer
  {
    forall n: nat
      ensures Decremented(layer, n) == layer
    {
      RepeatedDecrements(layer, n);
    }
  }

  class Led {
    var storedLayer: int  // the private layer field
    var color: Triple

    /** The layer lies in the domain the setter maintains. */
    ghost predicate Valid()
      reads this
    {
      storedLayer >= IdleLayer
    }

    /** The constructor stores `layer` as given, without the clamp, so a
        freshly constructed pixel need not be Valid(). */
    constructor (layer: int, color: Triple)
      ensures storedLayer == layer && this.color == color
      ensures Valid() <==> layer >= IdleLayer
    {
      storedLayer := layer;
      this.color := color;
    }

    /** The layer getter: the stored layer, unchanged. */
    function Layer(): (r: int)
      reads this
      ensures r == storedLayer
    {
      storedLayer
    }

    /** The layer setter: values below the floor are stored as the floor,
        every other value exactly; the colour is untouched. */
    method SetLayer(value: int)
      modifies this
      ensures Valid()
      ensures value < IdleLayer ==> storedLayer == IdleLayer
      ensures value >= IdleLayer ==> storedLayer == value
      ensures storedLayer == Clamped(value)
      ensures color == old(color)
    {
      if value < IdleLayer {
        storedLayer := IdleLayer;
      } else {
        storedLayer := value;
      }
    }
  }
}
