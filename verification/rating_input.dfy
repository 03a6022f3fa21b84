/**
  The rating input (`frontend/src/components/ui/questions/RatingInput.tsx`):
  a row of buttons 1..scale for a five-star or a ten-point scale, each
  button emitting its own value on click unless the input is disabled, and
  highlighted when it does not exceed the current value.
*/
module RatingInput {
  import opened Wrappers
  import Seqs

  datatype Scale = Five | Ten

  function Size(scale: Scale): nat {
    match scale
    case Five => 5
    case Ten => 10
  }

  /** The button values, left to right. */
  function Offered(scale: Scale): (values: seq<int>)
    ensures |values| == Size(scale)
    ensures forall v :: v in values <==> 1 <= v <= Size(scale)
    ensures forall i, j :: 0 <= i < j < |values| ==> values[i] < values[j]
  {
    var values := seq(Size(scale), i requires 0 <= i < Size(scale) => i + 1);
    forall v | 1 <= v <= Size(scale)
      ensures v in values
    {
      assert values[v - 1] == v;
    }
    values
  }

  /** Clicking button `rating`: the value passed to `onChange`, or nothing when disabled. */
  function Click(rating: int, disabled: bool): Option<int> {
    if disabled then None else Some(rating)
  }

  /** Button `rating` is drawn filled when it does not exceed the current value. */
  predicate Highlighted(rating: int, value: int) {
    rating <= value
  }

  /** The filled/unfilled state of every button, left to right. */
  function Highlights(scale: Scale, value: int): (row: seq<bool>)
    ensures |row| == Size(scale)
    ensures forall i :: 0 <= i < |row| ==> (row[i] <==> Highlighted(Offered(scale)[i], value))
  {
    Seqs.LitRow(Size(scale), value)
  }

  /** Every emitted value is one of the offered ratings, and a disabled input emits nothing. */
  lemma ClicksStayOnScale(scale: Scale, rating: int, disabled: bool)
    requires rating in Offered(scale)
    ensures Click(rating, disabled).Some? <==> !disabled
    ensures Click(rating, disabled).Some? ==> 1 <= Click(rating, disabled).value <= Size(scale)
  {
  }

  /**
    The number of filled buttons is the value clamped to 0..scale: value 0
    fills none and any value of at least the scale fills all.
  */
  lemma {:induction false} HighlightCount(scale: Scale, value: int)
    ensures Seqs.CountTrue(Highlights(scale, value))
      == if value <= 0 then 0 else if value >= Size(scale) then Size(scale) else value
  {
    Seqs.LitRowCount(Size(scale), value);
  }
}
