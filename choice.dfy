/** The Monte-Carlo choice of Medium.update_charge_distribution
    (FluidDiffusion/lattice_model.py, lines 93-112): four neighbour weights turned
    into consecutive intervals of [0, bf_sum), and the branch chain that picks the
    interval holding the scaled random draw. */
module Choice {
  import opened Wrappers

  /** A draw of `np.random.random()`. */
  type UnitInterval = u: real | 0.0 <= u < 1.0 witness 0.0

  datatype Direction = Left | Right | Top | Bottom

  /** Destination of a move in direction d from (x, y). */
  function Neighbour(x: int, y: int, d: Direction): (int, int) {
    match d
    case Left => (x - 1, y)
    case Right => (x + 1, y)
    case Top => (x, y - 1)
    case Bottom => (x, y + 1)
  }

  /** The four weights bf_left, bf_right, bf_top, bf_bottom, and the cumulative
      interval each of them owns in [0, bf_sum). */
  datatype Weights = Weights(left: real, right: real, top: real, bottom: real) {
    predicate NonNegative() {
      left >= 0.0 && right >= 0.0 && top >= 0.0 && bottom >= 0.0
    }

    function Total(): real {
      left + right + top + bottom
    }

    function Of(d: Direction): real {
      match d
      case Left => left
      case Right => right
      case Top => top
      case Bottom => bottom
    }

    function Lower(d: Direction): real {
      match d
      case Left => 0.0
      case Right => left
      case Top => left + right
      case Bottom => left + right + top
    }

    function Upper(d: Direction): real {
      Lower(d) + Of(d)
    }
  }

  /** The branch chain of lines 105-112 for random_number r: which neighbour
      receives the charge, or None when no branch fires. */
  function Pick(wt: Weights, r: real): (d: Option<Direction>)
    ensures d.Some? ==> r < wt.Upper(d.value)
    ensures d.Some? && d.value != Left ==> wt.Lower(d.value) <= r
    ensures wt.NonNegative() ==> (d.Some? <==> r < wt.Total())
  {
    var bfSum := wt.Total();
    var limitRight := wt.left + wt.right;
    var limitTop := limitRight + wt.top;
    if r < wt.left then Some(Left)
    else if wt.left <= r < limitRight then Some(Right)
    else if limitRight <= r < limitTop then Some(Top)
    else if limitTop <= r < bfSum then Some(Bottom)
    else None
  }

  /** random_number = bf_sum * np.random.random() (line 104): it lies in
      [0, bf_sum), and is 0 when every weight vanishes. */
  function RandomNumber(wt: Weights, u: UnitInterval): (r: real)
    requires wt.NonNegative()
    ensures 0.0 <= r <= wt.Total()
    ensures wt.Total() > 0.0 ==> r < wt.Total()
  {
    var a := wt.Total();
    assert a * (1.0 - u) >= 0.0;
    assert a > 0.0 ==> a * (1.0 - u) > 0.0;
    a * u
  }

  /** Lines 98-112: the neighbour picked for the draw u. */
  function Choose(wt: Weights, u: UnitInterval): (d: Option<Direction>)
    requires wt.NonNegative()
    ensures d.Some? <==> wt.Total() > 0.0
    ensures d.Some? ==> wt.Of(d.value) > 0.0
  {
    Pick(wt, RandomNumber(wt, u))
  }

  /** For a non-negative random number, d is picked exactly when r lies in d's
      interval; as the intervals are consecutive, at most one branch fires. */
  lemma PickInterval(wt: Weights, r: real, d: Direction)
    requires wt.NonNegative() && r >= 0.0
    ensures Pick(wt, r) == Some(d) <==> wt.Lower(d) <= r < wt.Upper(d)
  {
  }

  /** Direction d is chosen exactly when the scaled draw lies in d's interval. */
  lemma ChooseInterval(wt: Weights, u: UnitInterval, d: Direction)
    requires wt.NonNegative()
    ensures Choose(wt, u) == Some(d) <==> wt.Lower(d) <= RandomNumber(wt, u) < wt.Upper(d)
  {
    PickInterval(wt, RandomNumber(wt, u), d);
  }

  /** A picked direction always has a positive weight. */
  lemma PickHasWeight(wt: Weights, r: real)
    requires wt.NonNegative() && r >= 0.0
    ensures Pick(wt, r).Some? ==> wt.Of(Pick(wt, r).value) > 0.0
  {
  }

  /** Some branch fires exactly when r lies in [0, bf_sum). */
  lemma PickFires(wt: Weights, r: real)
    requires wt.NonNegative() && r >= 0.0
    ensures Pick(wt, r).Some? <==> r < wt.Total()
  {
  }

  /** A chosen direction always has a positive weight. */
  lemma ChosenHasWeight(wt: Weights, u: UnitInterval)
    requires wt.NonNegative()
    ensures Choose(wt, u).Some? ==> wt.Of(Choose(wt, u).value) > 0.0
  {
    PickHasWeight(wt, RandomNumber(wt, u));
  }

  /** Some branch fires exactly when the weights do not all vanish. */
  lemma ChooseFires(wt: Weights, u: UnitInterval)
    requires wt.NonNegative()
    ensures Choose(wt, u).Some? <==> wt.Total() > 0.0
  {
    PickFires(wt, RandomNumber(wt, u));
  }
}
