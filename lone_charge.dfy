/** One step of a lattice that holds a single charge: the step reduces to one
    move_particle call, so the charge ends alone on the neighbour it drew. */
module LoneCharges {
  import opened Wrappers
  import opened ChargeStacks
  import opened Choice
  import opened Lattice
  import opened Conservation

  /** The only charge of g is q, in cell (i, j). */
  predicate LoneCharge(g: Grid, w: nat, h: nat, i: int, j: int, q: int)
    requires IsGrid(g, w, h)
  {
    InBounds((i, j), w, h) && g[i][j].charges == [q] &&
    forall x, y :: 0 <= x < w && 0 <= y < h && (x != i || y != j) ==> g[x][y].charges == []
  }

  /** The cells visited before (i, j) leave the template alone; cell (i, j)
      delivers its one charge; the cells after it leave the template alone. */
  lemma {:induction false} LoneSweep(c: StepInput, t: Grid, x: nat, y: nat, i: int, j: int, q: int)
    requires c.Valid() && IsGrid(t, c.width, c.height) && x <= c.width && y <= c.height
    requires LoneCharge(c.field, c.width, c.height, i, j, q)
    ensures SweepFrom(c, t, x, y)
         == if AtOrAfter(i, j, x, y) then Deliver(t, c.width, c.height, Destination(c, i, j, 0), q) else t
    decreases c.height - y, c.width - x, 1
  {
    if y == c.height {
    } else if x == c.width {
      LoneSweep(c, t, 0, y + 1, i, j, q);
    } else {
      LoneSweepStep(c, t, x, y, i, j, q);
    }
  }

  lemma {:induction false} LoneSweepStep(c: StepInput, t: Grid, x: nat, y: nat, i: int, j: int, q: int)
    requires c.Valid() && IsGrid(t, c.width, c.height) && x < c.width && y < c.height
    requires LoneCharge(c.field, c.width, c.height, i, j, q)
    ensures SweepFrom(c, t, x, y)
         == if AtOrAfter(i, j, x, y) then Deliver(t, c.width, c.height, Destination(c, i, j, 0), q) else t
    decreases c.height - y, c.width - x, 0
  {
    if x == i && y == j {
      var u := Deliver(t, c.width, c.height, Destination(c, i, j, 0), q);
      assert MoveCell(c, t, x, y, 0) == MoveCell(c, u, x, y, 1) == u;
      LoneSweep(c, u, x + 1, y, i, j, q);
    } else {
      assert MoveCell(c, t, x, y, 0) == t;
      LoneSweep(c, t, x + 1, y, i, j, q);
      assert AtOrAfter(i, j, x, y) == AtOrAfter(i, j, x + 1, y);
    }
  }

  /** On every lattice shape, the step is one move_particle call for the lone
      charge into the empty template. */
  lemma LoneChargeStep(c: StepInput, i: int, j: int, q: int)
    requires c.Valid() && LoneCharge(c.field, c.width, c.height, i, j, q)
    ensures StepResult(c) == Deliver(EmptyGrid(c.width, c.height), c.width, c.height, Destination(c, i, j, 0), q)
  {
    LoneSweep(c, EmptyGrid(c.width, c.height), 0, 0, i, j, q);
  }

  /** Delivering q into an empty lattice leaves q alone in the target cell. */
  lemma DeliverIntoEmpty(w: nat, h: nat, a: int, b: int, q: int)
    requires InBounds((a, b), w, h)
    ensures LoneCharge(Deliver(EmptyGrid(w, h), w, h, Some((a, b)), q), w, h, a, b, q)
  {
    var g: Grid := Deliver(EmptyGrid(w, h), w, h, Some((a, b)), q);
    assert g[a][b].charges == ([] + [q]);
  }

  /** A lone charge on a lattice that is not 1 x 1 ends the step alone on one
      of the four orthogonal neighbours of its cell: it never stays and never
      leaves the lattice. */
  lemma LoneChargeMoves(c: StepInput, i: int, j: int, q: int)
    requires c.Valid() && (c.width >= 2 || c.height >= 2)
    requires LoneCharge(c.field, c.width, c.height, i, j, q)
    ensures exists d :: LoneCharge(StepResult(c), c.width, c.height, Neighbour(i, j, d).0, Neighbour(i, j, d).1, q)
    ensures StepResult(c)[i][j].charges == []
  {
    LoneChargeStep(c, i, j, q);
    DestinationExists(c, i, j, 0);
    var (a, b) := Destination(c, i, j, 0).value;
    var d :| (a, b) == Neighbour(i, j, d);
    DeliverIntoEmpty(c.width, c.height, a, b, q);
    assert LoneCharge(StepResult(c), c.width, c.height, Neighbour(i, j, d).0, Neighbour(i, j, d).1, q);
    assert (a, b) != (i, j);
  }

  /** The charge at the centre of a 3 x 3 lattice always leaves the centre. */
  lemma CentreChargeLeaves(c: StepInput, q: int)
    requires c.Valid() && c.width == 3 && c.height == 3
    requires LoneCharge(c.field, 3, 3, 1, 1, q)
    ensures StepResult(c)[1][1].charges == []
    ensures exists d :: LoneCharge(StepResult(c), 3, 3, Neighbour(1, 1, d).0, Neighbour(1, 1, d).1, q)
  {
    LoneChargeMoves(c, 1, 1, q);
  }
}
