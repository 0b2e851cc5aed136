/** The synchronous diffusion step of Medium.update_charge_distribution
    (FluidDiffusion/lattice_model.py), stated on values: a grid `g[x][y]` of
    charge stacks of shape width x height, as numpy indexes `self_field[x, y]`. */
module Lattice {
  import opened Wrappers
  import opened ChargeStacks
  import opened Choice

  // Physical constants of the source, in S.I. units.
  const FluidElementSize: real := 0.000001
  const TemperaturePrefactor: real := 0.0000167
  const CharacteristicTemperature: real := TemperaturePrefactor / FluidElementSize
  /** The default temperature of a step, in kelvin. */
  const RoomTemperature: Positive := 298.0

  type Positive = r: real | r > 0.0 witness 1.0

  /** The draw used for the k-th charge of old cell (x, y). */
  type Draws = (int, int, int) -> UnitInterval

  /** The numeric context of one step: `np.exp` is abstracted as a function
      returning a positive real. */
  datatype Physics = Physics(relativePermittivity: Positive, temperature: Positive, exp: real -> Positive)

  type Grid = seq<seq<ChargeStack>>

  predicate IsGrid(g: Grid, w: nat, h: nat) {
    |g| == w && forall x :: 0 <= x < w ==> |g[x]| == h
  }

  predicate InBounds(p: (int, int), w: nat, h: nat) {
    0 <= p.0 < w && 0 <= p.1 < h
  }

  /** Every charge on the lattice is +1 or -1. */
  predicate UnitGrid(g: Grid, w: nat, h: nat)
    requires IsGrid(g, w, h)
  {
    forall x, y :: 0 <= x < w && 0 <= y < h ==> AllUnit(g[x][y].charges)
  }

  /** Two grids of one shape that agree cell by cell are equal. */
  lemma SameGrid(a: Grid, b: Grid, w: nat, h: nat)
    requires IsGrid(a, w, h) && IsGrid(b, w, h)
    requires forall x, y :: 0 <= x < w && 0 <= y < h ==> a[x][y] == b[x][y]
    ensures a == b
  {
    forall x | 0 <= x < w
      ensures a[x] == b[x]
    {
      assert forall y :: 0 <= y < h ==> a[x][y] == b[x][y];
    }
  }

  /** The template of line 79: every cell built from zero occupancies. */
  function EmptyGrid(w: nat, h: nat): (r: Grid)
    ensures IsGrid(r, w, h)
    ensures forall x, y :: 0 <= x < w && 0 <= y < h ==> r[x][y].charges == []
  {
    seq(w, x => seq(h, y => ChargeStack([])))
  }

  /** Everything one step reads: the old field, its shape, the physics and the draws. */
  datatype StepInput = StepInput(field: Grid, width: nat, height: nat, physics: Physics, draw: Draws) {
    predicate Valid() {
      IsGrid(field, width, height)
    }
  }

  /** get_boltzmann_factor: the weight of moving charge q1 to (nx, ny). The
      charge q2 at the destination is read from the old field only. */
  function BoltzmannFactor(c: StepInput, q1: int, nx: int, ny: int): (r: real)
    requires c.Valid()
    requires -1 <= nx <= c.width && -1 <= ny <= c.height
    ensures r >= 0.0
    ensures r > 0.0 <==> InBounds((nx, ny), c.width, c.height)
  {
    if nx != -1 && nx != c.width && ny != -1 && ny != c.height then
      var q2 := c.field[nx][ny].TotalCharge();
      var scale := c.physics.relativePermittivity * c.physics.temperature;
      assert scale > 0.0;
      c.physics.exp(-(CharacteristicTemperature * (q1 as real) * (q2 as real)) / scale)
    else
      0.0
  }

  /** The weights of the four neighbours of (x, y) for the charge q. */
  function ChargeWeights(c: StepInput, x: int, y: int, q: int): (wt: Weights)
    requires c.Valid() && InBounds((x, y), c.width, c.height)
    ensures wt.NonNegative()
    ensures forall d :: wt.Of(d) > 0.0 <==> InBounds(Neighbour(x, y, d), c.width, c.height)
  {
    Weights(BoltzmannFactor(c, q, x - 1, y), BoltzmannFactor(c, q, x + 1, y),
            BoltzmannFactor(c, q, x, y - 1), BoltzmannFactor(c, q, x, y + 1))
  }

  /** move_particle for the k-th charge of old cell (x, y): the template cell
      that receives it, or None when it is dropped. */
  function Destination(c: StepInput, x: int, y: int, k: int): (r: Option<(int, int)>)
    requires c.Valid() && InBounds((x, y), c.width, c.height)
    requires 0 <= k < |c.field[x][y].charges|
    ensures r.Some? ==> InBounds(r.value, c.width, c.height)
    ensures r.Some? ==> exists d :: r.value == Neighbour(x, y, d)
  {
    var wt := ChargeWeights(c, x, y, c.field[x][y].charges[k]);
    var u := c.draw(x, y, k);
    ChosenHasWeight(wt, u);
    match Choose(wt, u)
    case None => None
    case Some(d) => Some(Neighbour(x, y, d))
  }

  /** Some neighbour weighs more than 0 exactly when the lattice is not 1 x 1. */
  lemma WeightsVanish(c: StepInput, x: int, y: int, q: int)
    requires c.Valid() && InBounds((x, y), c.width, c.height)
    ensures ChargeWeights(c, x, y, q).Total() > 0.0 <==> (c.width >= 2 || c.height >= 2)
  {
    var w, h := c.width, c.height;
    var wt := ChargeWeights(c, x, y, q);
    if w >= 2 || h >= 2 {
      var d := if x >= 1 then Left else if x + 1 < w then Right else if y >= 1 then Top else Bottom;
      assert InBounds(Neighbour(x, y, d), w, h);
      assert wt.Of(d) > 0.0;
    } else {
      assert !InBounds(Neighbour(x, y, Left), w, h) && !InBounds(Neighbour(x, y, Right), w, h);
      assert !InBounds(Neighbour(x, y, Top), w, h) && !InBounds(Neighbour(x, y, Bottom), w, h);
    }
  }

  /** A charge is dropped only on a 1 x 1 lattice, where no neighbour exists. */
  lemma DestinationExists(c: StepInput, x: int, y: int, k: int)
    requires c.Valid() && InBounds((x, y), c.width, c.height)
    requires 0 <= k < |c.field[x][y].charges|
    ensures Destination(c, x, y, k).Some? <==> (c.width >= 2 || c.height >= 2)
  {
    WeightsVanish(c, x, y, c.field[x][y].charges[k]);
  }

  /** A moved charge lands on an orthogonal neighbour, never on its own cell. */
  lemma DestinationIsNeighbour(c: StepInput, x: int, y: int, k: int)
    requires c.Valid() && InBounds((x, y), c.width, c.height)
    requires 0 <= k < |c.field[x][y].charges|
    ensures Destination(c, x, y, k).Some? ==>
      var (i, j) := Destination(c, x, y, k).value;
      (if i < x then x - i else i - x) + (if j < y then y - j else j - y) == 1
  {
  }

  /** `template[i, j].charges.append(q)`, when the charge has a destination. */
  function Deliver(t: Grid, w: nat, h: nat, dest: Option<(int, int)>, q: int): (r: Grid)
    requires IsGrid(t, w, h)
    requires dest.Some? ==> InBounds(dest.value, w, h)
    ensures IsGrid(r, w, h)
  {
    match dest
    case None => t
    case Some((i, j)) => t[i := t[i][j := ChargeStack(t[i][j].charges + [q])]]
  }

  /** move_cell from the k-th charge of old cell (x, y) on, appending into t. */
  function MoveCell(c: StepInput, t: Grid, x: int, y: int, k: nat): (r: Grid)
    requires c.Valid() && IsGrid(t, c.width, c.height) && InBounds((x, y), c.width, c.height)
    requires k <= |c.field[x][y].charges|
    ensures IsGrid(r, c.width, c.height)
    decreases |c.field[x][y].charges| - k
  {
    if k == |c.field[x][y].charges| then t
    else
      var dest := Destination(c, x, y, k);
      MoveCell(c, Deliver(t, c.width, c.height, dest, c.field[x][y].charges[k]), x, y, k + 1)
  }

  /** The cell pass of lines 119-120 from (x, y) on, in the order numpy visits
      the meshgrid: y outer, x inner. */
  function SweepFrom(c: StepInput, t: Grid, x: nat, y: nat): (r: Grid)
    requires c.Valid() && IsGrid(t, c.width, c.height)
    requires x <= c.width && y <= c.height
    ensures IsGrid(r, c.width, c.height)
    decreases c.height - y, c.width - x
  {
    if y == c.height then t
    else if x == c.width then SweepFrom(c, t, 0, y + 1)
    else SweepFrom(c, MoveCell(c, t, x, y, 0), x + 1, y)
  }

  /** The field one step produces: the filled template. */
  function StepResult(c: StepInput): (r: Grid)
    requires c.Valid()
    ensures IsGrid(r, c.width, c.height)
  {
    SweepFrom(c, EmptyGrid(c.width, c.height), 0, 0)
  }

  /** Every lattice charge, in the step's visiting order. */
  function ChargesFrom(g: Grid, w: nat, h: nat, x: nat, y: nat): seq<int>
    requires IsGrid(g, w, h) && x <= w && y <= h
    decreases h - y, w - x
  {
    if y == h then []
    else if x == w then ChargesFrom(g, w, h, 0, y + 1)
    else g[x][y].charges + ChargesFrom(g, w, h, x + 1, y)
  }

  function AllCharges(g: Grid, w: nat, h: nat): seq<int>
    requires IsGrid(g, w, h)
  {
    ChargesFrom(g, w, h, 0, 0)
  }

  predicate IsField(f: seq<seq<int>>, w: nat, h: nat) {
    |f| == w && forall x :: 0 <= x < w ==> |f[x]| == h
  }

  /** get_population_field on a grid value: population() cell by cell. */
  function PopulationField(g: Grid, w: nat, h: nat): (f: seq<seq<int>>)
    requires IsGrid(g, w, h)
    ensures IsField(f, w, h)
    ensures forall x, y :: 0 <= x < w && 0 <= y < h ==> f[x][y] == g[x][y].Population()
  {
    seq(w, x requires 0 <= x < w => seq(h, y requires 0 <= y < h => g[x][y].Population()))
  }

  /** get_charge_field on a grid value: total_charge() cell by cell. */
  function ChargeField(g: Grid, w: nat, h: nat): (f: seq<seq<int>>)
    requires IsGrid(g, w, h)
    ensures IsField(f, w, h)
    ensures forall x, y :: 0 <= x < w && 0 <= y < h ==> f[x][y] == g[x][y].TotalCharge()
  {
    seq(w, x requires 0 <= x < w => seq(h, y requires 0 <= y < h => g[x][y].TotalCharge()))
  }

  /** The sum of an integer field over the cells at or after (x, y). */
  function FieldSumFrom(f: seq<seq<int>>, w: nat, h: nat, x: nat, y: nat): int
    requires IsField(f, w, h) && x <= w && y <= h
    decreases h - y, w - x
  {
    if y == h then 0
    else if x == w then FieldSumFrom(f, w, h, 0, y + 1)
    else f[x][y] + FieldSumFrom(f, w, h, x + 1, y)
  }

  function FieldSum(f: seq<seq<int>>, w: nat, h: nat): int
    requires IsField(f, w, h)
  {
    FieldSumFrom(f, w, h, 0, 0)
  }

  /** The loop of lines 198-199: n steps, each with fresh draws. */
  function Simulate(g: Grid, w: nat, h: nat, physics: Physics, draws: nat -> Draws, n: nat): (r: Grid)
    requires IsGrid(g, w, h)
    ensures IsGrid(r, w, h)
  {
    if n == 0 then g
    else StepResult(StepInput(Simulate(g, w, h, physics, draws, n - 1), w, h, physics, draws(n - 1)))
  }
}
