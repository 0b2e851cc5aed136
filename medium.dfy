/** class Medium of FluidDiffusion/lattice_model.py: a 2-D array of charge
    stacks, built from two occupancy arrays and replaced wholesale by every
    diffusion step. */
module Media {
  import opened Wrappers
  import opened ChargeStacks
  import opened Choice
  import opened Lattice
  import opened Conservation

  /** The value an array of charge stacks holds: `g[x][y]` is `a[x, y]`. */
  function GridOf(a: array2<ChargeStack>): (g: Grid)
    reads a
    ensures IsGrid(g, a.Length0, a.Length1)
    ensures forall x, y :: 0 <= x < a.Length0 && 0 <= y < a.Length1 ==> g[x][y] == a[x, y]
  {
    seq(a.Length0, x requires 0 <= x < a.Length0 reads a =>
      seq(a.Length1, y requires 0 <= y < a.Length1 reads a => a[x, y]))
  }

  /** numpy broadcasting of one axis: equal lengths, or a length 1 stretched to the other. */
  function BroadcastAxis(a: nat, b: nat): (r: Option<nat>)
    ensures r.Some? <==> (a == b || a == 1 || b == 1)
    ensures r.Some? ==> (a == r.value || a == 1) && (b == r.value || b == 1)
    ensures r.Some? ==> r.value == if a == 1 then b else a
  {
    if a == b then Some(a) else if a == 1 then Some(b) else if b == 1 then Some(a) else None
  }

  /** The index an axis of length n contributes to the broadcast index i. */
  function Stretch(i: nat, n: nat): nat {
    if n == 1 then 0 else i
  }

  /** The shape of the field np.vectorize(ChargeStack) builds from the two arrays. */
  function BroadcastShape(positive: array2<int>, negative: array2<int>): (r: Option<(nat, nat)>)
    ensures r.Some? <==>
      (positive.Length0 == negative.Length0 || positive.Length0 == 1 || negative.Length0 == 1) &&
      (positive.Length1 == negative.Length1 || positive.Length1 == 1 || negative.Length1 == 1)
    ensures r.Some? ==>
      r.value == (if positive.Length0 == 1 then negative.Length0 else positive.Length0,
                  if positive.Length1 == 1 then negative.Length1 else positive.Length1)
  {
    match (BroadcastAxis(positive.Length0, negative.Length0), BroadcastAxis(positive.Length1, negative.Length1))
    case (Some(w), Some(h)) => Some((w, h))
    case _ => None
  }

  predicate InShape(positive: array2<int>, negative: array2<int>, x: nat, y: nat) {
    BroadcastShape(positive, negative).Some? &&
    x < BroadcastShape(positive, negative).value.0 && y < BroadcastShape(positive, negative).value.1
  }

  /** The occupancies numpy hands to ChargeStack for cell (x, y) of the broadcast shape. */
  function OccupancyAt(positive: array2<int>, negative: array2<int>, x: nat, y: nat): (int, int)
    reads positive, negative
    requires InShape(positive, negative, x, y)
  {
    (positive[Stretch(x, positive.Length0), Stretch(y, positive.Length1)],
     negative[Stretch(x, negative.Length0), Stretch(y, negative.Length1)])
  }

  /** What ChargeStack builds for cell (x, y) of the broadcast shape. */
  function StackAt(positive: array2<int>, negative: array2<int>, coins: (int, int) -> (nat -> bool), x: nat, y: nat)
    : (r: Result<ChargeStack, StackError>)
    reads positive, negative
    requires InShape(positive, negative, x, y)
    ensures r.Failure? <==> Unsampleable(OccupancyAt(positive, negative, x, y).0, OccupancyAt(positive, negative, x, y).1)
    ensures r.Success? ==> AllUnit(r.value.charges)
  {
    InitialStack(OccupancyAt(positive, negative, x, y).0, OccupancyAt(positive, negative, x, y).1, coins(x, y))
  }

  /** Every cell of the broadcast shape can be built. */
  ghost predicate AllBuildable(positive: array2<int>, negative: array2<int>, coins: (int, int) -> (nat -> bool))
    reads positive, negative
  {
    forall x: nat, y: nat :: InShape(positive, negative, x, y) ==> StackAt(positive, negative, coins, x, y).Success?
  }

  /** e is the error of the first cell, in C order, whose ChargeStack raises. */
  ghost predicate FirstFailure(positive: array2<int>, negative: array2<int>, coins: (int, int) -> (nat -> bool), e: StackError)
    reads positive, negative
  {
    exists x: nat, y: nat :: InShape(positive, negative, x, y) &&
      StackAt(positive, negative, coins, x, y) == Failure(e) &&
      forall i: nat, j: nat :: InShape(positive, negative, i, j) && (i < x || (i == x && j < y)) ==>
        StackAt(positive, negative, coins, i, j).Success?
  }

  lemma FailureHere(positive: array2<int>, negative: array2<int>, coins: (int, int) -> (nat -> bool), x: nat, y: nat, e: StackError)
    requires InShape(positive, negative, x, y) && StackAt(positive, negative, coins, x, y) == Failure(e)
    requires forall i: nat, j: nat :: InShape(positive, negative, i, j) && (i < x || (i == x && j < y)) ==>
      StackAt(positive, negative, coins, i, j).Success?
    ensures FirstFailure(positive, negative, coins, e)
  {
  }

  /** Medium.__init__ fails when the arrays do not broadcast, or when a cell's
      ChargeStack asks np.random.choice for a negative sample size. */
  datatype MediumError = ShapeMismatch | SampleSize(cause: StackError)

  class Medium {
    var particleField: array2<ChargeStack>
    const relativePermittivity: Positive

    function Width(): nat
      reads this
    {
      particleField.Length0
    }

    function Height(): nat
      reads this
    {
      particleField.Length1
    }

    /** The lattice as a value. */
    function Cells(): Grid
      reads this, particleField
    {
      GridOf(particleField)
    }

    /** Every stored charge is +1 or -1. */
    ghost predicate Valid()
      reads this, particleField
    {
      UnitGrid(Cells(), Width(), Height())
    }

    /** A medium over an existing field of unit charges. */
    constructor FromField(field: array2<ChargeStack>, relativePermittivity: Positive)
      requires forall i, j :: 0 <= i < field.Length0 && 0 <= j < field.Length1 ==> AllUnit(field[i, j].charges)
      ensures particleField == field && this.relativePermittivity == relativePermittivity
      ensures Valid()
    {
      particleField := field;
      this.relativePermittivity := relativePermittivity;
      new;
      forall i, j | 0 <= i < field.Length0 && 0 <= j < field.Length1
        ensures AllUnit(Cells()[i][j].charges)
      {
        assert Cells()[i][j] == field[i, j];
      }
    }

    /** Medium.__init__: np.vectorize(ChargeStack) over the broadcast occupancy
        arrays; cell (x, y) draws its signs from coins(x, y). */
    static method Create(positive: array2<int>, negative: array2<int>, coins: (int, int) -> (nat -> bool),
                         relativePermittivity: Positive := 1.0)
      returns (r: Result<Medium, MediumError>)
      ensures r == Failure(ShapeMismatch) <==> BroadcastShape(positive, negative).None?
      ensures r.Success? <==> (BroadcastShape(positive, negative).Some? && AllBuildable(positive, negative, coins))
      ensures r.Failure? && r.error.SampleSize? ==> FirstFailure(positive, negative, coins, r.error.cause)
      ensures r.Success? ==>
        fresh(r.value) && fresh(r.value.particleField) && r.value.Valid() &&
        r.value.relativePermittivity == relativePermittivity &&
        BroadcastShape(positive, negative) == Some((r.value.Width(), r.value.Height())) &&
        forall x: nat, y: nat :: InShape(positive, negative, x, y) ==>
          StackAt(positive, negative, coins, x, y) == Success(r.value.particleField[x, y])
    {
      if BroadcastShape(positive, negative).None? {
        return Failure(ShapeMismatch);
      }
      var built := BuildField(positive, negative, coins);
      if built.Failure? {
        return Failure(SampleSize(built.error));
      }
      var field := built.value;
      forall i, j | 0 <= i < field.Length0 && 0 <= j < field.Length1
        ensures AllUnit(field[i, j].charges)
      {
        assert StackAt(positive, negative, coins, i, j) == Success(field[i, j]);
      }
      var m := new Medium.FromField(field, relativePermittivity);
      r := Success(m);
    }

    /** The element-wise pass of np.vectorize, in C order: x outer, y inner. The
        first cell whose ChargeStack raises ends the construction. */
    static method BuildField(positive: array2<int>, negative: array2<int>, coins: (int, int) -> (nat -> bool))
      returns (r: Result<array2<ChargeStack>, StackError>)
      requires BroadcastShape(positive, negative).Some?
      ensures r.Success? <==> AllBuildable(positive, negative, coins)
      ensures r.Failure? ==> FirstFailure(positive, negative, coins, r.error)
      ensures r.Success? ==>
        fresh(r.value) && BroadcastShape(positive, negative) == Some((r.value.Length0, r.value.Length1)) &&
        forall x: nat, y: nat :: InShape(positive, negative, x, y) ==>
          StackAt(positive, negative, coins, x, y) == Success(r.value[x, y])
    {
      var (w, h) := BroadcastShape(positive, negative).value;
      var field := new ChargeStack[w, h]((i, j) => ChargeStack([]));
      var x := 0;
      while x < w
        invariant 0 <= x <= w
        invariant forall i: nat, j: nat :: i < x && j < h ==> StackAt(positive, negative, coins, i, j) == Success(field[i, j])
      {
        var failure := BuildColumn(field, positive, negative, coins, x);
        if failure.Some? {
          return Failure(failure.value);
        }
        x := x + 1;
      }
      r := Success(field);
    }

    /** Cells (x, 0), (x, 1), ... of the field, up to the first that raises. */
    static method BuildColumn(field: array2<ChargeStack>, positive: array2<int>, negative: array2<int>,
                              coins: (int, int) -> (nat -> bool), x: nat)
      returns (failure: Option<StackError>)
      requires BroadcastShape(positive, negative) == Some((field.Length0, field.Length1)) && x < field.Length0
      requires forall i: nat, j: nat :: i < x && j < field.Length1 ==> StackAt(positive, negative, coins, i, j).Success?
      modifies field
      ensures forall i, j :: 0 <= i < field.Length0 && 0 <= j < field.Length1 && i != x ==> field[i, j] == old(field[i, j])
      ensures failure.None? ==> forall j: nat :: j < field.Length1 ==> StackAt(positive, negative, coins, x, j) == Success(field[x, j])
      ensures failure.None? <==> forall j: nat :: j < field.Length1 ==> StackAt(positive, negative, coins, x, j).Success?
      ensures failure.Some? ==> FirstFailure(positive, negative, coins, failure.value)
    {
      var y := 0;
      while y < field.Length1
        invariant 0 <= y <= field.Length1
        invariant forall i, j :: 0 <= i < field.Length0 && 0 <= j < field.Length1 && i != x ==> field[i, j] == old(field[i, j])
        invariant forall j: nat :: j < y ==> StackAt(positive, negative, coins, x, j) == Success(field[x, j])
      {
        var p := positive[Stretch(x, positive.Length0), Stretch(y, positive.Length1)];
        var n := negative[Stretch(x, negative.Length0), Stretch(y, negative.Length1)];
        var cell := NewChargeStack(p, n, coins(x, y));
        assert cell == StackAt(positive, negative, coins, x, y);
        if cell.Failure? {
          forall i: nat, j: nat | InShape(positive, negative, i, j) && (i < x || (i == x && j < y))
            ensures StackAt(positive, negative, coins, i, j).Success?
          {
            if i == x {
              assert StackAt(positive, negative, coins, x, j) == Success(field[x, j]);
            }
          }
          FailureHere(positive, negative, coins, x, y, cell.error);
          return Some(cell.error);
        }
        field[x, y] := cell.value;
        y := y + 1;
      }
      failure := None;
    }

    /** update_charge_distribution: every charge of the old field moves to a
        Boltzmann-weighted orthogonal neighbour in a fresh template, visited in
        meshgrid order (y outer, x inner); the template then replaces the field. */
    method UpdateChargeDistribution(exp: real -> Positive, draw: Draws, temperature: Positive := RoomTemperature)
      requires Valid()
      modifies this
      ensures fresh(particleField)
      ensures Width() == old(Width()) && Height() == old(Height())
      ensures Cells() == StepResult(StepInput(old(Cells()), Width(), Height(),
                                               Physics(relativePermittivity, temperature, exp), draw))
      ensures Valid()
      ensures Width() >= 2 || Height() >= 2 ==>
        multiset(AllCharges(Cells(), Width(), Height())) == multiset(AllCharges(old(Cells()), Width(), Height()))
      ensures Width() >= 2 || Height() >= 2 ==>
        FieldSum(GetPopulationField(), Width(), Height()) == old(FieldSum(GetPopulationField(), Width(), Height()))
      ensures Width() >= 2 || Height() >= 2 ==>
        FieldSum(GetChargeField(), Width(), Height()) == old(FieldSum(GetChargeField(), Width(), Height()))
      ensures Width() == 1 && Height() == 1 ==> Cells() == [[ChargeStack([])]]
    {
      var w, h := particleField.Length0, particleField.Length1;
      var c := StepInput(Cells(), w, h, Physics(relativePermittivity, temperature, exp), draw);
      var template := new ChargeStack[w, h]((i, j) => ChargeStack([]));
      SameGrid(GridOf(template), EmptyGrid(w, h), w, h);
      MoveAllCells(c, template);
      particleField := template;
      StepSummary(c);
    }

    /** vectorized_move_cell(mesh_x, mesh_y): move_cell on every cell, y outer, x inner. */
    static method MoveAllCells(c: StepInput, template: array2<ChargeStack>)
      requires c.Valid() && template.Length0 == c.width && template.Length1 == c.height
      requires GridOf(template) == EmptyGrid(c.width, c.height)
      modifies template
      ensures GridOf(template) == StepResult(c)
    {
      var y := 0;
      while y < c.height
        invariant 0 <= y <= c.height
        invariant SweepFrom(c, GridOf(template), 0, y) == StepResult(c)
      {
        var x := 0;
        while x < c.width
          invariant 0 <= x <= c.width
          invariant SweepFrom(c, GridOf(template), x, y) == StepResult(c)
        {
          ghost var before := GridOf(template);
          MoveCellCharges(c, template, x, y);
          assert SweepFrom(c, before, x, y) == SweepFrom(c, GridOf(template), x + 1, y);
          x := x + 1;
        }
        y := y + 1;
      }
    }

    /** move_cell(x, y): move_particle for every charge of old cell (x, y), in list order. */
    static method MoveCellCharges(c: StepInput, template: array2<ChargeStack>, x: int, y: int)
      requires c.Valid() && InBounds((x, y), c.width, c.height)
      requires template.Length0 == c.width && template.Length1 == c.height
      modifies template
      ensures GridOf(template) == MoveCell(c, old(GridOf(template)), x, y, 0)
    {
      var charges := c.field[x][y].charges;
      var k := 0;
      while k < |charges|
        invariant 0 <= k <= |charges|
        invariant MoveCell(c, GridOf(template), x, y, k) == MoveCell(c, old(GridOf(template)), x, y, 0)
      {
        MoveParticle(c, template, x, y, k);
        k := k + 1;
      }
    }

    /** move_particle for the k-th charge q1 of old cell (x, y): the four
        neighbour weights, a draw in [0, bf_sum) and the branch chain that
        appends q1 to the neighbour whose interval holds the draw. */
    static method MoveParticle(c: StepInput, template: array2<ChargeStack>, x: int, y: int, k: nat)
      requires c.Valid() && InBounds((x, y), c.width, c.height) && k < |c.field[x][y].charges|
      requires template.Length0 == c.width && template.Length1 == c.height
      modifies template
      ensures GridOf(template) == Deliver(old(GridOf(template)), c.width, c.height,
                                          Destination(c, x, y, k), c.field[x][y].charges[k])
    {
      var q1 := c.field[x][y].charges[k];
      var wt := ChargeWeights(c, x, y, q1);
      var bfSum := wt.Total();
      var limitRight := wt.left + wt.right;
      var limitTop := limitRight + wt.top;
      var randomNumber := RandomNumber(wt, c.draw(x, y, k));
      assert wt.Of(Left) == wt.left && wt.Of(Right) == wt.right && wt.Of(Top) == wt.top && wt.Of(Bottom) == wt.bottom;
      if randomNumber < wt.left {
        Append(template, x - 1, y, q1);
      } else if wt.left <= randomNumber < limitRight {
        Append(template, x + 1, y, q1);
      } else if limitRight <= randomNumber < limitTop {
        Append(template, x, y - 1, q1);
      } else if limitTop <= randomNumber < bfSum {
        Append(template, x, y + 1, q1);
      }
    }

    /** `template[i, j].charges.append(q)`. */
    static method Append(template: array2<ChargeStack>, i: int, j: int, q: int)
      requires 0 <= i < template.Length0 && 0 <= j < template.Length1
      modifies template
      ensures GridOf(template) == Deliver(old(GridOf(template)), template.Length0, template.Length1, Some((i, j)), q)
    {
      ghost var before := GridOf(template);
      template[i, j] := ChargeStack(template[i, j].charges + [q]);
      ghost var expected := Deliver(before, template.Length0, template.Length1, Some((i, j)), q);
      forall a, b | 0 <= a < template.Length0 && 0 <= b < template.Length1
        ensures GridOf(template)[a][b] == expected[a][b]
      {
        if a == i && b == j {
          assert expected[a][b] == ChargeStack(before[i][j].charges + [q]);
        } else {
          assert expected[a][b] == before[a][b];
        }
      }
      SameGrid(GridOf(template), expected, template.Length0, template.Length1);
    }

    /** get_charge_field: total_charge() of every cell, in the field's shape. */
    function GetChargeField(): (f: seq<seq<int>>)
      reads this, particleField
      ensures IsField(f, Width(), Height())
      ensures forall x, y :: 0 <= x < Width() && 0 <= y < Height() ==> f[x][y] == particleField[x, y].TotalCharge()
    {
      ChargeField(Cells(), Width(), Height())
    }

    /** get_population_field: population() of every cell, in the field's shape. */
    function GetPopulationField(): (f: seq<seq<int>>)
      reads this, particleField
      ensures IsField(f, Width(), Height())
      ensures forall x, y :: 0 <= x < Width() && 0 <= y < Height() ==> f[x][y] == particleField[x, y].Population()
    {
      PopulationField(Cells(), Width(), Height())
    }
  }
}
