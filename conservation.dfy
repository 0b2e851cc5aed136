/** What one diffusion step keeps: the shape of the lattice, unit charges and,
    on every lattice with more than one cell, the multiset of charges. */
module Conservation {
  import opened Wrappers
  import opened ChargeStacks
  import opened Choice
  import opened Lattice

  /** Cell (i, j) is visited at or after (x, y) in the step's order. */
  predicate AtOrAfter(i: int, j: int, x: int, y: int) {
    j > y || (j == y && i >= x)
  }

  lemma {:induction false} EmptyGridHasNoCharges(w: nat, h: nat, x: nat, y: nat)
    requires x <= w && y <= h
    ensures ChargesFrom(EmptyGrid(w, h), w, h, x, y) == []
    decreases h - y, w - x
  {
    if y == h {
    } else if x == w {
      EmptyGridHasNoCharges(w, h, 0, y + 1);
    } else {
      EmptyGridHasNoCharges(w, h, x + 1, y);
    }
  }

  /** A lattice without cells holds no charges. */
  lemma {:induction false} NoCellsNoCharges(g: Grid, w: nat, h: nat, x: nat, y: nat)
    requires IsGrid(g, w, h) && x <= w && y <= h
    requires w == 0 || h == 0
    ensures ChargesFrom(g, w, h, x, y) == []
    decreases h - y, w - x
  {
    if y == h {
    } else if x == w {
      NoCellsNoCharges(g, w, h, 0, y + 1);
    } else {
      assert false;
    }
  }

  /** What appending q to cell (i, j) adds to the charges visited from (x, y) on. */
  function Added(i: int, j: int, q: int, x: int, y: int): multiset<int> {
    if AtOrAfter(i, j, x, y) then multiset{q} else multiset{}
  }

  /** What appending q to cell (i, j) adds to cell (x, y) itself. */
  function Here(i: int, j: int, q: int, x: int, y: int): multiset<int> {
    if x == i && y == j then multiset{q} else multiset{}
  }

  lemma AddedSplit(i: int, j: int, q: int, x: int, y: int)
    ensures Added(i, j, q, x, y) == Here(i, j, q, x, y) + Added(i, j, q, x + 1, y)
  {
  }

  lemma DeliverCell(t: Grid, u: Grid, w: nat, h: nat, i: int, j: int, q: int, x: nat, y: nat)
    requires IsGrid(t, w, h) && InBounds((i, j), w, h) && x < w && y < h
    requires u == Deliver(t, w, h, Some((i, j)), q)
    ensures multiset(u[x][y].charges) == multiset(t[x][y].charges) + Here(i, j, q, x, y)
  {
    if x == i && y == j {
      assert u[x][y].charges == t[x][y].charges + [q];
    } else {
      assert u[x][y] == t[x][y];
    }
  }

  /** One visited cell: its own charges, then those visited after it. */
  lemma {:induction false} DeliverAddsOneAtCell(t: Grid, u: Grid, w: nat, h: nat, i: int, j: int, q: int, x: nat, y: nat)
    requires IsGrid(t, w, h) && InBounds((i, j), w, h) && x < w && y < h
    requires u == Deliver(t, w, h, Some((i, j)), q)
    requires multiset(ChargesFrom(u, w, h, x + 1, y)) == multiset(ChargesFrom(t, w, h, x + 1, y)) + Added(i, j, q, x + 1, y)
    ensures multiset(ChargesFrom(u, w, h, x, y)) == multiset(ChargesFrom(t, w, h, x, y)) + Added(i, j, q, x, y)
  {
    DeliverCell(t, u, w, h, i, j, q, x, y);
    AddedSplit(i, j, q, x, y);
    assert ChargesFrom(u, w, h, x, y) == u[x][y].charges + ChargesFrom(u, w, h, x + 1, y);
    assert ChargesFrom(t, w, h, x, y) == t[x][y].charges + ChargesFrom(t, w, h, x + 1, y);
  }

  /** Appending q to cell (i, j) adds exactly one q to the lattice's charges. */
  lemma {:induction false} DeliverAddsOne(t: Grid, u: Grid, w: nat, h: nat, i: int, j: int, q: int, x: nat, y: nat)
    requires IsGrid(t, w, h) && InBounds((i, j), w, h) && x <= w && y <= h
    requires u == Deliver(t, w, h, Some((i, j)), q)
    ensures multiset(ChargesFrom(u, w, h, x, y)) == multiset(ChargesFrom(t, w, h, x, y)) + Added(i, j, q, x, y)
    decreases h - y, w - x, 1
  {
    if y == h {
      assert ChargesFrom(u, w, h, x, y) == [] == ChargesFrom(t, w, h, x, y);
    } else if x == w {
      DeliverAddsOneRowEnd(t, u, w, h, i, j, q, y);
    } else {
      DeliverAddsOneCellCase(t, u, w, h, i, j, q, x, y);
    }
  }

  lemma {:induction false} DeliverAddsOneCellCase(t: Grid, u: Grid, w: nat, h: nat, i: int, j: int, q: int, x: nat, y: nat)
    requires IsGrid(t, w, h) && InBounds((i, j), w, h) && x < w && y < h
    requires u == Deliver(t, w, h, Some((i, j)), q)
    ensures multiset(ChargesFrom(u, w, h, x, y)) == multiset(ChargesFrom(t, w, h, x, y)) + Added(i, j, q, x, y)
    decreases h - y, w - x, 0
  {
    DeliverAddsOne(t, u, w, h, i, j, q, x + 1, y);
    DeliverAddsOneAtCell(t, u, w, h, i, j, q, x, y);
  }

  lemma {:induction false} DeliverAddsOneRowEnd(t: Grid, u: Grid, w: nat, h: nat, i: int, j: int, q: int, y: nat)
    requires IsGrid(t, w, h) && InBounds((i, j), w, h) && y < h
    requires u == Deliver(t, w, h, Some((i, j)), q)
    ensures multiset(ChargesFrom(u, w, h, w, y)) == multiset(ChargesFrom(t, w, h, w, y)) + Added(i, j, q, w, y)
    decreases h - y, 0, 0
  {
    DeliverAddsOne(t, u, w, h, i, j, q, 0, y + 1);
    assert Added(i, j, q, w, y) == Added(i, j, q, 0, y + 1);
  }

  /** One moved charge: delivering the k-th charge of (x, y) to its destination
      adds exactly that charge to the template. */
  lemma MoveOneConserves(c: StepInput, t: Grid, u: Grid, x: int, y: int, k: nat)
    requires c.Valid() && IsGrid(t, c.width, c.height) && InBounds((x, y), c.width, c.height)
    requires k < |c.field[x][y].charges|
    requires c.width >= 2 || c.height >= 2
    requires u == Deliver(t, c.width, c.height, Destination(c, x, y, k), c.field[x][y].charges[k])
    ensures multiset(AllCharges(u, c.width, c.height))
         == multiset(AllCharges(t, c.width, c.height)) + multiset{c.field[x][y].charges[k]}
  {
    DestinationExists(c, x, y, k);
    var (i, j) := Destination(c, x, y, k).value;
    DeliverAddsOne(t, u, c.width, c.height, i, j, c.field[x][y].charges[k], 0, 0);
  }

  /** On a lattice with a neighbour for every cell, moving the charges of one
      cell from the k-th on adds exactly those charges to the template. */
  lemma {:induction false} MoveCellConserves(c: StepInput, t: Grid, x: int, y: int, k: nat)
    requires c.Valid() && IsGrid(t, c.width, c.height) && InBounds((x, y), c.width, c.height)
    requires k <= |c.field[x][y].charges|
    requires c.width >= 2 || c.height >= 2
    ensures multiset(AllCharges(MoveCell(c, t, x, y, k), c.width, c.height))
         == multiset(AllCharges(t, c.width, c.height)) + multiset(c.field[x][y].charges[k..])
    decreases |c.field[x][y].charges| - k, 1
  {
    if k < |c.field[x][y].charges| {
      MoveCellConservesStep(c, t, x, y, k);
    } else {
      assert c.field[x][y].charges[k..] == [];
    }
  }

  lemma {:induction false} MoveCellConservesStep(c: StepInput, t: Grid, x: int, y: int, k: nat)
    requires c.Valid() && IsGrid(t, c.width, c.height) && InBounds((x, y), c.width, c.height)
    requires k < |c.field[x][y].charges|
    requires c.width >= 2 || c.height >= 2
    ensures multiset(AllCharges(MoveCell(c, t, x, y, k), c.width, c.height))
         == multiset(AllCharges(t, c.width, c.height)) + multiset(c.field[x][y].charges[k..])
    decreases |c.field[x][y].charges| - k, 0
  {
    var u: Grid := Deliver(t, c.width, c.height, Destination(c, x, y, k), c.field[x][y].charges[k]);
    MoveOneConserves(c, t, u, x, y, k);
    MoveCellConserves(c, u, x, y, k + 1);
    MoveCellUnfold(c, t, u, x, y, k);
    SuffixHead(c.field[x][y].charges, k);
  }

  lemma MoveCellUnfold(c: StepInput, t: Grid, u: Grid, x: int, y: int, k: nat)
    requires c.Valid() && IsGrid(t, c.width, c.height) && InBounds((x, y), c.width, c.height)
    requires k < |c.field[x][y].charges|
    requires u == Deliver(t, c.width, c.height, Destination(c, x, y, k), c.field[x][y].charges[k])
    ensures MoveCell(c, t, x, y, k) == MoveCell(c, u, x, y, k + 1)
  {
  }

  lemma SuffixHead(s: seq<int>, k: nat)
    requires k < |s|
    ensures multiset(s[k..]) == multiset{s[k]} + multiset(s[k + 1..])
  {
    assert s[k..] == [s[k]] + s[k + 1..];
  }

  lemma {:induction false} SweepConserves(c: StepInput, t: Grid, x: nat, y: nat)
    requires c.Valid() && IsGrid(t, c.width, c.height) && x <= c.width && y <= c.height
    requires c.width >= 2 || c.height >= 2
    ensures multiset(AllCharges(SweepFrom(c, t, x, y), c.width, c.height))
         == multiset(AllCharges(t, c.width, c.height)) + multiset(ChargesFrom(c.field, c.width, c.height, x, y))
    decreases c.height - y, c.width - x, 1
  {
    if y == c.height {
    } else if x == c.width {
      SweepConservesRowEnd(c, t, y);
    } else {
      SweepConservesStep(c, t, x, y);
    }
  }

  lemma {:induction false} SweepConservesRowEnd(c: StepInput, t: Grid, y: nat)
    requires c.Valid() && IsGrid(t, c.width, c.height) && y < c.height
    requires c.width >= 2 || c.height >= 2
    ensures multiset(AllCharges(SweepFrom(c, t, c.width, y), c.width, c.height))
         == multiset(AllCharges(t, c.width, c.height)) + multiset(ChargesFrom(c.field, c.width, c.height, c.width, y))
    decreases c.height - y, 0, 0
  {
    SweepConserves(c, t, 0, y + 1);
  }

  lemma {:induction false} SweepConservesStep(c: StepInput, t: Grid, x: nat, y: nat)
    requires c.Valid() && IsGrid(t, c.width, c.height) && x < c.width && y < c.height
    requires c.width >= 2 || c.height >= 2
    ensures multiset(AllCharges(SweepFrom(c, t, x, y), c.width, c.height))
         == multiset(AllCharges(t, c.width, c.height)) + multiset(ChargesFrom(c.field, c.width, c.height, x, y))
    decreases c.height - y, c.width - x, 0
  {
    var u := MoveCell(c, t, x, y, 0);
    MoveCellConserves(c, t, x, y, 0);
    SweepConserves(c, u, x + 1, y);
    CellThenRest(c.field, c.width, c.height, x, y);
  }

  /** The charges visited from (x, y) on: those of cell (x, y), then the rest. */
  lemma CellThenRest(g: Grid, w: nat, h: nat, x: nat, y: nat)
    requires IsGrid(g, w, h) && x < w && y < h
    ensures multiset(ChargesFrom(g, w, h, x, y)) == multiset(g[x][y].charges[0..]) + multiset(ChargesFrom(g, w, h, x + 1, y))
  {
    assert g[x][y].charges[0..] == g[x][y].charges;
  }

  /** Charge conservation: when every cell has an in-grid neighbour (the lattice
      is not 1 x 1), one step relocates every charge and creates none. */
  lemma StepConservesCharges(c: StepInput)
    requires c.Valid() && (c.width >= 2 || c.height >= 2)
    ensures multiset(AllCharges(StepResult(c), c.width, c.height)) == multiset(AllCharges(c.field, c.width, c.height))
  {
    SweepConserves(c, EmptyGrid(c.width, c.height), 0, 0);
    EmptyGridHasNoCharges(c.width, c.height, 0, 0);
  }

  lemma {:induction false} SingleCellMoveDrops(c: StepInput, t: Grid, k: nat)
    requires c.Valid() && c.width == 1 && c.height == 1 && IsGrid(t, 1, 1)
    requires k <= |c.field[0][0].charges|
    ensures MoveCell(c, t, 0, 0, k) == t
    decreases |c.field[0][0].charges| - k
  {
    if k < |c.field[0][0].charges| {
      DestinationExists(c, 0, 0, k);
      SingleCellMoveDrops(c, t, k + 1);
    }
  }

  lemma {:induction false} SingleCellSweepDrops(c: StepInput, t: Grid, x: nat, y: nat)
    requires c.Valid() && c.width == 1 && c.height == 1 && IsGrid(t, 1, 1) && x <= 1 && y <= 1
    ensures SweepFrom(c, t, x, y) == t
    decreases 1 - y, 1 - x
  {
    if y == 1 {
    } else if x == 1 {
      SingleCellSweepDrops(c, t, 0, y + 1);
    } else {
      SingleCellMoveDrops(c, t, 0);
      SingleCellSweepDrops(c, t, x + 1, y);
    }
  }

  lemma EmptySingleCell()
    ensures EmptyGrid(1, 1) == [[ChargeStack([])]]
  {
    var e := EmptyGrid(1, 1);
    assert e[0][0] == ChargeStack([]);
    assert e[0] == [ChargeStack([])];
  }

  /** On a 1 x 1 lattice every weight is 0, no branch fires, and every charge is dropped. */
  lemma SingleCellStepEmpties(c: StepInput)
    requires c.Valid() && c.width == 1 && c.height == 1
    ensures StepResult(c) == [[ChargeStack([])]]
  {
    SingleCellSweepDrops(c, EmptyGrid(1, 1), 0, 0);
    EmptySingleCell();
  }

  /** An empty lattice stays empty, whatever its shape. */
  lemma StepKeepsEmptyEmpty(c: StepInput)
    requires c.Valid() && AllCharges(c.field, c.width, c.height) == []
    ensures AllCharges(StepResult(c), c.width, c.height) == []
  {
    if c.width == 0 || c.height == 0 {
      NoCellsNoCharges(StepResult(c), c.width, c.height, 0, 0);
    } else if c.width == 1 && c.height == 1 {
      SingleCellStepEmpties(c);
      EmptyGridHasNoCharges(1, 1, 0, 0);
      EmptySingleCell();
    } else {
      StepConservesCharges(c);
    }
  }

  lemma DeliverKeepsUnits(t: Grid, w: nat, h: nat, dest: Option<(int, int)>, q: int)
    requires IsGrid(t, w, h) && (dest.Some? ==> InBounds(dest.value, w, h))
    requires UnitGrid(t, w, h) && IsUnit(q)
    ensures UnitGrid(Deliver(t, w, h, dest, q), w, h)
  {
    if dest.Some? {
      var (i, j) := dest.value;
      var u: Grid := Deliver(t, w, h, dest, q);
      forall x, y | 0 <= x < w && 0 <= y < h
        ensures AllUnit(u[x][y].charges)
      {
        if x == i && y == j {
          assert u[x][y].charges == t[x][y].charges + [q];
        }
      }
    }
  }

  lemma {:induction false} MoveCellKeepsUnits(c: StepInput, t: Grid, x: int, y: int, k: nat)
    requires c.Valid() && IsGrid(t, c.width, c.height) && InBounds((x, y), c.width, c.height)
    requires k <= |c.field[x][y].charges|
    requires UnitGrid(c.field, c.width, c.height) && UnitGrid(t, c.width, c.height)
    ensures UnitGrid(MoveCell(c, t, x, y, k), c.width, c.height)
    decreases |c.field[x][y].charges| - k
  {
    var cs := c.field[x][y].charges;
    if k < |cs| {
      assert IsUnit(cs[k]);
      var dest := Destination(c, x, y, k);
      DeliverKeepsUnits(t, c.width, c.height, dest, cs[k]);
      MoveCellKeepsUnits(c, Deliver(t, c.width, c.height, dest, cs[k]), x, y, k + 1);
    }
  }

  lemma {:induction false} SweepKeepsUnits(c: StepInput, t: Grid, x: nat, y: nat)
    requires c.Valid() && IsGrid(t, c.width, c.height) && x <= c.width && y <= c.height
    requires UnitGrid(c.field, c.width, c.height) && UnitGrid(t, c.width, c.height)
    ensures UnitGrid(SweepFrom(c, t, x, y), c.width, c.height)
    decreases c.height - y, c.width - x, 1
  {
    if y == c.height {
    } else if x == c.width {
      SweepKeepsUnits(c, t, 0, y + 1);
    } else {
      SweepKeepsUnitsStep(c, t, x, y);
    }
  }

  lemma {:induction false} SweepKeepsUnitsStep(c: StepInput, t: Grid, x: nat, y: nat)
    requires c.Valid() && IsGrid(t, c.width, c.height) && x < c.width && y < c.height
    requires UnitGrid(c.field, c.width, c.height) && UnitGrid(t, c.width, c.height)
    ensures UnitGrid(SweepFrom(c, t, x, y), c.width, c.height)
    decreases c.height - y, c.width - x, 0
  {
    var u := MoveCell(c, t, x, y, 0);
    MoveCellKeepsUnits(c, t, x, y, 0);
    SweepKeepsUnits(c, u, x + 1, y);
  }

  /** Every charge stays +1 or -1 across a step, on every lattice shape. */
  lemma StepKeepsUnits(c: StepInput)
    requires c.Valid() && UnitGrid(c.field, c.width, c.height)
    ensures UnitGrid(StepResult(c), c.width, c.height)
  {
    SweepKeepsUnits(c, EmptyGrid(c.width, c.height), 0, 0);
  }

  lemma {:induction false} UnitGridCharges(g: Grid, w: nat, h: nat, x: nat, y: nat)
    requires IsGrid(g, w, h) && x <= w && y <= h && UnitGrid(g, w, h)
    ensures AllUnit(ChargesFrom(g, w, h, x, y))
    decreases h - y, w - x
  {
    if y == h {
    } else if x == w {
      UnitGridCharges(g, w, h, 0, y + 1);
    } else {
      UnitGridCharges(g, w, h, x + 1, y);
      var a, b := g[x][y].charges, ChargesFrom(g, w, h, x + 1, y);
      assert AllUnit(a);
      forall i | 0 <= i < |a + b| ensures IsUnit((a + b)[i]) {
        if i < |a| { assert (a + b)[i] == a[i]; } else { assert (a + b)[i] == b[i - |a|]; }
      }
    }
  }

  lemma FieldSumCell(f: seq<seq<int>>, w: nat, h: nat, x: nat, y: nat)
    requires IsField(f, w, h) && x < w && y < h
    ensures FieldSumFrom(f, w, h, x, y) == f[x][y] + FieldSumFrom(f, w, h, x + 1, y)
  {
  }

  lemma ChargesCell(g: Grid, w: nat, h: nat, x: nat, y: nat)
    requires IsGrid(g, w, h) && x < w && y < h
    ensures ChargesFrom(g, w, h, x, y) == g[x][y].charges + ChargesFrom(g, w, h, x + 1, y)
  {
  }

  /** The population field sums to the number of charges on the lattice. */
  lemma {:induction false} PopulationFieldTotal(g: Grid, w: nat, h: nat, x: nat, y: nat)
    requires IsGrid(g, w, h) && x <= w && y <= h
    ensures FieldSumFrom(PopulationField(g, w, h), w, h, x, y) == |ChargesFrom(g, w, h, x, y)|
    decreases h - y, w - x, 1
  {
    if y == h {
    } else if x == w {
      PopulationFieldTotal(g, w, h, 0, y + 1);
    } else {
      PopulationFieldTotalStep(g, w, h, x, y);
    }
  }

  lemma {:induction false} PopulationFieldTotalStep(g: Grid, w: nat, h: nat, x: nat, y: nat)
    requires IsGrid(g, w, h) && x < w && y < h
    ensures FieldSumFrom(PopulationField(g, w, h), w, h, x, y) == |ChargesFrom(g, w, h, x, y)|
    decreases h - y, w - x, 0
  {
    var f := PopulationField(g, w, h);
    PopulationFieldTotal(g, w, h, x + 1, y);
    FieldSumCell(f, w, h, x, y);
    assert f[x][y] == |g[x][y].charges|;
    ChargesCell(g, w, h, x, y);
  }

  /** The charge field sums to the sum of the charges on the lattice. */
  lemma ChargeFieldTotal(g: Grid, w: nat, h: nat, x: nat, y: nat)
    requires IsGrid(g, w, h) && x <= w && y <= h
    ensures FieldSumFrom(ChargeField(g, w, h), w, h, x, y) == Sum(ChargesFrom(g, w, h, x, y))
  {
    var f := ChargeField(g, w, h);
    forall i, j | 0 <= i < w && 0 <= j < h
      ensures f[i][j] == Sum(g[i][j].charges)
    {
      assert f[i][j] == g[i][j].TotalCharge();
    }
    FieldOfSums(f, g, w, h, x, y);
  }

  /** Cell (i, j) of f holds the sum of the charges of cell (i, j) of g. */
  predicate CellSums(f: seq<seq<int>>, g: Grid, w: nat, h: nat)
    requires IsGrid(g, w, h) && IsField(f, w, h)
  {
    forall i, j :: 0 <= i < w && 0 <= j < h ==> f[i][j] == Sum(g[i][j].charges)
  }

  /** A field holding the sum of each cell's charges sums to the sum of all charges. */
  lemma {:induction false} FieldOfSums(f: seq<seq<int>>, g: Grid, w: nat, h: nat, x: nat, y: nat)
    requires IsGrid(g, w, h) && IsField(f, w, h) && x <= w && y <= h
    requires CellSums(f, g, w, h)
    ensures FieldSumFrom(f, w, h, x, y) == Sum(ChargesFrom(g, w, h, x, y))
    decreases h - y, w - x, 1
  {
    if y == h {
    } else if x == w {
      FieldOfSums(f, g, w, h, 0, y + 1);
    } else {
      FieldOfSumsStep(f, g, w, h, x, y);
    }
  }

  lemma {:induction false} FieldOfSumsStep(f: seq<seq<int>>, g: Grid, w: nat, h: nat, x: nat, y: nat)
    requires IsGrid(g, w, h) && IsField(f, w, h) && x < w && y < h
    requires CellSums(f, g, w, h)
    ensures FieldSumFrom(f, w, h, x, y) == Sum(ChargesFrom(g, w, h, x, y))
    decreases h - y, w - x, 0
  {
    FieldOfSums(f, g, w, h, x + 1, y);
    FieldOfSumsCell(f, g, w, h, x, y);
  }

  lemma FieldOfSumsCell(f: seq<seq<int>>, g: Grid, w: nat, h: nat, x: nat, y: nat)
    requires IsGrid(g, w, h) && IsField(f, w, h) && x < w && y < h
    requires f[x][y] == Sum(g[x][y].charges)
    requires FieldSumFrom(f, w, h, x + 1, y) == Sum(ChargesFrom(g, w, h, x + 1, y))
    ensures FieldSumFrom(f, w, h, x, y) == Sum(ChargesFrom(g, w, h, x, y))
  {
    FieldSumCell(f, w, h, x, y);
    SumCell(g, w, h, x, y);
  }

  lemma SumCell(g: Grid, w: nat, h: nat, x: nat, y: nat)
    requires IsGrid(g, w, h) && x < w && y < h
    ensures Sum(ChargesFrom(g, w, h, x, y)) == Sum(g[x][y].charges) + Sum(ChargesFrom(g, w, h, x + 1, y))
  {
    ChargesCell(g, w, h, x, y);
    SumAppend(g[x][y].charges, ChargesFrom(g, w, h, x + 1, y));
  }

  /** sum(get_population_field()) is the same before and after a step. */
  lemma StepConservesPopulation(c: StepInput)
    requires c.Valid() && (c.width >= 2 || c.height >= 2)
    ensures FieldSum(PopulationField(StepResult(c), c.width, c.height), c.width, c.height)
         == FieldSum(PopulationField(c.field, c.width, c.height), c.width, c.height)
  {
    StepConservesCharges(c);
    PopulationFieldTotal(StepResult(c), c.width, c.height, 0, 0);
    PopulationFieldTotal(c.field, c.width, c.height, 0, 0);
    assert |multiset(AllCharges(StepResult(c), c.width, c.height))| == |AllCharges(StepResult(c), c.width, c.height)|;
    assert |multiset(AllCharges(c.field, c.width, c.height))| == |AllCharges(c.field, c.width, c.height)|;
  }

  /** sum(get_charge_field()) is the same before and after a step. */
  lemma StepConservesTotalCharge(c: StepInput)
    requires c.Valid() && (c.width >= 2 || c.height >= 2)
    ensures FieldSum(ChargeField(StepResult(c), c.width, c.height), c.width, c.height)
         == FieldSum(ChargeField(c.field, c.width, c.height), c.width, c.height)
  {
    var before, after := AllCharges(c.field, c.width, c.height), AllCharges(StepResult(c), c.width, c.height);
    StepConservesCharges(c);
    SumOfMultiset(after, before);
    ChargeFieldTotal(StepResult(c), c.width, c.height, 0, 0);
    ChargeFieldTotal(c.field, c.width, c.height, 0, 0);
  }

  /** Over any number of steps, the multiset of charges is conserved. */
  lemma {:induction false} SimulateConservesCharges(g: Grid, w: nat, h: nat, physics: Physics, draws: nat -> Draws, n: nat)
    requires IsGrid(g, w, h) && (w >= 2 || h >= 2)
    ensures multiset(AllCharges(Simulate(g, w, h, physics, draws, n), w, h)) == multiset(AllCharges(g, w, h))
  {
    if n > 0 {
      var before := Simulate(g, w, h, physics, draws, n - 1);
      var c := StepInput(before, w, h, physics, draws(n - 1));
      SimulateConservesCharges(g, w, h, physics, draws, n - 1);
      StepConservesCharges(c);
      assert Simulate(g, w, h, physics, draws, n) == StepResult(c);
    }
  }

  /** What one step keeps, gathered: unit charges on every shape; the multiset
      of charges and both field sums when the lattice is not 1 x 1; and an empty
      cell on a 1 x 1 lattice. */
  lemma StepSummary(c: StepInput)
    requires c.Valid() && UnitGrid(c.field, c.width, c.height)
    ensures UnitGrid(StepResult(c), c.width, c.height)
    ensures c.width >= 2 || c.height >= 2 ==>
      multiset(AllCharges(StepResult(c), c.width, c.height)) == multiset(AllCharges(c.field, c.width, c.height))
    ensures c.width >= 2 || c.height >= 2 ==>
      FieldSum(PopulationField(StepResult(c), c.width, c.height), c.width, c.height)
      == FieldSum(PopulationField(c.field, c.width, c.height), c.width, c.height)
    ensures c.width >= 2 || c.height >= 2 ==>
      FieldSum(ChargeField(StepResult(c), c.width, c.height), c.width, c.height)
      == FieldSum(ChargeField(c.field, c.width, c.height), c.width, c.height)
    ensures c.width == 1 && c.height == 1 ==> StepResult(c) == [[ChargeStack([])]]
  {
    StepKeepsUnits(c);
    if c.width >= 2 || c.height >= 2 {
      StepConservesCharges(c);
      StepConservesPopulation(c);
      StepConservesTotalCharge(c);
    } else if c.width == 1 && c.height == 1 {
      SingleCellStepEmpties(c);
    }
  }
}
