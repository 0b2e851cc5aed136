# Lattice charge diffusion, modelled in Dafny

This project models the lattice charge-diffusion model of
`FluidDiffusion/lattice_model.py`. A `Medium` is a width × height lattice of
`ChargeStack` cells. Each cell holds a list of unit charges (+1 or -1).
`update_charge_distribution` is one synchronous step. Every charge of the old
field is appended to one of the four orthogonal neighbours of its cell in a
fresh template lattice, chosen at random with Boltzmann-factor weights, and the
template then replaces the field. On a 1 × 1 lattice no neighbour exists and
the charges are dropped instead.

Modules, leaf first:

- `ChargeStacks` (`charge_stack.dfy`): the `ChargeStack` value, its
  constructor as written (including its quirks), `total_charge` and
  `population`.
- `Choice` (`choice.dfy`): the four cumulative ranges and the branch chain
  that picks a neighbour from a draw.
- `Lattice` (`lattice.dfy`): the step stated on values. It covers the
  Boltzmann weights read from the old field, the destination of one charge,
  the fold over the cells in the order numpy visits the meshgrid (y outer,
  x inner), and the charge and population fields.
- `Conservation` (`conservation.dfy`): what a step keeps. The lattice shape
  and the ±1 charges are kept on every lattice. The multiset of charges and
  both field sums are kept on every lattice except 1 × 1. On a 1 × 1 lattice
  the step drops every charge.
- `LoneCharges` (`lone_charge.dfy`): a lattice holding a single charge, the
  case written out in full.
- `Media` (`medium.dfy`): the `Medium` class itself. Its field is an
  `array2<ChargeStack>`. `Create` is the constructor with its error paths.
  `UpdateChargeDistribution` builds a fresh template array with nested loops
  (cells, then the charges of a cell), appends in place, and proves the
  result equals the value-level step.

Abstractions: `np.exp` is a parameter returning a positive real. Every
`np.random.random()` draw is a parameter `draw(x, y, k)` in [0, 1), the draw
for the k-th charge of old cell (x, y). Every `np.random.choice([1, -1], n)`
batch is read from a per-cell coin stream `coins(x, y)`. Temperature and
relative permittivity are positive reals.

A design with diagonal moves and a Metropolis-like accept-or-reject rule,
under which a charge can stay in its cell, is not what this code does and is
not modelled. The code moves a charge
only to an orthogonal neighbour, with probability proportional to that
neighbour's Boltzmann factor, and it never keeps a charge in place
(`Lattice.DestinationIsNeighbour`, `LoneCharges.CentreChargeLeaves`).
Conservation of the number of charges is the model's key invariant. The model
makes a single pass over the cells, and in that model the multiset of charges
is conserved on every lattice with at least two cells. On a 1 × 1 lattice every
weight is 0 and the charges are dropped (`Conservation.SingleCellStepEmpties`).
The code as written conserves less: `np.vectorize` calls `move_cell` once more
on cell (0, 0) to infer its output type, so on a lattice with at least two
cells whose cell (0, 0) holds charges, those charges are duplicated by the step (see
"## Left out").

## Model

| member | source | states |
|---|---|---|
| ChargeStacks.Signs | FluidDiffusion/lattice_model.py:35-41 | a batch of n draws from [1, -1] has length n, only +1/-1 entries, and entry i is +1 exactly when draw i picks the first entry |
| ChargeStacks.InitialStack | FluidDiffusion/lattice_model.py:32-43 | construction fails exactly when negative_occupancy > 0 and positive_occupancy < 0, with the negative sample size as the error; otherwise every charge is ±1, the population is 2 * positive_occupancy when both occupancies are positive and 0 otherwise, and a non-positive negative_occupancy gives the empty stack |
| ChargeStacks.NewChargeStack | FluidDiffusion/lattice_model.py:32-43 | building the list by successive reassignment, with the second batch sized by positive_occupancy, yields exactly InitialStack |
| ChargeStacks.ChargeBounds | FluidDiffusion/lattice_model.py:45-49 | for ±1 charges, -population <= total_charge <= population, and total_charge + population is even |
| ChargeStacks.ChargeStack.TotalCharge | FluidDiffusion/lattice_model.py:45-46 | for a stack of ±1 charges, total_charge() is the number of +1 charges minus the number of -1 charges |
| ChargeStacks.ChargeStack.Population | FluidDiffusion/lattice_model.py:48-49 | population() is 0 exactly when the stack holds no charge |
| ChargeStacks.SumAppend | FluidDiffusion/lattice_model.py:45-46 | total_charge of two concatenated lists is the sum of their totals |
| ChargeStacks.SumOfMultiset | FluidDiffusion/lattice_model.py:45-46 | total_charge does not depend on the order of the charges: lists with equal multisets have equal sums |
| ChargeStacks.SumOfUnits | FluidDiffusion/lattice_model.py:45-46 | for ±1 charges, total_charge is the number of +1 minus the number of -1, so it depends only on the multiset |
| Lattice.EmptyGrid | FluidDiffusion/lattice_model.py:79 | the template built from zero occupancies has the field's shape and only empty cells |
| Lattice.BoltzmannFactor | FluidDiffusion/lattice_model.py:83-91 | the weight of a move is never negative and is positive exactly when the target is inside the lattice; off-grid targets (index -1, w or h) weigh exactly 0 |
| Lattice.ChargeWeights | FluidDiffusion/lattice_model.py:93-96 | the four weights are non-negative, and the weight of direction d is positive exactly when that neighbour is inside the lattice |
| Choice.Pick | FluidDiffusion/lattice_model.py:105-112 | a fired branch's r lies below the upper end of that direction's cumulative range, and at or above its lower end for every branch after the first; for non-negative weights some branch fires exactly when r < bf_sum |
| Choice.Choose | FluidDiffusion/lattice_model.py:98-112 | a neighbour is chosen exactly when bf_sum > 0, and the chosen neighbour always has a positive weight |
| Choice.RandomNumber | FluidDiffusion/lattice_model.py:104 | bf_sum * u lies in [0, bf_sum], and strictly below bf_sum when bf_sum > 0 |
| Choice.PickInterval | FluidDiffusion/lattice_model.py:98-112 | the branch for direction d fires exactly when r is in [lower(d), upper(d)); the four cumulative intervals are disjoint, so at most one branch fires |
| Choice.ChooseInterval | FluidDiffusion/lattice_model.py:98-112 | the same for the drawn r = bf_sum * u |
| Choice.PickHasWeight | FluidDiffusion/lattice_model.py:105-112 | a fired branch has a positive weight, so a zero-weight neighbour is never chosen |
| Choice.ChosenHasWeight | FluidDiffusion/lattice_model.py:104-112 | the same for the drawn r |
| Choice.PickFires | FluidDiffusion/lattice_model.py:105-112 | some branch fires exactly when r < bf_sum |
| Choice.ChooseFires | FluidDiffusion/lattice_model.py:98-112 | for the drawn r, exactly one branch fires when bf_sum > 0 and none when bf_sum = 0 |
| Lattice.Destination | FluidDiffusion/lattice_model.py:93-112 | a chosen destination is inside the lattice and is one of the four orthogonal neighbours |
| Lattice.DestinationExists | FluidDiffusion/lattice_model.py:84-112 | a charge has a destination exactly when the lattice is not 1 × 1 (w >= 2 or h >= 2) |
| Lattice.DestinationIsNeighbour | FluidDiffusion/lattice_model.py:105-112 | a destination, when there is one, is at Manhattan distance 1: a charge never stays in its cell |
| Lattice.Deliver | FluidDiffusion/lattice_model.py:106-112 | appending a charge to a template cell keeps the lattice shape |
| Lattice.MoveCell | FluidDiffusion/lattice_model.py:114-117 | moving one cell's charges keeps the lattice shape |
| Lattice.SweepFrom | FluidDiffusion/lattice_model.py:119-120 | the pass over the cells keeps the lattice shape |
| Lattice.StepResult | FluidDiffusion/lattice_model.py:71-121 | the field after a step has the old field's shape |
| Lattice.PopulationField | FluidDiffusion/lattice_model.py:129-133 | the population field has the lattice's shape and holds population() cell by cell |
| Lattice.ChargeField | FluidDiffusion/lattice_model.py:123-127 | the charge field has the lattice's shape and holds total_charge() cell by cell |
| Lattice.Simulate | FluidDiffusion/lattice_model.py:198-199 | repeated steps keep the lattice shape |
| Conservation.DeliverAddsOne | FluidDiffusion/lattice_model.py:106-112 | appending q to one template cell adds exactly one q to the multiset of lattice charges |
| Conservation.MoveOneConserves | FluidDiffusion/lattice_model.py:93-112 | on a lattice that is not 1 × 1, each moved charge is appended to exactly one template cell |
| Conservation.MoveCellConserves | FluidDiffusion/lattice_model.py:114-117 | moving a cell's charges from the k-th on adds exactly those charges to the template |
| Conservation.SweepConserves | FluidDiffusion/lattice_model.py:119-120 | the pass from cell (x, y) on adds exactly the charges of the cells it visits |
| Conservation.StepConservesCharges | FluidDiffusion/lattice_model.py:104-121 | on a lattice that is not 1 × 1, the multiset of charges after a step equals the one before |
| Conservation.SingleCellStepEmpties | FluidDiffusion/lattice_model.py:84-112 | on a 1 × 1 lattice bf_sum is 0, no branch fires, and the step leaves the single cell empty |
| Conservation.StepKeepsEmptyEmpty | FluidDiffusion/lattice_model.py:71-121 | a lattice without charges has none after a step, whatever its shape |
| Conservation.StepKeepsUnits | FluidDiffusion/lattice_model.py:106-112 | every charge is still ±1 after a step |
| Conservation.UnitGridCharges | FluidDiffusion/lattice_model.py:34-41 | a lattice of ±1 cells lists only ±1 charges |
| Conservation.PopulationFieldTotal | FluidDiffusion/lattice_model.py:129-133 | the population field sums to the number of charges on the lattice |
| Conservation.ChargeFieldTotal | FluidDiffusion/lattice_model.py:123-127 | the charge field sums to the sum of all charges on the lattice |
| Conservation.StepConservesPopulation | FluidDiffusion/lattice_model.py:104-133 | on a lattice that is not 1 × 1, the sum of get_population_field() is the same before and after a step |
| Conservation.StepConservesTotalCharge | FluidDiffusion/lattice_model.py:104-133 | on a lattice that is not 1 × 1, whatever its integer charges, the sum of get_charge_field() is the same before and after a step |
| Conservation.SimulateConservesCharges | FluidDiffusion/lattice_model.py:198-199 | any number of steps keeps the multiset of charges on a lattice that is not 1 × 1 |
| Conservation.StepSummary | FluidDiffusion/lattice_model.py:71-133 | one step keeps ±1 charges; off 1 × 1 it keeps the multiset and both field sums; on 1 × 1 it empties the cell |
| LoneCharges.LoneChargeStep | FluidDiffusion/lattice_model.py:104-121 | on a lattice holding one charge, the step is a single move_particle into the empty template |
| LoneCharges.LoneChargeMoves | FluidDiffusion/lattice_model.py:93-121 | a lone charge on a lattice that is not 1 × 1 ends the step alone on an orthogonal neighbour, and its old cell is empty |
| LoneCharges.CentreChargeLeaves | FluidDiffusion/lattice_model.py:93-121 | the lone charge at the centre of a 3 × 3 lattice always leaves the centre for one of its four neighbours |
| Media.BroadcastAxis | FluidDiffusion/lattice_model.py:64-68 | two axis lengths broadcast exactly when they are equal or one is 1, and the result is the length that is not 1 (1 when both are) |
| Media.BroadcastShape | FluidDiffusion/lattice_model.py:64-68 | the two occupancy arrays broadcast exactly when each axis has equal lengths or a length 1, and the field shape takes on each axis the length that is not stretched from 1 |
| Media.StackAt | FluidDiffusion/lattice_model.py:64-68 | the ChargeStack call for one cell of the broadcast shape fails exactly when its broadcast occupancies ask for a negative sample size, and otherwise holds only ±1 charges |
| Media.Medium.FromField | FluidDiffusion/lattice_model.py:64-69 | assigning a field of ±1 stacks and the relative permittivity gives a valid medium with exactly that field and permittivity |
| Media.Medium.Create | FluidDiffusion/lattice_model.py:53-69 | construction fails with a shape error exactly when the occupancy arrays do not broadcast. It succeeds exactly when every cell can be built, and otherwise reports the error of the first failing cell in C order. A new medium has the broadcast shape, the given permittivity and ±1 charges, and cell (x, y) holds ChargeStack of its broadcast occupancies |
| Media.Medium.BuildField | FluidDiffusion/lattice_model.py:64-68 | the element-wise pass builds every cell, or stops at the first cell, in C order, whose ChargeStack raises |
| Media.Medium.BuildColumn | FluidDiffusion/lattice_model.py:64-68 | one row x of that pass: it succeeds exactly when every cell of the row can be built, and then row x holds their stacks; otherwise it reports the first failure in C order; other rows are untouched |
| Media.Medium.UpdateChargeDistribution | FluidDiffusion/lattice_model.py:71-121 | the field is replaced by a fresh array of the same shape that holds exactly the value-level step of the old field. It keeps ±1 charges; off 1 × 1 it keeps the multiset of charges and the sums of both fields; on 1 × 1 it leaves the cell empty |
| Media.Medium.MoveAllCells | FluidDiffusion/lattice_model.py:74-120 | visiting every cell in meshgrid order turns the empty template into the step's result |
| Media.Medium.MoveCellCharges | FluidDiffusion/lattice_model.py:114-117 | move_cell applies move_particle to the cell's charges in list order |
| Media.Medium.MoveParticle | FluidDiffusion/lattice_model.py:82-112 | the branch chain on bf_sum * u appends q1 to the template cell of its destination, and does nothing when no branch fires |
| Media.Medium.Append | FluidDiffusion/lattice_model.py:106-112 | `charges.append(q)` on one template cell changes that cell by appending q and changes no other cell |
| Media.Medium.GetChargeField | FluidDiffusion/lattice_model.py:123-127 | the charge field has the medium's shape and holds each cell's total_charge() |
| Media.Medium.GetPopulationField | FluidDiffusion/lattice_model.py:129-133 | the population field has the medium's shape and holds each cell's population() |

## Left out

- Media.Medium.UpdateChargeDistribution: models one pass per cell. `np.vectorize` without `otypes` first calls `move_cell` on the first meshgrid element, (0, 0), to infer the output type, and then again in the real pass (lines 119-120). As written, the charges of cell (0, 0) are therefore moved twice and duplicated on every lattice with at least two cells whose cell (0, 0) holds charges. The model states conservation for the intended single pass.
- Media.Medium.Create: the same `np.vectorize` rule raises a `ValueError` on size-0 arrays (line 64-68 and the template at line 79); the model builds an empty medium instead. The extra type-probe call of `ChargeStack` on the first elements is not modelled either. Its stack is discarded, so it only moves the random stream, except that it can raise the first cell's sampling error before a shape error is reported.
- Media.Medium.Create: broadcasting is modelled for two two-dimensional arrays only; scalars and one-dimensional occupancy arrays are not.
- ChargeStacks.InitialStack: occupancies are integers. `int(positive_occupancy)` truncation of non-integer values and the `int32` range of the arrays built by `charge_maps_from_image` are not modelled.
- Floating point: `np.exp` is any positive-valued function, and weights and draws are exact reals. Underflow of a weight to 0, overflow to infinity, NaN, and a product `bf_sum * u` that rounds up to `bf_sum` (which would drop a charge) are not captured.
- Temperature and relative permittivity are typed positive. The source does not check them, and a zero value divides by zero in line 87-88.
- Randomness: each cell reads its own coin stream and each charge its own draw. This abstracts numpy's single global generator, so the order in which draws are consumed is not modelled.
- `to_image` (PIL rendering and its invalid-mode exception, lines 135-154), `charge_maps_from_image` (image decoding, lines 157-173), `generate_video` (OpenCV, lines 176-185) and the `__main__` driver: image and video I/O. Only its loop of steps, lines 198-199, is modelled (`Lattice.Simulate`).
- `get_time_step` (lines 18-20): a floating-point formula, not used by the model.
- `get_total` (lines 23-28): unused and broken, since it maps cells to the bound method `cell.population` instead of calling it.
- The other scripts of the repository (COVID19Cases, Population, Investment, OrganismsEvolution) are not part of this model.
