# Gradient and stress wrappers of nequip, modelled in Dafny

This project models `nequip/nn/_grad_output.py`: the wrappers that turn a
scalar energy model into one that also outputs forces and stress, by
automatic differentiation.

- **GradientOutput** wraps a model. It differentiates one scalar output field
  `of` with respect to one or more input fields `wrt`. Each gradient is
  written into its own output field, times a sign of +1 or -1.
- **ForceOutput** is GradientOutput with `of = total_energy`,
  `wrt = [pos]`, output `forces` and sign -1.
- **StressOutput** inserts a zero "virtual strain" `_displacement` for each
  configuration. It deforms positions and cell by that strain, then runs an
  inner GradientOutput with `wrt = [pos, _displacement]`. It negates the
  force and divides the stress by each cell's volume (the triple product of
  the undeformed cell). Finally it deletes `_displacement`.

Files:

- `fields.dfy` (module `Fields`): the data model. The AtomicDataDict is a
  class `AtomicData` whose `fields` map goes from names to tensors, each a
  `Value` with its `requires_grad` flag. It also holds the exceptions, the
  wrapped `Model`, and the differentiation engine `Autograd`. The engine is an
  uninterpreted function parameter.
- `linalg.dfy` (module `LinAlg`): exact 3-vector and 3x3-matrix arithmetic
  over `real`.
- `gradient_output.dfy` (module `GradientOutputs`): construction as a pure
  function (`New`, `ForceOutput`). `Forward` is an imperative method over
  `AtomicData`, split into the source's three loops: `ArmFlags`,
  `WriteGradients` and `RestoreFlags`.
- `strain.dfy` (module `Strain`): batch count, cell broadcast, strain
  deformation, volume and stress normalisation, as pure functions with lemmas.
- `stress_output.dfy` (module `StressOutputs`): construction (`New`) and
  `Forward`, split into `DeformInPlace`, the inner call and `Rescale`.

Behaviour of the code that the contracts state exactly:

- The flags of the `wrt` fields are restored in `wrt` order. The flag
  recorded for a name already seen earlier in `wrt` is `true`. So a name
  listed twice ends with `requires_grad` set (`RepeatedWrtStaysArmed`); with
  distinct names every flag is restored (`RecordedIsOriginal`).
- If an output name is repeated, the last gradient written under it stays.
  This holds both for the irreps map (line 65) and for the dictionary
  (line 96).
- A missing gradient raises RuntimeError before the restore loop runs. On
  that path the flags stay as the wrapped model left them.
- StressOutput replaces `pos` and `cell` with the deformed tensors. These
  require grad, so after the call `pos` has `requires_grad` set. It is not
  restored to the caller's value; the model follows the code.

## Model

| member | source | states |
|---|---|---|
| `Fields.FirstMissing` | nequip/nn/_grad_output.py:72-74 | the index of the first key missing from the dictionary (KeyError position); all earlier keys are present; it is the length exactly when all keys are present |
| `Fields.Neg` | nequip/nn/_grad_output.py:94-95 | `torch.neg` keeps the tensor's shape |
| `Fields.NegInvolutive` | nequip/nn/_grad_output.py:198 | negating twice gives back the tensor |
| `GradientOutputs.LabelInjective` | nequip/nn/_grad_output.py:48 | different `wrt` names give different default names `d(of)/d(e)` |
| `GradientOutputs.DefaultOutFieldsDistinct` | nequip/nn/_grad_output.py:47-48 | distinct `wrt` names give distinct default output names, so no gradient overwrites another |
| `GradientOutputs.OutputIrreps` | nequip/nn/_grad_output.py:62-66 | succeeds iff every `wrt` field has irreps, and otherwise raises KeyError on the first that lacks them; its keys are exactly the output names; each output name (last occurrence) gets the irreps of its `wrt` field |
| `GradientOutputs.New` | nequip/nn/_grad_output.py:26-66 | sign not ±1 raises AssertionError; an explicit out_field of the wrong length raises AssertionError with the source's message; a `wrt` field without irreps raises KeyError; otherwise `negate` iff sign is -1, single names are promoted to lists, out names are the given ones or the defaults, one per `wrt` in order, and the output irreps map each out name to its `wrt` irreps, keeping the model's other outputs |
| `GradientOutputs.ForceOutput` | nequip/nn/_grad_output.py:105-120 | succeeds iff the model declares `pos`; then of = total_energy, wrt = [pos], out = [forces], sign -1 with negation, forces has the irreps of pos |
| `GradientOutputs.RecordedIsOriginal` | nequip/nn/_grad_output.py:70-100 | with distinct `wrt` names, the flag restored for each field is its value before the call |
| `GradientOutputs.RepeatedWrtStaysArmed` | nequip/nn/_grad_output.py:72-100 | a name listed twice in `wrt` is restored to `requires_grad = true` |
| `GradientOutputs.ArmFlags` | nequip/nn/_grad_output.py:70-75 | KeyError at the first missing `wrt` field, with the earlier ones left armed; otherwise every `wrt` flag is on, and the recorded flags and captured tensors are returned |
| `GradientOutputs.WriteGradients` | nequip/nn/_grad_output.py:88-96 | RuntimeError iff some gradient is missing; each output name holds its gradient, negated iff `negate`; no other field is written |
| `GradientOutputs.RestoreFlags` | nequip/nn/_grad_output.py:98-100 | KeyError iff a `wrt` field is gone; only flags change, and each `wrt` field's flag is its recorded value |
| `GradientOutputs.Forward` | nequip/nn/_grad_output.py:68-102 | the error paths: a missing `wrt` field; a missing `of`; a missing gradient, with flags not restored on the latter two; and the restore loop's KeyError, naming the first `wrt` field that is neither in the model's output nor an output name. It returns normally exactly when `Succeeds`; then the outputs hold the signed gradients in order, the `wrt` flags are restored, and no other field differs from the model's output |
| `Strain.MaxIndex` | nequip/nn/_grad_output.py:171 | `batch.max()` is an element of the batch and bounds every element |
| `Strain.NumBatch` | nequip/nn/_grad_output.py:170-171 | every batch index lies in `[0, num_batch)` and `num_batch - 1` occurs, so strain and cell indexing by batch is in range |
| `Strain.BroadcastCell` | nequip/nn/_grad_output.py:172-174 | one cell per configuration: the single cell repeated, or the given per-configuration cells |
| `Strain.DeformPositionsIsLinear` | nequip/nn/_grad_output.py:185-189 | each position p becomes p (I + S) for its configuration's strain S |
| `Strain.DeformCellsIsLinear` | nequip/nn/_grad_output.py:190-192 | each cell C becomes C (I + S) for its configuration's strain S |
| `Strain.DeformationNeutralAtZeroStrain` | nequip/nn/_grad_output.py:178-192 | at the zero strain the deformed positions and cells equal the originals |
| `Strain.NormalizeRoundTrip` | nequip/nn/_grad_output.py:203-209 | multiplying the normalised stress by the volume gives back the raw strain derivative |
| `Strain.VolumesUnchangedAtZeroStrain` | nequip/nn/_grad_output.py:190-207 | at zero strain the deformed cell has the volume of the reference cell |
| `Fields.NegField` | nequip/nn/_grad_output.py:94-95 | negating a gradient keeps its `requires_grad` flag and its shape, and negating again gives the original back |
| `Fields.DeclareIrreps` | nequip/nn/_grad_output.py:56-60 | the mixin's irreps declaration (also used at lines 160-163): inputs as given; outputs have the keys of both maps, the given outputs winning over inputs of the same name |
| `GradientOutputs.Listed` | nequip/nn/_grad_output.py:41-44 | a single name is promoted to a one-element list; a list is kept as given |
| `GradientOutputs.DefaultOutFields` | nequip/nn/_grad_output.py:47-48 | one default output name per `wrt` entry, in order, each `d(of)/d(e)` |
| `GradientOutputs.Signed` | nequip/nn/_grad_output.py:94-96 | the written gradient keeps the flag and shape of the raw one; with `negate` it is the negation (negating it gives the raw one back), otherwise the raw one itself |
| `GradientOutputs.SignFlipNegates` | nequip/nn/_grad_output.py:32-38 | for the same model, inputs and gradients, the sign -1 wrapper writes the negation of what the sign +1 wrapper writes into every output |
| `Strain.ZeroStrain` | nequip/nn/_grad_output.py:178-184 | one 3x3 zero matrix per configuration |
| `Strain.DeformPositions` | nequip/nn/_grad_output.py:187-189 | one deformed position per atom, p + p·S for the atom's configuration strain S; its linear form is `DeformPositionsIsLinear` |
| `Strain.DeformCells` | nequip/nn/_grad_output.py:192 | one deformed cell per configuration, C + C·S; its linear form is `DeformCellsIsLinear` |
| `Strain.Volumes` | nequip/nn/_grad_output.py:203-207 | one volume per cell, the triple product of its lattice vectors (so `len(volume) == num_batch`, line 208, holds) |
| `Strain.Normalize` | nequip/nn/_grad_output.py:209 | one stress per configuration, the raw derivative divided by that configuration's volume; undone by `NormalizeRoundTrip` |
| `StressOutputs.Prepare` | nequip/nn/_grad_output.py:168-192 | the inner wrapper's input: the caller's keys plus `_displacement`, which is a zero strain per configuration; positions (one per atom), cell and strain require grad; every other field unchanged |
| `LinAlg.RowTimesIdentityPlus` | nequip/nn/_grad_output.py:187-189 | p + p·S = p·(I + S) |
| `LinAlg.MatMulIdentityPlus` | nequip/nn/_grad_output.py:192 | C + C·S = C·(I + S) |
| `LinAlg.RowTimesZero` | nequip/nn/_grad_output.py:187-189 | p·0 = 0 and p + p·0 = p |
| `LinAlg.MatMulZero` | nequip/nn/_grad_output.py:192 | C + C·0 = C |
| `LinAlg.MatDivRoundTrip` | nequip/nn/_grad_output.py:209 | (M / v)·v = M for v ≠ 0 |
| `LinAlg.TripleProductIdentity` | nequip/nn/_grad_output.py:203-207 | the unit cell has volume 1 |
| `LinAlg.TripleProductCyclic` | nequip/nn/_grad_output.py:203-207 | the volume is unchanged by a cyclic shift of the lattice vectors |
| `LinAlg.TripleProductSwap` | nequip/nn/_grad_output.py:203-207 | exchanging two lattice vectors negates the volume |
| `LinAlg.TripleProductRepeated` | nequip/nn/_grad_output.py:203-207 | a cell with a repeated lattice vector has volume 0 |
| `StressOutputs.New` | nequip/nn/_grad_output.py:132-164 | `do_forces = False` raises NotImplementedError; otherwise it succeeds iff the model declares `pos`. The inner wrapper has wrt [pos, _displacement], outputs [forces, stress] and sign +1. The wrapped model declares `_displacement` as an input. Published inputs hold pos and cell but not `_displacement`; published outputs hold forces (irreps of pos) and stress but not `_displacement` |
| `StressOutputs.ReferenceCells` | nequip/nn/_grad_output.py:172-190 | one undeformed cell per configuration, none of zero volume |
| `StressOutputs.PrepareIsNeutral` | nequip/nn/_grad_output.py:168-192 | the inner wrapper sees the caller's positions, the broadcast cell and a zero strain, all requiring grad, and every other field unchanged |
| `StressOutputs.InnerResult` | nequip/nn/_grad_output.py:195 | after the inner call: forces and stress hold the raw gradients, stress has the strain's N×3×3 shape, `_displacement` is still present, and nothing else differs from the model's output |
| `StressOutputs.DeformInPlace` | nequip/nn/_grad_output.py:168-192 | the dictionary becomes the prepared state; the reference cells and the cell's flag are returned |
| `StressOutputs.Rescale` | nequip/nn/_grad_output.py:197-212 | forces negated once, stress divided per configuration by the reference volume, `_displacement` deleted, nothing else changed |
| `StressOutputs.Forward` | nequip/nn/_grad_output.py:166-214 | returns normally exactly when the inner wrapper does. Then `_displacement` is absent, forces is minus the position gradient with one vector per atom, and stress is the strain gradient divided by the volume of the undeformed cell. `pos` keeps the deformed tensor with `requires_grad` set, and every other field equals the model's output |

## Left out

- The derivative itself (`torch.autograd.grad`, lines 79-87) and the `create_graph=self.training` choice. `Autograd` is an uninterpreted function parameter that returns an optional gradient per input. StressOutput relies on one property of it (`ShapePreserving`): each gradient has the shape of its input.
- The wrapped energy model is an arbitrary `State -> State` function; its architecture is not part of this model.
- e3nn `Irreps` are opaque tokens. `GraphModuleMixin._init_irreps` is not part of this model. It is taken to declare the given inputs, and as outputs the inputs overwritten by the given outputs (`DeclareIrreps`). It does not check that `of` has irreps `0e`. It does not insert `pos` (as `1o`) and `edge_index` into the declared inputs. So the `KeyError(pos)` branches of `ForceOutput` and `StressOutputs.New` are reachable in the model; in the program the mixin may always supply `pos`.
- Floating point: arithmetic is exact over `real`. A degenerate cell is excluded by a nonzero-volume precondition (`Ready`); the source does not check it and yields non-finite stress.
- `AtomicDataDict.with_batch` (line 169) is not part of this model. `Ready` requires what it produces: a non-empty batch index of natural numbers, one position per atom, and one cell or one per configuration. This stands in for the `view`/`expand`/`bmm` shape checks. `Ready` also requires `cell` and `pos` to be present, so the KeyError the source raises when `cell` (line 172) or `pos` (line 185) is missing is a precondition here, not a modelled error path.
- Device, dtype, `.cpu().item()` and TorchScript `compile_mode`.
- Tensors are values. Two dictionary keys sharing one tensor object, and flag changes seen through other references to the same tensor, are not modelled. One example is the caller's original `pos` tensor after a model replaces it.
- StressOutput's constructor writes `_displacement` into `energy_model.irreps_in` in place (line 140). The model gives the inner wrapper an updated copy of the energy model. The caller's model object is not updated.
- GradientOutputs.Forward: on a KeyError raised in the restore loop, it states the error and the field it names (the first `wrt` field that is neither in the model's output nor an output name), but not the partly restored dictionary.
- StressOutputs.Forward: on failure, it states only that the inner wrapper failed, not the dictionary left behind (where `_displacement` may remain).
- Batch decomposability, and the forces and stress for particular energies (a constant energy, a pairwise quadratic energy), depend on the energy model and the derivative, which are not modelled.
