/**
  The arithmetic of StressOutput's forward pass: the number of configurations
  in a batch, the per-configuration cell, the virtual strain, the deformation
  it applies to positions and cells, and the volume normalisation of stress.
 */
module Strain {
  import opened LinAlg

  /** The largest batch index (`batch.max()`). */
  function MaxIndex(ns: seq<int>): (m: int)
    requires |ns| > 0
    ensures forall i :: 0 <= i < |ns| ==> ns[i] <= m
    ensures m in ns
  {
    if |ns| == 1 then ns[0]
    else
      var rest := MaxIndex(ns[1..]);
      if ns[0] >= rest then ns[0] else rest
  }

  predicate ValidBatch(ns: seq<int>) {
    |ns| > 0 && forall i :: 0 <= i < |ns| ==> ns[i] >= 0
  }

  /**
    `num_batch = batch.max() + 1`: every batch index is a valid configuration
    index, and no smaller count would do.
   */
  function NumBatch(ns: seq<int>): (n: nat)
    requires ValidBatch(ns)
    ensures forall i :: 0 <= i < |ns| ==> 0 <= ns[i] < n
    ensures n - 1 in ns
  {
    MaxIndex(ns) + 1
  }

  /** `cell.view(-1, 3, 3).expand(n, 3, 3)`: one cell per configuration. */
  function BroadcastCell(cells: seq<Mat3>, n: nat): (r: seq<Mat3>)
    requires |cells| == 1 || |cells| == n
    ensures |r| == n
    ensures forall b :: 0 <= b < n ==> r[b] == if |cells| == 1 then cells[0] else cells[b]
  {
    if |cells| == 1 then seq(n, _ => cells[0]) else cells
  }

  /** The virtual strain `torch.zeros((n, 3, 3))`. */
  function ZeroStrain(n: nat): (r: seq<Mat3>)
    ensures |r| == n && forall b :: 0 <= b < n ==> r[b] == Zero
  {
    seq(n, _ => Zero)
  }

  predicate IndicesBelow(batch: seq<int>, n: nat) {
    forall i :: 0 <= i < |batch| ==> 0 <= batch[i] < n
  }

  /** `pos + bmm(pos.unsqueeze(-2), strain[batch]).squeeze(-2)`: each atom moved by its configuration's strain. */
  function DeformPositions(pos: seq<Vec3>, batch: seq<int>, strain: seq<Mat3>): (r: seq<Vec3>)
    requires |pos| == |batch| && IndicesBelow(batch, |strain|)
    ensures |r| == |pos|
  {
    seq(|pos|, i requires 0 <= i < |pos| => VecAdd(pos[i], RowTimes(pos[i], strain[batch[i]])))
  }

  /** `cell + bmm(cell, strain)`: each cell deformed by its own configuration's strain. */
  function DeformCells(cells: seq<Mat3>, strain: seq<Mat3>): (r: seq<Mat3>)
    requires |cells| == |strain|
    ensures |r| == |cells|
  {
    seq(|cells|, b requires 0 <= b < |cells| => MatAdd(cells[b], MatMul(cells[b], strain[b])))
  }

  /** The deformation is the linear map p -> p (I + S) with S the atom's configuration strain. */
  lemma DeformPositionsIsLinear(pos: seq<Vec3>, batch: seq<int>, strain: seq<Mat3>)
    requires |pos| == |batch| && IndicesBelow(batch, |strain|)
    ensures forall i :: 0 <= i < |pos| ==>
      DeformPositions(pos, batch, strain)[i] == RowTimes(pos[i], MatAdd(Identity, strain[batch[i]]))
  {
    forall i | 0 <= i < |pos|
      ensures DeformPositions(pos, batch, strain)[i] == RowTimes(pos[i], MatAdd(Identity, strain[batch[i]]))
    {
      RowTimesIdentityPlus(pos[i], strain[batch[i]]);
    }
  }

  /** The same linear map applied to every lattice vector: C -> C (I + S). */
  lemma DeformCellsIsLinear(cells: seq<Mat3>, strain: seq<Mat3>)
    requires |cells| == |strain|
    ensures forall b :: 0 <= b < |cells| ==>
      DeformCells(cells, strain)[b] == MatMul(cells[b], MatAdd(Identity, strain[b]))
  {
    forall b | 0 <= b < |cells|
      ensures DeformCells(cells, strain)[b] == MatMul(cells[b], MatAdd(Identity, strain[b]))
    {
      MatMulIdentityPlus(cells[b], strain[b]);
    }
  }

  /** At zero strain the deformation changes neither positions nor cells. */
  lemma {:induction false} DeformationNeutralAtZeroStrain(pos: seq<Vec3>, batch: seq<int>, cells: seq<Mat3>)
    requires |pos| == |batch| && IndicesBelow(batch, |cells|)
    ensures DeformPositions(pos, batch, ZeroStrain(|cells|)) == pos
    ensures DeformCells(cells, ZeroStrain(|cells|)) == cells
  {
    var zs := ZeroStrain(|cells|);
    var p := DeformPositions(pos, batch, zs);
    forall i | 0 <= i < |pos| ensures p[i] == pos[i] {
      RowTimesZero(pos[i]);
    }
    var c := DeformCells(cells, zs);
    forall b | 0 <= b < |cells| ensures c[b] == cells[b] {
      MatMulZero(cells[b]);
    }
  }

  /** Per-configuration volume: the triple product row0 . (row1 x row2). */
  function Volumes(cells: seq<Mat3>): (r: seq<real>)
    ensures |r| == |cells|
  {
    seq(|cells|, b requires 0 <= b < |cells| => TripleProduct(cells[b]))
  }

  predicate NonZero(xs: seq<real>) {
    forall b :: 0 <= b < |xs| ==> xs[b] != 0.0
  }

  /** `stress / volume`: each configuration's stress divided by its volume. */
  function Normalize(raw: seq<Mat3>, volumes: seq<real>): (r: seq<Mat3>)
    requires |raw| == |volumes| && NonZero(volumes)
    ensures |r| == |raw|
  {
    seq(|raw|, b requires 0 <= b < |raw| => MatDiv(raw[b], volumes[b]))
  }

  /** Scaling the normalised stress back by the volume gives the raw strain derivative. */
  lemma NormalizeRoundTrip(raw: seq<Mat3>, volumes: seq<real>)
    requires |raw| == |volumes| && NonZero(volumes)
    ensures forall b :: 0 <= b < |raw| ==> MatScale(volumes[b], Normalize(raw, volumes)[b]) == raw[b]
  {
    forall b | 0 <= b < |raw| ensures MatScale(volumes[b], Normalize(raw, volumes)[b]) == raw[b] {
      MatDivRoundTrip(raw[b], volumes[b]);
    }
  }

  /** At zero strain the deformed cells have the volumes of the reference cells. */
  lemma VolumesUnchangedAtZeroStrain(cells: seq<Mat3>)
    ensures Volumes(DeformCells(cells, ZeroStrain(|cells|))) == Volumes(cells)
  {
    DeformationNeutralAtZeroStrain([], [], cells);
  }
}
