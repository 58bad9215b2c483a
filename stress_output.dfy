/**
  StressOutput: forces and stress of an energy model by differentiating with
  respect to positions and to a virtual strain applied to positions and cell.
 */
module StressOutputs {
  import opened Wrappers
  import opened LinAlg
  import opened Fields
  import opened Strain
  import GradientOutputs

  /** A constructed wrapper: the inner gradient wrapper and the declared irreps. */
  datatype StressOutput = StressOutput(
    doForces: bool,
    grad: GradientOutputs.GradientOutput,
    irrepsIn: IrrepsMap,
    irrepsOut: IrrepsMap)

  /** What construction guarantees of the inner wrapper. */
  predicate Valid(st: StressOutput) {
    && st.doForces
    && GradientOutputs.Valid(st.grad)
    && st.grad.of == TotalEnergy
    && st.grad.wrt == [Positions, Displacement]
    && st.grad.outField == [Force, Stress]
    && !st.grad.negate
  }

  /** `StressOutput.__init__`. */
  function New(energyModel: Model, doForces: bool): (r: Result<StressOutput, Error>)
    ensures !doForces ==> r.Failure? && r.error == NotImplementedError
    ensures doForces ==> (r.Success? <==> Positions in energyModel.irrepsIn)
    ensures doForces && Positions !in energyModel.irrepsIn ==> r.Failure? && r.error == KeyError(Positions)
    ensures r.Success? ==>
      && Valid(r.value)
      // the wrapped model is told that it takes the strain as an input
      && r.value.grad.func.irrepsIn == energyModel.irrepsIn[Displacement := None]
      && r.value.grad.func.run == energyModel.run
      // published inputs: positions and cell, never the helper field
      && Positions in r.value.irrepsIn
      && Cell in r.value.irrepsIn && r.value.irrepsIn[Cell] == None
      && Displacement !in r.value.irrepsIn
      // published outputs: force with the irreps of positions, stress, never the helper field
      && Displacement !in r.value.irrepsOut
      && Force in r.value.irrepsOut && r.value.irrepsOut[Force] == energyModel.irrepsIn[Positions]
      && Stress in r.value.irrepsOut && r.value.irrepsOut[Stress] == None
  {
    if !doForces then Failure(NotImplementedError)
    else
      var model := energyModel.(irrepsIn := energyModel.irrepsIn[Displacement := None]);
      var inner := GradientOutputs.New(
        model, TotalEnergy,
        GradientOutputs.NameList([Positions, Displacement]),
        Some(GradientOutputs.NameList([Force, Stress])), 1.0);
      assert AllIn(model.irrepsIn, [Positions, Displacement]) <==> Positions in energyModel.irrepsIn;
      match inner
      case Failure(e) => Failure(e)
      case Success(grad) =>
        assert LastOccurrence(grad.outField, 0) && LastOccurrence(grad.outField, 1);
        assert Positions in grad.irrepsIn;
        var irrepsIn := grad.irrepsIn[Cell := None];
        assert Displacement in irrepsIn;
        var (declaredIn, declaredOut) := DeclareIrreps(irrepsIn - {Displacement}, grad.irrepsOut);
        assert Displacement in declaredOut;
        Success(StressOutput(doForces, grad, declaredIn, declaredOut - {Displacement}))
  }

  /**
    What StressOutput.forward needs of its input after `with_batch`: a
    non-empty batch index of natural numbers, one position per atom, one cell
    or one per configuration, and no degenerate cell.
   */
  predicate Ready(s: State) {
    && Batch in s && s[Batch].value.Indices? && ValidBatch(s[Batch].value.ns)
    && Positions in s && s[Positions].value.Vectors?
    && |s[Positions].value.vs| == |s[Batch].value.ns|
    && Cell in s && s[Cell].value.Matrices?
    && (|s[Cell].value.ms| == 1 || |s[Cell].value.ms| == NumBatch(s[Batch].value.ns))
    && NonZero(Volumes(s[Cell].value.ms))
  }

  function NumConfigs(s: State): nat
    requires Ready(s)
  {
    NumBatch(s[Batch].value.ns)
  }

  /** The per-configuration cell before deformation (the `cell` of the volume computation). */
  function ReferenceCells(s: State): (r: seq<Mat3>)
    requires Ready(s)
    ensures |r| == NumConfigs(s)
    ensures NonZero(Volumes(r))
  {
    var cells := s[Cell].value.ms;
    assert forall b :: 0 <= b < |cells| ==> TripleProduct(cells[b]) != 0.0 by {
      forall b | 0 <= b < |cells| ensures TripleProduct(cells[b]) != 0.0 {
        assert Volumes(cells)[b] == TripleProduct(cells[b]);
      }
    }
    BroadcastCell(s[Cell].value.ms, NumConfigs(s))
  }

  /** The state handed to the inner gradient wrapper: strain inserted, positions and cell deformed. */
  function Prepare(s: State): (r: State)
    requires Ready(s)
    ensures forall k :: k in r <==> k in s || k == Displacement
    ensures r[Positions].requiresGrad && r[Cell].requiresGrad && r[Displacement].requiresGrad
    ensures r[Displacement].value == Matrices(ZeroStrain(NumConfigs(s)))
    ensures r[Positions].value.Vectors? && |r[Positions].value.vs| == |s[Positions].value.vs|
    ensures forall k :: k in s && k != Positions && k != Cell && k != Displacement ==> r[k] == s[k]
  {
    var n := NumConfigs(s);
    var strain := ZeroStrain(n);
    s[Cell := Field(Matrices(DeformCells(ReferenceCells(s), strain)), true)]
     [Displacement := Field(Matrices(strain), true)]
     [Positions := Field(Vectors(DeformPositions(s[Positions].value.vs, s[Batch].value.ns, strain)), true)]
  }

  /**
    The inner wrapper sees the caller's positions, the broadcast cell and a zero
    strain, all with `requires_grad` set, and every other field unchanged.
   */
  lemma PrepareIsNeutral(s: State)
    requires Ready(s)
    ensures var p := Prepare(s);
      && p[Positions] == Field(s[Positions].value, true)
      && p[Cell] == Field(Matrices(ReferenceCells(s)), true)
      && p[Displacement] == Field(Matrices(ZeroStrain(NumConfigs(s))), true)
      && (forall k :: k in p <==> k in s || k == Displacement)
      && (forall k :: k in s && k != Positions && k != Cell && k != Displacement ==> p[k] == s[k])
  {
    DeformationNeutralAtZeroStrain(s[Positions].value.vs, s[Batch].value.ns, ReferenceCells(s));
  }

  /**
    What the inner gradient wrapper leaves behind for the second half of
    `forward`: the raw force and stress, the stress shaped like the strain, and
    the helper field still present.
   */
  lemma InnerResult(st: StressOutput, s: State, autograd: Autograd, q: State)
    requires Valid(st) && Ready(s) && ShapePreserving(autograd)
    requires GradientOutputs.Succeeds(st.grad, Prepare(s), autograd)
    requires GradientOutputs.Returned(st.grad, Prepare(s), autograd, q)
    ensures var p := Prepare(s);
      var gs := GradientOutputs.Grads(st.grad, p, autograd);
      var post := GradientOutputs.Post(st.grad, p);
      && Force in q && q[Force] == gs[0].value
      && Stress in q && q[Stress] == gs[1].value
      && gs[1].value.value.Matrices? && |gs[1].value.value.ms| == NumConfigs(s)
      && Displacement in q
      && Positions in q && Positions in post && q[Positions].value == post[Positions].value && q[Positions].requiresGrad
      && (forall k :: k in q <==> k in post || k == Force || k == Stress)
      && (forall k :: k in post && k != Positions && k != Displacement && k != Force && k != Stress ==> q[k] == post[k])
  {
    var p := Prepare(s);
    PrepareIsNeutral(s);
    var gs := GradientOutputs.Grads(st.grad, p, autograd);
    var inputs := GradientOutputs.Inputs(st.grad, p);
    assert LastOccurrence(st.grad.outField, 0) && LastOccurrence(st.grad.outField, 1);
    assert LastOccurrence(st.grad.wrt, 0);
    assert inputs[1] == GradientOutputs.Armed(p, st.grad.wrt)[Displacement];
    assert SameShape(gs[1].value.value, inputs[1].value);
    assert forall k :: k in st.grad.outField <==> k == Force || k == Stress;
    assert forall k :: k in st.grad.wrt <==> k == Positions || k == Displacement;
    assert GradientOutputs.Recorded(p, st.grad.wrt)[0];
  }

  /**
    The first half of `forward`: broadcast the cell, insert the zero strain with
    `requires_grad` set, and deform positions and cell by it.
   */
  method DeformInPlace(data: AtomicData) returns (cell: seq<Mat3>, cellFlag: bool)
    requires Ready(data.fields)
    modifies data
    ensures data.fields == Prepare(old(data.fields))
    ensures cell == ReferenceCells(old(data.fields)) && cellFlag == old(data.fields)[Cell].requiresGrad
  {
    var batch := data.fields[Batch].value.ns;
    var numBatch := NumBatch(batch);
    cellFlag := data.fields[Cell].requiresGrad;
    data.fields := data.fields[Cell := Field(Matrices(BroadcastCell(data.fields[Cell].value.ms, numBatch)), cellFlag)];
    var displacement := ZeroStrain(numBatch);
    data.fields := data.fields[Displacement := Field(Matrices(displacement), true)];
    var pos := data.fields[Positions].value.vs;
    data.fields := data.fields[Positions := Field(Vectors(DeformPositions(pos, batch, displacement)), true)];
    cell := data.fields[Cell].value.ms;
    data.fields := data.fields[Cell := Field(Matrices(DeformCells(cell, displacement)), true)];
  }

  /**
    The second half of `forward`: negate the force, divide the stress by the
    volume of the reference cell, and delete the helper field.
   */
  method Rescale(data: AtomicData, cell: seq<Mat3>, cellFlag: bool)
    requires Force in data.fields && Stress in data.fields && Displacement in data.fields
    requires data.fields[Stress].value.Matrices? && |data.fields[Stress].value.ms| == |cell|
    requires NonZero(Volumes(cell))
    modifies data
    ensures Displacement !in data.fields
    ensures forall k :: k in data.fields <==> k in old(data.fields) && k != Displacement
    ensures data.fields[Force] == NegField(old(data.fields)[Force])
    ensures var stress := old(data.fields)[Stress];
      data.fields[Stress] == Field(Matrices(Normalize(stress.value.ms, Volumes(cell))), stress.requiresGrad || cellFlag)
    ensures forall k :: k in data.fields && k != Force && k != Stress ==> data.fields[k] == old(data.fields)[k]
  {
    data.fields := data.fields[Force := NegField(data.fields[Force])];
    var volume := Volumes(cell);
    assert |volume| == |cell|;
    var stress := data.fields[Stress];
    data.fields := data.fields[Stress := Field(Matrices(Normalize(stress.value.ms, volume)), stress.requiresGrad || cellFlag)];
    data.fields := data.fields - {Displacement};
  }

  /** `StressOutput.forward`, updating the dictionary in place. */
  method Forward(st: StressOutput, data: AtomicData, autograd: Autograd) returns (err: Option<Error>)
    requires Valid(st) && Ready(data.fields) && ShapePreserving(autograd)
    modifies data
    ensures err == None <==> GradientOutputs.Succeeds(st.grad, Prepare(old(data.fields)), autograd)
    ensures err == None ==> Displacement !in data.fields
    ensures var s := old(data.fields); var p := Prepare(s);
      err == None ==>
        var gs := GradientOutputs.Grads(st.grad, p, autograd);
        var post := GradientOutputs.Post(st.grad, p);
        && GradientOutputs.Succeeds(st.grad, p, autograd)
        // force: minus the position gradient
        && Force in data.fields && data.fields[Force] == NegField(gs[0].value)
        // force: one vector per atom, shaped like the positions
        && data.fields[Force].value.Vectors? && |data.fields[Force].value.vs| == |s[Positions].value.vs|
        // stress: the strain gradient divided by the volume of the undeformed cell
        && gs[1].value.value.Matrices? && |gs[1].value.value.ms| == NumConfigs(s)
        && Stress in data.fields
        && data.fields[Stress] == Field(Matrices(Normalize(gs[1].value.value.ms, Volumes(ReferenceCells(s)))),
                                        gs[1].value.requiresGrad || s[Cell].requiresGrad)
        // the deformed positions stay in the dictionary, with requires_grad set
        && Positions in data.fields && Positions in post
        && data.fields[Positions].value == post[Positions].value && data.fields[Positions].requiresGrad
        // nothing else is touched after the model ran
        && (forall k :: k in data.fields <==> (k in post && k != Displacement) || k == Force || k == Stress)
        && (forall k :: k in post && k != Positions && k != Displacement && k != Force && k != Stress ==>
              data.fields[k] == post[k])
  {
    ghost var s := data.fields;
    var cell, cellFlag := DeformInPlace(data);
    ghost var p := data.fields;
    PrepareIsNeutral(s);

    err := GradientOutputs.Forward(st.grad, data, autograd);
    if err != None {
      return;
    }
    InnerResult(st, s, autograd, data.fields);
    Rescale(data, cell, cellFlag);
  }
}
