/**
  The batched-graph state the wrappers read and write: a dictionary from field
  names to tensors, each with its `requires_grad` flag; the exceptions the
  wrappers raise; the interface of a wrapped model and of the differentiation
  engine.
 */
module Fields {
  import opened Wrappers
  import opened LinAlg

  // Field names of AtomicDataDict used by this core; only their distinctness matters here.
  const TotalEnergy: string := "total_energy"
  const Positions: string := "pos"
  const Force: string := "forces"
  const Stress: string := "stress"
  const Cell: string := "cell"
  const Batch: string := "batch"
  /** The helper field holding the virtual strain during StressOutput's forward pass. */
  const Displacement: string := "_displacement"

  /** The payload of a tensor, by the shapes this core handles. */
  datatype Value =
    | Scalars(xs: seq<real>)     // any flat real tensor (e.g. per-configuration energies)
    | Vectors(vs: seq<Vec3>)     // one 3-vector per atom (positions, forces)
    | Matrices(ms: seq<Mat3>)    // one 3x3 matrix per configuration (cell, strain, stress)
    | Indices(ns: seq<int>)      // an integer tensor (the batch index)

  /** A tensor with its `requires_grad` flag. */
  datatype Field = Field(value: Value, requiresGrad: bool)

  type State = map<string, Field>

  /** An e3nn irreps descriptor, kept opaque; `None` in an irreps map is Python's `None`. */
  datatype Irreps = Irreps(descriptor: string)

  type IrrepsMap = map<string, Option<Irreps>>

  datatype Error =
    | AssertionError(message: string)
    | KeyError(key: string)
    | RuntimeError(message: string)
    | NotImplementedError

  /** A wrapped graph module: its declared input and output irreps and the map it computes. */
  datatype Model = Model(irrepsIn: IrrepsMap, irrepsOut: IrrepsMap, run: State -> State)

  /**
    The reverse-mode differentiation pass, left uninterpreted: given the state
    after the wrapped model ran, the name of the differentiated field, the input
    tensors and an index i, the gradient with respect to input i, or None when
    the output does not depend on it.
   */
  type Autograd = (State, string, seq<Field>, nat) -> Option<Field>

  /** The AtomicDataDict that `forward` receives and updates in place. */
  class AtomicData {
    var fields: State

    constructor (fields: State)
      ensures this.fields == fields
    {
      this.fields := fields;
    }
  }

  predicate SameShape(a: Value, b: Value) {
    match (a, b)
    case (Scalars(x), Scalars(y)) => |x| == |y|
    case (Vectors(x), Vectors(y)) => |x| == |y|
    case (Matrices(x), Matrices(y)) => |x| == |y|
    case (Indices(x), Indices(y)) => |x| == |y|
    case _ => false
  }

  /** torch.autograd.grad returns each gradient with the shape of its input. */
  ghost predicate ShapePreserving(autograd: Autograd) {
    forall s: State, of: string, ts: seq<Field>, i: nat ::
      i < |ts| && autograd(s, of, ts, i).Some? ==> SameShape(autograd(s, of, ts, i).value.value, ts[i].value)
  }

  /** Element-wise negation (`torch.neg`). */
  function Neg(v: Value): (r: Value)
    ensures SameShape(r, v)
  {
    match v
    case Scalars(xs) => Scalars(seq(|xs|, i requires 0 <= i < |xs| => -xs[i]))
    case Vectors(vs) => Vectors(seq(|vs|, i requires 0 <= i < |vs| => VecNeg(vs[i])))
    case Matrices(ms) => Matrices(seq(|ms|, i requires 0 <= i < |ms| => MatNeg(ms[i])))
    case Indices(ns) => Indices(seq(|ns|, i requires 0 <= i < |ns| => -ns[i]))
  }

  /** Negating twice gives back the tensor, so the sign -1 loses nothing. */
  lemma NegInvolutive(v: Value)
    ensures Neg(Neg(v)) == v
  {
    match v
    case Scalars(xs) =>
    case Vectors(vs) =>
      var w := Neg(Neg(v)).vs;
      forall i | 0 <= i < |vs| ensures w[i] == vs[i] {
        assert w[i] == VecNeg(VecNeg(vs[i]));
      }
    case Matrices(ms) =>
      var w := Neg(Neg(v)).ms;
      forall i | 0 <= i < |ms| ensures w[i] == ms[i] {
        var m := ms[i];
        assert w[i] == MatNeg(MatNeg(m));
        assert VecNeg(VecNeg(m[0])) == m[0] && VecNeg(VecNeg(m[1])) == m[1] && VecNeg(VecNeg(m[2])) == m[2];
      }
    case Indices(ns) =>
  }

  /** `torch.neg` keeps the `requires_grad` flag of its argument. */
  function NegField(f: Field): (r: Field)
    ensures r.requiresGrad == f.requiresGrad && SameShape(r.value, f.value)
    ensures Neg(r.value) == f.value
  {
    NegInvolutive(f.value);
    f.(value := Neg(f.value))
  }

  predicate AllIn<V>(m: map<string, V>, keys: seq<string>) {
    forall j :: 0 <= j < |keys| ==> keys[j] in m
  }

  /** The index of the first key that `m` lacks, or |keys| when it has them all. */
  function FirstMissing<V>(m: map<string, V>, keys: seq<string>): (r: nat)
    ensures r <= |keys|
    ensures forall j :: 0 <= j < r ==> keys[j] in m
    ensures r < |keys| ==> keys[r] !in m
    ensures r == |keys| <==> AllIn(m, keys)
  {
    if |keys| == 0 || keys[0] !in m then 0 else 1 + FirstMissing(m, keys[1..])
  }

  /** No later element repeats `xs[i]`: a dictionary write at i is the one that stays. */
  predicate LastOccurrence<T(==)>(xs: seq<T>, i: int)
    requires 0 <= i < |xs|
  {
    forall j :: i < j < |xs| ==> xs[j] != xs[i]
  }

  predicate Distinct<T(==)>(xs: seq<T>) {
    forall i, j :: 0 <= i < j < |xs| ==> xs[i] != xs[j]
  }

  /**
    GraphModuleMixin's declaration of a module's irreps: its inputs are the given
    inputs, its outputs are its inputs overwritten by its own outputs.
   */
  function DeclareIrreps(irrepsIn: IrrepsMap, irrepsOut: IrrepsMap): (r: (IrrepsMap, IrrepsMap))
    ensures r.0 == irrepsIn
    ensures r.1.Keys == irrepsIn.Keys + irrepsOut.Keys
    ensures forall k :: k in irrepsOut ==> r.1[k] == irrepsOut[k]
    ensures forall k :: k in irrepsIn && k !in irrepsOut ==> r.1[k] == irrepsIn[k]
  {
    (irrepsIn, irrepsIn + irrepsOut)
  }
}
