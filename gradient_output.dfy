/**
  GradientOutput: wraps a model and adds, as outputs, the gradients of one of
  its scalar outputs with respect to some of its input fields; and ForceOutput,
  its instance for forces.
 */
module GradientOutputs {
  import opened Wrappers
  import opened Fields

  /** `wrt` and `out_field` accept one name or a list of names. */
  datatype Names = Name(name: string) | NameList(names: seq<string>)

  /** A single name is promoted to a one-element list. */
  function Listed(n: Names): (r: seq<string>)
    ensures n.Name? ==> r == [n.name]
    ensures n.NameList? ==> r == n.names
  {
    match n
    case Name(x) => [x]
    case NameList(xs) => xs
  }

  /** A constructed wrapper: its settings and its declared irreps. */
  datatype GradientOutput = GradientOutput(
    func: Model,
    of: string,
    wrt: seq<string>,
    outField: seq<string>,
    sign: real,
    negate: bool,
    irrepsIn: IrrepsMap,
    irrepsOut: IrrepsMap)

  /** What construction guarantees of every wrapper. */
  predicate Valid(g: GradientOutput) {
    && (g.sign == 1.0 || g.sign == -1.0)
    && g.negate == (g.sign == -1.0)
    && |g.outField| == |g.wrt|
  }

  const OutFieldMessage: string := "Out field names must be given for all w.r.t tensors"
  const NoGradientMessage: string := "Something is wrong, gradient couldn't be computed"

  /** The default output name for the gradient of `of` with respect to `e`. */
  function Label(of: string, e: string): string {
    "d(" + of + ")/d(" + e + ")"
  }

  /** Different input names give different default output names. */
  lemma LabelInjective(of: string, a: string, b: string)
    requires a != b
    ensures Label(of, a) != Label(of, b)
  {
    if |a| == |b| {
      var k :| 0 <= k < |a| && a[k] != b[k];
      assert Label(of, a)[|of| + 6 + k] == a[k];
      assert Label(of, b)[|of| + 6 + k] == b[k];
    }
  }

  function DefaultOutFields(of: string, wrt: seq<string>): (r: seq<string>)
    ensures |r| == |wrt|
    ensures forall i :: 0 <= i < |wrt| ==> r[i] == Label(of, wrt[i])
  {
    seq(|wrt|, i requires 0 <= i < |wrt| => Label(of, wrt[i]))
  }

  /** The default output names are as distinct as the input names, so no gradient overwrites another. */
  lemma DefaultOutFieldsDistinct(of: string, wrt: seq<string>)
    requires Distinct(wrt)
    ensures Distinct(DefaultOutFields(of, wrt))
  {
    var r := DefaultOutFields(of, wrt);
    forall i, j | 0 <= i < j < |r| ensures r[i] != r[j] {
      LabelInjective(of, wrt[i], wrt[j]);
    }
  }

  /**
    The dictionary `{f: irrepsIn[w] for f, w in zip(outs, wrt)}`: built left to
    right, so a repeated output name keeps its last entry, and the first `w`
    without irreps raises KeyError.
   */
  function OutputIrreps(outs: seq<string>, wrt: seq<string>, irrepsIn: IrrepsMap): (r: Result<IrrepsMap, Error>)
    requires |outs| == |wrt|
    ensures r.Success? <==> AllIn(irrepsIn, wrt)
    ensures r.Failure? ==> r.error == KeyError(wrt[FirstMissing(irrepsIn, wrt)])
    ensures r.Success? ==> forall k :: k in r.value <==> k in outs
    ensures r.Success? ==> forall i :: 0 <= i < |outs| && LastOccurrence(outs, i) ==> r.value[outs[i]] == irrepsIn[wrt[i]]
  {
    if |outs| == 0 then Success(map[])
    else if wrt[0] !in irrepsIn then Failure(KeyError(wrt[0]))
    else
      match OutputIrreps(outs[1..], wrt[1..], irrepsIn)
      case Failure(e) => Failure(e)
      case Success(rest) => Success(map[outs[0] := irrepsIn[wrt[0]]] + rest)
  }

  /** Every output name that is not overwritten later carries the irreps of its `wrt` field. */
  ghost predicate IrrepsFollowWrt(g: GradientOutput)
    requires |g.outField| == |g.wrt|
  {
    forall i :: 0 <= i < |g.outField| && LastOccurrence(g.outField, i) ==>
      g.outField[i] in g.irrepsOut && g.wrt[i] in g.irrepsIn && g.irrepsOut[g.outField[i]] == g.irrepsIn[g.wrt[i]]
  }

  /** `GradientOutput.__init__`. */
  function New(func: Model, of: string, wrt: Names, outField: Option<Names>, sign: real): (r: Result<GradientOutput, Error>)
    ensures r.Success? <==>
      && (sign == 1.0 || sign == -1.0)
      && (outField.Some? ==> |Listed(outField.value)| == |Listed(wrt)|)
      && AllIn(func.irrepsIn, Listed(wrt))
    ensures !(sign == 1.0 || sign == -1.0) ==> r.Failure? && r.error == AssertionError("")
    ensures (sign == 1.0 || sign == -1.0) && outField.Some? && |Listed(outField.value)| != |Listed(wrt)| ==>
      r.Failure? && r.error == AssertionError(OutFieldMessage)
    ensures (sign == 1.0 || sign == -1.0) && (outField.Some? ==> |Listed(outField.value)| == |Listed(wrt)|) && !AllIn(func.irrepsIn, Listed(wrt)) ==>
      r.Failure? && r.error == KeyError(Listed(wrt)[FirstMissing(func.irrepsIn, Listed(wrt))])
    ensures r.Success? ==>
      && Valid(r.value)
      && r.value.func == func && r.value.of == of && r.value.sign == sign
      && r.value.negate == (sign == -1.0)
      && r.value.wrt == Listed(wrt)
      && r.value.outField == (if outField.Some? then Listed(outField.value) else DefaultOutFields(of, Listed(wrt)))
      && r.value.irrepsIn == func.irrepsIn
      && IrrepsFollowWrt(r.value)
      && (forall k :: k in r.value.irrepsOut <==> k in func.irrepsIn || k in func.irrepsOut || k in r.value.outField)
      && (forall k :: k in func.irrepsOut && k !in r.value.outField ==> r.value.irrepsOut[k] == func.irrepsOut[k])
      && (forall k :: k in func.irrepsIn && k !in func.irrepsOut && k !in r.value.outField ==> r.value.irrepsOut[k] == func.irrepsIn[k])
  {
    if !(sign == 1.0 || sign == -1.0) then Failure(AssertionError(""))
    else
      var wrtList := Listed(wrt);
      if outField.Some? && |Listed(outField.value)| != |wrtList| then Failure(AssertionError(OutFieldMessage))
      else
        var outs := if outField.Some? then Listed(outField.value) else DefaultOutFields(of, wrtList);
        var (irrepsIn, irrepsOut) := DeclareIrreps(func.irrepsIn, func.irrepsOut);
        match OutputIrreps(outs, wrtList, irrepsIn)
        case Failure(e) => Failure(e)
        case Success(gradIrreps) =>
          Success(GradientOutput(func, of, wrtList, outs, sign, sign == -1.0, irrepsIn, irrepsOut + gradIrreps))
  }

  /** `ForceOutput`: force is minus the gradient of the total energy with respect to positions. */
  function ForceOutput(energyModel: Model): (r: Result<GradientOutput, Error>)
    ensures r.Success? <==> Positions in energyModel.irrepsIn
    ensures r.Failure? ==> r.error == KeyError(Positions)
    ensures r.Success? ==>
      && Valid(r.value) && r.value.func == energyModel
      && r.value.of == TotalEnergy && r.value.wrt == [Positions] && r.value.outField == [Force]
      && r.value.sign == -1.0 && r.value.negate
      && Force in r.value.irrepsOut && r.value.irrepsOut[Force] == energyModel.irrepsIn[Positions]
  {
    var r := New(energyModel, TotalEnergy, Name(Positions), Some(Name(Force)), -1.0);
    assert AllIn(energyModel.irrepsIn, [Positions]) <==> Positions in energyModel.irrepsIn;
    assert r.Success? ==> LastOccurrence(r.value.outField, 0);
    r
  }

  // ----- forward -----

  /** The state with `requires_grad` forced on for every field named in `keys`. */
  function Armed(s: State, keys: seq<string>): (r: State)
    ensures r.Keys == s.Keys
  {
    map k | k in s :: if k in keys then s[k].(requiresGrad := true) else s[k]
  }

  /**
    The flags `forward` records, one per `wrt` entry, read just before each is
    forced on: a name seen earlier in `wrt` was already forced on, so its
    record is true.
   */
  function Recorded(s: State, wrt: seq<string>): seq<bool>
    requires AllIn(s, wrt)
  {
    seq(|wrt|, i requires 0 <= i < |wrt| => wrt[i] in wrt[..i] || s[wrt[i]].requiresGrad)
  }

  /** The state after the wrapped model ran on the armed input. */
  function Post(g: GradientOutput, s: State): State
    requires AllIn(s, g.wrt)
  {
    g.func.run(Armed(s, g.wrt))
  }

  /** The `wrt` tensors handed to the differentiation pass (taken after arming). */
  function Inputs(g: GradientOutput, s: State): (r: seq<Field>)
    requires AllIn(s, g.wrt)
    ensures |r| == |g.wrt|
  {
    var a := Armed(s, g.wrt);
    seq(|g.wrt|, i requires 0 <= i < |g.wrt| => a[g.wrt[i]])
  }

  /** One optional gradient per `wrt` entry, from a single differentiation pass. */
  function Grads(g: GradientOutput, s: State, autograd: Autograd): (r: seq<Option<Field>>)
    requires AllIn(s, g.wrt)
    ensures |r| == |g.wrt|
  {
    var post, inputs := Post(g, s), Inputs(g, s);
    seq(|g.wrt|, i requires 0 <= i < |g.wrt| => autograd(post, g.of, inputs, i))
  }

  predicate GradsPresent(gs: seq<Option<Field>>) {
    forall i :: 0 <= i < |gs| ==> gs[i].Some?
  }

  /** The gradient multiplied by the wrapper's sign. */
  function Signed(negate: bool, f: Field): (r: Field)
    ensures r.requiresGrad == f.requiresGrad && SameShape(r.value, f.value)
    ensures negate ==> Neg(r.value) == f.value
    ensures !negate ==> r == f
  {
    if negate then NegField(f) else f
  }

  /** When `forward` returns normally. */
  predicate Succeeds(g: GradientOutput, s: State, autograd: Autograd) {
    && AllIn(s, g.wrt)
    && g.of in Post(g, s)
    && GradsPresent(Grads(g, s, autograd))
    && forall i :: 0 <= i < |g.wrt| ==> g.wrt[i] in Post(g, s) || g.wrt[i] in g.outField
  }

  /** Every output name holds the signed gradient of its `wrt` field (the last one, for a repeated name). */
  predicate GradientsWritten(g: GradientOutput, gs: seq<Option<Field>>, t: State)
    requires Valid(g) && |gs| == |g.wrt| && GradsPresent(gs)
  {
    forall i :: 0 <= i < |g.outField| && LastOccurrence(g.outField, i) ==>
      && g.outField[i] in t
      && t[g.outField[i]].value == Signed(g.negate, gs[i].value).value
      && (g.outField[i] !in g.wrt ==> t[g.outField[i]] == Signed(g.negate, gs[i].value))
  }

  /** Every `wrt` field's flag is back to the value recorded for it. */
  predicate FlagsRestored(g: GradientOutput, s: State, t: State)
    requires AllIn(s, g.wrt)
  {
    forall i :: 0 <= i < |g.wrt| && LastOccurrence(g.wrt, i) ==>
      g.wrt[i] in t && t[g.wrt[i]].requiresGrad == Recorded(s, g.wrt)[i]
  }

  /**
    What a normal return of `forward` on `s` leaves in the dictionary `t`: the
    model's output plus one signed gradient per output name, every `wrt` flag
    back to its recorded value, and nothing else changed.
   */
  ghost predicate Returned(g: GradientOutput, s: State, autograd: Autograd, t: State)
    requires Valid(g) && Succeeds(g, s, autograd)
  {
    var post := Post(g, s);
    && (forall k :: k in t <==> k in post || k in g.outField)
    && GradientsWritten(g, Grads(g, s, autograd), t)
    && FlagsRestored(g, s, t)
    && (forall k :: k in post && k !in g.outField ==> t[k].value == post[k].value)
    && (forall k :: k in post && k !in g.outField && k !in g.wrt ==> t[k] == post[k])
  }

  /** With distinct `wrt` names every flag is restored to its value before the call. */
  lemma RecordedIsOriginal(s: State, wrt: seq<string>)
    requires AllIn(s, wrt) && Distinct(wrt)
    ensures forall i :: 0 <= i < |wrt| ==> LastOccurrence(wrt, i) && Recorded(s, wrt)[i] == s[wrt[i]].requiresGrad
  {
    forall i | 0 <= i < |wrt|
      ensures wrt[i] !in wrt[..i]
    {
      forall j | 0 <= j < i ensures wrt[..i][j] != wrt[i] {
        assert wrt[..i][j] == wrt[j];
      }
    }
  }

  /** A name listed twice in `wrt` is left with `requires_grad` set, whatever it was before. */
  lemma RepeatedWrtStaysArmed(s: State, wrt: seq<string>, i: nat, j: nat)
    requires AllIn(s, wrt) && i < j < |wrt| && wrt[i] == wrt[j]
    ensures Recorded(s, wrt)[j]
  {
    assert wrt[..j][i] == wrt[j];
  }

  lemma FirstMissingAt(s: State, keys: seq<string>, i: nat)
    requires i < |keys| && AllIn(s, keys[..i]) && keys[i] !in s
    ensures FirstMissing(s, keys) == i
  {
    forall j | 0 <= j < i ensures keys[j] in s {
      assert keys[..i][j] == keys[j];
    }
  }

  lemma ArmedExtend(s: State, keys: seq<string>, k: string)
    requires k in s
    ensures Armed(s, keys + [k]) == Armed(s, keys)[k := s[k].(requiresGrad := true)]
  {
    var l, r := Armed(s, keys + [k]), Armed(s, keys)[k := s[k].(requiresGrad := true)];
    assert l.Keys == r.Keys;
    forall x | x in l ensures l[x] == r[x] {
      assert x in keys + [k] <==> x in keys || x == k;
    }
  }

  lemma RecordedExtend(s: State, keys: seq<string>, k: string)
    requires AllIn(s, keys) && k in s
    ensures AllIn(s, keys + [k])
    ensures Recorded(s, keys + [k]) == Recorded(s, keys) + [k in keys || s[k].requiresGrad]
  {
    var ks := keys + [k];
    assert ks[..|keys|] == keys;
    forall j | 0 <= j < |keys| ensures ks[..j] == keys[..j] && ks[j] == keys[j] {}
  }

  /**
    The first loop of `forward`: record each `wrt` flag, force it on and keep
    the tensor, raising KeyError at the first missing field.
   */
  method ArmFlags(g: GradientOutput, data: AtomicData) returns (wrtTensors: seq<Field>, oldRequiresGrad: seq<bool>, err: Option<Error>)
    modifies data
    ensures var s := old(data.fields); var m := FirstMissing(s, g.wrt);
      m < |g.wrt| ==> err == Some(KeyError(g.wrt[m])) && data.fields == Armed(s, g.wrt[..m])
    ensures var s := old(data.fields);
      AllIn(s, g.wrt) ==>
        && err == None
        && data.fields == Armed(s, g.wrt)
        && wrtTensors == Inputs(g, s)
        && oldRequiresGrad == Recorded(s, g.wrt)
  {
    ghost var s := data.fields;
    wrtTensors, oldRequiresGrad := [], [];
    var i := 0;
    while i < |g.wrt|
      invariant 0 <= i <= |g.wrt|
      invariant AllIn(s, g.wrt[..i])
      invariant data.fields == Armed(s, g.wrt[..i])
      invariant oldRequiresGrad == Recorded(s, g.wrt[..i])
      invariant |wrtTensors| == i
      invariant forall j :: 0 <= j < i ==> wrtTensors[j] == data.fields[g.wrt[j]]
    {
      var k := g.wrt[i];
      if k !in data.fields {
        FirstMissingAt(s, g.wrt, i);
        return wrtTensors, oldRequiresGrad, Some(KeyError(k));
      }
      ArmedExtend(s, g.wrt[..i], k);
      RecordedExtend(s, g.wrt[..i], k);
      assert g.wrt[..i + 1] == g.wrt[..i] + [k];
      oldRequiresGrad := oldRequiresGrad + [data.fields[k].requiresGrad];
      data.fields := data.fields[k := data.fields[k].(requiresGrad := true)];
      wrtTensors := wrtTensors + [data.fields[k]];
      i := i + 1;
    }
    assert g.wrt[..i] == g.wrt;
    assert wrtTensors == Inputs(g, s);
    err := None;
  }

  /**
    The second loop of `forward`: write each gradient, negated when the sign is
    -1, to its output name, raising RuntimeError at the first missing one.
   */
  method WriteGradients(outField: seq<string>, negate: bool, grads: seq<Option<Field>>, data: AtomicData) returns (err: Option<Error>)
    requires |grads| == |outField|
    modifies data
    ensures err == None <==> GradsPresent(grads)
    ensures err != None ==> err == Some(RuntimeError(NoGradientMessage))
    ensures forall k :: k in data.fields ==> k in old(data.fields) || k in outField
    ensures forall k :: k in old(data.fields) && k !in outField ==> k in data.fields && data.fields[k] == old(data.fields)[k]
    ensures err == None ==>
      forall i :: 0 <= i < |outField| && LastOccurrence(outField, i) ==>
        outField[i] in data.fields && data.fields[outField[i]] == Signed(negate, grads[i].value)
    ensures err == None ==> forall k :: k in outField ==> k in data.fields
  {
    ghost var post := data.fields;
    var i := 0;
    while i < |outField|
      invariant 0 <= i <= |outField|
      invariant forall j :: 0 <= j < i ==> grads[j].Some?
      invariant forall k :: k in data.fields <==> k in post || k in outField[..i]
      invariant forall k :: k in post && k !in outField[..i] ==> data.fields[k] == post[k]
      invariant forall j :: 0 <= j < i && (forall m :: j < m < i ==> outField[m] != outField[j]) ==>
        data.fields[outField[j]] == Signed(negate, grads[j].value)
    {
      var grad := grads[i];
      if grad.None? {
        return Some(RuntimeError(NoGradientMessage));
      }
      var out := grad.value;
      if negate {
        out := NegField(out);
      }
      assert outField[..i + 1] == outField[..i] + [outField[i]];
      data.fields := data.fields[outField[i] := out];
      i := i + 1;
    }
    assert outField[..i] == outField;
    err := None;
  }

  /**
    The third loop of `forward`: set each `wrt` field's flag back to the
    recorded value, in `wrt` order, raising KeyError at the first missing field.
   */
  method RestoreFlags(wrt: seq<string>, recorded: seq<bool>, data: AtomicData) returns (err: Option<Error>)
    requires |recorded| == |wrt|
    modifies data
    ensures err == None <==> AllIn(old(data.fields), wrt)
    ensures err != None ==> err == Some(KeyError(wrt[FirstMissing(old(data.fields), wrt)]))
    ensures data.fields.Keys == old(data.fields).Keys
    ensures forall k :: k in old(data.fields) ==> data.fields[k].value == old(data.fields)[k].value
    ensures forall k :: k in old(data.fields) && k !in wrt ==> data.fields[k] == old(data.fields)[k]
    ensures err == None ==>
      forall i :: 0 <= i < |wrt| && LastOccurrence(wrt, i) ==> data.fields[wrt[i]].requiresGrad == recorded[i]
  {
    ghost var written := data.fields;
    var i := 0;
    while i < |wrt|
      invariant 0 <= i <= |wrt|
      invariant data.fields.Keys == written.Keys
      invariant forall k :: k in written ==> data.fields[k].value == written[k].value
      invariant forall k :: k in written && k !in wrt[..i] ==> data.fields[k] == written[k]
      invariant forall j :: 0 <= j < i ==> wrt[j] in written
      invariant forall j :: 0 <= j < i && (forall m :: j < m < i ==> wrt[m] != wrt[j]) ==>
        data.fields[wrt[j]].requiresGrad == recorded[j]
    {
      var k := wrt[i];
      if k !in data.fields {
        return Some(KeyError(k));
      }
      assert wrt[..i + 1] == wrt[..i] + [k];
      data.fields := data.fields[k := data.fields[k].(requiresGrad := recorded[i])];
      i := i + 1;
    }
    err := None;
  }

  /** `GradientOutput.forward`, updating the dictionary in place. */
  method Forward(g: GradientOutput, data: AtomicData, autograd: Autograd) returns (err: Option<Error>)
    requires Valid(g)
    modifies data
    // a missing `wrt` field: KeyError, the fields before it left armed
    ensures var s := old(data.fields); var m := FirstMissing(s, g.wrt);
      m < |g.wrt| ==> err == Some(KeyError(g.wrt[m])) && data.fields == Armed(s, g.wrt[..m])
    // the model's output lacks `of`: KeyError, flags not restored
    ensures var s := old(data.fields);
      AllIn(s, g.wrt) && g.of !in Post(g, s) ==> err == Some(KeyError(g.of)) && data.fields == Post(g, s)
    // a missing gradient: RuntimeError before the restore loop, flags not restored
    ensures var s := old(data.fields);
      AllIn(s, g.wrt) && g.of in Post(g, s) && !GradsPresent(Grads(g, s, autograd)) ==>
        && err == Some(RuntimeError(NoGradientMessage))
        && forall k :: k in Post(g, s) && k !in g.outField ==> k in data.fields && data.fields[k] == Post(g, s)[k]
    // a `wrt` field neither in the model's output nor an output name: KeyError in the restore loop
    ensures var s := old(data.fields);
      AllIn(s, g.wrt) ==> var post := Post(g, s);
      g.of in post && GradsPresent(Grads(g, s, autograd)) && !Succeeds(g, s, autograd) ==>
        exists i :: 0 <= i < |g.wrt| && err == Some(KeyError(g.wrt[i]))
          && g.wrt[i] !in post && g.wrt[i] !in g.outField
          && forall j :: 0 <= j < i ==> g.wrt[j] in post || g.wrt[j] in g.outField
    ensures err == None <==> Succeeds(g, old(data.fields), autograd)
    ensures err == None ==> Succeeds(g, old(data.fields), autograd) && Returned(g, old(data.fields), autograd, data.fields)
  {
    ghost var s := data.fields;
    var wrtTensors, oldRequiresGrad;
    wrtTensors, oldRequiresGrad, err := ArmFlags(g, data);
    if err != None {
      return;
    }
    data.fields := g.func.run(data.fields);
    if g.of !in data.fields {
      return Some(KeyError(g.of));
    }
    var result := data.fields;
    var grads := seq(|wrtTensors|, j requires 0 <= j < |wrtTensors| => autograd(result, g.of, wrtTensors, j));
    assert grads == Grads(g, s, autograd);
    err := WriteGradients(g.outField, g.negate, grads, data);
    if err != None {
      return;
    }
    ghost var written := data.fields;
    assert forall k :: k in written <==> k in result || k in g.outField;
    err := RestoreFlags(g.wrt, oldRequiresGrad, data);
    if err != None {
      ghost var m := FirstMissing(written, g.wrt);
      assert g.wrt[m] !in result && g.wrt[m] !in g.outField;
    }
  }

  /**
    The sign law: for the same model, inputs and gradients, the wrapper with
    sign -1 writes exactly the negation of what the wrapper with sign +1 writes.
   */
  lemma SignFlipNegates(g: GradientOutput, s: State, autograd: Autograd, t: State, u: State)
    requires Valid(g) && g.negate && Succeeds(g, s, autograd) && Returned(g, s, autograd, t)
    requires Valid(g.(sign := 1.0, negate := false)) && Succeeds(g.(sign := 1.0, negate := false), s, autograd)
    requires Returned(g.(sign := 1.0, negate := false), s, autograd, u)
    ensures forall i :: 0 <= i < |g.outField| && LastOccurrence(g.outField, i) ==>
      && g.outField[i] in t && g.outField[i] in u
      && t[g.outField[i]].value == Neg(u[g.outField[i]].value)
      && Neg(t[g.outField[i]].value) == u[g.outField[i]].value
  {
    var h := g.(sign := 1.0, negate := false);
    var gs := Grads(g, s, autograd);
    assert Grads(h, s, autograd) == gs;
    forall i | 0 <= i < |g.outField| && LastOccurrence(g.outField, i)
      ensures Neg(t[g.outField[i]].value) == u[g.outField[i]].value
    {
      NegInvolutive(gs[i].value.value);
    }
  }
}
