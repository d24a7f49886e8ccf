/** The bookkeeping of the GPTQ modifier in a single process: calibrate modules, then compress every one of them. */
module GptqModifier {
  import opened GptqColumns
  import opened GptqHessian

  type ModuleId = nat

  /** The attributes of a module that compression writes, by name. */
  type Params = map<string, Matrix>

  ghost predicate Accumulated(columns: ModuleId -> nat, hessians: map<ModuleId, Matrix>, numSamples: map<ModuleId, nat>,
                              calib: map<ModuleId, seq<Input>>, keys: set<ModuleId>)
    requires keys <= calib.Keys
  {
    && hessians.Keys == keys && numSamples.Keys == keys
    && (forall m :: m in keys ==> numSamples[m] == Samples(calib[m]))
    && (forall m :: m in keys ==> hessians[m] == HessianMatrix(columns(m), calib[m]))
  }

  ghost function Batches(calib: map<ModuleId, seq<Input>>, m: ModuleId): seq<Input> {
    if m in calib then calib[m] else []
  }

  ghost function Extended(calib: map<ModuleId, seq<Input>>, m: ModuleId, inp: Input): map<ModuleId, seq<Input>> {
    calib[m := Batches(calib, m) + [inp]]
  }

  lemma {:induction false} AccumulatedExtends(columns: ModuleId -> nat, hessians: map<ModuleId, Matrix>,
                                              numSamples: map<ModuleId, nat>,
                           calib: map<ModuleId, seq<Input>>, m: ModuleId, inp: Input, sum: Matrix, total: nat)
    requires Accumulated(columns, hessians, numSamples, calib, calib.Keys)
    requires sum == HessianMatrix(columns(m), Batches(calib, m) + [inp])
    requires total == Samples(Batches(calib, m) + [inp])
    ensures Accumulated(columns, hessians[m := sum], numSamples[m := total], Extended(calib, m, inp), calib.Keys + {m})
  {
  }

  class GPTQModifier {
    /** quantize_weight applied to a module, its summed Hessian and its sample count. */
    const quantize: (ModuleId, Matrix, nat) -> Params
    /** The number of columns of a module's weight. */
    const columns: ModuleId -> nat

    var hessians: map<ModuleId, Matrix>
    var numSamples: map<ModuleId, nat>
    var params: map<ModuleId, Params>

    constructor (quantize: (ModuleId, Matrix, nat) -> Params, columns: ModuleId -> nat, params: map<ModuleId, Params>)
      ensures this.quantize == quantize && this.columns == columns && this.params == params
      ensures Holds(map[], {})
    {
      this.quantize, this.columns, this.params := quantize, columns, params;
      hessians, numSamples := map[], map[];
    }

    /** For the modules in keys, and no others, the dictionaries hold what accumulating the batches calib[m] gives. */
    ghost predicate Holds(calib: map<ModuleId, seq<Input>>, keys: set<ModuleId>)
      requires keys <= calib.Keys
      reads this
    {
      Accumulated(columns, hessians, numSamples, calib, keys)
    }

    /** Accumulates the module's input, starting from a zero Hessian when the module is new. */
    method CalibrateModule(m: ModuleId, inp: Input, ghost calib: map<ModuleId, seq<Input>>)
      requires Holds(calib, calib.Keys) && HasFeatures(inp, columns(m))
      modifies this`hessians, this`numSamples
      ensures Holds(Extended(calib, m, inp), calib.Keys + {m})
    {
      var H, count := [], 0;
      if m in numSamples {
        H, count := hessians[m], numSamples[m];
      } else {
        H := MakeEmptyHessian(columns(m));
      }
      var sum, total := AddInput(inp, columns(m), H, count, Batches(calib, m));
      AccumulatedExtends(columns, hessians, numSamples, calib, m, inp, sum, total);
      hessians := hessians[m := sum];
      numSamples := numSamples[m := total];
    }

    static method MakeEmptyHessian(n: nat) returns (H: Matrix)
      ensures H == HessianMatrix(n, [])
    {
      H := seq(n, i => seq(n, j => 0.0));
      SameMatrix(H, HessianMatrix(n, []), n, n);
    }

    static method AddInput(inp: Input, n: nat, H: Matrix, count: nat, ghost before: seq<Input>)
      returns (sum: Matrix, total: nat)
      requires H == HessianMatrix(n, before) && count == Samples(before) && HasFeatures(inp, n)
      ensures sum == HessianMatrix(n, before + [inp]) && total == Samples(before + [inp])
    {
      sum, total := AccumulateHessian(inp, n, H, count);
      assert (before + [inp])[..|before|] == before;
      SameMatrix(sum, HessianMatrix(n, before + [inp]), n, n);
    }

    /** Pops the Hessian and the sample count of every listed module and stores what quantize makes of them. */
    method CompressModuleList(moduleList: seq<ModuleId>, ghost calib: map<ModuleId, seq<Input>>)
      returns (ghost left: set<ModuleId>)
      requires Holds(calib, calib.Keys)
      requires forall i :: 0 <= i < |moduleList| ==> moduleList[i] in calib
      requires forall i, j :: 0 <= i < j < |moduleList| ==> moduleList[i] != moduleList[j]
      modifies this
      ensures forall m :: m in left <==> m in calib && m !in moduleList
      ensures Holds(calib, left)
      ensures params == CompressAll(quantize, columns, old(params), calib, moduleList)
    {
      hide CompressAll, Compressed;
      left := calib.Keys;
      CompressNone(quantize, columns, params, calib, moduleList);
      for k := 0 to |moduleList|
        invariant forall m :: m in left <==> m in calib && m !in moduleList[..k]
        invariant Holds(calib, left)
        invariant params == CompressAll(quantize, columns, old(params), calib, moduleList[..k])
      {
        var m := moduleList[k];
        CompressModule(m, calib, left);
        left := left - {m};
        CompressOneMore(quantize, columns, old(params), calib, moduleList, k);
      }
      assert moduleList[..|moduleList|] == moduleList;
    }

    method CompressModule(m: ModuleId, ghost calib: map<ModuleId, seq<Input>>, ghost left: set<ModuleId>)
      requires left <= calib.Keys && Holds(calib, left) && m in left
      modifies this
      ensures Holds(calib, left - {m})
      ensures params == old(params)[m := Compressed(quantize, columns, old(params), calib, m)]
    {
      var written := quantize(m, hessians[m], numSamples[m]);
      hessians := hessians - {m};
      numSamples := numSamples - {m};
      params := params[m := (if m in params then params[m] else map[]) + written];
    }

    /** Without distribution: every calibrated module is compressed, once. */
    method CompressModules(ghost calib: map<ModuleId, seq<Input>>)
      requires Holds(calib, calib.Keys)
      modifies this
      ensures Holds(calib, {})
      ensures forall m :: m in calib ==>
                m in params && params[m] == Compressed(quantize, columns, old(params), calib, m)
      ensures forall m :: m !in calib ==>
                (m in params <==> m in old(params)) && (m in params ==> params[m] == old(params)[m])
    {
      var moduleList := KeyList(numSamples.Keys);
      ghost var left := CompressModuleList(moduleList, calib);
      assert left == {};
      forall m
        ensures m in moduleList ==> m in params && params[m] == Compressed(quantize, columns, old(params), calib, m)
        ensures m !in moduleList ==>
                  (m in params <==> m in old(params)) && (m in params ==> params[m] == old(params)[m])
      {
        CompressAllAt(quantize, columns, old(params), calib, moduleList, m);
      }
    }

    static method KeyList(keys: set<ModuleId>) returns (list: seq<ModuleId>)
      ensures forall m :: m in list <==> m in keys
      ensures forall i, j :: 0 <= i < j < |list| ==> list[i] != list[j]
    {
      list := [];
      var rest := keys;
      while rest != {}
        invariant rest <= keys
        invariant forall m :: m in list <==> m in keys && m !in rest
        invariant forall i, j :: 0 <= i < j < |list| ==> list[i] != list[j]
      {
        var m :| m in rest;
        list := list + [m];
        rest := rest - {m};
      }
    }

    /** Fails exactly when some calibrated module was never compressed. */
    method OnFinalize(ghost calib: map<ModuleId, seq<Input>>) returns (ok: bool)
      requires Holds(calib, calib.Keys)
      modifies this
      ensures ok <==> calib == map[]
      ensures ok ==> Holds(map[], {})
      ensures params == old(params)
    {
      if |numSamples| > 0 {
        assert numSamples.Keys != {};
        return false;
      }
      assert numSamples == map[];
      hessians, numSamples := map[], map[];
      ok := true;
    }
  }

  /** The attributes of module m after compression, from the batches it was calibrated with. */
  ghost function Compressed(quantize: (ModuleId, Matrix, nat) -> Params, columns: ModuleId -> nat,
                            params: map<ModuleId, Params>, calib: map<ModuleId, seq<Input>>, m: ModuleId): Params
    requires m in calib
  {
    (if m in params then params[m] else map[])
    + quantize(m, HessianMatrix(columns(m), calib[m]), Samples(calib[m]))
  }

  ghost function CompressAll(quantize: (ModuleId, Matrix, nat) -> Params, columns: ModuleId -> nat,
                             params: map<ModuleId, Params>, calib: map<ModuleId, seq<Input>>,
                             list: seq<ModuleId>): map<ModuleId, Params>
    requires forall m :: m in list ==> m in calib
  {
    if list == [] then params
    else
      var front, m := list[..|list| - 1], list[|list| - 1];
      var before := CompressAll(quantize, columns, params, calib, front);
      before[m := Compressed(quantize, columns, before, calib, m)]
  }

  lemma {:induction false} CompressNone(quantize: (ModuleId, Matrix, nat) -> Params, columns: ModuleId -> nat,
                     params: map<ModuleId, Params>, calib: map<ModuleId, seq<Input>>, list: seq<ModuleId>)
    ensures CompressAll(quantize, columns, params, calib, list[..0]) == params
  {
  }

  lemma {:induction false} CompressOneMore(quantize: (ModuleId, Matrix, nat) -> Params, columns: ModuleId -> nat,
                        params: map<ModuleId, Params>, calib: map<ModuleId, seq<Input>>, list: seq<ModuleId>, k: nat)
    requires k < |list| && forall m :: m in list ==> m in calib
    ensures list[..k + 1] == list[..k] + [list[k]]
    ensures var before := CompressAll(quantize, columns, params, calib, list[..k]);
            CompressAll(quantize, columns, params, calib, list[..k + 1])
            == before[list[k] := Compressed(quantize, columns, before, calib, list[k])]
  {
    assert list[..k + 1][..k] == list[..k];
  }

  /** Modules are compressed independently of each other. */
  lemma {:induction false} CompressAllAt(quantize: (ModuleId, Matrix, nat) -> Params, columns: ModuleId -> nat,
                                         params: map<ModuleId, Params>, calib: map<ModuleId, seq<Input>>,
                                         list: seq<ModuleId>, m: ModuleId)
    requires forall k :: k in list ==> k in calib
    requires forall i, j :: 0 <= i < j < |list| ==> list[i] != list[j]
    ensures var after := CompressAll(quantize, columns, params, calib, list);
            if m in list then m in after && after[m] == Compressed(quantize, columns, params, calib, m)
            else (m in after <==> m in params) && (m in after ==> after[m] == params[m])
  {
    if list != [] {
      var front, last := list[..|list| - 1], list[|list| - 1];
      assert list == front + [last];
      assert m in list <==> m in front || m == last;
      assert last !in front;
      CompressAllAt(quantize, columns, params, calib, front, m);
      CompressAllAt(quantize, columns, params, calib, front, last);
    }
  }
}
