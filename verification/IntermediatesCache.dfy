/** The cache of activations between subgraphs: values are offloaded when stored and onloaded when fetched. */
module IntermediatesCache {
  import opened Collections

  type Device = string

  datatype Tensor = Tensor(device: Device, data: seq<real>)
  {
    /** tensor.to(device=d): None leaves the tensor where it is. */
    function To(d: Option<Device>): Tensor {
      if d.None? then this else Tensor(d.value, data)
    }
  }

  /** A nested value over some kind of tensor. */
  datatype Value<+T> =
    | Leaf(tensor: T)
    | List(items: seq<Value<T>>)
    | Tuple(items: seq<Value<T>>)
    | Dict(keys: seq<string>, items: seq<Value<T>>)
    | Primitive(code: int)

  /** An offloaded value, which remembers the device that each of its tensors returns to. */
  datatype Intermediate<+T> =
    | OffLeaf(tensor: T, device: Device)
    | OffList(items: seq<Intermediate<T>>)
    | OffTuple(items: seq<Intermediate<T>>)
    | OffDict(keys: seq<string>, items: seq<Intermediate<T>>)
    | OffPrimitive(code: int)

  function Offload(v: Value<Tensor>, offload: Option<Device>, onload: Option<Device>): Intermediate<Tensor> {
    match v
    case Leaf(t) => OffLeaf(t.To(offload), if onload.Some? then onload.value else t.device)
    case List(items) => OffList(seq(|items|, i requires 0 <= i < |items| => Offload(items[i], offload, onload)))
    case Tuple(items) => OffTuple(seq(|items|, i requires 0 <= i < |items| => Offload(items[i], offload, onload)))
    case Dict(keys, items) =>
      OffDict(keys, seq(|items|, i requires 0 <= i < |items| => Offload(items[i], offload, onload)))
    case Primitive(code) => OffPrimitive(code)
  }

  function Onload(v: Intermediate<Tensor>): Value<Tensor> {
    match v
    case OffLeaf(t, device) => Leaf(t.To(Some(device)))
    case OffList(items) => List(seq(|items|, i requires 0 <= i < |items| => Onload(items[i])))
    case OffTuple(items) => Tuple(seq(|items|, i requires 0 <= i < |items| => Onload(items[i])))
    case OffDict(keys, items) => Dict(keys, seq(|items|, i requires 0 <= i < |items| => Onload(items[i])))
    case OffPrimitive(code) => Primitive(code)
  }

  /** The same value with every tensor on device d, or left where it is when d is None. */
  function MovedTo(v: Value<Tensor>, d: Option<Device>): Value<Tensor> {
    match v
    case Leaf(t) => Leaf(t.To(d))
    case List(items) => List(seq(|items|, i requires 0 <= i < |items| => MovedTo(items[i], d)))
    case Tuple(items) => Tuple(seq(|items|, i requires 0 <= i < |items| => MovedTo(items[i], d)))
    case Dict(keys, items) => Dict(keys, seq(|items|, i requires 0 <= i < |items| => MovedTo(items[i], d)))
    case Primitive(_) => v
  }

  /** Whatever the offload device, onloading restores structure and contents, on the onload device if one was given. */
  lemma {:induction false} RoundTrip(v: Value<Tensor>, offload: Option<Device>, onload: Option<Device>)
    ensures Onload(Offload(v, offload, onload)) == MovedTo(v, onload)
    ensures MovedTo(v, None) == v
  {
    match v
    case Leaf(_) =>
    case Primitive(_) =>
    case List(items) =>
      forall i | 0 <= i < |items|
        ensures Onload(Offload(items[i], offload, onload)) == MovedTo(items[i], onload)
                && MovedTo(items[i], None) == items[i]
      {
        RoundTrip(items[i], offload, onload);
      }
      assert MovedTo(v, None).items == items;
      assert Onload(Offload(v, offload, onload)).items == MovedTo(v, onload).items;
    case Tuple(items) =>
      forall i | 0 <= i < |items|
        ensures Onload(Offload(items[i], offload, onload)) == MovedTo(items[i], onload)
                && MovedTo(items[i], None) == items[i]
      {
        RoundTrip(items[i], offload, onload);
      }
      assert MovedTo(v, None).items == items;
      assert Onload(Offload(v, offload, onload)).items == MovedTo(v, onload).items;
    case Dict(keys, items) =>
      forall i | 0 <= i < |items|
        ensures Onload(Offload(items[i], offload, onload)) == MovedTo(items[i], onload)
                && MovedTo(items[i], None) == items[i]
      {
        RoundTrip(items[i], offload, onload);
      }
      assert MovedTo(v, None).items == items;
      assert Onload(Offload(v, offload, onload)).items == MovedTo(v, onload).items;
  }

  /** Every tensor is held on device d. */
  ghost predicate HeldOn(v: Intermediate<Tensor>, d: Device) {
    match v
    case OffLeaf(t, _) => t.device == d
    case OffList(items) => forall i :: 0 <= i < |items| ==> HeldOn(items[i], d)
    case OffTuple(items) => forall i :: 0 <= i < |items| ==> HeldOn(items[i], d)
    case OffDict(_, items) => forall i :: 0 <= i < |items| ==> HeldOn(items[i], d)
    case OffPrimitive(_) => true
  }

  /** w is v with its tensors on device d: the structure and the contents are the same. */
  ghost predicate SameOn(v: Value<Tensor>, w: Value<Tensor>, d: Device) {
    match v
    case Leaf(t) => w.Leaf? && w.tensor.device == d && w.tensor.data == t.data
    case List(items) => w.List? && |w.items| == |items| && forall i :: 0 <= i < |items| ==> SameOn(items[i], w.items[i], d)
    case Tuple(items) => w.Tuple? && |w.items| == |items| && forall i :: 0 <= i < |items| ==> SameOn(items[i], w.items[i], d)
    case Dict(keys, items) =>
      w.Dict? && w.keys == keys && |w.items| == |items| && forall i :: 0 <= i < |items| ==> SameOn(items[i], w.items[i], d)
    case Primitive(_) => w == v
  }

  /** Offloaded tensors are held on the offload device until they are onloaded. */
  lemma {:induction false} OffloadHolds(v: Value<Tensor>, d: Device, onload: Option<Device>)
    ensures HeldOn(Offload(v, Some(d), onload), d)
  {
    match v
    case Leaf(_) =>
    case Primitive(_) =>
    case List(items) =>
      forall i | 0 <= i < |items| ensures HeldOn(Offload(items[i], Some(d), onload), d) {
        OffloadHolds(items[i], d, onload);
      }
    case Tuple(items) =>
      forall i | 0 <= i < |items| ensures HeldOn(Offload(items[i], Some(d), onload), d) {
        OffloadHolds(items[i], d, onload);
      }
    case Dict(_, items) =>
      forall i | 0 <= i < |items| ensures HeldOn(Offload(items[i], Some(d), onload), d) {
        OffloadHolds(items[i], d, onload);
      }
  }

  lemma {:induction false} MovedIsSame(v: Value<Tensor>, d: Device)
    ensures SameOn(v, MovedTo(v, Some(d)), d)
  {
    match v
    case Leaf(_) =>
    case Primitive(_) =>
    case List(items) =>
      forall i | 0 <= i < |items| ensures SameOn(items[i], MovedTo(items[i], Some(d)), d) {
        MovedIsSame(items[i], d);
      }
    case Tuple(items) =>
      forall i | 0 <= i < |items| ensures SameOn(items[i], MovedTo(items[i], Some(d)), d) {
        MovedIsSame(items[i], d);
      }
    case Dict(_, items) =>
      forall i | 0 <= i < |items| ensures SameOn(items[i], MovedTo(items[i], Some(d)), d) {
        MovedIsSame(items[i], d);
      }
  }

  type Values = map<string, Value<Tensor>>
  type Intermediates = map<string, Intermediate<Tensor>>

  function OnloadAll(m: Intermediates): Values {
    map k | k in m :: Onload(m[k])
  }

  function OffloadAll(m: Values, offload: Option<Device>, onload: Option<Device>): Intermediates {
    map k | k in m :: Offload(m[k], offload, onload)
  }

  function AllMovedTo(m: Values, d: Option<Device>): Values {
    map k | k in m :: MovedTo(m[k], d)
  }

  lemma {:induction false} AllRoundTrip(m: Values, offload: Option<Device>, onload: Option<Device>)
    ensures OnloadAll(OffloadAll(m, offload, onload)) == AllMovedTo(m, onload)
    ensures AllMovedTo(m, None) == m
  {
    forall k | k in m
      ensures Onload(Offload(m[k], offload, onload)) == MovedTo(m[k], onload) && MovedTo(m[k], None) == m[k]
    {
      RoundTrip(m[k], offload, onload);
    }
  }

  function Restrict<T>(m: map<string, T>, names: set<string>): map<string, T> {
    map k | k in m && k in names :: m[k]
  }

  class IntermediatesCache {
    var batchIntermediates: seq<Intermediates>
    const offloadDevice: Option<Device>

    /** What a batch holds, as a reader of the cache sees it. */
    ghost function Contents(batch: nat): Values
      requires batch < |batchIntermediates|
      reads this
    {
      OnloadAll(batchIntermediates[batch])
    }

    /** What all batches hold. */
    ghost function Snapshot(): (s: seq<Values>)
      reads this
      ensures |s| == |batchIntermediates| && forall b :: 0 <= b < |s| ==> s[b] == Contents(b)
    {
      var held := batchIntermediates;
      seq(|held|, b requires 0 <= b < |held| => OnloadAll(held[b]))
    }

    constructor FromDataloader(dataloader: seq<Values>, modelDevice: Option<Device>, offloadDevice: Option<Device>)
      ensures |batchIntermediates| == |dataloader| && this.offloadDevice == offloadDevice
      ensures forall b :: 0 <= b < |dataloader| ==> batchIntermediates[b] == OffloadAll(dataloader[b], offloadDevice, modelDevice)
      ensures forall b :: 0 <= b < |dataloader| ==> Contents(b) == AllMovedTo(dataloader[b], modelDevice)
    {
      this.offloadDevice := offloadDevice;
      this.batchIntermediates := seq(|dataloader|, b requires 0 <= b < |dataloader| =>
        OffloadAll(dataloader[b], offloadDevice, modelDevice));
      new;
      forall b | 0 <= b < |dataloader|
        ensures Contents(b) == AllMovedTo(dataloader[b], modelDevice)
      {
        AllRoundTrip(dataloader[b], offloadDevice, modelDevice);
      }
    }

    /** The values of a batch under those of the names that it holds; missing names are left out silently. */
    method Fetch(batch: nat, inputNames: set<string>) returns (values: Values)
      requires batch < |batchIntermediates|
      ensures values == Restrict(Contents(batch), inputNames)
      ensures values.Keys == Contents(batch).Keys * inputNames && forall n :: n in values ==> values[n] == Contents(batch)[n]
    {
      values := OnloadAll(Restrict(batchIntermediates[batch], inputNames));
    }

    /** Puts values into a batch; other batches are untouched. */
    method Update(batch: nat, values: Values)
      requires batch < |batchIntermediates|
      modifies this
      ensures |batchIntermediates| == |old(batchIntermediates)|
      ensures batchIntermediates ==
              old(batchIntermediates)[batch := old(batchIntermediates)[batch] + OffloadAll(values, offloadDevice, None)]
      ensures Contents(batch) == old(Contents(batch)) + values
      ensures forall b :: 0 <= b < |batchIntermediates| && b != batch ==> Contents(b) == old(Contents(b))
    {
      AllRoundTrip(values, offloadDevice, None);
      batchIntermediates := batchIntermediates[batch := batchIntermediates[batch] + OffloadAll(values, offloadDevice, None)];
    }

    /** Deletes names from a batch; fails on a name the batch does not hold. */
    method Delete(batch: nat, consumedNames: set<string>) returns (ok: bool)
      requires batch < |batchIntermediates|
      modifies this
      ensures |batchIntermediates| == |old(batchIntermediates)|
      ensures ok <==> consumedNames <= old(Contents(batch)).Keys
      ensures ok ==> batchIntermediates == old(batchIntermediates)[batch := old(batchIntermediates)[batch] - consumedNames]
      ensures ok ==> Contents(batch) == old(Contents(batch)) - consumedNames
      ensures forall b :: 0 <= b < |batchIntermediates| && b != batch ==> Contents(b) == old(Contents(b))
    {
      var rest := consumedNames;
      while rest != {}
        invariant rest <= consumedNames && |batchIntermediates| == |old(batchIntermediates)|
        invariant consumedNames - rest <= old(Contents(batch)).Keys
        invariant batchIntermediates[batch] == old(batchIntermediates)[batch] - (consumedNames - rest)
        invariant forall b :: 0 <= b < |batchIntermediates| && b != batch ==>
                    batchIntermediates[b] == old(batchIntermediates)[b]
        decreases rest
      {
        var name :| name in rest;
        if name !in batchIntermediates[batch] {
          assert name in consumedNames && name !in old(Contents(batch));
          return false;
        }
        batchIntermediates := batchIntermediates[batch := batchIntermediates[batch] - {name}];
        assert consumedNames - (rest - {name}) == consumedNames - rest + {name};
        rest := rest - {name};
      }
      ok := true;
      assert consumedNames - rest == consumedNames;
    }

    /** Appends a batch. */
    method Append(values: Values)
      modifies this
      ensures |batchIntermediates| == |old(batchIntermediates)| + 1
      ensures batchIntermediates == old(batchIntermediates) + [OffloadAll(values, offloadDevice, None)]
      ensures Contents(|batchIntermediates| - 1) == values
      ensures forall b :: 0 <= b < |old(batchIntermediates)| ==> Contents(b) == old(Contents(b))
    {
      batchIntermediates := batchIntermediates + [map[]];
      Update(|batchIntermediates| - 1, values);
      assert map[] + OffloadAll(values, offloadDevice, None) == OffloadAll(values, offloadDevice, None);
    }
  }
}
