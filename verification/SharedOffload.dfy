/**
  Offloading with the memo of tensors already offloaded. Tensors have an identity here, so that a value in which a tensor
  occurs twice can be told from one with two equal tensors.
  */
module SharedOffload {
  import opened Collections
  import opened Cache = IntermediatesCache

  type TensorId = nat

  type Memo = map<TensorId, TensorId>

  // ----- Nested values of either kind of tensor

  function Items<T>(v: Value<T>): (items: seq<Value<T>>)
    ensures forall i :: 0 <= i < |items| ==> items[i] < v
  {
    match v
    case List(items) => items
    case Tuple(items) => items
    case Dict(_, items) => items
    case _ => []
  }

  /** The offloaded form of v, given that of its items. */
  function Wrap<T, U>(v: Value<T>, items: seq<Intermediate<U>>): Intermediate<U>
    requires !v.Leaf?
  {
    match v
    case List(_) => OffList(items)
    case Tuple(_) => OffTuple(items)
    case Dict(keys, _) => OffDict(keys, items)
    case Primitive(code) => OffPrimitive(code)
  }

  ghost function Leaves(v: Value<TensorId>): set<TensorId> {
    if v.Leaf? then {v.tensor}
    else set i, t | 0 <= i < |Items(v)| && t in Leaves(Items(v)[i]) :: t
  }

  lemma {:induction false} LeavesOfItem(v: Value<TensorId>, i: nat)
    requires i < |Items(v)|
    ensures Leaves(Items(v)[i]) <= Leaves(v)
  {
  }

  // ----- Values and their tensors

  ghost predicate InStore(v: Value<TensorId>, store: seq<Tensor>) {
    forall t :: t in Leaves(v) ==> t < |store|
  }

  ghost function TensorAt(store: seq<Tensor>, t: TensorId): Tensor {
    if t < |store| then store[t] else Tensor("", [])
  }

  ghost function Deref(v: Value<TensorId>, store: seq<Tensor>): Value<Tensor> {
    match v
    case Leaf(t) => Leaf(TensorAt(store, t))
    case List(items) => List(seq(|items|, i requires 0 <= i < |items| => Deref(items[i], store)))
    case Tuple(items) => Tuple(seq(|items|, i requires 0 <= i < |items| => Deref(items[i], store)))
    case Dict(keys, items) => Dict(keys, seq(|items|, i requires 0 <= i < |items| => Deref(items[i], store)))
    case Primitive(code) => Primitive(code)
  }

  ghost function DerefOffloaded(r: Intermediate<TensorId>, store: seq<Tensor>): Intermediate<Tensor> {
    match r
    case OffLeaf(t, device) => OffLeaf(TensorAt(store, t), device)
    case OffList(items) => OffList(seq(|items|, i requires 0 <= i < |items| => DerefOffloaded(items[i], store)))
    case OffTuple(items) => OffTuple(seq(|items|, i requires 0 <= i < |items| => DerefOffloaded(items[i], store)))
    case OffDict(keys, items) => OffDict(keys, seq(|items|, i requires 0 <= i < |items| => DerefOffloaded(items[i], store)))
    case OffPrimitive(code) => OffPrimitive(code)
  }

  /** Whether tensor.to(device=d) makes a new tensor. */
  predicate Moves(t: Tensor, d: Option<Device>) {
    d.Some? && t.device != d.value
  }

  /** The memo leads from tensors that move to copies of them on the offload device. */
  ghost predicate MemoOk(store: seq<Tensor>, memo: Memo, offload: Option<Device>) {
    forall t :: t in memo ==>
      t < |store| && memo[t] < |store| && Moves(store[t], offload) && store[memo[t]] == store[t].To(offload)
  }

  function Copy(memo: Memo, t: TensorId): TensorId {
    if t in memo then memo[t] else t
  }

  /** v offloaded with every occurrence of a tensor replaced by the one copy that the memo has of it. */
  ghost function Shared(v: Value<TensorId>, store: seq<Tensor>, memo: Memo,
                        onload: Option<Device>): Intermediate<TensorId> {
    if v.Leaf? then OffLeaf(Copy(memo, v.tensor), if onload.Some? then onload.value else TensorAt(store, v.tensor).device)
    else Wrap(v, seq(|Items(v)|, i requires 0 <= i < |Items(v)| => Shared(Items(v)[i], store, memo, onload)))
  }

  /** All tensors of v exist, and those that move have a copy. */
  ghost predicate Covered(v: Value<TensorId>, store: seq<Tensor>, memo: Memo, offload: Option<Device>) {
    forall t :: t in Leaves(v) ==> t < |store| && (Moves(store[t], offload) ==> t in memo)
  }

  /** Sharing does not change what is stored: it is the offloaded value, tensor by tensor. */
  lemma {:induction false} SharedIsOffload(v: Value<TensorId>, store: seq<Tensor>, memo: Memo, offload: Option<Device>,
                                           onload: Option<Device>)
    requires MemoOk(store, memo, offload) && Covered(v, store, memo, offload)
    ensures DerefOffloaded(Shared(v, store, memo, onload), store) == Offload(Deref(v, store), offload, onload)
  {
    if v.Leaf? {
      assert v.tensor in Leaves(v);
      assert !Moves(store[v.tensor], offload) ==> store[v.tensor].To(offload) == store[v.tensor];
    } else {
      var items := Items(v);
      forall i | 0 <= i < |items|
        ensures DerefOffloaded(Shared(items[i], store, memo, onload), store) == Offload(Deref(items[i], store), offload, onload)
      {
        LeavesOfItem(v, i);
        SharedIsOffload(items[i], store, memo, offload, onload);
      }
      match v
      case List(_) =>
        assert DerefOffloaded(Shared(v, store, memo, onload), store).items == Offload(Deref(v, store), offload, onload).items;
      case Tuple(_) =>
        assert DerefOffloaded(Shared(v, store, memo, onload), store).items == Offload(Deref(v, store), offload, onload).items;
      case Dict(_, _) =>
        assert DerefOffloaded(Shared(v, store, memo, onload), store).items == Offload(Deref(v, store), offload, onload).items;
      case Primitive(_) =>
    }
  }

  lemma {:induction false} CoveredItem(v: Value<TensorId>, i: nat, store: seq<Tensor>, memo: Memo,
                                       offload: Option<Device>)
    requires i < |Items(v)| && Covered(v, store, memo, offload)
    ensures Covered(Items(v)[i], store, memo, offload)
  {
    LeavesOfItem(v, i);
  }

  lemma {:induction false} CoveredStays(v: Value<TensorId>, store: seq<Tensor>, memo: Memo, store': seq<Tensor>,
                                        memo': Memo,
                                        offload: Option<Device>)
    requires Covered(v, store, memo, offload) && Grows(store, memo, store', memo')
    ensures Covered(v, store', memo', offload)
  {
  }

  lemma {:induction false} LeafStays(t: TensorId, store: seq<Tensor>, memo: Memo, store': seq<Tensor>, memo': Memo,
                                     offload: Option<Device>)
    requires Covered(Leaf(t), store, memo, offload) && MemoOk(store', memo', offload)
             && Grows(store, memo, store', memo')
    ensures Copy(memo', t) == Copy(memo, t) && TensorAt(store', t) == TensorAt(store, t)
  {
    assert t in Leaves(Leaf(t));
  }

  /** What was offloaded stays as it is while more tensors are. */
  lemma {:induction false} SharedStays(v: Value<TensorId>, store: seq<Tensor>, memo: Memo, store': seq<Tensor>,
                                       memo': Memo,
                                       offload: Option<Device>, onload: Option<Device>)
    requires Covered(v, store, memo, offload) && MemoOk(store', memo', offload) && Grows(store, memo, store', memo')
    ensures Shared(v, store', memo', onload) == Shared(v, store, memo, onload)
  {
    hide Covered, MemoOk, Grows, Leaves;
    if v.Leaf? {
      assert v == Leaf(v.tensor);
      LeafStays(v.tensor, store, memo, store', memo', offload);
    } else {
      var items := Items(v);
      forall i | 0 <= i < |items|
        ensures Shared(items[i], store', memo', onload) == Shared(items[i], store, memo, onload)
      {
        CoveredItem(v, i, store, memo, offload);
        SharedStays(items[i], store, memo, store', memo', offload, onload);
      }
      assert seq(|items|, i requires 0 <= i < |items| => Shared(items[i], store, memo, onload))
          == seq(|items|, i requires 0 <= i < |items| => Shared(items[i], store', memo', onload));
    }
  }

  ghost predicate Grows(store: seq<Tensor>, memo: Memo, store': seq<Tensor>, memo': Memo) {
    && store <= store'
    && (forall t :: t in memo ==> t in memo' && memo'[t] == memo[t])
    && |store'| - |store| == |memo'| - |memo|
  }

  lemma {:induction false} DerefStays(v: Value<TensorId>, store: seq<Tensor>, store': seq<Tensor>)
    requires InStore(v, store) && store <= store'
    ensures Deref(v, store') == Deref(v, store)
  {
    if v.Leaf? {
      assert v.tensor in Leaves(v);
    } else {
      var items := Items(v);
      forall i | 0 <= i < |items|
        ensures Deref(items[i], store') == Deref(items[i], store)
      {
        LeavesOfItem(v, i);
        DerefStays(items[i], store, store');
      }
      match v
      case List(_) => assert Deref(v, store').items == Deref(v, store).items;
      case Tuple(_) => assert Deref(v, store').items == Deref(v, store).items;
      case Dict(_, _) => assert Deref(v, store').items == Deref(v, store).items;
      case Primitive(_) =>
    }
  }

  /** However much is offloaded in between, onloading a value gives back its structure and contents. */
  lemma {:induction false} SharedRoundTrip(v: Value<TensorId>, store: seq<Tensor>, memo: Memo, store': seq<Tensor>,
                                           memo': Memo,
                                           offload: Option<Device>, onload: Option<Device>)
    requires Covered(v, store, memo, offload) && MemoOk(store', memo', offload) && Grows(store, memo, store', memo')
    ensures Onload(DerefOffloaded(Shared(v, store, memo, onload), store')) == MovedTo(Deref(v, store), onload)
  {
    hide Leaves, Shared, MemoOk;
    CoveredStays(v, store, memo, store', memo', offload);
    SharedStays(v, store, memo, store', memo', offload, onload);
    SharedIsOffload(v, store', memo', offload, onload);
    RoundTrip(Deref(v, store'), offload, onload);
    DerefStays(v, store, store');
  }

  lemma {:induction false} GrowsStart(store: seq<Tensor>, memo: Memo, offload: Option<Device>, onload: Option<Device>)
    ensures Grows(store, memo, store, memo) && AreShared([], [], store, memo, offload, onload)
  {
  }

  lemma {:induction false} GrowsOn(store0: seq<Tensor>, memo0: Memo, store1: seq<Tensor>, memo1: Memo,
                                   store2: seq<Tensor>, memo2: Memo)
    requires Grows(store0, memo0, store1, memo1) && Grows(store1, memo1, store2, memo2)
    ensures Grows(store0, memo0, store2, memo2)
  {
  }

  lemma {:induction false} LeafInStore(v: Value<TensorId>, store: seq<Tensor>)
    requires v.Leaf? && InStore(v, store)
    ensures v == Leaf(v.tensor) && v.tensor < |store| && Leaves(v) == {v.tensor}
  {
    assert v.tensor in Leaves(v);
  }

  lemma {:induction false} ItemInStore(v: Value<TensorId>, i: nat, store0: seq<Tensor>, memo0: Memo,
                                       store: seq<Tensor>, memo: Memo)
    requires i < |Items(v)| && InStore(v, store0) && Grows(store0, memo0, store, memo)
    ensures InStore(Items(v)[i], store)
  {
    LeavesOfItem(v, i);
  }

  /** items are the offloaded forms of the values, and every tensor of these that moves has a copy. */
  ghost predicate AreShared(values: seq<Value<TensorId>>, items: seq<Intermediate<TensorId>>, store: seq<Tensor>,
                            memo: Memo,
                            offload: Option<Device>, onload: Option<Device>) {
    && |items| == |values|
    && forall i :: 0 <= i < |items| ==>
         Covered(values[i], store, memo, offload) && items[i] == Shared(values[i], store, memo, onload)
  }

  lemma {:induction false} AllStay(values: seq<Value<TensorId>>, items: seq<Intermediate<TensorId>>,
                                   store: seq<Tensor>, memo: Memo,
                                   store': seq<Tensor>, memo': Memo, offload: Option<Device>, onload: Option<Device>)
    requires AreShared(values, items, store, memo, offload, onload)
    requires MemoOk(store', memo', offload) && Grows(store, memo, store', memo')
    ensures AreShared(values, items, store', memo', offload, onload)
  {
    hide Covered, MemoOk, Grows, Shared;
    forall i | 0 <= i < |items|
      ensures Covered(values[i], store', memo', offload) && items[i] == Shared(values[i], store', memo', onload)
    {
      CoveredStays(values[i], store, memo, store', memo', offload);
      SharedStays(values[i], store, memo, store', memo', offload, onload);
    }
  }

  lemma {:induction false} OneMore(values: seq<Value<TensorId>>, i: nat, items: seq<Intermediate<TensorId>>,
                                   item: Intermediate<TensorId>, store: seq<Tensor>, memo: Memo,
                                   offload: Option<Device>,
                                   onload: Option<Device>)
    requires i < |values| && AreShared(values[..i], items, store, memo, offload, onload)
    requires Covered(values[i], store, memo, offload) && item == Shared(values[i], store, memo, onload)
    ensures AreShared(values[..i + 1], items + [item], store, memo, offload, onload)
  {
    hide Covered, Shared;
    assert values[..i + 1] == values[..i] + [values[i]];
  }

  lemma {:induction false} SharedWraps(v: Value<TensorId>, items: seq<Intermediate<TensorId>>, store: seq<Tensor>,
                                       memo: Memo,
                                       offload: Option<Device>, onload: Option<Device>)
    requires !v.Leaf? && AreShared(Items(v), items, store, memo, offload, onload)
    ensures Covered(v, store, memo, offload) && Wrap(v, items) == Shared(v, store, memo, onload)
  {
    assert items == seq(|Items(v)|, i requires 0 <= i < |Items(v)| => Shared(Items(v)[i], store, memo, onload));
  }

  /** The tensors, and the class-level memo of those already offloaded. */
  class Offloader {
    var store: seq<Tensor>
    var memo: Memo
    const offload: Option<Device>

    ghost predicate Valid()
      reads this
    {
      MemoOk(store, memo, offload)
    }

    constructor (store: seq<Tensor>, offload: Option<Device>)
      ensures Valid() && this.store == store && memo == map[] && this.offload == offload
    {
      this.store, this.offload, this.memo := store, offload, map[];
    }

    /** Offloads v, copying every tensor that moves at most once, now or ever. */
    method OffloadValue(v: Value<TensorId>, onload: Option<Device>) returns (r: Intermediate<TensorId>)
      requires Valid() && InStore(v, store)
      modifies this
      ensures Valid() && Grows(old(store), old(memo), store, memo) && memo.Keys <= old(memo).Keys + Leaves(v)
      ensures Covered(v, store, memo, offload) && r == Shared(v, store, memo, onload)
      decreases v
    {
      hide Covered, MemoOk, Grows, Leaves, Wrap, InStore, Shared, Items, AreShared;
      if v.Leaf? {
        LeafInStore(v, store);
        r := OffloadTensor(v.tensor, onload);
        assert v == Leaf(v.tensor);
        return;
      }
      var items := [];
      var all := Items(v);
      GrowsStart(store, memo, offload, onload);
      assert all[..0] == [];
      for i := 0 to |all|
        invariant Valid() && Grows(old(store), old(memo), store, memo) && memo.Keys <= old(memo).Keys + Leaves(v)
        invariant AreShared(all[..i], items, store, memo, offload, onload)
      {
        LeavesOfItem(v, i);
        ItemInStore(v, i, old(store), old(memo), store, memo);
        ghost var store0, memo0 := store, memo;
        var item := OffloadValue(all[i], onload);
        GrowsOn(old(store), old(memo), store0, memo0, store, memo);
        AllStay(all[..i], items, store0, memo0, store, memo, offload, onload);
        OneMore(all, i, items, item, store, memo, offload, onload);
        items := items + [item];
      }
      r := Wrap(v, items);
      assert all[..|all|] == all;
      SharedWraps(v, items, store, memo, offload, onload);
    }

    method OffloadTensor(t: TensorId, onload: Option<Device>) returns (r: Intermediate<TensorId>)
      requires Valid() && t < |store|
      modifies this
      ensures Valid() && Grows(old(store), old(memo), store, memo) && memo.Keys <= old(memo).Keys + {t}
      ensures Covered(Leaf(t), store, memo, offload) && r == Shared(Leaf(t), store, memo, onload)
    {
      var offloaded: TensorId;
      if t in memo {
        offloaded := memo[t];
      } else if Moves(store[t], offload) {
        offloaded := |store|;
        store := store + [store[t].To(offload)];
        memo := memo[t := offloaded];
        assert memo.Keys == old(memo).Keys + {t};
      } else {
        offloaded := t;
      }
      r := OffLeaf(offloaded, if onload.Some? then onload.value else store[t].device);
    }
  }
}
