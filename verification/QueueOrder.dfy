/**
  The order of the queue in terms of the graph alone: nodes leave it in the order of their keys. The key of a node spells out
  the greatest of the longest paths that lead to it.
  */
module QueueOrder {
  import opened Collections
  import opened FxGraph
  import opened TopologicalPartition

  // ----- Keys, ordered by length and then from the front

  predicate LexBefore(a: seq<nat>, b: seq<nat>)
    requires |a| == |b|
  {
    a != [] &&
    var n := |a| - 1;
    LexBefore(a[..n], b[..n]) || (a[..n] == b[..n] && a[n] < b[n])
  }

  predicate KeyBefore(a: seq<nat>, b: seq<nat>) {
    |a| < |b| || (|a| == |b| && LexBefore(a, b))
  }

  lemma {:induction false} LexTotal(a: seq<nat>, b: seq<nat>)
    requires |a| == |b|
    ensures LexBefore(a, b) || a == b || LexBefore(b, a)
    ensures !(LexBefore(a, b) && LexBefore(b, a)) && !LexBefore(a, a)
    decreases |a|
  {
    if a != [] {
      var n := |a| - 1;
      LexTotal(a[..n], b[..n]);
      LexTotal(a[..n], a[..n]);
      assert a == a[..n] + [a[n]] && b == b[..n] + [b[n]];
    }
  }

  lemma {:induction false} LexTransitive(a: seq<nat>, b: seq<nat>, c: seq<nat>)
    requires |a| == |b| == |c| && LexBefore(a, b) && LexBefore(b, c)
    ensures LexBefore(a, c)
    decreases |a|
  {
    var n := |a| - 1;
    if LexBefore(a[..n], b[..n]) && LexBefore(b[..n], c[..n]) {
      LexTransitive(a[..n], b[..n], c[..n]);
    }
  }

  lemma {:induction false} KeyTotal(a: seq<nat>, b: seq<nat>)
    ensures KeyBefore(a, b) || a == b || KeyBefore(b, a)
    ensures !(KeyBefore(a, b) && KeyBefore(b, a)) && !KeyBefore(a, a)
  {
    LexTotal(a, a);
    if |a| == |b| {
      LexTotal(a, b);
    }
  }

  lemma {:induction false} KeyTransitive(a: seq<nat>, b: seq<nat>, c: seq<nat>)
    requires KeyBefore(a, b) && KeyBefore(b, c)
    ensures KeyBefore(a, c)
  {
    if |a| == |b| == |c| {
      LexTransitive(a, b, c);
    }
  }

  lemma {:induction false} KeyExtended(a: seq<nat>, b: seq<nat>, x: nat, y: nat)
    requires KeyBefore(a, b) || (a == b && x < y)
    ensures KeyBefore(a + [x], b + [y])
  {
    assert (a + [x])[..|a|] == a && (b + [y])[..|b|] == b;
  }

  lemma {:induction false} SmallerNumber(x: nat, y: nat)
    requires x < y
    ensures KeyBefore([x], [y])
  {
    assert [x][..0] == [y][..0];
  }

  function PositionIn(s: seq<nat>, n: nat): (i: nat)
    ensures i <= |s| && (n in s ==> i < |s| && s[i] == n) && forall k :: 0 <= k < i ==> s[k] != n
  {
    if s == [] || s[0] == n then 0 else 1 + PositionIn(s[1..], n)
  }

  /**
    A node without inputs, attribute reads aside, has its number for a key. The key of any other is the greatest that its
    inputs lead to: that of an input, followed by the position of the node among the input's users.
    */
  function Key(g: Graph, n: nat): seq<nat>
    requires n < |g|
    decreases n, |g[n].inputs| + 1
  {
    var key := GreatestKey(g, n, g[n].inputs);
    if key == [] then [n] else key
  }

  function KeyThrough(g: Graph, i: nat, n: nat): seq<nat>
    requires i < n < |g|
    decreases n, 0
  {
    Key(g, i) + [PositionIn(g[i].users, n)]
  }

  function GreatestKey(g: Graph, n: nat, inputs: seq<nat>): seq<nat>
    requires n < |g|
    decreases n, |inputs|
  {
    if inputs == [] then []
    else
      var before, i := GreatestKey(g, n, inputs[..|inputs| - 1]), inputs[|inputs| - 1];
      if i < n && !IsAttr(g, i) && KeyBefore(before, KeyThrough(g, i, n)) then KeyThrough(g, i, n) else before
  }

  lemma {:induction false} GreatestIsGreatest(g: Graph, n: nat, inputs: seq<nat>, i: nat)
    requires n < |g| && i in inputs && i < n && !IsAttr(g, i)
    ensures GreatestKey(g, n, inputs) == KeyThrough(g, i, n) || KeyBefore(KeyThrough(g, i, n), GreatestKey(g, n, inputs))
    decreases |inputs|
  {
    hide KeyThrough, KeyBefore;
    var last := |inputs| - 1;
    var front := inputs[..last];
    KeyTotal(GreatestKey(g, n, front), KeyThrough(g, i, n));
    if i != inputs[last] {
      GreatestIsGreatest(g, n, front, i);
      if GreatestKey(g, n, inputs) != GreatestKey(g, n, front) && GreatestKey(g, n, front) != KeyThrough(g, i, n) {
        KeyTransitive(KeyThrough(g, i, n), GreatestKey(g, n, front), GreatestKey(g, n, inputs));
      }
    }
  }

  lemma {:induction false} GreatestIsReached(g: Graph, n: nat, inputs: seq<nat>) returns (i: nat)
    requires n < |g| && GreatestKey(g, n, inputs) != []
    ensures i in inputs && i < n && !IsAttr(g, i) && GreatestKey(g, n, inputs) == KeyThrough(g, i, n)
    decreases |inputs|
  {
    hide KeyThrough, KeyBefore;
    var last := |inputs| - 1;
    if GreatestKey(g, n, inputs) == GreatestKey(g, n, inputs[..last]) {
      i := GreatestIsReached(g, n, inputs[..last]);
    } else {
      i := inputs[last];
    }
  }

  /** The node waits for nothing but attribute reads. */
  ghost predicate IsSource(g: Graph, n: nat)
    requires n < |g|
  {
    forall i :: i in g[n].inputs ==> IsAttr(g, i)
  }

  /** What a key is: the number of a source, or else the greatest through an input. */
  lemma {:induction false} KeyOf(g: Graph, n: nat) returns (last: nat)
    requires Traced(g) && n < |g|
    ensures IsSource(g, n) ==> Key(g, n) == [n]
    ensures !IsSource(g, n) ==> last in g[n].inputs && last < n && !IsAttr(g, last) && Key(g, n) == KeyThrough(g, last, n)
    ensures forall i :: i in g[n].inputs && !IsAttr(g, i) ==>
              i < n && (Key(g, n) == KeyThrough(g, i, n) || KeyBefore(KeyThrough(g, i, n), Key(g, n)))
  {
    hide KeyThrough, KeyBefore, GreatestKey;
    last := n;
    if GreatestKey(g, n, g[n].inputs) != [] {
      last := GreatestIsReached(g, n, g[n].inputs);
    }
    forall i | i in g[n].inputs && !IsAttr(g, i)
      ensures i < n && GreatestKey(g, n, g[n].inputs) != []
      ensures Key(g, n) == KeyThrough(g, i, n) || KeyBefore(KeyThrough(g, i, n), Key(g, n))
    {
      GreatestIsGreatest(g, n, g[n].inputs, i);
      NotEmpty(g, i, n, GreatestKey(g, n, g[n].inputs));
    }
  }

  lemma {:induction false} NotEmpty(g: Graph, i: nat, n: nat, key: seq<nat>)
    requires i < n < |g| && (key == KeyThrough(g, i, n) || KeyBefore(KeyThrough(g, i, n), key))
    ensures key != []
  {
  }

  // ----- Keys spell out paths

  /** Every node of the path uses the one before it. */
  ghost predicate IsPath(g: Graph, path: seq<nat>) {
    && path != []
    && (forall k :: 0 <= k < |path| ==> path[k] < |g|)
    && (forall k :: 0 < k < |path| ==> path[k - 1] in g[path[k]].inputs)
  }

  /** A path from a source, spelled out: its first node, and then the position of each node among the users of the last. */
  ghost function Spelled(g: Graph, path: seq<nat>): seq<nat>
    requires IsPath(g, path)
  {
    var last := |path| - 1;
    if last == 0 then path
    else
      PathFront(g, path);
      Spelled(g, path[..last]) + [PositionIn(g[path[last - 1]].users, path[last])]
  }

  lemma {:induction false} PathFront(g: Graph, path: seq<nat>)
    requires IsPath(g, path) && |path| > 1
    ensures IsPath(g, path[..|path| - 1])
  {
  }

  /** From a source, with no attribute reads. */
  ghost predicate FromSource(g: Graph, path: seq<nat>)
    requires IsPath(g, path)
  {
    IsSource(g, path[0]) && forall k :: 0 <= k < |path| ==> !IsAttr(g, path[k])
  }

  /** No path to a node is spelled by a greater key than the node's, */
  lemma {:induction false} KeyIsGreatest(g: Graph, path: seq<nat>)
    requires Traced(g) && IsPath(g, path) && FromSource(g, path)
    ensures !KeyBefore(Key(g, path[|path| - 1]), Spelled(g, path))
    decreases |path|
  {
    hide Traced, Key, KeyBefore;
    var last := |path| - 1;
    var n := path[last];
    var _ := KeyOf(g, n);
    if last == 0 {
      assert path == [n];
      KeyTotal(Key(g, n), path);
    } else {
      PathFront(g, path);
      var front, i := path[..last], path[last - 1];
      KeyIsGreatest(g, front);
      assert i in g[n].inputs;
      KeyTotal(Key(g, i), Spelled(g, front));
      if Key(g, i) != Spelled(g, front) {
        KeyExtended(Spelled(g, front), Key(g, i), PositionIn(g[i].users, n), PositionIn(g[i].users, n));
      }
      NotGreater(Spelled(g, path), KeyThrough(g, i, n), Key(g, n));
    }
  }

  lemma {:induction false} NotGreater(a: seq<nat>, b: seq<nat>, c: seq<nat>)
    requires (a == b || KeyBefore(a, b)) && (b == c || KeyBefore(b, c))
    ensures !KeyBefore(c, a)
  {
    KeyTotal(a, c);
    if a != b && b != c {
      KeyTransitive(a, b, c);
    }
  }

  /** and one path is spelled by it. */
  lemma {:induction false} KeyIsPath(g: Graph, n: nat) returns (path: seq<nat>)
    requires Traced(g) && n < |g| && !IsAttr(g, n)
    ensures IsPath(g, path) && FromSource(g, path) && path[|path| - 1] == n && Spelled(g, path) == Key(g, n)
  {
    hide Traced, Key;
    var last := KeyOf(g, n);
    if IsSource(g, n) {
      path := [n];
    } else {
      var front := KeyIsPath(g, last);
      path := front + [n];
      assert path[..|front|] == front;
    }
  }

  // ----- The queue keeps to the order of the keys

  ghost predicate KeysAscend(g: Graph, order: seq<nat>) {
    && (forall j :: 0 <= j < |order| ==> order[j] < |g|)
    && (forall j, k :: 0 <= j < k < |order| ==> KeyBefore(Key(g, order[j]), Key(g, order[k])))
  }

  ghost predicate InputsIn(g: Graph, n: nat, order: seq<nat>)
    requires n < |g|
  {
    forall i :: i in g[n].inputs && !IsAttr(g, i) ==> i in order
  }

  /** A node whose inputs, in order, end with the given one has its key through that. */
  lemma {:induction false} KeyThroughLast(g: Graph, order: seq<nat>, node: nat, user: nat)
    requires Traced(g) && KeysAscend(g, order + [node]) && user < |g| && InputsIn(g, user, order + [node])
    requires node in g[user].inputs && !IsAttr(g, node)
    ensures node < user && Key(g, user) == KeyThrough(g, node, user)
  {
    hide Traced, Key, KeyBefore;
    var last := KeyOf(g, user);
    if last != node {
      var all := order + [node];
      var j :| 0 <= j < |all| && all[j] == last;
      assert all[|order|] == node;
      KeyExtended(Key(g, last), Key(g, node), PositionIn(g[last].users, user), PositionIn(g[node].users, user));
      KeyTotal(Key(g, user), KeyThrough(g, node, user));
    }
  }

  /** The user comes after every node whose inputs are in order. */
  lemma {:induction false} UserIsLater(g: Graph, order: seq<nat>, node: nat, user: nat, m: nat)
    requires Traced(g) && KeysAscend(g, order + [node]) && node < user < |g| && Key(g, user) == KeyThrough(g, node, user)
    requires m < |g| && InputsIn(g, m, order + [node])
    requires node in g[m].inputs ==> PositionIn(g[node].users, m) < PositionIn(g[node].users, user)
    ensures KeyBefore(Key(g, m), Key(g, user))
  {
    hide Traced, Key, InputsIn;
    var last := KeyOf(g, m);
    if IsSource(g, m) {
      KeyNotEmpty(g, node);
    } else {
      LastInOrder(g, order, node, m, last);
      KeyExtended(Key(g, last), Key(g, node), PositionIn(g[last].users, m), PositionIn(g[node].users, user));
    }
  }

  lemma {:induction false} KeyNotEmpty(g: Graph, n: nat)
    requires n < |g|
    ensures Key(g, n) != []
  {
  }

  lemma {:induction false} LastInOrder(g: Graph, order: seq<nat>, node: nat, m: nat, last: nat)
    requires KeysAscend(g, order + [node]) && m < |g| && InputsIn(g, m, order + [node])
    requires last in g[m].inputs && !IsAttr(g, last)
    ensures last < |g| && node < |g| && (last == node || KeyBefore(Key(g, last), Key(g, node)))
  {
    hide Key, KeyBefore;
    var all := order + [node];
    var j :| 0 <= j < |all| && all[j] == last;
    assert all[|order|] == node;
  }

  ghost predicate Lists(order: seq<nat>, done: set<nat>) {
    forall n :: n in order <==> n in done
  }

  lemma {:induction false} NonePending(g: Graph, n: nat, done: set<nat>, order: seq<nat>)
    requires n < |g| && Lists(order, done) && Pending(g, n, done) == {}
    ensures InputsIn(g, n, order)
  {
    forall i | i in g[n].inputs && !IsAttr(g, i)
      ensures i in order
    {
      var pending := Pending(g, n, done);
      assert i in pending || i in done;
    }
  }

  lemma {:induction false} ListsNext(order: seq<nat>, done: set<nat>, node: nat)
    requires Lists(order, done)
    ensures Lists(order + [node], done + {node})
  {
  }

  /** A node in the queue has all its inputs in order, and uses node only if it was released. */
  lemma {:induction false} QueuedInputs(g: Graph, done: set<nat>, node: nat, remaining: seq<int>, queue: seq<nat>,
                                        released: seq<nat>, order: seq<nat>, m: nat)
    requires Releasing(g, done, node, remaining, queue, released) && Lists(order, done) && m in queue
    requires node < |g| && !IsAttr(g, node) && node !in done
    ensures m < |g| && InputsIn(g, m, order + [node]) && (node in g[m].inputs ==> m in released)
  {
    hide InputsIn;
    ListsNext(order, done, node);
    assert ReleasedOk(g, done, node, remaining, queue, m, m in released);
    if m in released {
      NonePending(g, m, done + {node}, order + [node]);
    } else {
      assert Pending(g, m, done) <= {};
      assert Pending(g, m, done + {node}) <= Pending(g, m, done);
      NonePending(g, m, done + {node}, order + [node]);
      NoPendingInput(g, done, m, node);
    }
  }

  /** So has a node that has left the queue, and it does not use node. */
  lemma {:induction false} DoneInputs(g: Graph, done: set<nat>, node: nat, order: seq<nat>, m: nat)
    requires Traced(g) && DoneOk(g, done) && Lists(order, done) && node < |g| && !IsAttr(g, node) && node !in done
    requires Pending(g, node, done) == {} && (m in done || m == node)
    ensures m < |g| && InputsIn(g, m, order + [node]) && node !in g[m].inputs
  {
    NonePending(g, m, done, order);
    NoPendingInput(g, done, m, node);
  }

  lemma {:induction false} KeysAppend(g: Graph, order: seq<nat>, n: nat)
    requires KeysAscend(g, order) && n < |g| && forall m :: m in order ==> m < |g| && KeyBefore(Key(g, m), Key(g, n))
    ensures KeysAscend(g, order + [n])
  {
    hide Key, KeyBefore;
    var all := order + [n];
    forall j, k | 0 <= j < k < |all|
      ensures KeyBefore(Key(g, all[j]), Key(g, all[k]))
    {
      assert order[j] in order;
    }
  }

  lemma {:induction false} UserIndex(users: seq<nat>, j: nat)
    requires Distinct(users) && j < |users|
    ensures PositionIn(users, users[j]) == j
    ensures forall m :: m in users[..j] ==> PositionIn(users, m) < j
  {
    forall m | m in users[..j]
      ensures PositionIn(users, m) < j
    {
      var k :| 0 <= k < j && users[k] == m;
    }
  }

  /** A user that joins the queue keeps the order ascending. */
  lemma {:induction false} UserJoins(g: Graph, done: set<nat>, node: nat, remaining: seq<int>, queue: seq<nat>,
                                     order: seq<nat>, j: nat)
    requires Traced(g) && DoneOk(g, done) && Lists(order, done) && node < |g| && !IsAttr(g, node) && node !in done
    requires Pending(g, node, done) == {} && j < |g[node].users|
    requires Releasing(g, done, node, remaining, queue, g[node].users[..j])
    requires KeysAscend(g, order + [node] + queue)
    requires var user := g[node].users[j];
             user < |g| && Pending(g, user, done + {node}) == {}
    ensures KeysAscend(g, order + [node] + queue + [g[node].users[j]])
  {
    hide Key, KeyBefore, DoneOk, Releasing, InputsIn;
    var users := g[node].users;
    var user := users[j];
    var all := order + [node] + queue;
    assert all[..|order| + 1] == order + [node];
    AscendPrefix(g, all, |order| + 1);
    ListsNext(order, done, node);
    NonePending(g, user, done + {node}, order + [node]);
    assert user in users && node in g[user].inputs && Distinct(users);
    UserIndex(users, j);
    KeyThroughLast(g, order, node, user);
    forall m | m in all
      ensures m < |g| && KeyBefore(Key(g, m), Key(g, user))
    {
      if m in queue {
        QueuedInputs(g, done, node, remaining, queue, users[..j], order, m);
      } else {
        DoneInputs(g, done, node, order, m);
      }
      UserIsLater(g, order, node, user, m);
    }
    KeysAppend(g, all, user);
  }

  lemma {:induction false} AscendPrefix(g: Graph, order: seq<nat>, k: nat)
    requires KeysAscend(g, order) && k <= |order|
    ensures KeysAscend(g, order[..k])
  {
  }

  /** Releasing the first users of node leaves the order ascending. */
  lemma {:induction false} ReleasedAscends(g: Graph, done: set<nat>, node: nat, remaining: seq<int>, queue: seq<nat>,
                                           order: seq<nat>, j: nat)
    requires Traced(g) && DoneOk(g, done) && Lists(order, done) && QueueOk(g, done, remaining, [node] + queue)
    requires KeysAscend(g, order + [node] + queue) && node < |g| && j <= |g[node].users|
    ensures var r := Released(g[node].users[..j], remaining, queue);
            && Releasing(g, done, node, r.remaining, r.queue, g[node].users[..j])
            && KeysAscend(g, order + [node] + r.queue)
    decreases j
  {
    hide Traced, DoneOk, QueueOk, Releasing, KeysAscend, Released, Pending;
    var users := g[node].users;
    StartReleasing(g, done, node, remaining, queue);
    NothingPending(g, done, remaining, queue, node);
    if j == 0 {
      ReleasedNone(remaining, queue);
      assert users[..0] == [];
    } else {
      ReleasedAscends(g, done, node, remaining, queue, order, j - 1);
      var before := Released(users[..j - 1], remaining, queue);
      UsersDistinct(g, node);
      NextUser(users, j - 1);
      var user := users[j - 1];
      ReleaseOne(g, done, node, before.remaining, before.queue, users[..j - 1], user);
      ReleasedNext(users, j - 1, remaining, queue);
      var r := Released(users[..j], remaining, queue);
      if r.queue != before.queue {
        JoinsReady(g, done, node, r.remaining, r.queue, users[..j], user);
        UserJoins(g, done, node, before.remaining, before.queue, order, j - 1);
        assert order + [node] + before.queue + [user] == order + [node] + r.queue;
      }
    }
  }

  lemma {:induction false} JoinsReady(g: Graph, done: set<nat>, node: nat, remaining: seq<int>, queue: seq<nat>,
                                      released: seq<nat>, user: nat)
    requires Releasing(g, done, node, remaining, queue, released) && user in queue && user in released
    ensures user < |g| && Pending(g, user, done + {node}) == {}
  {
    assert ReleasedOk(g, done, node, remaining, queue, user, true);
  }

  /** Nodes leave the queue in the order of their keys. */
  lemma {:induction false} FifoAscends(g: Graph, done: set<nat>, remaining: seq<int>, queue: seq<nat>, order: seq<nat>,
                                       fuel: nat)
    requires Traced(g) && DoneOk(g, done) && Lists(order, done) && QueueOk(g, done, remaining, queue)
    requires KeysAscend(g, order + queue)
    ensures KeysAscend(g, order + FifoOrder(g, remaining, queue, fuel))
    decreases fuel
  {
    hide Traced, DoneOk, QueueOk, KeysAscend, Released, Pending;
    if fuel == 0 || queue == [] || queue[0] >= |g| {
      assert order + [] == order == (order + queue)[..|order|];
      AscendPrefix(g, order + queue, |order|);
    } else {
      var node, rest := queue[0], queue[1..];
      assert queue == [node] + rest && order + queue == order + [node] + rest;
      var users := g[node].users;
      var next := Released(users, remaining, rest);
      assert users[..|users|] == users;
      StartReleasing(g, done, node, remaining, rest);
      NothingPending(g, done, remaining, rest, node);
      ReleasedAscends(g, done, node, remaining, rest, order, |users|);
      AllReleased(g, done, node, next.remaining, next.queue);
      ListsNext(order, done, node);
      FifoAscends(g, done + {node}, next.remaining, next.queue, order + [node], fuel - 1);
      var later := FifoOrder(g, next.remaining, next.queue, fuel - 1);
      assert order + [node] + later == order + ([node] + later);
    }
  }

  lemma {:induction false} ReadyAscend(g: Graph, n: nat)
    requires Traced(g) && n <= |g|
    ensures KeysAscend(g, ReadyNodes(g, n))
  {
    hide Key, KeyBefore, Traced, IndegreeOf;
    if n > 0 {
      ReadyAscend(g, n - 1);
      var before := ReadyNodes(g, n - 1);
      if !IsAttr(g, n - 1) && IndegreeOf(g, g[n - 1].inputs) == 0 {
        forall m | m in before
          ensures m < |g| && KeyBefore(Key(g, m), Key(g, n - 1))
        {
          ReadyKey(g, m);
          ReadyKey(g, n - 1);
          SmallerNumber(m, n - 1);
        }
        KeysAppend(g, before, n - 1);
      }
    }
  }

  lemma {:induction false} ReadyKey(g: Graph, n: nat)
    requires Traced(g) && n < |g| && IndegreeOf(g, g[n].inputs) == 0
    ensures Key(g, n) == [n]
  {
    IndegreeCounts(g, g[n].inputs);
    forall i | i in g[n].inputs
      ensures IsAttr(g, i)
    {
      var waiting := set j | j in g[n].inputs && !IsAttr(g, j);
      assert i in waiting || IsAttr(g, i);
    }
    var _ := KeyOf(g, n);
  }

  /** The execution order is ascending. */
  lemma {:induction false} ExecutionAscends(g: Graph)
    requires Traced(g)
    ensures KeysAscend(g, ExecutionOrder(g))
  {
    QueueStarts(g);
    ReadyAscend(g, |g|);
    var first := ReadyNodes(g, |g|);
    assert [] + first == first;
    FifoAscends(g, {}, Indegrees(g), first, [], |g|);
    assert [] + ExecutionOrder(g) == ExecutionOrder(g);
  }

  // ----- Depth

  /** The length of the longest path to a node, attribute reads aside. */
  function Depth(g: Graph, n: nat): nat
    requires n < |g|
    decreases n, |g[n].inputs| + 1
  {
    DepthBelow(g, n, g[n].inputs)
  }

  function DepthBelow(g: Graph, n: nat, inputs: seq<nat>): nat
    requires n < |g|
    decreases n, |inputs|
  {
    if inputs == [] then 0
    else
      var before, i := DepthBelow(g, n, inputs[..|inputs| - 1]), inputs[|inputs| - 1];
      if i < n && !IsAttr(g, i) && before <= Depth(g, i) then Depth(g, i) + 1 else before
  }

  lemma {:induction false} KeyLength(g: Graph, n: nat)
    requires n < |g|
    ensures |Key(g, n)| == Depth(g, n) + 1
    decreases n, |g[n].inputs| + 1
  {
    GreatestLength(g, n, g[n].inputs);
  }

  lemma {:induction false} GreatestLength(g: Graph, n: nat, inputs: seq<nat>)
    requires n < |g|
    ensures var d := DepthBelow(g, n, inputs); |GreatestKey(g, n, inputs)| == if d == 0 then 0 else d + 1
    decreases n, |inputs|
  {
    hide Key, Depth, LexBefore;
    if inputs != [] {
      var i := inputs[|inputs| - 1];
      GreatestLength(g, n, inputs[..|inputs| - 1]);
      if i < n {
        KeyLength(g, i);
      }
    }
  }

  /** Nodes of smaller depth come first. */
  lemma {:induction false} DepthDecides(g: Graph, n: nat, m: nat)
    requires n < |g| && m < |g| && Depth(g, n) < Depth(g, m)
    ensures KeyBefore(Key(g, n), Key(g, m)) && !KeyBefore(Key(g, m), Key(g, n))
  {
    hide Key, Depth;
    KeyLength(g, n);
    KeyLength(g, m);
  }

  lemma {:induction false} DepthOfInput(g: Graph, n: nat, inputs: seq<nat>, i: nat)
    requires n < |g| && i in inputs && i < n && !IsAttr(g, i)
    ensures Depth(g, i) < DepthBelow(g, n, inputs)
    decreases |inputs|
  {
    hide Depth;
    if i != inputs[|inputs| - 1] {
      DepthOfInput(g, n, inputs[..|inputs| - 1], i);
    }
  }

  /** Sources come in the order of the graph. */
  lemma {:induction false} SourcesInOrder(g: Graph, n: nat, m: nat)
    requires Traced(g) && n < |g| && m < |g| && IsSource(g, n) && IsSource(g, m)
    ensures KeyBefore(Key(g, n), Key(g, m)) <==> n < m
  {
    hide Key;
    var _ := KeyOf(g, n);
    var _ := KeyOf(g, m);
    KeyTotal(Key(g, n), Key(g, m));
    if n < m {
      SmallerNumber(n, m);
    } else if m < n {
      SmallerNumber(m, n);
    }
  }
}
