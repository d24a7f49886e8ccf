/** The first-in-first-out topological sort that cuts a graph after every target and delays attribute reads. */
module TopologicalPartition {
  import opened Collections
  import opened FxGraph

  type Partitions = seq<seq<nat>>

  // ----- What the partition promises

  ghost predicate Holds(parts: Partitions, n: nat) {
    exists p :: 0 <= p < |parts| && n in parts[p]
  }

  ghost predicate At(parts: Partitions, p: int, k: int) {
    0 <= p < |parts| && 0 <= k < |parts[p]|
  }

  ghost predicate Before(q: int, j: int, p: int, k: int) {
    q < p || (q == p && j < k)
  }

  /** No node stands at two places. */
  ghost predicate Once(parts: Partitions) {
    forall p, k, q, j :: At(parts, p, k) && At(parts, q, j) && parts[p][k] == parts[q][j] ==> p == q && k == j
  }

  /** A node stands after each of its inputs that has a place. */
  ghost predicate Sorted(g: Graph, parts: Partitions)
    requires InGraph(g, parts)
  {
    forall p, k, q, j :: At(parts, p, k) && At(parts, q, j) && parts[q][j] in g[parts[p][k]].inputs ==> Before(q, j, p, k)
  }

  ghost predicate InGraph(g: Graph, parts: Partitions) {
    forall p, k :: At(parts, p, k) ==> parts[p][k] < |g|
  }

  /** Every partition but the last ends with its only target, and the last one has none. */
  ghost predicate CutAtTargets(parts: Partitions, targets: set<nat>) {
    && (forall p :: 0 <= p < |parts| - 1 ==> parts[p] != [] && parts[p][|parts[p]| - 1] in targets)
    && (forall p, k :: At(parts, p, k) && parts[p][k] in targets ==> p < |parts| - 1 && k == |parts[p]| - 1)
  }

  /** The first partition that holds a user of node n. */
  ghost predicate FirstUse(g: Graph, parts: Partitions, n: nat, p: nat)
    requires n < |g| && p < |parts|
  {
    && (exists u :: u in g[n].users && u in parts[p])
    && (forall u, q :: u in g[n].users && 0 <= q < p ==> u !in parts[q])
  }

  /** An attribute read stands in the first partition that uses it, with only attribute reads in front of it. */
  ghost predicate AttributesDelayed(g: Graph, parts: Partitions) {
    forall p, k :: At(parts, p, k) && IsAttr(g, parts[p][k]) ==>
      FirstUse(g, parts, parts[p][k], p) && forall j :: 0 <= j < k ==> IsAttr(g, parts[p][j])
  }

  ghost predicate UnusedAttr(g: Graph, n: nat) {
    IsAttr(g, n) && g[n].users == []
  }

  ghost predicate IsPartition(g: Graph, targets: set<nat>, parts: Partitions) {
    && |parts| == |targets| + 1
    && InGraph(g, parts) && Once(parts) && Sorted(g, parts) && CutAtTargets(parts, targets)
    && (forall n: nat :: n < |g| ==> (Holds(parts, n) <==> !UnusedAttr(g, n)))
    && AttributesDelayed(g, parts)
  }

  // ----- Places: where each node stands

  datatype Place = Place(p: nat, k: nat)

  type Places = map<nat, Place>

  ghost predicate Placed(parts: Partitions, pos: Places) {
    && (forall n :: n in pos ==> At(parts, pos[n].p, pos[n].k) && parts[pos[n].p][pos[n].k] == n)
    && (forall p, k :: At(parts, p, k) ==> parts[p][k] in pos && pos[parts[p][k]] == Place(p, k))
  }

  ghost predicate SortedPlaces(g: Graph, pos: Places) {
    forall n, i :: n in pos && n < |g| && i in g[n].inputs && i in pos ==> Before(pos[i].p, pos[i].k, pos[n].p, pos[n].k)
  }

  lemma {:induction false} PlacedHolds(parts: Partitions, pos: Places, n: nat)
    requires Placed(parts, pos)
    ensures Holds(parts, n) <==> n in pos
    ensures n in pos ==> n in parts[pos[n].p]
    ensures forall p :: 0 <= p < |parts| && n in parts[p] ==> n in pos && pos[n].p == p
  {
    if n in pos {
      assert parts[pos[n].p][pos[n].k] == n;
    }
    forall p | 0 <= p < |parts| && n in parts[p]
      ensures n in pos && pos[n].p == p
    {
      var k :| 0 <= k < |parts[p]| && parts[p][k] == n;
      assert At(parts, p, k);
    }
  }

  lemma {:induction false} PlacedSorted(g: Graph, parts: Partitions, pos: Places)
    requires Placed(parts, pos) && SortedPlaces(g, pos) && InGraph(g, parts)
    ensures Once(parts) && Sorted(g, parts)
  {
  }

  function Append(parts: Partitions, n: nat): Partitions
    requires |parts| > 0
  {
    parts[|parts| - 1 := parts[|parts| - 1] + [n]]
  }

  lemma {:induction false} PlacedAppend(parts: Partitions, pos: Places, n: nat)
    requires |parts| > 0 && Placed(parts, pos) && n !in pos
    ensures Placed(Append(parts, n), pos[n := Place(|parts| - 1, |parts[|parts| - 1]|)])
  {
  }

  ghost function Shift(pos: Places, p: nat): Places {
    map m | m in pos :: if pos[m].p == p then Place(p, pos[m].k + 1) else pos[m]
  }

  function InsertFront(parts: Partitions, p: nat, n: nat): Partitions
    requires p < |parts|
  {
    parts[p := [n] + parts[p]]
  }

  lemma {:induction false} PlacedInsert(parts: Partitions, pos: Places, p: nat, n: nat)
    requires p < |parts| && Placed(parts, pos) && n !in pos
    ensures Placed(InsertFront(parts, p, n), Shift(pos, p)[n := Place(p, 0)])
  {
    var more, after := InsertFront(parts, p, n), Shift(pos, p)[n := Place(p, 0)];
    forall q, k | At(more, q, k)
      ensures more[q][k] in after && after[more[q][k]] == Place(q, k)
    {
      if q != p {
        assert At(parts, q, k);
      } else if k > 0 {
        assert At(parts, q, k - 1);
      }
    }
  }

  // ----- The order of the queue: first in, first out

  datatype Counts = Counts(remaining: seq<int>, queue: seq<nat>)

  /** The given users each wait for one input less, and join the queue in turn when that was the last. */
  function Released(users: seq<nat>, remaining: seq<int>, queue: seq<nat>): Counts {
    if users == [] then Counts(remaining, queue)
    else
      var before, user := Released(users[..|users| - 1], remaining, queue), users[|users| - 1];
      if user >= |before.remaining| then before
      else
        var left := before.remaining[user] - 1;
        Counts(before.remaining[user := left], if left == 0 then before.queue + [user] else before.queue)
  }

  /** The nodes in the order in which they leave the queue. */
  function FifoOrder(g: Graph, remaining: seq<int>, queue: seq<nat>, fuel: nat): seq<nat>
    decreases fuel
  {
    if fuel == 0 || queue == [] || queue[0] >= |g| then []
    else
      var next := Released(g[queue[0]].users, remaining, queue[1..]);
      [queue[0]] + FifoOrder(g, next.remaining, next.queue, fuel - 1)
  }

  /** The nodes of a partition, attribute reads aside. */
  function Nodes(g: Graph, part: seq<nat>): seq<nat> {
    if part == [] then []
    else
      var before, last := Nodes(g, part[..|part| - 1]), part[|part| - 1];
      if IsAttr(g, last) then before else before + [last]
  }

  /** The nodes of all partitions in order, attribute reads aside. */
  function NodeOrder(g: Graph, parts: Partitions): seq<nat> {
    if parts == [] then [] else NodeOrder(g, parts[..|parts| - 1]) + Nodes(g, parts[|parts| - 1])
  }

  lemma {:induction false} NodesFront(g: Graph, part: seq<nat>, n: nat)
    requires IsAttr(g, n)
    ensures Nodes(g, [n] + part) == Nodes(g, part)
    decreases |part|
  {
    if part == [] {
      assert ([n] + part)[..0] == [];
    } else {
      assert ([n] + part)[..|part|] == [n] + part[..|part| - 1];
      NodesFront(g, part[..|part| - 1], n);
    }
  }

  lemma {:induction false} OrderInsert(g: Graph, parts: Partitions, p: nat, n: nat)
    requires p < |parts| && IsAttr(g, n)
    ensures NodeOrder(g, InsertFront(parts, p, n)) == NodeOrder(g, parts)
    decreases |parts|
  {
    var more, last := InsertFront(parts, p, n), |parts| - 1;
    if p == last {
      assert more[..last] == parts[..last];
      NodesFront(g, parts[last], n);
    } else {
      assert more[..last] == InsertFront(parts[..last], p, n);
      OrderInsert(g, parts[..last], p, n);
    }
  }

  lemma {:induction false} OrderPlace(g: Graph, parts: Partitions, targets: set<nat>, n: nat)
    requires |parts| > 0 && !IsAttr(g, n)
    ensures NodeOrder(g, PlaceInLast(parts, targets, n)) == NodeOrder(g, parts) + [n]
  {
    var last := |parts| - 1;
    var more := Append(parts, n);
    assert more[..last] == parts[..last];
    assert (parts[last] + [n])[..|parts[last]|] == parts[last];
    assert NodeOrder(g, more) == NodeOrder(g, parts) + [n];
    assert (more + [[]])[..|more|] == more;
  }

  ghost function UpTo(k: nat): (all: set<nat>)
    ensures |all| == k && forall n: nat :: n in all <==> n < k
  {
    if k == 0 then {} else UpTo(k - 1) + {k - 1}
  }

  lemma {:induction false} Subset<T>(a: set<T>, b: set<T>)
    requires a <= b
    ensures |a| <= |b|
  {
    assert b == a + (b - a);
  }

  /** There is room for one more node in the order. */
  lemma {:induction false} RoomLeft(g: Graph, done: set<nat>, node: nat)
    requires done <= NodesOf(g) && node < |g| && node !in done
    ensures |done| < |g|
  {
    Subset(done + {node}, UpTo(|g|));
  }

  // ----- Counting down the inputs of each node

  /** The inputs of n that are still to be placed, attribute reads aside. */
  ghost function Pending(g: Graph, n: nat, done: set<nat>): set<nat>
    requires n < |g|
  {
    set i | i in g[n].inputs && !IsAttr(g, i) && i !in done
  }

  function IndegreeOf(g: Graph, inputs: seq<nat>): nat {
    if inputs == [] then 0
    else IndegreeOf(g, inputs[..|inputs| - 1]) + (if IsAttr(g, inputs[|inputs| - 1]) then 0 else 1)
  }

  lemma {:induction false} IndegreeCounts(g: Graph, inputs: seq<nat>)
    requires Distinct(inputs)
    ensures IndegreeOf(g, inputs) == |set i | i in inputs && !IsAttr(g, i)|
  {
    if inputs == [] {
      assert (set i | i in inputs && !IsAttr(g, i)) == {};
    } else {
      var front, last := inputs[..|inputs| - 1], inputs[|inputs| - 1];
      IndegreeCounts(g, front);
      var before := set i | i in front && !IsAttr(g, i);
      LastCounted(g, inputs, front, last, before, set i | i in inputs && !IsAttr(g, i));
    }
  }

  lemma {:induction false} LastCounted(g: Graph, inputs: seq<nat>, front: seq<nat>, last: nat, before: set<nat>, all: set<nat>)
    requires inputs == front + [last] && Distinct(inputs)
    requires forall i :: i in before <==> i in front && !IsAttr(g, i)
    requires forall i :: i in all <==> i in inputs && !IsAttr(g, i)
    ensures |all| == |before| + if IsAttr(g, last) then 0 else 1
  {
    assert forall i :: i in inputs <==> i in front || i == last;
    LastIsNew(inputs, front, last);
    assert all == if IsAttr(g, last) then before else before + {last};
  }

  lemma {:induction false} LastIsNew(inputs: seq<nat>, front: seq<nat>, last: nat)
    requires inputs == front + [last] && Distinct(inputs)
    ensures last !in front
  {
    forall k | 0 <= k < |front|
      ensures front[k] != last
    {
      assert inputs[k] != inputs[|front|];
    }
  }

  /** Nodes placed so far: no attribute reads, and all their inputs are placed. */
  ghost predicate DoneOk(g: Graph, done: set<nat>) {
    forall n :: n in done ==> n < |g| && !IsAttr(g, n) && Pending(g, n, done) == {}
  }

  /** remaining counts pending inputs, and the queue holds the nodes that have none. */
  ghost predicate QueueOk(g: Graph, done: set<nat>, remaining: seq<int>, queue: seq<nat>) {
    && |remaining| == |g| && Distinct(queue)
    && (forall n :: n in queue ==> n < |g| && !IsAttr(g, n) && n !in done)
    && (forall n: nat :: n < |g| && !IsAttr(g, n) && n !in done ==>
          remaining[n] == |Pending(g, n, done)| && (n in queue <==> Pending(g, n, done) == {}))
  }

  lemma {:induction false} PendingAfter(g: Graph, n: nat, done: set<nat>, node: nat)
    requires GraphIsWellFormed(g) && n < |g| && node < |g| && !IsAttr(g, node) && node !in done
    ensures n in g[node].users ==>
              node in Pending(g, n, done) && Pending(g, n, done + {node}) == Pending(g, n, done) - {node}
    ensures n !in g[node].users ==> Pending(g, n, done + {node}) == Pending(g, n, done)
  {
  }

  ghost predicate ReleasedOk(g: Graph, done: set<nat>, node: nat, remaining: seq<int>, queue: seq<nat>, n: nat,
                             released: bool)
    requires n < |g| && |remaining| == |g|
  {
    var pending := Pending(g, n, if released then done + {node} else done);
    remaining[n] == |pending| && (n in queue <==> pending == {})
  }

  lemma {:induction false} UserWaits(g: Graph, node: nat, done: set<nat>, user: nat)
    requires Traced(g) && DoneOk(g, done) && node < |g| && !IsAttr(g, node) && node !in done
    requires user in g[node].users
    ensures user < |g| && !IsAttr(g, user) && user !in done && user != node
  {
    assert node in g[user].inputs;
    assert user in done ==> node in Pending(g, user, done);
  }

  /** The state of the user loop once the given users of node have been counted down. */
  ghost predicate Releasing(g: Graph, done: set<nat>, node: nat, remaining: seq<int>, queue: seq<nat>,
                            released: seq<nat>) {
    && |remaining| == |g| && Distinct(queue)
    && (forall n :: n in queue ==> n < |g| && !IsAttr(g, n) && n !in done && n != node)
    && (forall n: nat :: n < |g| && !IsAttr(g, n) && n !in done && n != node ==>
          ReleasedOk(g, done, node, remaining, queue, n, n in released))
  }

  lemma {:induction false} StartReleasing(g: Graph, done: set<nat>, node: nat, remaining: seq<int>, queue: seq<nat>)
    requires QueueOk(g, done, remaining, [node] + queue)
    ensures node < |g| && !IsAttr(g, node) && node !in done
    ensures Releasing(g, done, node, remaining, queue, [])
  {
    var all := [node] + queue;
    assert all[0] == node && node in all;
    assert queue == all[1..];
    forall n | n in queue
      ensures n in all && n != node
    {
      var k :| 0 <= k < |queue| && queue[k] == n;
      assert all[k + 1] == n;
    }
    forall n: nat | n < |g| && !IsAttr(g, n) && n !in done && n != node
      ensures ReleasedOk(g, done, node, remaining, queue, n, false)
    {
      assert n in all <==> n in queue;
    }
  }

  lemma {:induction false} ReleaseOne(g: Graph, done: set<nat>, node: nat, remaining: seq<int>, queue: seq<nat>,
                                      released: seq<nat>, user: nat)
    requires Traced(g) && DoneOk(g, done) && node < |g| && !IsAttr(g, node) && node !in done
    requires Releasing(g, done, node, remaining, queue, released)
    requires user in g[node].users && user !in released
    ensures user < |g|
    ensures var after := remaining[user := remaining[user] - 1];
            Releasing(g, done, node, after, if after[user] == 0 then queue + [user] else queue, released + [user])
  {
    UserWaits(g, node, done, user);
    assert ReleasedOk(g, done, node, remaining, queue, user, false);
    CountedDown(g, done, node, remaining, queue, user);
    var after := remaining[user := remaining[user] - 1];
    ReleasingGrows(g, done, node, remaining, queue, released, user, after,
                   if after[user] == 0 then queue + [user] else queue);
  }

  lemma {:induction false} ReleasingGrows(g: Graph, done: set<nat>, node: nat, remaining: seq<int>, queue: seq<nat>,
                                          released: seq<nat>,
                       user: nat, after: seq<int>, longer: seq<nat>)
    requires user < |g| && !IsAttr(g, user) && user !in done && user != node
    requires Releasing(g, done, node, remaining, queue, released)
    requires user !in queue && (longer == queue || longer == queue + [user])
    requires |after| == |g| && forall n :: 0 <= n < |g| && n != user ==> after[n] == remaining[n]
    requires ReleasedOk(g, done, node, after, longer, user, true)
    ensures Releasing(g, done, node, after, longer, released + [user])
  {
    assert Distinct(longer);
    assert forall n :: n in longer ==> n in queue || n == user;
    forall n: nat | n < |g| && !IsAttr(g, n) && n !in done && n != node
      ensures ReleasedOk(g, done, node, after, longer, n, n in released + [user])
    {
      if n == user {
        assert n in released + [user];
      } else {
        assert ReleasedOk(g, done, node, remaining, queue, n, n in released);
        assert n in released + [user] <==> n in released;
        assert n in longer <==> n in queue;
      }
    }
  }

  lemma {:induction false} CountedDown(g: Graph, done: set<nat>, node: nat, remaining: seq<int>, queue: seq<nat>,
                                       user: nat)
    requires Traced(g) && user < |g| && node < |g| && !IsAttr(g, node) && node !in done && user in g[node].users
    requires |remaining| == |g| && ReleasedOk(g, done, node, remaining, queue, user, false)
    ensures user !in queue
    ensures var after := remaining[user := remaining[user] - 1];
            ReleasedOk(g, done, node, after, if after[user] == 0 then queue + [user] else queue, user, true)
  {
    PendingAfter(g, user, done, node);
    var before := Pending(g, user, done);
    assert |before - {node}| == |before| - 1;
  }

  lemma {:induction false} AllReleased(g: Graph, done: set<nat>, node: nat, remaining: seq<int>, queue: seq<nat>)
    requires Traced(g) && DoneOk(g, done) && node < |g| && !IsAttr(g, node) && node !in done
    requires Pending(g, node, done) == {}
    requires Releasing(g, done, node, remaining, queue, g[node].users)
    ensures QueueOk(g, done + {node}, remaining, queue) && DoneOk(g, done + {node})
  {
    forall n: nat | n < |g| && !IsAttr(g, n) && n !in done + {node}
      ensures remaining[n] == |Pending(g, n, done + {node})|
      ensures n in queue <==> Pending(g, n, done + {node}) == {}
    {
      assert ReleasedOk(g, done, node, remaining, queue, n, n in g[node].users);
      PendingAfter(g, n, done, node);
    }
    forall n | n in done + {node}
      ensures n < |g| && !IsAttr(g, n) && Pending(g, n, done + {node}) == {}
    {
      assert Pending(g, n, done) == {};
      PendingAfter(g, n, done, node);
    }
  }

  /** The user loop: every user of node has one input less to wait for, and joins the queue when that was the last. */
  method ReleaseUsers(g: Graph, node: nat, remaining: seq<int>, queue: seq<nat>, ghost done: set<nat>)
    returns (remaining': seq<int>, queue': seq<nat>)
    requires Traced(g) && DoneOk(g, done) && QueueOk(g, done, remaining, [node] + queue)
    ensures QueueOk(g, done + {node}, remaining', queue') && DoneOk(g, done + {node})
    ensures Counts(remaining', queue') == Released(g[node].users, remaining, queue)
  {
    hide Traced, DoneOk, QueueOk, Releasing, Released;
    StartReleasing(g, done, node, remaining, queue);
    ReleasedNone(remaining, queue);
    assert Distinct(g[node].users) by {
      UsersDistinct(g, node);
    }
    NothingPending(g, done, remaining, queue, node);
    remaining', queue' := remaining, queue;
    var users := g[node].users;
    for j := 0 to |users|
      invariant Releasing(g, done, node, remaining', queue', users[..j])
      invariant Counts(remaining', queue') == Released(users[..j], remaining, queue)
    {
      var user := users[j];
      NextUser(users, j);
      ReleaseOne(g, done, node, remaining', queue', users[..j], user);
      ReleasedNext(users, j, remaining, queue);
      remaining' := remaining'[user := remaining'[user] - 1];
      if remaining'[user] == 0 {
        queue' := queue' + [user];
      }
    }
    assert users[..|users|] == users;
    AllReleased(g, done, node, remaining', queue');
  }

  lemma {:induction false} NothingPending(g: Graph, done: set<nat>, remaining: seq<int>, queue: seq<nat>, node: nat)
    requires QueueOk(g, done, remaining, [node] + queue)
    ensures node < |g| == |remaining| && Pending(g, node, done) == {}
  {
    assert node in [node] + queue;
  }

  lemma {:induction false} UsersDistinct(g: Graph, node: nat)
    requires Traced(g) && node < |g|
    ensures Distinct(g[node].users)
  {
  }

  lemma {:induction false} ReleasedNone(remaining: seq<int>, queue: seq<nat>)
    ensures Released([], remaining, queue) == Counts(remaining, queue)
  {
  }

  lemma {:induction false} ReleasedLength(users: seq<nat>, remaining: seq<int>, queue: seq<nat>)
    ensures |Released(users, remaining, queue).remaining| == |remaining|
    decreases |users|
  {
    if users != [] {
      ReleasedLength(users[..|users| - 1], remaining, queue);
    }
  }

  lemma {:induction false} ReleasedNext(users: seq<nat>, j: nat, remaining: seq<int>, queue: seq<nat>)
    requires j < |users| && users[j] < |remaining|
    ensures var before := Released(users[..j], remaining, queue);
            && users[j] < |before.remaining|
            && var after := before.remaining[users[j] := before.remaining[users[j]] - 1];
               Released(users[..j + 1], remaining, queue)
               == Counts(after, if after[users[j]] == 0 then before.queue + [users[j]] else before.queue)
  {
    assert users[..j + 1][..j] == users[..j];
    ReleasedLength(users[..j], remaining, queue);
  }

  lemma {:induction false} NextUser(s: seq<nat>, j: nat)
    requires Distinct(s) && j < |s|
    ensures s[j] in s && s[j] !in s[..j] && s[..j + 1] == s[..j] + [s[j]]
  {
  }

  // ----- Draining the queue

  ghost predicate Partitioning(g: Graph, targets: set<nat>, parts: Partitions, pos: Places, done: set<nat>) {
    && |parts| == |targets * done| + 1
    && CutAtTargets(parts, targets)
    && Placed(parts, pos) && pos.Keys == done && SortedPlaces(g, pos)
  }

  /** The partitions after node n is assigned, and a new one is opened if n is a target. */
  function PlaceInLast(parts: Partitions, targets: set<nat>, n: nat): Partitions
    requires |parts| > 0
  {
    if n in targets then Append(parts, n) + [[]] else Append(parts, n)
  }

  lemma {:induction false} CutAppend(parts: Partitions, targets: set<nat>, n: nat)
    requires |parts| > 0 && CutAtTargets(parts, targets)
    ensures CutAtTargets(PlaceInLast(parts, targets, n), targets)
  {
    var more := PlaceInLast(parts, targets, n);
    forall p, k | At(more, p, k) && more[p][k] in targets
      ensures p < |more| - 1 && k == |more[p]| - 1
    {
      if At(parts, p, k) {
        assert more[p][k] == parts[p][k];
      }
    }
  }

  lemma {:induction false} NoPendingInput(g: Graph, done: set<nat>, m: nat, n: nat)
    requires m < |g| && Pending(g, m, done) == {} && !IsAttr(g, n) && n !in done
    ensures n !in g[m].inputs
  {
    var pending := Pending(g, m, done);
    assert n in g[m].inputs ==> n in pending;
  }

  lemma {:induction false} SortedAppend(g: Graph, parts: Partitions, pos: Places, n: nat)
    requires |parts| > 0 && Placed(parts, pos) && SortedPlaces(g, pos) && n !in pos && n < |g| && !IsAttr(g, n)
    requires DoneOk(g, pos.Keys) && n !in g[n].inputs
    ensures SortedPlaces(g, pos[n := Place(|parts| - 1, |parts[|parts| - 1]|)])
  {
    var after := pos[n := Place(|parts| - 1, |parts[|parts| - 1]|)];
    forall m, i | m in after && m < |g| && i in g[m].inputs && i in after
      ensures Before(after[i].p, after[i].k, after[m].p, after[m].k)
    {
      if m != n {
        NoPendingInput(g, pos.Keys, m, n);
      } else {
        assert At(parts, pos[i].p, pos[i].k);
      }
    }
  }

  lemma {:induction false} PlaceNext(g: Graph, targets: set<nat>, parts: Partitions, pos: Places, done: set<nat>,
                                     n: nat)
    requires |parts| > 0 && Partitioning(g, targets, parts, pos, done) && DoneOk(g, done)
    requires n < |g| && !IsAttr(g, n) && n !in done && n !in g[n].inputs
    ensures Partitioning(g, targets, PlaceInLast(parts, targets, n),
                         pos[n := Place(|parts| - 1, |parts[|parts| - 1]|)], done + {n})
    ensures |PlaceInLast(parts, targets, n)| == |parts| + if n in targets then 1 else 0
  {
    var after := pos[n := Place(|parts| - 1, |parts[|parts| - 1]|)];
    assert |PlaceInLast(parts, targets, n)| == |targets * (done + {n})| + 1 by {
      CountTargets(targets, done, n);
    }
    assert CutAtTargets(PlaceInLast(parts, targets, n), targets) by {
      CutAppend(parts, targets, n);
    }
    assert Placed(PlaceInLast(parts, targets, n), after) by {
      PlacedInLast(parts, targets, pos, n);
    }
    assert SortedPlaces(g, after) by {
      SortedAppend(g, parts, pos, n);
    }
  }

  lemma {:induction false} PlacedInLast(parts: Partitions, targets: set<nat>, pos: Places, n: nat)
    requires |parts| > 0 && Placed(parts, pos) && n !in pos
    ensures Placed(PlaceInLast(parts, targets, n), pos[n := Place(|parts| - 1, |parts[|parts| - 1]|)])
  {
    PlacedAppend(parts, pos, n);
    PlacedExtend(Append(parts, n), pos[n := Place(|parts| - 1, |parts[|parts| - 1]|)]);
  }

  lemma {:induction false} CountTargets(targets: set<nat>, done: set<nat>, n: nat)
    requires n !in done
    ensures |targets * (done + {n})| == |targets * done| + if n in targets then 1 else 0
  {
    assert targets * (done + {n}) == targets * done + if n in targets then {n} else {};
  }

  lemma {:induction false} PlacedExtend(parts: Partitions, pos: Places)
    requires Placed(parts, pos)
    ensures Placed(parts + [[]], pos)
  {
    forall p, k | At(parts + [[]], p, k)
      ensures At(parts, p, k)
    {
    }
  }

  lemma {:induction false} Drained(g: Graph, done: set<nat>, remaining: seq<int>, n: nat)
    requires Traced(g) && QueueOk(g, done, remaining, []) && n < |g| && !IsAttr(g, n)
    ensures n in done
  {
    forall i | i in g[n].inputs && !IsAttr(g, i)
      ensures i in done
    {
      Drained(g, done, remaining, i);
    }
    assert Pending(g, n, done) == {};
  }

  ghost function NodesOf(g: Graph): set<nat> {
    set n: nat | 0 <= n < |g| && !IsAttr(g, n)
  }

  /** The head of the queue is ready to be placed. */
  lemma {:induction false} HeadReady(g: Graph, done: set<nat>, remaining: seq<int>, queue: seq<nat>)
    requires Traced(g) && QueueOk(g, done, remaining, queue) && queue != []
    ensures var n := queue[0]; n < |g| && !IsAttr(g, n) && n !in done && n !in g[n].inputs && queue == [n] + queue[1..]
  {
    assert queue[0] in queue;
  }

  /** The nodes placed so far, and those that will leave the queue from now on, make up the whole order. */
  ghost predicate InOrder(g: Graph, parts: Partitions, done: set<nat>, remaining: seq<int>, queue: seq<nat>,
                          order: seq<nat>) {
    |NodeOrder(g, parts)| == |done| <= |g| && NodeOrder(g, parts) + FifoOrder(g, remaining, queue, |g| - |done|) == order
  }

  lemma {:induction false} OrderStarts(g: Graph, start: seq<int>, first: seq<nat>)
    ensures InOrder(g, [[]], {}, start, first, FifoOrder(g, start, first, |g|))
  {
    var parts: Partitions := [[]];
    assert parts[..0] == [];
    assert NodeOrder(g, parts) == [];
  }

  lemma {:induction false} OrderNext(g: Graph, parts: Partitions, targets: set<nat>, done: set<nat>,
                                     remaining: seq<int>, queue: seq<nat>, order: seq<nat>)
    requires InOrder(g, parts, done, remaining, queue, order) && |parts| > 0 && queue != []
    requires queue[0] < |g| && !IsAttr(g, queue[0]) && queue[0] !in done && done <= NodesOf(g)
    ensures var next := Released(g[queue[0]].users, remaining, queue[1..]);
            InOrder(g, PlaceInLast(parts, targets, queue[0]), done + {queue[0]}, next.remaining, next.queue, order)
  {
    RoomLeft(g, done, queue[0]);
    OrderPlace(g, parts, targets, queue[0]);
    var next := Released(g[queue[0]].users, remaining, queue[1..]);
    var fuel := |g| - |done|;
    assert FifoOrder(g, remaining, queue, fuel) == [queue[0]] + FifoOrder(g, next.remaining, next.queue, fuel - 1);
    hide NodeOrder, FifoOrder, PlaceInLast;
    assert NodeOrder(g, parts) + ([queue[0]] + FifoOrder(g, next.remaining, next.queue, fuel - 1)) == order;
  }

  lemma {:induction false} OrderEnds(g: Graph, parts: Partitions, done: set<nat>, remaining: seq<int>, order: seq<nat>)
    requires InOrder(g, parts, done, remaining, [], order)
    ensures NodeOrder(g, parts) == order
  {
  }

  /** The state of the main loop. */
  ghost predicate Draining(g: Graph, targets: set<nat>, parts: Partitions, pos: Places, done: set<nat>,
                           remaining: seq<int>, queue: seq<nat>) {
    && QueueOk(g, done, remaining, queue) && DoneOk(g, done)
    && Partitioning(g, targets, parts, pos, done) && done <= NodesOf(g)
  }

  lemma {:induction false} DrainStarts(g: Graph, targets: set<nat>, start: seq<int>, first: seq<nat>)
    requires QueueOk(g, {}, start, first)
    ensures Draining(g, targets, [[]], map[], {}, start, first)
  {
    assert targets * {} == {};
  }

  /** Node n is placed next. */
  ghost predicate PlacedNext(g: Graph, targets: set<nat>, parts: Partitions, pos: Places, done: set<nat>, n: nat) {
    && |parts| > 0 && n < |g| && !IsAttr(g, n) && n !in done && n in NodesOf(g)
    && Partitioning(g, targets, PlaceInLast(parts, targets, n), pos[n := Place(|parts| - 1, |parts[|parts| - 1]|)], done + {n})
    && |PlaceInLast(parts, targets, n)| == |parts| + if n in targets then 1 else 0
  }

  lemma {:induction false} DrainNext(g: Graph, targets: set<nat>, parts: Partitions, pos: Places, done: set<nat>,
                                     remaining: seq<int>, queue: seq<nat>)
    requires Traced(g) && Draining(g, targets, parts, pos, done, remaining, queue) && queue != []
    ensures |parts| > 0 && queue == [queue[0]] + queue[1..]
    ensures PlacedNext(g, targets, parts, pos, done, queue[0])
  {
    hide Traced, QueueOk, DoneOk;
    HeadReady(g, done, remaining, queue);
    PlaceNext(g, targets, parts, pos, done, queue[0]);
  }

  /** The queue drains: everything but attribute reads is placed, in the order of the queue. */
  method DrainQueue(g: Graph, targetNodes: set<nat>, start: seq<int>, first: seq<nat>)
    returns (parts: Partitions, ghost pos: Places)
    requires Traced(g) && QueueOk(g, {}, start, first)
    ensures Partitioning(g, targetNodes, parts, pos, NodesOf(g))
    ensures NodeOrder(g, parts) == FifoOrder(g, start, first, |g|)
  {
    hide Traced, DoneOk, QueueOk, Partitioning, Released, FifoOrder, NodeOrder, NodesOf, InOrder;
    parts := [[]];
    pos := map[];
    DrainStarts(g, targetNodes, start, first);
    OrderStarts(g, start, first);
    var partitionIndex := 0;
    var remaining, queue := start, first;
    ghost var done: set<nat> := {};
    while |queue| > 0
      invariant Draining(g, targetNodes, parts, pos, done, remaining, queue) && partitionIndex == |parts| - 1
      invariant InOrder(g, parts, done, remaining, queue, FifoOrder(g, start, first, |g|))
      decreases NodesOf(g) - done
    {
      var node := queue[0];
      DrainNext(g, targetNodes, parts, pos, done, remaining, queue);
      OrderNext(g, parts, targetNodes, done, remaining, queue, FifoOrder(g, start, first, |g|));
      ghost var placed := PlaceInLast(parts, targetNodes, node);
      pos := pos[node := Place(partitionIndex, |parts[partitionIndex]|)];
      parts := parts[partitionIndex := parts[partitionIndex] + [node]];
      if node in targetNodes {
        partitionIndex := partitionIndex + 1;
        parts := parts + [[]];
      }
      assert parts == placed;
      remaining, queue := ReleaseUsers(g, node, remaining, queue[1..], done);
      done := done + {node};
    }
    AllDrained(g, done, remaining, queue);
    OrderEnds(g, parts, done, remaining, FifoOrder(g, start, first, |g|));
  }

  lemma {:induction false} AllDrained(g: Graph, done: set<nat>, remaining: seq<int>, queue: seq<nat>)
    requires Traced(g) && QueueOk(g, done, remaining, queue) && queue == [] && done <= NodesOf(g)
    ensures done == NodesOf(g)
  {
    forall n | n in NodesOf(g)
      ensures n in done
    {
      Drained(g, done, remaining, n);
    }
  }

  // ----- The first nodes of the queue

  function Indegrees(g: Graph): (remaining: seq<int>)
    ensures |remaining| == |g| && forall n :: 0 <= n < |g| ==> remaining[n] == IndegreeOf(g, g[n].inputs)
  {
    seq(|g|, n requires 0 <= n < |g| => IndegreeOf(g, g[n].inputs))
  }

  /** The nodes before n that wait for nothing, attribute reads aside. */
  function ReadyNodes(g: Graph, n: nat): (ready: seq<nat>)
    requires n <= |g|
    ensures forall m: nat :: m in ready <==> m < n && !IsAttr(g, m) && IndegreeOf(g, g[m].inputs) == 0
    ensures Distinct(ready)
  {
    if n == 0 then []
    else
      var before := ReadyNodes(g, n - 1);
      if !IsAttr(g, n - 1) && IndegreeOf(g, g[n - 1].inputs) == 0 then before + [n - 1] else before
  }

  lemma {:induction false} QueueStarts(g: Graph)
    requires Traced(g)
    ensures QueueOk(g, {}, Indegrees(g), ReadyNodes(g, |g|))
  {
    forall n: nat | n < |g|
      ensures IndegreeOf(g, g[n].inputs) == |Pending(g, n, {})|
    {
      IndegreeCounts(g, g[n].inputs);
      assert Pending(g, n, {}) == set i | i in g[n].inputs && !IsAttr(g, i);
    }
  }

  // ----- Placing attribute reads

  /** Everything before limit is placed, attribute reads with a user at the front of their first use. */
  ghost predicate Delayed(g: Graph, targets: set<nat>, parts: Partitions, pos: Places, limit: nat) {
    && |parts| == |targets| + 1
    && CutAtTargets(parts, targets)
    && Placed(parts, pos) && SortedPlaces(g, pos)
    && PlacedUpTo(g, pos, limit)
    && AttrsFirst(g, pos)
  }

  ghost predicate PlacedUpTo(g: Graph, pos: Places, limit: nat) {
    forall n: nat :: n in pos <==> n < |g| && (!IsAttr(g, n) || (n < limit && g[n].users != []))
  }

  ghost predicate AttrsFirst(g: Graph, pos: Places) {
    && (forall n :: n in pos && IsAttr(g, n) ==> AtFirstUse(g, pos, n))
    && (forall n, m :: n in pos && m in pos && IsAttr(g, n) && pos[m].p == pos[n].p && pos[m].k < pos[n].k ==> IsAttr(g, m))
  }

  ghost predicate AtFirstUse(g: Graph, pos: Places, n: nat)
    requires n in pos && n < |g|
  {
    && (forall u :: u in g[n].users ==> u in pos && pos[n].p <= pos[u].p)
    && (exists u :: u in g[n].users && u in pos && pos[u].p == pos[n].p)
  }

  /** The partition index of every user, found by scanning the partitions in order. */
  method UserPartitions(g: Graph, users: seq<nat>, parts: Partitions, ghost pos: Places) returns (found: seq<nat>)
    requires Placed(parts, pos) && forall u :: u in users ==> u in pos
    ensures |found| == |users| && forall i :: 0 <= i < |users| ==> found[i] == pos[users[i]].p
  {
    found := [];
    for i := 0 to |users|
      invariant |found| == i && forall j :: 0 <= j < i ==> found[j] == pos[users[j]].p
    {
      var index := 0;
      PlacedHolds(parts, pos, users[i]);
      while index < |parts| && users[i] !in parts[index]
        invariant 0 <= index <= pos[users[i]].p
      {
        index := index + 1;
      }
      found := found + [index];
    }
  }

  method Minimum(s: seq<nat>) returns (m: nat)
    requires s != []
    ensures m in s && forall x :: x in s ==> m <= x
  {
    m := s[0];
    for i := 1 to |s|
      invariant m in s[..i] && forall x :: x in s[..i] ==> m <= x
    {
      if s[i] < m {
        m := s[i];
      }
      assert s[..i + 1] == s[..i] + [s[i]];
    }
    assert s[..|s|] == s;
  }

  lemma {:induction false} CutInsert(parts: Partitions, targets: set<nat>, p: nat, n: nat)
    requires p < |parts| && CutAtTargets(parts, targets) && n !in targets
    ensures CutAtTargets(InsertFront(parts, p, n), targets)
  {
    var more := InsertFront(parts, p, n);
    forall q | 0 <= q < |more| - 1
      ensures more[q] != [] && more[q][|more[q]| - 1] in targets
    {
      assert parts[q] != [];
    }
    forall q, k | At(more, q, k) && more[q][k] in targets
      ensures q < |more| - 1 && k == |more[q]| - 1
    {
      assert if q == p then k > 0 && At(parts, p, k - 1) else At(parts, q, k);
    }
  }

  lemma {:induction false} SortedInsert(g: Graph, pos: Places, p: nat, n: nat)
    requires Traced(g) && SortedPlaces(g, pos) && n < |g| && IsAttr(g, n) && n !in pos
    requires forall u :: u in g[n].users ==> u in pos && p <= pos[u].p
    ensures SortedPlaces(g, Shift(pos, p)[n := Place(p, 0)])
  {
    var after := Shift(pos, p)[n := Place(p, 0)];
    forall m, i | m in after && m < |g| && i in g[m].inputs && i in after
      ensures Before(after[i].p, after[i].k, after[m].p, after[m].k)
    {
      assert m != n;
      if i == n {
        assert m in g[n].users;
      }
    }
  }

  lemma {:induction false} AttrsInsert(g: Graph, pos: Places, p: nat, n: nat)
    requires AttrsFirst(g, pos) && n < |g| && IsAttr(g, n) && n !in pos
    requires forall u :: u in g[n].users ==> u in pos && p <= pos[u].p
    requires exists u :: u in g[n].users && u in pos && pos[u].p == p
    ensures AttrsFirst(g, Shift(pos, p)[n := Place(p, 0)])
  {
    hide Shift;
    var after := Shift(pos, p)[n := Place(p, 0)];
    ShiftedPlaces(pos, p, n);
    forall m | m in after && IsAttr(g, m)
      ensures AtFirstUse(g, after, m)
    {
      if m == n {
        var u :| u in g[n].users && u in pos && pos[u].p == p;
        assert u in after && after[u].p == p;
      } else {
        assert AtFirstUse(g, pos, m);
        var u :| u in g[m].users && u in pos && pos[u].p == pos[m].p;
        assert u in after && after[u].p == after[m].p;
      }
    }
    AttrsShifted(g, pos, p, n);
  }

  lemma {:induction false} ShiftedPlaces(pos: Places, p: nat, n: nat)
    requires n !in pos
    ensures var after := Shift(pos, p)[n := Place(p, 0)];
            after.Keys == pos.Keys + {n} && after[n].p == p && forall m :: m in pos ==> after[m].p == pos[m].p
  {
  }

  lemma {:induction false} AttrsShifted(g: Graph, pos: Places, p: nat, n: nat)
    requires AttrsFirst(g, pos) && IsAttr(g, n) && n !in pos
    ensures var after := Shift(pos, p)[n := Place(p, 0)];
            forall k, m :: k in after && m in after && IsAttr(g, k) && after[m].p == after[k].p && after[m].k < after[k].k ==>
              IsAttr(g, m)
  {
    hide AtFirstUse;
  }

  lemma {:induction false} PlaceAttribute(g: Graph, targets: set<nat>, parts: Partitions, pos: Places, n: nat, p: nat)
    requires Traced(g) && Delayed(g, targets, parts, pos, n) && n < |g| && IsAttr(g, n) && n !in targets && p < |parts|
    requires forall u :: u in g[n].users ==> u in pos && p <= pos[u].p
    requires exists u :: u in g[n].users && u in pos && pos[u].p == p
    ensures Delayed(g, targets, InsertFront(parts, p, n), Shift(pos, p)[n := Place(p, 0)], n + 1)
  {
    var after := Shift(pos, p)[n := Place(p, 0)];
    assert CutAtTargets(InsertFront(parts, p, n), targets) by {
      CutInsert(parts, targets, p, n);
    }
    assert Placed(InsertFront(parts, p, n), after) by {
      PlacedInsert(parts, pos, p, n);
    }
    assert SortedPlaces(g, after) by {
      SortedInsert(g, pos, p, n);
    }
    assert AttrsFirst(g, after) by {
      AttrsInsert(g, pos, p, n);
    }
    assert PlacedUpTo(g, after, n + 1) by {
      UpToInsert(g, pos, p, n);
    }
  }

  lemma {:induction false} UpToInsert(g: Graph, pos: Places, p: nat, n: nat)
    requires PlacedUpTo(g, pos, n) && n < |g| && IsAttr(g, n) && g[n].users != []
    ensures PlacedUpTo(g, Shift(pos, p)[n := Place(p, 0)], n + 1)
  {
  }

  /** An attribute read without users is left out. */
  lemma {:induction false} SkipAttribute(g: Graph, targets: set<nat>, parts: Partitions, pos: Places, n: nat)
    requires Delayed(g, targets, parts, pos, n) && n < |g| && (!IsAttr(g, n) || g[n].users == [])
    ensures Delayed(g, targets, parts, pos, n + 1)
  {
  }

  lemma {:induction false} DelayedIsPartition(g: Graph, targets: set<nat>, parts: Partitions, pos: Places)
    requires Delayed(g, targets, parts, pos, |g|)
    ensures IsPartition(g, targets, parts)
  {
    assert InGraph(g, parts);
    assert Once(parts) && Sorted(g, parts) by {
      PlacedSorted(g, parts, pos);
    }
    forall n: nat | n < |g|
      ensures Holds(parts, n) <==> !UnusedAttr(g, n)
    {
      PlacedHolds(parts, pos, n);
    }
    assert AttributesDelayed(g, parts) by {
      forall p, k | At(parts, p, k) && IsAttr(g, parts[p][k])
        ensures FirstUse(g, parts, parts[p][k], p) && forall j :: 0 <= j < k ==> IsAttr(g, parts[p][j])
      {
        AttributeDelayed(g, parts, pos, p, k);
      }
    }
  }

  lemma {:induction false} AttributeDelayed(g: Graph, parts: Partitions, pos: Places, p: nat, k: nat)
    requires Placed(parts, pos) && AttrsFirst(g, pos) && At(parts, p, k) && IsAttr(g, parts[p][k])
    ensures FirstUse(g, parts, parts[p][k], p) && forall j :: 0 <= j < k ==> IsAttr(g, parts[p][j])
  {
    var n := parts[p][k];
    assert pos[n] == Place(p, k);
    assert AtFirstUse(g, pos, n);
    forall u | u in g[n].users
      ensures u in pos && p <= pos[u].p && u in parts[pos[u].p]
      ensures forall q :: 0 <= q < p ==> u !in parts[q]
    {
      PlacedHolds(parts, pos, u);
    }
    forall j | 0 <= j < k
      ensures IsAttr(g, parts[p][j])
    {
      assert At(parts, p, j) && pos[parts[p][j]] == Place(p, j);
    }
  }

  lemma {:induction false} DrainedDelayed(g: Graph, targets: set<nat>, parts: Partitions, pos: Places)
    requires Partitioning(g, targets, parts, pos, NodesOf(g)) && targets <= NodesOf(g)
    ensures Delayed(g, targets, parts, pos, 0)
  {
    assert targets * NodesOf(g) == targets;
  }

  /** find_nodes(op="get_attr"): every attribute read goes to the front of the first partition that uses it. */
  method PlaceAttributes(g: Graph, targets: set<nat>, start: Partitions, ghost at: Places)
    returns (parts: Partitions, ghost pos: Places)
    requires Traced(g) && Delayed(g, targets, start, at, 0) && targets <= NodesOf(g)
    ensures Delayed(g, targets, parts, pos, |g|) && NodeOrder(g, parts) == NodeOrder(g, start)
  {
    parts, pos := start, at;
    for n := 0 to |g|
      invariant Delayed(g, targets, parts, pos, n) && NodeOrder(g, parts) == NodeOrder(g, start)
    {
      if IsAttr(g, n) && |g[n].users| > 0 {
        UsersPlaced(g, pos, n);
        var userPartitions := UserPartitions(g, g[n].users, parts, pos);
        var partitionIndex := Minimum(userPartitions);
        MinimumIsFirstUse(g, pos, n, userPartitions, partitionIndex);
        assert partitionIndex < |parts|;
        PlaceAttribute(g, targets, parts, pos, n, partitionIndex);
        OrderInsert(g, parts, partitionIndex, n);
        parts := InsertFront(parts, partitionIndex, n);
        pos := Shift(pos, partitionIndex)[n := Place(partitionIndex, 0)];
      } else {
        SkipAttribute(g, targets, parts, pos, n);
      }
    }
  }

  lemma {:induction false} UsersPlaced(g: Graph, pos: Places, n: nat)
    requires Traced(g) && n < |g| && PlacedUpTo(g, pos, n)
    ensures forall u :: u in g[n].users ==> u in pos
    ensures IsAttr(g, n) ==> n !in pos
  {
    forall u | u in g[n].users
      ensures u in pos
    {
      assert n in g[u].inputs;
    }
  }

  lemma {:induction false} MinimumIsFirstUse(g: Graph, pos: Places, n: nat, found: seq<nat>, p: nat)
    requires n < |g| && forall u :: u in g[n].users ==> u in pos
    requires |found| == |g[n].users| && forall i :: 0 <= i < |found| ==> found[i] == pos[g[n].users[i]].p
    requires p in found && forall x :: x in found ==> p <= x
    ensures forall u :: u in g[n].users ==> p <= pos[u].p
    ensures exists u :: u in g[n].users && u in pos && pos[u].p == p
  {
    forall u | u in g[n].users
      ensures p <= pos[u].p
    {
      var i :| 0 <= i < |found| && g[n].users[i] == u;
      assert found[i] in found;
    }
    var i :| 0 <= i < |found| && found[i] == p;
    assert g[n].users[i] in g[n].users;
  }

  /** The order in which the nodes of a graph are placed. */
  function ExecutionOrder(g: Graph): seq<nat> {
    FifoOrder(g, Indegrees(g), ReadyNodes(g, |g|), |g|)
  }

  method TopologicalPartition(g: Graph, targets: set<string>) returns (parts: Partitions)
    requires Traced(g)
    ensures IsPartition(g, FindTargetNodes(g, targets), parts)
    ensures NodeOrder(g, parts) == ExecutionOrder(g)
  {
    var targetNodes := FindTargetNodes(g, targets);
    QueueStarts(g);
    var drained, at := DrainQueue(g, targetNodes, Indegrees(g), ReadyNodes(g, |g|));
    DrainedDelayed(g, targetNodes, drained, at);
    ghost var pos;
    parts, pos := PlaceAttributes(g, targetNodes, drained, at);
    DelayedIsPartition(g, targetNodes, parts, pos);
  }
}
