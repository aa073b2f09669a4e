/** Specification of base::CallbackList: the list nodes, the places of the active iterators, the live
    subscriptions, the removal callback and which removal callbacks have run. Iterators are named by values of type
    I, callbacks by numbers. */
module CallbackListSpec {
  import opened Options
  import opened Sequences

  /** A list node. `id` is the identity of the node, which its subscription remembers; a node that is not bound
      holds a null callback, left by a subscription destroyed during a pass. */
  datatype Node = Node(id: nat, bound: bool)

  /** A std::list iterator, as long as nodes are not erased: a node, or the end() sentinel. The sentinel is not
      "index == length": it stays the sentinel when the list grows. */
  datatype Place = At(k: nat) | End

  datatype State<I(==)> = State(
    nodes: seq<Node>,
    passes: map<I, Place>,
    subs: set<nat>,
    nextId: nat,
    removal: Option<nat>,
    removals: seq<nat>)

  datatype Op<I> =
    | Subscribe
    | Unsubscribe(id: nat)
    | SetRemoval(callback: Option<nat>)
    | Start(it: I)
    | Copy(it: I, from: I)
    | Next(it: I)
    | Finish(it: I)

  /** The callback, if one is set. */
  function Set(callback: Option<nat>): seq<nat> {
    if callback.None? then [] else [callback.value]
  }

  function PlaceOf(k: nat, nodes: seq<Node>): Place {
    if k < |nodes| then At(k) else End
  }

  /** The first bound node at or after k, or the length of the list. */
  function Seek(nodes: seq<Node>, k: nat): (r: nat)
    requires k <= |nodes|
    ensures k <= r <= |nodes|
    ensures r < |nodes| ==> nodes[r].bound
    ensures forall j :: k <= j < r ==> !nodes[j].bound
    decreases |nodes| - k
  {
    if k < |nodes| && !nodes[k].bound then Seek(nodes, k + 1) else k
  }

  /** The node that GetNext returns, as an index; the length of the list stands for null. */
  function Fetch(nodes: seq<Node>, p: Place): (r: nat)
    requires p.At? ==> p.k <= |nodes|
    ensures r <= |nodes|
  {
    match p
    case At(k) => Seek(nodes, k)
    case End => |nodes|
  }

  function Compacted(nodes: seq<Node>): seq<Node> {
    if nodes == [] then []
    else (if nodes[0].bound then [nodes[0]] else []) + Compacted(nodes[1..])
  }

  predicate AllBound(nodes: seq<Node>) {
    forall j :: 0 <= j < |nodes| ==> nodes[j].bound
  }

  function Find(nodes: seq<Node>, id: nat): (k: nat)
    ensures k <= |nodes|
    ensures k < |nodes| ==> nodes[k].id == id
    ensures forall j :: 0 <= j < k ==> nodes[j].id != id
  {
    if nodes == [] || nodes[0].id == id then 0 else 1 + Find(nodes[1..], id)
  }

  function Erased(nodes: seq<Node>, k: nat): (r: seq<Node>)
    requires k < |nodes|
    ensures |r| == |nodes| - 1 && forall j :: 0 <= j < |r| ==> r[j] == nodes[if j < k then j else j + 1]
  {
    nodes[..k] + nodes[k + 1..]
  }

  /** Every operation is total but for: an iterator is constructed once, and used only while it exists; a
      subscription is destroyed once. */
  predicate Enabled<I>(s: State<I>, op: Op<I>) {
    match op
    case Unsubscribe(id) => id in s.subs && Find(s.nodes, id) < |s.nodes|
    case Start(i) => i !in s.passes
    case Copy(i, from) => i !in s.passes && from in s.passes
    case Next(i) => i in s.passes && (s.passes[i].At? ==> s.passes[i].k <= |s.nodes|)
    case Finish(i) => i in s.passes
    case _ => true
  }

  function Step<I>(s: State<I>, op: Op<I>): State<I>
    requires Enabled(s, op)
  {
    match op
    case Subscribe =>
      s.(nodes := s.nodes + [Node(s.nextId, true)], subs := s.subs + {s.nextId}, nextId := s.nextId + 1)
    case Unsubscribe(id) =>
      var k := Find(s.nodes, id);
      if s.passes != map[] then s.(nodes := s.nodes[k := Node(id, false)], subs := s.subs - {id})
      else s.(nodes := Erased(s.nodes, k), subs := s.subs - {id},
              removals := s.removals + Set(s.removal))
    case SetRemoval(callback) => s.(removal := callback)
    case Start(i) => s.(passes := s.passes[i := PlaceOf(0, s.nodes)])
    case Copy(i, from) => s.(passes := s.passes[i := s.passes[from]])
    case Next(i) => s.(passes := s.passes[i := PlaceOf(Fetch(s.nodes, s.passes[i]) + 1, s.nodes)])
    case Finish(i) =>
      if s.passes.Keys == {i} then
        s.(passes := map[], nodes := Compacted(s.nodes),
           removals := s.removals + if AllBound(s.nodes) then [] else Set(s.removal))
      else s.(passes := s.passes - {i})
  }

  ghost predicate EnabledRun<I>(s: State<I>, ops: seq<Op<I>>)
    decreases |ops|
  {
    ops == [] || (Enabled(s, ops[0]) && EnabledRun(Step(s, ops[0]), ops[1..]))
  }

  function Run<I>(s: State<I>, ops: seq<Op<I>>): State<I>
    requires EnabledRun(s, ops)
    decreases |ops|
  {
    if ops == [] then s else Run(Step(s, ops[0]), ops[1..])
  }

  // ----- The invariant -----

  ghost predicate Ordered(nodes: seq<Node>) {
    forall a, b :: 0 <= a < b < |nodes| ==> nodes[a].id < nodes[b].id
  }

  /** The bound nodes are the live subscriptions, one to one and in order of subscription. */
  ghost predicate Corresponds(nodes: seq<Node>, subs: set<nat>) {
    && (forall j :: 0 <= j < |nodes| ==> (nodes[j].bound <==> nodes[j].id in subs))
    && (forall id :: id in subs ==> Find(nodes, id) < |nodes|)
  }

  ghost predicate Inv<I>(s: State<I>) {
    && Ordered(s.nodes)
    && (forall j :: 0 <= j < |s.nodes| ==> s.nodes[j].id < s.nextId)
    && Corresponds(s.nodes, s.subs)
    && (s.passes == map[] ==> AllBound(s.nodes))
    && (forall i :: i in s.passes && s.passes[i].At? ==> s.passes[i].k < |s.nodes|)
  }

  lemma {:induction false} FindAt(nodes: seq<Node>, j: nat)
    requires Ordered(nodes) && j < |nodes|
    ensures Find(nodes, nodes[j].id) == j
  {
  }

  lemma {:induction false} CompactedMembers(nodes: seq<Node>)
    ensures forall n :: n in Compacted(nodes) <==> n in nodes && n.bound
    ensures AllBound(Compacted(nodes))
  {
    if nodes != [] {
      CompactedMembers(nodes[1..]);
      assert nodes == [nodes[0]] + nodes[1..];
    }
  }

  lemma {:induction false} CompactedOrdered(nodes: seq<Node>)
    requires Ordered(nodes)
    ensures Ordered(Compacted(nodes))
  {
    if nodes != [] {
      CompactedOrdered(nodes[1..]);
      CompactedMembers(nodes[1..]);
      var r := Compacted(nodes[1..]);
      assert forall b :: 0 <= b < |r| ==> r[b] in nodes[1..];
    }
  }

  lemma {:induction false} CompactedCorresponds(nodes: seq<Node>, subs: set<nat>)
    requires Ordered(nodes) && Corresponds(nodes, subs)
    ensures Corresponds(Compacted(nodes), subs)
  {
    CompactedOrdered(nodes);
    CompactedMembers(nodes);
    var r := Compacted(nodes);
    assert forall j :: 0 <= j < |r| ==> r[j] in nodes;
    forall id | id in subs ensures Find(r, id) < |r| {
      var k := Find(nodes, id);
      assert nodes[k] in r;
      var j :| 0 <= j < |r| && r[j] == nodes[k];
      FindAt(r, j);
    }
  }

  lemma {:induction false} MarkedFacts(nodes: seq<Node>, subs: set<nat>, id: nat)
    requires Ordered(nodes) && Corresponds(nodes, subs) && id in subs
    ensures var r := nodes[Find(nodes, id) := Node(id, false)]; Ordered(r) && Corresponds(r, subs - {id})
  {
    var k := Find(nodes, id);
    var r := nodes[k := Node(id, false)];
    forall x | x in subs - {id} ensures Find(r, x) < |r| {
      assert r[Find(nodes, x)] == nodes[Find(nodes, x)];
      FindAt(r, Find(nodes, x));
    }
  }

  lemma {:induction false} ErasedOrdered(nodes: seq<Node>, k: nat)
    requires Ordered(nodes) && k < |nodes|
    ensures Ordered(Erased(nodes, k))
  {
    var r := Erased(nodes, k);
    forall a, b | 0 <= a < b < |r| ensures r[a].id < r[b].id {
      assert r[a] == nodes[if a < k then a else a + 1] && r[b] == nodes[if b < k then b else b + 1];
    }
  }

  lemma {:induction false} ErasedAt(nodes: seq<Node>, k: nat, j: nat)
    requires Ordered(nodes) && k < |nodes| && j < |nodes| - 1
    ensures var m := if j < k then j else j + 1;
            Erased(nodes, k)[j] == nodes[m] && nodes[m].id != nodes[k].id
  {
    var m := if j < k then j else j + 1;
    assert if m < k then nodes[m].id < nodes[k].id else nodes[k].id < nodes[m].id;
  }

  lemma {:induction false} ErasedFind(nodes: seq<Node>, k: nat, x: nat)
    requires Ordered(nodes) && k < |nodes| && x != nodes[k].id && Find(nodes, x) < |nodes|
    ensures Find(Erased(nodes, k), x) < |Erased(nodes, k)|
  {
    var m := Find(nodes, x);
    var j := if m < k then m else m - 1;
    ErasedOrdered(nodes, k);
    ErasedAt(nodes, k, j);
    FindAt(Erased(nodes, k), j);
  }

  lemma {:induction false} ErasedCorresponds(nodes: seq<Node>, subs: set<nat>, id: nat)
    requires Ordered(nodes) && Corresponds(nodes, subs) && id in subs
    ensures Corresponds(Erased(nodes, Find(nodes, id)), subs - {id})
  {
    var k := Find(nodes, id);
    var r := Erased(nodes, k);
    forall j | 0 <= j < |r| ensures r[j].bound <==> r[j].id in subs - {id} { ErasedAt(nodes, k, j); }
    forall x | x in subs - {id} ensures Find(r, x) < |r| { ErasedFind(nodes, k, x); }
  }

  lemma {:induction false} AppendedFacts(nodes: seq<Node>, subs: set<nat>, id: nat)
    requires Ordered(nodes) && Corresponds(nodes, subs)
    requires forall j :: 0 <= j < |nodes| ==> nodes[j].id < id
    ensures Ordered(nodes + [Node(id, true)]) && Corresponds(nodes + [Node(id, true)], subs + {id})
  {
    var r := nodes + [Node(id, true)];
    forall x | x in subs + {id} ensures Find(r, x) < |r| {
      var j := Find(nodes, x);
      assert r[if x == id then |nodes| else j].id == x;
      FindAt(r, if x == id then |nodes| else j);
    }
  }

  lemma {:induction false} ErasedMembers(nodes: seq<Node>, k: nat)
    requires k < |nodes|
    ensures forall j :: 0 <= j < |Erased(nodes, k)| ==> Erased(nodes, k)[j] in nodes
  {
    var r := Erased(nodes, k);
    forall j | 0 <= j < |r| ensures r[j] in nodes { assert r[j] == nodes[if j < k then j else j + 1]; }
  }

  lemma {:induction false} EraseKeepsInv<I>(s: State<I>, id: nat)
    requires Inv(s) && Enabled(s, Unsubscribe(id)) && s.passes == map[]
    ensures Inv(Step(s, Unsubscribe(id)))
  {
    var k := Find(s.nodes, id);
    ErasedOrdered(s.nodes, k);
    ErasedCorresponds(s.nodes, s.subs, id);
    ErasedMembers(s.nodes, k);
    assert forall j :: 0 <= j < |Erased(s.nodes, k)| ==> Erased(s.nodes, k)[j].bound;
  }

  lemma {:induction false} UnsubscribeKeepsInv<I>(s: State<I>, id: nat)
    requires Inv(s) && Enabled(s, Unsubscribe(id))
    ensures Inv(Step(s, Unsubscribe(id)))
  {
    if s.passes == map[] { EraseKeepsInv(s, id); } else { MarkedFacts(s.nodes, s.subs, id); }
  }

  lemma {:induction false} FinishKeepsInv<I>(s: State<I>, i: I)
    requires Inv(s) && i in s.passes
    ensures Inv(Step(s, Finish(i)))
  {
    if s.passes.Keys == {i} {
      CompactedOrdered(s.nodes);
      CompactedMembers(s.nodes);
      CompactedCorresponds(s.nodes, s.subs);
      var r := Compacted(s.nodes);
      assert forall j :: 0 <= j < |r| ==> r[j] in s.nodes;
    } else {
      var j :| j in s.passes.Keys && j != i;
      assert j in s.passes - {i};
    }
  }

  /** In every reachable state the bound nodes are exactly the live subscriptions, in order, and without an
      active iterator there is no reset node. */
  lemma {:induction false} StepKeepsInv<I>(s: State<I>, op: Op<I>)
    requires Inv(s) && Enabled(s, op)
    ensures Inv(Step(s, op))
  {
    match op
    case Subscribe => AppendedFacts(s.nodes, s.subs, s.nextId);
    case Unsubscribe(id) => UnsubscribeKeepsInv(s, id);
    case Finish(i) => FinishKeepsInv(s, i);
    case _ =>
  }

  lemma {:induction false} RunKeepsInv<I>(s: State<I>, ops: seq<Op<I>>)
    requires Inv(s) && EnabledRun(s, ops)
    ensures Inv(Run(s, ops))
    decreases |ops|
  {
    if ops != [] {
      StepKeepsInv(s, ops[0]);
      RunKeepsInv(Step(s, ops[0]), ops[1..]);
    }
  }

  // ----- Passes -----

  /** No node is erased while an iterator is active: nodes are only appended or reset. */
  ghost predicate Evolves(a: seq<Node>, b: seq<Node>) {
    && |a| <= |b|
    && forall j :: 0 <= j < |a| ==> b[j].id == a[j].id && (b[j].bound ==> a[j].bound)
  }

  ghost predicate Leaves<I>(op: Op<I>, i: I) {
    match op
    case Start(j) => j != i
    case Copy(j, _) => j != i
    case Finish(j) => j != i
    case _ => true
  }

  /** A stretch of a run during which i stays active: anything else may happen, by anyone. */
  ghost predicate During<I>(s: State<I>, ops: seq<Op<I>>, i: I) {
    && Inv(s)
    && EnabledRun(s, ops)
    && i in s.passes
    && forall k :: 0 <= k < |ops| ==> Leaves(ops[k], i)
  }

  lemma {:induction false} DuringStep<I>(s: State<I>, ops: seq<Op<I>>, i: I)
    requires During(s, ops, i) && ops != []
    ensures During(Step(s, ops[0]), ops[1..], i)
    ensures Evolves(s.nodes, Step(s, ops[0]).nodes)
    ensures if ops[0] == Next(i) then Step(s, ops[0]).nodes == s.nodes
            else Step(s, ops[0]).passes[i] == s.passes[i]
  {
    assert Leaves(ops[0], i);
    StepKeepsInv(s, ops[0]);
    if ops[0].Finish? { assert i in s.passes.Keys && s.passes.Keys != {ops[0].it}; }
  }

  lemma {:induction false} DuringRun<I>(s: State<I>, ops: seq<Op<I>>, i: I)
    requires During(s, ops, i)
    ensures During(Run(s, ops), [], i)
    ensures Evolves(s.nodes, Run(s, ops).nodes)
    ensures Next(i) !in ops ==> Run(s, ops).passes[i] == s.passes[i]
    decreases |ops|
  {
    if ops != [] {
      DuringStep(s, ops, i);
      DuringRun(Step(s, ops[0]), ops[1..], i);
    }
  }

  /** The callbacks that GetNext hands to pass i, in order. */
  ghost function Calls<I>(s: State<I>, ops: seq<Op<I>>, i: I): seq<nat>
    requires EnabledRun(s, ops)
    decreases |ops|
  {
    if ops == [] then []
    else
      (if ops[0] == Next(i) && Fetch(s.nodes, s.passes[i]) < |s.nodes|
       then [s.nodes[Fetch(s.nodes, s.passes[i])].id] else [])
      + Calls(Step(s, ops[0]), ops[1..], i)
  }

  /** Node j is subscribed at the moment pass i first gets to it or past it. */
  ghost predicate BoundWhenReached<I>(s: State<I>, ops: seq<Op<I>>, i: I, j: nat)
    requires EnabledRun(s, ops)
    decreases |ops|
  {
    ops != [] &&
    if ops[0] == Next(i) && s.passes[i].At? && s.passes[i].k <= j <= Fetch(s.nodes, s.passes[i]) && j < |s.nodes|
    then s.nodes[j].bound
    else BoundWhenReached(Step(s, ops[0]), ops[1..], i, j)
  }

  /** Every later call is to a node at or after the place of i; from end() there are none. */
  ghost predicate Beyond<I>(s: State<I>, i: I, id: nat)
    requires i in s.passes
  {
    s.passes[i].At? && s.passes[i].k < |s.nodes| && s.nodes[s.passes[i].k].id <= id
  }

  /** A pass calls each callback at most once, in order of subscription, and none it has passed. */
  lemma {:induction false} CallsInOrder<I>(s: State<I>, ops: seq<Op<I>>, i: I)
    requires During(s, ops, i)
    ensures forall a, b :: 0 <= a < b < |Calls(s, ops, i)| ==> Calls(s, ops, i)[a] < Calls(s, ops, i)[b]
    ensures forall n :: 0 <= n < |Calls(s, ops, i)| ==> Beyond(s, i, Calls(s, ops, i)[n])
    decreases |ops|
  {
    if ops != [] {
      var t := Step(s, ops[0]);
      DuringStep(s, ops, i);
      CallsInOrder(t, ops[1..], i);
      var rest := Calls(t, ops[1..], i);
      forall n | 0 <= n < |rest| ensures Beyond(s, i, rest[n]) {
        assert Beyond(t, i, rest[n]);
      }
      if ops[0] == Next(i) {
        assert forall n :: 0 <= n < |rest| ==> Beyond(t, i, rest[n]);
      }
    }
  }

  /** What GetNext has passed is not called again. */
  lemma {:induction false} PassedIsNotCalled<I>(t: State<I>, ops: seq<Op<I>>, i: I, j: nat)
    requires During(t, ops, i) && j < |t.nodes| && (t.passes[i].At? ==> j < t.passes[i].k)
    ensures t.nodes[j].id !in Calls(t, ops, i)
  {
    CallsInOrder(t, ops, i);
    assert forall n :: 0 <= n < |Calls(t, ops, i)| ==> Beyond(t, i, Calls(t, ops, i)[n]);
  }

  /** A callback that pass i has not passed is called if and only if it is subscribed when reached. */
  lemma {:induction false} CalledIffBoundWhenReached<I>(s: State<I>, ops: seq<Op<I>>, i: I, j: nat)
    requires During(s, ops, i) && s.passes[i].At? && s.passes[i].k <= j < |s.nodes|
    ensures s.nodes[j].id in Calls(s, ops, i) <==> BoundWhenReached(s, ops, i, j)
    decreases |ops|
  {
    if ops != [] {
      var t := Step(s, ops[0]);
      DuringStep(s, ops, i);
      if ops[0] == Next(i) && j <= Fetch(s.nodes, s.passes[i]) {
        PassedIsNotCalled(t, ops[1..], i, j);
      } else {
        CalledIffBoundWhenReached(t, ops[1..], i, j);
      }
    }
  }

  /** Notify's loop: it stops the first time GetNext returns null. */
  ghost predicate RunsToNull<I>(s: State<I>, ops: seq<Op<I>>, i: I)
    decreases |ops|
  {
    && ops != []
    && Enabled(s, ops[0])
    && if ops[0] == Next(i) && Fetch(s.nodes, s.passes[i]) == |s.nodes| then ops[1..] == []
       else RunsToNull(Step(s, ops[0]), ops[1..], i)
  }

  /** In a finished pass a callback still subscribed at the end was subscribed when reached. */
  lemma {:induction false} SurvivorsAreReached<I>(s: State<I>, ops: seq<Op<I>>, i: I, j: nat)
    requires During(s, ops, i) && RunsToNull(s, ops, i) && s.passes[i].At? && s.passes[i].k <= j < |s.nodes|
    requires s.nodes[j].id in Run(s, ops).subs
    ensures BoundWhenReached(s, ops, i, j)
    decreases |ops|
  {
    var t := Step(s, ops[0]);
    DuringStep(s, ops, i);
    DuringRun(s, ops, i);
    if !(ops[0] == Next(i) && j <= Fetch(s.nodes, s.passes[i])) {
      SurvivorsAreReached(t, ops[1..], i, j);
    }
  }

  /** A whole Notify: a pass started on s calls, of the callbacks then in the list, exactly those that are
      subscribed when reached, among them all that are never unsubscribed. */
  lemma {:induction false} NotifyCallsTheSubscribed<I>(s: State<I>, ops: seq<Op<I>>, i: I, j: nat)
    requires Inv(s) && i !in s.passes && j < |s.nodes|
    requires During(Step(s, Start(i)), ops, i) && RunsToNull(Step(s, Start(i)), ops, i)
    ensures var t := Step(s, Start(i));
            && (s.nodes[j].id in Calls(t, ops, i) <==> BoundWhenReached(t, ops, i, j))
            && (s.nodes[j].id in Run(t, ops).subs ==> s.nodes[j].id in Calls(t, ops, i))
  {
    var t := Step(s, Start(i));
    CalledIffBoundWhenReached(t, ops, i, j);
    if s.nodes[j].id in Run(t, ops).subs { SurvivorsAreReached(t, ops, i, j); }
  }

  /** A callback added while the callback of node e runs is called by the same pass if and only if e was not
      the last node of the list when it was fetched and the new one is still subscribed when reached. */
  lemma {:induction false} AddedWhileRunning<I>(s: State<I>, before: seq<Op<I>>, after: seq<Op<I>>, i: I)
    requires Inv(s) && i in s.passes && Fetch(s.nodes, s.passes[i]) < |s.nodes|
    requires During(Step(s, Next(i)), before, i) && Next(i) !in before
    requires var u := Step(Run(Step(s, Next(i)), before), Subscribe);
             During(u, after, i) && RunsToNull(u, after, i)
    ensures var w := Run(Step(s, Next(i)), before);
            var u := Step(w, Subscribe);
            var last := Fetch(s.nodes, s.passes[i]) == |s.nodes| - 1;
            && (w.nextId in Calls(u, after, i) <==> !last && BoundWhenReached(u, after, i, |w.nodes|))
            && (w.nextId in Run(u, after).subs ==> (w.nextId in Calls(u, after, i) <==> !last))
  {
    var w := Run(Step(s, Next(i)), before);
    var u := Step(w, Subscribe);
    DuringRun(Step(s, Next(i)), before, i);
    if u.passes[i].At? {
      CalledIffBoundWhenReached(u, after, i, |w.nodes|);
      if w.nextId in Run(u, after).subs { SurvivorsAreReached(u, after, i, |w.nodes|); }
    } else {
      CallsInOrder(u, after, i);
      assert forall n :: 0 <= n < |Calls(u, after, i)| ==> Beyond(u, i, Calls(u, after, i)[n]);
    }
  }

  // ----- Subscriptions in terms of the calls -----

  function NewList<I>(): State<I> {
    State([], map[], {}, 0, None, [])
  }

  /** How many subscriptions are made. */
  function Made<I>(ops: seq<Op<I>>): nat {
    if ops == [] then 0 else (if ops[0].Subscribe? then 1 else 0) + Made(ops[1..])
  }

  /** The identities whose subscriptions are destroyed. */
  function GivenUp<I>(ops: seq<Op<I>>): set<nat> {
    if ops == [] then {} else (if ops[0].Unsubscribe? then {ops[0].id} else {}) + GivenUp(ops[1..])
  }

  /** The n identities from first on. */
  function HandedOut(first: nat, n: nat): (ids: set<nat>)
    ensures forall id :: id in ids <==> first <= id < first + n
  {
    if n == 0 then {} else HandedOut(first, n - 1) + {first + n - 1}
  }

  lemma {:induction false} SubscribedIsKnown<I>(s: State<I>, id: nat)
    requires Inv(s) && id in s.subs
    ensures id < s.nextId
  {
    assert Find(s.nodes, id) < |s.nodes|;
  }

  lemma {:induction false} StepFollowsTheCall<I>(s: State<I>, op: Op<I>)
    requires Inv(s) && Enabled(s, op)
    ensures Step(s, op).nextId == s.nextId + Made([op])
    ensures Step(s, op).subs == Remaining(s.subs, s.nextId, Made([op]), GivenUp([op]))
    ensures forall id :: id in GivenUp([op]) ==> id < s.nextId
  {
    assert [op][1..] == [];
    if op.Unsubscribe? { SubscribedIsKnown(s, op.id); }
  }

  lemma {:induction false} MoreOps<I>(ops: seq<Op<I>>)
    requires ops != []
    ensures Made(ops) == Made([ops[0]]) + Made(ops[1..]) && GivenUp(ops) == GivenUp([ops[0]]) + GivenUp(ops[1..])
  {
    assert [ops[0]][1..] == [];
  }

  /** What is left of subs and n identities from first on, without those that are gone. */
  function Remaining(subs: set<nat>, first: nat, n: nat, gone: set<nat>): set<nat> {
    subs + HandedOut(first, n) - gone
  }

  lemma {:induction false} TwoStretches(subs: set<nat>, first: nat, m: nat, n: nat, gone: set<nat>, goneLater: set<nat>)
    requires forall id :: id in gone ==> id < first
    ensures Remaining(Remaining(subs, first, m, gone), first + m, n, goneLater)
            == Remaining(subs, first, m + n, gone + goneLater)
  {
  }

  lemma {:induction false} RemainingOn<I>(s: State<I>, t: State<I>, r: State<I>, ops: seq<Op<I>>)
    requires ops != [] && forall id :: id in GivenUp([ops[0]]) ==> id < s.nextId
    requires t.nextId == s.nextId + Made([ops[0]]) && r.nextId == t.nextId + Made(ops[1..])
    requires t.subs == Remaining(s.subs, s.nextId, Made([ops[0]]), GivenUp([ops[0]]))
    requires r.subs == Remaining(t.subs, t.nextId, Made(ops[1..]), GivenUp(ops[1..]))
    ensures r.nextId == s.nextId + Made(ops) && r.subs == Remaining(s.subs, s.nextId, Made(ops), GivenUp(ops))
  {
    MoreOps(ops);
    TwoStretches(s.subs, s.nextId, Made([ops[0]]), Made(ops[1..]), GivenUp([ops[0]]), GivenUp(ops[1..]));
  }

  /** Over every run the live subscriptions are those there were and those made, but for those destroyed; identities
      are handed out in order. */
  lemma {:induction false} SubscriptionsFollowTheCalls<I>(s: State<I>, ops: seq<Op<I>>)
    requires Inv(s) && EnabledRun(s, ops)
    ensures Run(s, ops).nextId == s.nextId + Made(ops)
    ensures Run(s, ops).subs == Remaining(s.subs, s.nextId, Made(ops), GivenUp(ops))
    decreases |ops|
  {
    if ops != [] {
      var t, rest := Step(s, ops[0]), ops[1..];
      StepKeepsInv(s, ops[0]);
      StepFollowsTheCall(s, ops[0]);
      SubscriptionsFollowTheCalls(t, rest);
      RemainingOn(s, t, Run(t, rest), ops);
    }
  }

  /** Only who is subscribed, or subscribes later, is called. */
  lemma {:induction false} CalledIsSubscribed<I>(s: State<I>, ops: seq<Op<I>>, i: I, id: nat)
    requires Inv(s) && EnabledRun(s, ops) && id in Calls(s, ops, i)
    ensures id in s.subs + HandedOut(s.nextId, Made(ops))
    decreases |ops|
  {
    var t, rest := Step(s, ops[0]), ops[1..];
    StepKeepsInv(s, ops[0]);
    if id in Calls(t, rest, i) {
      CalledIsSubscribed(t, rest, i, id);
      StepFollowsTheCall(s, ops[0]);
      assert [ops[0]][1..] == [];
    }
  }

  /** Once its subscription is destroyed, a callback is not called by any pass, whatever happens then; every other
      subscription stays. */
  lemma {:induction false} UnsubscribedIsNeverCalled<I>(s: State<I>, id: nat, ops: seq<Op<I>>, i: I)
    requires Inv(s) && Enabled(s, Unsubscribe(id)) && EnabledRun(Step(s, Unsubscribe(id)), ops)
    ensures id !in Calls(Step(s, Unsubscribe(id)), ops, i)
    ensures Step(s, Unsubscribe(id)).subs == s.subs - {id}
  {
    var t := Step(s, Unsubscribe(id));
    SubscribedIsKnown(s, id);
    StepKeepsInv(s, Unsubscribe(id));
    StepFollowsTheCall(s, Unsubscribe(id));
    var op: Op<I> := Unsubscribe(id);
    assert [op][1..] == [];
    if id in Calls(t, ops, i) { CalledIsSubscribed(t, ops, i, id); }
  }

  /** A Notify on a list with any history calls every callback that was added and not taken back, up to the end of the
      pass, and none that was taken back before it or never added. */
  lemma {:induction false} NotifyFollowsTheCalls<I>(before: seq<Op<I>>, ops: seq<Op<I>>, i: I, id: nat)
    requires EnabledRun(NewList(), before) && i !in Run(NewList(), before).passes
    requires var t := Step(Run(NewList(), before), Start(i)); During(t, ops, i) && RunsToNull(t, ops, i)
    ensures var calls := Calls(Step(Run(NewList(), before), Start(i)), ops, i);
            && (id < Made(before) && id !in GivenUp(before) && id !in GivenUp(ops) ==> id in calls)
            && (id in calls ==> id < Made(before) + Made(ops) && id !in GivenUp(before))
  {
    var s := Run<I>(NewList(), before);
    var t := Step(s, Start(i));
    RunKeepsInv<I>(NewList(), before);
    StepKeepsInv(s, Start(i));
    SubscriptionsFollowTheCalls<I>(NewList(), before);
    SubscriptionsFollowTheCalls(t, ops);
    if id in Calls(t, ops, i) {
      CalledIsSubscribed(t, ops, i, id);
      GivenUpIsKnown<I>(NewList(), before);
    }
    if id in s.subs && id !in GivenUp(ops) {
      NotifyCallsTheSubscribed(s, ops, i, Find(s.nodes, id));
    }
  }

  lemma {:induction false} GivenUpIsKnown<I>(s: State<I>, ops: seq<Op<I>>)
    requires Inv(s) && EnabledRun(s, ops)
    ensures forall id :: id in GivenUp(ops) ==> id < Run(s, ops).nextId
    decreases |ops|
  {
    if ops != [] {
      StepKeepsInv(s, ops[0]);
      GivenUpIsKnown(Step(s, ops[0]), ops[1..]);
      SubscriptionsFollowTheCalls(s, ops);
      if ops[0].Unsubscribe? { SubscribedIsKnown(s, ops[0].id); }
    }
  }

  /** Which passes are active after a call. */
  ghost function ActiveAfter<I>(active: set<I>, op: Op<I>): set<I> {
    match op
    case Start(i) => active + {i}
    case Copy(i, _) => active + {i}
    case Finish(i) => active - {i}
    case _ => active
  }

  /** A copy continues from the place of the other pass, no call moves a pass that it does not name, and the removal
      callback is the one that was last set. */
  lemma {:induction false} PassesFollowTheCalls<I>(s: State<I>, op: Op<I>)
    requires Enabled(s, op)
    ensures Step(s, op).passes.Keys == ActiveAfter(s.passes.Keys, op)
    ensures op.Copy? ==> Step(s, op).passes[op.it] == s.passes[op.from]
    ensures forall j :: j in s.passes && j in Step(s, op).passes && op != Next(j) ==> Step(s, op).passes[j] == s.passes[j]
    ensures Step(s, op).removal == if op.SetRemoval? then op.callback else s.removal
  {
  }

  // ----- The removal callback -----

  /** The removal callback that is due at op: one per subscription destroyed outside a pass, and one at the end of an
      outermost pass during which a subscription was destroyed, each time the one that is set at that moment. */
  ghost function DueAt<I>(s: State<I>, op: Op<I>, dropped: bool): seq<nat>
    requires Enabled(s, op)
  {
    if op.Unsubscribe? && s.passes == map[] then Set(s.removal)
    else if op.Finish? && Step(s, op).passes == map[] && dropped then Set(s.removal)
    else []
  }

  /** Whether a subscription was destroyed during the outermost pass. */
  ghost predicate DroppedAfter<I>(s: State<I>, op: Op<I>, dropped: bool)
    requires Enabled(s, op)
  {
    if op.Unsubscribe? then s.passes != map[]
    else dropped && !(op.Finish? && Step(s, op).passes == map[])
  }

  ghost function Due<I>(s: State<I>, ops: seq<Op<I>>, dropped: bool): seq<nat>
    requires EnabledRun(s, ops)
    decreases |ops|
  {
    if ops == [] then []
    else DueAt(s, ops[0], dropped) + Due(Step(s, ops[0]), ops[1..], DroppedAfter(s, ops[0], dropped))
  }

  lemma {:induction false} RemovalStep<I>(s: State<I>, op: Op<I>)
    requires Inv(s) && Enabled(s, op)
    ensures Step(s, op).removals == s.removals + DueAt(s, op, !AllBound(s.nodes))
    ensures !AllBound(Step(s, op).nodes) <==> DroppedAfter(s, op, !AllBound(s.nodes))
  {
    StepKeepsInv(s, op);
    match op
    case Unsubscribe(id) => if s.passes != map[] { assert !Step(s, op).nodes[Find(s.nodes, id)].bound; }
    case Finish(i) =>
      if s.passes.Keys != {i} {
        var j :| j in s.passes.Keys && j != i;
        assert j in Step(s, op).passes;
      }
    case Subscribe => assert forall k :: 0 <= k < |s.nodes| ==> Step(s, op).nodes[k] == s.nodes[k];
    case _ =>
  }

  /** However it is set and reset, exactly the removal callbacks that are due run, in order. */
  lemma {:induction false} RemovalCallbackRuns<I>(s: State<I>, ops: seq<Op<I>>)
    requires Inv(s) && EnabledRun(s, ops)
    ensures Run(s, ops).removals == s.removals + Due(s, ops, !AllBound(s.nodes))
    decreases |ops|
  {
    if ops != [] {
      StepKeepsInv(s, ops[0]);
      var t, dropped := Step(s, ops[0]), !AllBound(s.nodes);
      RemovalStep(s, ops[0]);
      RemovalCallbackRuns(t, ops[1..]);
      Associative(s.removals, DueAt(s, ops[0], dropped), Due(t, ops[1..], !AllBound(t.nodes)));
    }
  }
}
