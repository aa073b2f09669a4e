/** Specification of base::ObserverList: the vector of slots, the cursors of the live iterators, and what every
    operation does to them. A slot holds an observer pointer; a null slot is a tombstone, left by a removal made
    while some iterator was live. Iterators are named by values of type I. */
module ObserverListSpec {
  import opened Policies
  import opened Sequences

  type Ptr = nat

  const NULL: Ptr := 0

  /** `max_index_`: the largest size_t, which no vector reaches, or the size of the vector at construction. */
  datatype Limit = Unlimited | AtMost(n: nat)

  datatype Cursor = Cursor(index: nat, limit: Limit)

  /** `live` holds the attached iterators; an iterator that is not in it is detached, hence at end. */
  datatype State<I(==)> = State(slots: seq<Ptr>, policy: Policy, live: map<I, Cursor>)

  datatype Op<I> =
    | Add(obs: Ptr)
    | Remove(obs: Ptr)
    | Clear
    | Begin(it: I)
    | Copy(it: I, from: I)
    | Assign(it: I, from: I)
    | Advance(it: I)
    | Drop(it: I)

  // ----- The plain list that clients see -----

  /** The observers that are registered, in order of registration. */
  function Live(slots: seq<Ptr>): seq<Ptr> {
    if slots == [] then []
    else (if slots[0] == NULL then [] else [slots[0]]) + Live(slots[1..])
  }

  function IndexOf(l: seq<Ptr>, obs: Ptr): (k: nat)
    requires obs in l
    ensures k < |l| && l[k] == obs && obs !in l[..k]
  {
    if l[0] == obs then 0
    else
      var k := 1 + IndexOf(l[1..], obs);
      assert l[..k] == [l[0]] + l[1..][..k - 1];
      k
  }

  function Erased(l: seq<Ptr>, obs: Ptr): seq<Ptr> {
    if obs !in l then l
    else
      var k := IndexOf(l, obs);
      l[..k] + l[k + 1..]
  }

  /** The list without obs. */
  function Without(l: seq<Ptr>, obs: Ptr): seq<Ptr> {
    if l == [] then [] else (if l[0] == obs then [] else [l[0]]) + Without(l[1..], obs)
  }

  /** The operations on a plain list, which has no iterators to care about. */
  function PlainStep<I>(l: seq<Ptr>, op: Op<I>): seq<Ptr> {
    match op
    case Add(obs) => if obs in l then l else l + [obs]
    case Remove(obs) => Without(l, obs)
    case Clear => []
    case _ => l
  }

  function PlainRun<I>(l: seq<Ptr>, ops: seq<Op<I>>): seq<Ptr>
    decreases |ops|
  {
    if ops == [] then l else PlainRun(PlainStep(l, ops[0]), ops[1..])
  }

  // ----- The operations on slots and cursors -----

  function Compacted(slots: seq<Ptr>): seq<Ptr> {
    Live(slots)
  }

  function Marked(slots: seq<Ptr>): (r: seq<Ptr>)
    ensures |r| == |slots| && forall j :: 0 <= j < |r| ==> r[j] == NULL
  {
    seq(|slots|, _ => NULL)
  }

  /** `clamped_max_index` */
  function End(slots: seq<Ptr>, limit: Limit): nat {
    match limit
    case Unlimited => |slots|
    case AtMost(n) => if n < |slots| then n else |slots|
  }

  /** `EnsureValidIndex`: the first slot at or after k that is not a tombstone, or the end. */
  function Skip(slots: seq<Ptr>, k: nat, end: nat): (r: nat)
    requires k <= end <= |slots|
    ensures k <= r <= end
    ensures r < end ==> slots[r] != NULL
    ensures forall j :: k <= j < r ==> slots[j] == NULL
    decreases end - k
  {
    if k < end && slots[k] == NULL then Skip(slots, k + 1, end) else k
  }

  predicate AtEnd<I>(s: State<I>, i: I) {
    i in s.live ==> s.live[i].index == End(s.slots, s.live[i].limit)
  }

  /** What the callers owe: the DCHECKs of the source, fresh storage for a new iterator, no `++` at end. */
  predicate Enabled<I>(s: State<I>, op: Op<I>) {
    match op
    case Add(obs) => obs != NULL
    case Remove(obs) => obs != NULL
    case Begin(i) => i !in s.live
    case Copy(i, _) => i !in s.live
    case Advance(i) => i in s.live ==> s.live[i].index < End(s.slots, s.live[i].limit)
    case _ => true
  }

  function RemoveSlot(slots: seq<Ptr>, obs: Ptr, deferred: bool): seq<Ptr> {
    if deferred && obs in slots then slots[IndexOf(slots, obs) := NULL] else Erased(slots, obs)
  }

  function Detach<I>(s: State<I>, i: I): State<I> {
    if s.live.Keys == {i} then State(Compacted(s.slots), s.policy, map[])
    else s.(live := s.live - {i})
  }

  function Step<I>(s: State<I>, op: Op<I>): State<I>
    requires Enabled(s, op)
  {
    match op
    case Add(obs) => if obs in s.slots then s else s.(slots := s.slots + [obs])
    case Remove(obs) => s.(slots := RemoveSlot(s.slots, obs, s.live != map[]))
    case Clear => s.(slots := if s.live == map[] then [] else Marked(s.slots))
    case Begin(i) =>
      if s.slots == [] then s
      else
        var limit := if s.policy.All? then Unlimited else AtMost(|s.slots|);
        s.(live := s.live[i := Cursor(Skip(s.slots, 0, End(s.slots, limit)), limit)])
    case Copy(i, from) => if from in s.live then s.(live := s.live[i := s.live[from]]) else s
    case Assign(i, from) =>
      if i == from then s
      else
        var t := Detach(s, i);
        if from in t.live then t.(live := t.live[i := t.live[from]]) else t
    case Advance(i) =>
      if i !in s.live then s
      else
        var c := s.live[i];
        s.(live := s.live[i := c.(index := Skip(s.slots, c.index + 1, End(s.slots, c.limit)))])
    case Drop(i) => Detach(s, i)
  }

  ghost predicate EnabledRun<I>(s: State<I>, ops: seq<Op<I>>)
    decreases |ops|
  {
    ops == [] || (Enabled(s, ops[0]) && EnabledRun(Step(s, ops[0]), ops[1..]))
  }

  function Run<I>(s: State<I>, ops: seq<Op<I>>): State<I>
    requires EnabledRun(s, ops)
    decreases |ops|
  {
    if ops == [] then s else Run(Step(s, ops[0]), ops[1..])
  }

  // ----- The invariant -----

  ghost predicate NoDuplicates(slots: seq<Ptr>) {
    forall a, b :: 0 <= a < b < |slots| && slots[a] != NULL ==> slots[a] != slots[b]
  }

  predicate CursorOk(slots: seq<Ptr>, policy: Policy, c: Cursor) {
    && c.index <= End(slots, c.limit)
    && (policy.All? <==> c.limit.Unlimited?)
    && (c.limit.AtMost? ==> c.limit.n <= |slots|)
  }

  ghost predicate Inv<I>(s: State<I>) {
    && NoDuplicates(s.slots)
    && (s.live == map[] ==> NULL !in s.slots)
    && (forall i :: i in s.live ==> CursorOk(s.slots, s.policy, s.live[i]))
  }

  lemma {:induction false} LiveAppend(a: seq<Ptr>, b: seq<Ptr>)
    ensures Live(a + b) == Live(a) + Live(b)
  {
    if a == [] {
      assert a + b == b;
    } else {
      var h := if a[0] == NULL then [] else [a[0]];
      assert (a + b)[1..] == a[1..] + b;
      LiveAppend(a[1..], b);
      assert h + (Live(a[1..]) + Live(b)) == (h + Live(a[1..])) + Live(b);
    }
  }

  lemma {:induction false} LiveContents(slots: seq<Ptr>)
    ensures NULL !in Live(slots)
    ensures forall o :: o != NULL ==> (o in Live(slots) <==> o in slots)
    ensures NULL !in slots ==> Live(slots) == slots
  {
    if slots != [] {
      LiveContents(slots[1..]);
      assert slots == [slots[0]] + slots[1..];
    }
  }

  lemma {:induction false} LiveNoDuplicates(slots: seq<Ptr>)
    requires NoDuplicates(slots)
    ensures NoDuplicates(Live(slots))
  {
    if slots != [] {
      LiveNoDuplicates(slots[1..]);
      LiveContents(slots[1..]);
      var l := Live(slots[1..]);
      assert slots[0] != NULL ==> slots[0] !in slots[1..];
      assert forall o :: o in l ==> o != NULL;
      assert slots[0] != NULL ==> forall b :: 0 < b < |[slots[0]] + l| ==> ([slots[0]] + l)[b] in l;
    }
  }

  lemma {:induction false} LiveOfThree(a: seq<Ptr>, o: Ptr, b: seq<Ptr>)
    ensures Live(a + [o] + b) == Live(a) + (if o == NULL then [] else [o]) + Live(b)
  {
    LiveAppend(a, [o]);
    LiveAppend(a + [o], b);
    assert [o][1..] == [];
  }

  lemma {:induction false} ErasedOfThree(a: seq<Ptr>, obs: Ptr, b: seq<Ptr>)
    requires obs !in a
    ensures Erased(a + [obs] + b, obs) == a + b
  {
    var l := a + [obs] + b;
    assert l[|a|] == obs && l[..|a|] == a;
    var k := IndexOf(l, obs);
    assert forall i :: 0 <= i < k ==> l[i] == l[..k][i];
    assert k == |a|;
  }

  lemma {:induction false} WithoutAppend(a: seq<Ptr>, b: seq<Ptr>, obs: Ptr)
    ensures Without(a + b, obs) == Without(a, obs) + Without(b, obs)
  {
    if a == [] {
      assert a + b == b;
    } else {
      var h := if a[0] == obs then [] else [a[0]];
      assert (a + b)[1..] == a[1..] + b;
      WithoutAppend(a[1..], b, obs);
      Associative(h, Without(a[1..], obs), Without(b, obs));
    }
  }

  lemma {:induction false} WithoutAbsent(l: seq<Ptr>, obs: Ptr)
    requires obs !in l
    ensures Without(l, obs) == l
  {
    if l != [] { WithoutAbsent(l[1..], obs); }
  }

  lemma {:induction false} WithoutOfThree(a: seq<Ptr>, obs: Ptr, b: seq<Ptr>)
    requires obs !in a && obs !in b
    ensures Without(a + [obs] + b, obs) == a + b
  {
    WithoutAppend(a, [obs], obs);
    WithoutAppend(a + [obs], b, obs);
    WithoutAbsent(a, obs);
    WithoutAbsent(b, obs);
    assert Without([obs], obs) == [] by { assert [obs][1..] == []; }
    assert a + [] == a;
  }

  lemma {:induction false} NotTwice(l: seq<Ptr>, k: nat)
    requires NoDuplicates(l) && k < |l| && l[k] != NULL
    ensures l[k] !in l[k + 1..]
  {
  }

  /** Erasing the first entry of an observer takes it out of a list that has no observer twice, and leaves a list alone
      that does not have it. */
  lemma {:induction false} ErasedIsWithout(l: seq<Ptr>, obs: Ptr)
    requires NoDuplicates(l) && obs != NULL
    ensures Erased(l, obs) == Without(l, obs)
    ensures obs !in l ==> Erased(l, obs) == l
  {
    if obs in l {
      var k := IndexOf(l, obs);
      NotTwice(l, k);
      WithoutOfThree(l[..k], obs, l[k + 1..]);
      assert l == l[..k] + [obs] + l[k + 1..];
    } else {
      WithoutAbsent(l, obs);
    }
  }

  lemma {:induction false} LiveWithout(a: seq<Ptr>, b: seq<Ptr>)
    ensures Live(a + [NULL] + b) == Live(a + b) == Live(a) + Live(b)
  {
    LiveOfThree(a, NULL, b);
    LiveAppend(a, b);
    assert Live(a) + [] == Live(a);
  }

  lemma {:induction false} LiveErased(a: seq<Ptr>, obs: Ptr, b: seq<Ptr>)
    requires obs !in a && obs != NULL
    ensures Erased(Live(a + [obs] + b), obs) == Live(a) + Live(b)
  {
    LiveContents(a);
    LiveOfThree(a, obs, b);
    ErasedOfThree(Live(a), obs, Live(b));
  }

  lemma {:induction false} RemovePresentLive(slots: seq<Ptr>, obs: Ptr, deferred: bool)
    requires obs != NULL && obs in slots
    ensures Live(RemoveSlot(slots, obs, deferred)) == Erased(Live(slots), obs)
  {
    var a, b := RemoveSlotParts(slots, obs, deferred);
    LiveWithout(a, b);
    LiveErased(a, obs, b);
  }

  lemma {:induction false} RemoveSlotParts(slots: seq<Ptr>, obs: Ptr, deferred: bool) returns (a: seq<Ptr>, b: seq<Ptr>)
    requires obs in slots
    ensures slots == a + [obs] + b && obs !in a
    ensures RemoveSlot(slots, obs, deferred) == if deferred then a + [NULL] + b else a + b
  {
    var k := IndexOf(slots, obs);
    a, b := slots[..k], slots[k + 1..];
  }

  /** Erasing the slot and marking it give clients the same list. */
  lemma {:induction false} RemoveSlotLive(slots: seq<Ptr>, obs: Ptr, deferred: bool)
    requires obs != NULL
    ensures Live(RemoveSlot(slots, obs, deferred)) == Erased(Live(slots), obs)
  {
    if obs in slots { RemovePresentLive(slots, obs, deferred); } else { LiveContents(slots); }
  }

  /** Every operation does to the registered observers what it would do to a plain list, whether or not
      iterators are live: deferral and compaction are invisible. */
  lemma {:induction false} StepRefinesPlain<I>(s: State<I>, op: Op<I>)
    requires Inv(s) && Enabled(s, op)
    ensures Live(Step(s, op).slots) == PlainStep(Live(s.slots), op)
  {
    LiveContents(s.slots);
    match op
    case Add(obs) => LiveAppend(s.slots, [obs]);
    case Remove(obs) =>
      RemoveSlotLive(s.slots, obs, s.live != map[]);
      LiveNoDuplicates(s.slots);
      ErasedIsWithout(Live(s.slots), obs);
    case Clear => AllMarked(Marked(s.slots));
    case Assign(_, _) => LiveContents(Live(s.slots));
    case Drop(_) => LiveContents(Live(s.slots));
    case _ =>
  }

  lemma {:induction false} AllMarked(slots: seq<Ptr>)
    requires forall j :: 0 <= j < |slots| ==> slots[j] == NULL
    ensures Live(slots) == []
  {
    if slots != [] { AllMarked(slots[1..]); }
  }

  lemma {:induction false} StepKeepsInv<I>(s: State<I>, op: Op<I>)
    requires Inv(s) && Enabled(s, op)
    ensures Inv(Step(s, op))
  {
    LiveContents(s.slots);
    LiveNoDuplicates(s.slots);
    match op
    case Remove(obs) => RemoveSlotShape(s.slots, obs, s.live != map[]);
    case Assign(i, from) => DetachKeepsInv(s, i);
    case Drop(i) => DetachKeepsInv(s, i);
    case _ =>
  }

  lemma {:induction false} RemoveSlotShape(slots: seq<Ptr>, obs: Ptr, deferred: bool)
    requires NoDuplicates(slots)
    ensures NoDuplicates(RemoveSlot(slots, obs, deferred))
    ensures !deferred && NULL !in slots ==> NULL !in RemoveSlot(slots, obs, deferred)
    ensures deferred ==> |RemoveSlot(slots, obs, deferred)| == |slots|
  {
  }

  lemma {:induction false} DetachKeepsInv<I>(s: State<I>, i: I)
    requires Inv(s)
    ensures Inv(Detach(s, i))
  {
    LiveContents(s.slots);
    LiveNoDuplicates(s.slots);
    if s.live.Keys != {i} {
      if i in s.live {
        var j :| j in s.live.Keys && j != i;
        assert j in s.live - {i};
      } else {
        assert s.live - {i} == s.live;
      }
    }
  }

  /** Over every run: the invariant holds throughout, and what clients see is what the same calls make of a
      plain duplicate-free list. */
  lemma {:induction false} RunRefinesPlain<I>(s: State<I>, ops: seq<Op<I>>)
    requires Inv(s) && EnabledRun(s, ops)
    ensures Inv(Run(s, ops))
    ensures Live(Run(s, ops).slots) == PlainRun(Live(s.slots), ops)
    ensures NoDuplicates(Live(Run(s, ops).slots))
    ensures Run(s, ops).live == map[] ==> Run(s, ops).slots == Live(Run(s, ops).slots)
    decreases |ops|
  {
    if ops == [] {
      LiveNoDuplicates(s.slots);
      LiveContents(s.slots);
    } else {
      StepKeepsInv(s, ops[0]);
      StepRefinesPlain(s, ops[0]);
      RunRefinesPlain(Step(s, ops[0]), ops[1..]);
    }
  }

  /** Which iterators are attached after a call. */
  ghost function AttachedAfter<I>(live: set<I>, empty: bool, op: Op<I>): set<I> {
    match op
    case Begin(i) => if empty then live else live + {i}
    case Copy(i, from) => if from in live then live + {i} else live
    case Assign(i, from) => if from in live then live + {i} else live - {i}
    case Drop(i) => live - {i}
    case _ => live
  }

  predicate Moves<I(==)>(op: Op<I>, j: I) {
    (op.Advance? || op.Copy? || op.Assign?) && op.it == j
  }

  /** The iterators follow the calls: a copy and the target of an assignment stand where the other iterator stands,
      with its limit, and no call moves an iterator that it does not name. */
  lemma {:induction false} IteratorsFollowTheCalls<I>(s: State<I>, op: Op<I>)
    requires Enabled(s, op)
    ensures Step(s, op).live.Keys == AttachedAfter(s.live.Keys, s.slots == [], op)
    ensures (op.Copy? || op.Assign?) && op.from in s.live ==> Step(s, op).live[op.it] == s.live[op.from]
    ensures forall j :: j in s.live && j in Step(s, op).live && !Moves(op, j) ==> Step(s, op).live[j] == s.live[j]
    ensures Step(s, op).policy == s.policy
  {
  }

  // ----- Passes -----

  /** The operations that leave iterator i attached; only its own `++` then moves it. */
  ghost predicate Leaves<I>(op: Op<I>, i: I) {
    match op
    case Begin(j) => j != i
    case Copy(j, _) => j != i
    case Assign(j, from) => j != i || from == i
    case Drop(j) => j != i
    case _ => true
  }

  /** A stretch of a run during which i stays attached: anything else may happen, by anyone. */
  ghost predicate During<I>(s: State<I>, ops: seq<Op<I>>, i: I) {
    && Inv(s)
    && EnabledRun(s, ops)
    && i in s.live
    && forall k :: 0 <= k < |ops| ==> Leaves(ops[k], i)
  }

  /** Where iterator i stands; -1 before it is constructed. */
  function Pos<I>(s: State<I>, i: I): int {
    if i in s.live then s.live[i].index else -1
  }

  /** While an iterator is live slots are only appended or marked, so an index names one registration. */
  ghost predicate Evolves(a: seq<Ptr>, b: seq<Ptr>) {
    |a| <= |b| && forall j :: 0 <= j < |a| ==> b[j] == a[j] || b[j] == NULL
  }

  lemma {:induction false} DuringStep<I>(s: State<I>, ops: seq<Op<I>>, i: I)
    requires During(s, ops, i) && ops != []
    ensures During(Step(s, ops[0]), ops[1..], i)
    ensures Evolves(s.slots, Step(s, ops[0]).slots)
    ensures Step(s, ops[0]).live[i].limit == s.live[i].limit
    ensures if ops[0] == Advance(i) then Step(s, ops[0]).slots == s.slots && Pos(s, i) < Pos(Step(s, ops[0]), i)
            else Pos(s, i) == Pos(Step(s, ops[0]), i)
  {
    assert Leaves(ops[0], i);
    StepKeepsInv(s, ops[0]);
    match ops[0]
    case Assign(j, from) => if j != from { assert i in s.live.Keys && s.live.Keys != {j}; }
    case Drop(j) => assert i in s.live.Keys && s.live.Keys != {j};
    case _ =>
  }

  lemma {:induction false} DuringRun<I>(s: State<I>, ops: seq<Op<I>>, i: I)
    requires During(s, ops, i)
    ensures During(Run(s, ops), [], i)
    ensures Run(s, ops).live[i].limit == s.live[i].limit && Pos(s, i) <= Pos(Run(s, ops), i)
    ensures Evolves(s.slots, Run(s, ops).slots)
    decreases |ops|
  {
    if ops != [] {
      DuringStep(s, ops, i);
      DuringRun(Step(s, ops[0]), ops[1..], i);
    }
  }

  /** The slots at which i arrives by its construction and its `++`s, with the observer found there. */
  ghost function Visits<I>(s: State<I>, ops: seq<Op<I>>, i: I): seq<(nat, Ptr)>
    requires EnabledRun(s, ops)
    decreases |ops|
  {
    if ops == [] then []
    else
      var t := Step(s, ops[0]);
      (if (ops[0] == Begin(i) || ops[0] == Advance(i)) && !AtEnd(t, i) && 0 <= Pos(t, i) < |t.slots|
       then [(Pos(t, i), t.slots[Pos(t, i)])] else [])
      + Visits(t, ops[1..], i)
  }

  /** Slot j is a live registration at the moment the cursor of i first gets to it or past it. */
  ghost predicate LiveWhenReached<I>(s: State<I>, ops: seq<Op<I>>, i: I, j: nat)
    requires EnabledRun(s, ops)
    decreases |ops|
  {
    ops != [] &&
    var t := Step(s, ops[0]);
    if Pos(s, i) < j <= Pos(t, i) then j < |s.slots| && s.slots[j] != NULL
    else LiveWhenReached(t, ops[1..], i, j)
  }

  ghost predicate Visited(v: seq<(nat, Ptr)>, j: nat) {
    exists n :: 0 <= n < |v| && v[n].0 == j
  }

  /** In order and exactly once. */
  ghost predicate Ascending(v: seq<(nat, Ptr)>) {
    forall a, b :: 0 <= a < b < |v| ==> v[a].0 < v[b].0
  }

  lemma {:induction false} VisitedCons(x: (nat, Ptr), v: seq<(nat, Ptr)>, j: nat)
    ensures Visited([x] + v, j) <==> x.0 == j || Visited(v, j)
  {
    if x.0 == j { assert ([x] + v)[0].0 == j; }
    if Visited(v, j) {
      var n :| 0 <= n < |v| && v[n].0 == j;
      assert ([x] + v)[n + 1].0 == j;
    }
  }

  /** Every visit lies beyond the starting position and below the limit, and finds a live registration: the
      one made in that slot, if the slot was there at the start. */
  ghost predicate VisitOk<I>(s: State<I>, i: I, v: (nat, Ptr))
    requires i in s.live
  {
    && Pos(s, i) < v.0
    && (s.live[i].limit.AtMost? ==> v.0 < s.live[i].limit.n)
    && v.1 != NULL
    && (v.0 < |s.slots| ==> v.1 == s.slots[v.0])
  }

  /** A visit that is in order after a step is in order before it. */
  lemma {:induction false} VisitOkEarlier<I>(s: State<I>, ops: seq<Op<I>>, i: I, v: (nat, Ptr))
    requires During(s, ops, i) && ops != []
    requires i in Step(s, ops[0]).live && VisitOk(Step(s, ops[0]), i, v)
    ensures VisitOk(s, i, v)
  {
    DuringStep(s, ops, i);
  }

  lemma {:induction false} AscendingCons(x: (nat, Ptr), v: seq<(nat, Ptr)>)
    requires Ascending(v) && forall n :: 0 <= n < |v| ==> x.0 < v[n].0
    ensures Ascending([x] + v)
  {
  }

  lemma {:induction false} VisitsInOrder<I>(s: State<I>, ops: seq<Op<I>>, i: I)
    requires During(s, ops, i)
    ensures Ascending(Visits(s, ops, i))
    ensures forall n :: 0 <= n < |Visits(s, ops, i)| ==> VisitOk(s, i, Visits(s, ops, i)[n])
    decreases |ops|
  {
    if ops != [] {
      var t := Step(s, ops[0]);
      DuringStep(s, ops, i);
      VisitsInOrder(t, ops[1..], i);
      assert Leaves(ops[0], i);
      var rest := Visits(t, ops[1..], i);
      forall n | 0 <= n < |rest| ensures VisitOk(s, i, rest[n]) && Pos(t, i) < rest[n].0 {
        assert VisitOk(t, i, rest[n]);
        VisitOkEarlier(s, ops, i, rest[n]);
      }
      if ops[0] == Advance(i) && !AtEnd(t, i) && Pos(t, i) < |t.slots| {
        var x := (Pos(t, i) as nat, t.slots[Pos(t, i)]);
        AscendingCons(x, rest);
        assert Visits(s, ops, i) == [x] + rest;
      } else {
        assert Visits(s, ops, i) == [] + rest == rest;
      }
    }
  }

  /** A slot that the cursor gets to or past is visited if and only if it is live when reached. */
  lemma {:induction false} VisitedIffLiveWhenReached<I>(s: State<I>, ops: seq<Op<I>>, i: I, j: nat)
    requires During(s, ops, i) && Pos(s, i) < j <= Pos(Run(s, ops), i)
    requires s.live[i].limit.AtMost? ==> j < s.live[i].limit.n
    ensures Visited(Visits(s, ops, i), j) <==> LiveWhenReached(s, ops, i, j)
    decreases |ops|
  {
    if ops != [] {
      var t := Step(s, ops[0]);
      assert Leaves(ops[0], i);
      DuringStep(s, ops, i);
      VisitsInOrder(t, ops[1..], i);
      var rest := Visits(t, ops[1..], i);
      if Pos(t, i) < j {
        VisitedIffLiveWhenReached(t, ops[1..], i, j);
      } else {
        assert !Visited(rest, j);
      }
      if ops[0] == Advance(i) && !AtEnd(t, i) {
        VisitedCons((Pos(t, i), t.slots[Pos(t, i)]), rest, j);
      } else {
        assert [] + rest == rest;
      }
    }
  }

  /** The pass of a range-for loop: i is tested after its construction and after each `++`, and the loop stops
      the first time it is at end. */
  ghost predicate RunsToEnd<I>(s: State<I>, ops: seq<Op<I>>, i: I)
    decreases |ops|
  {
    && ops != []
    && Enabled(s, ops[0])
    && var t := Step(s, ops[0]);
       if AtEnd(t, i) then ops[1..] == [] else RunsToEnd(t, ops[1..], i)
  }

  /** In a finished pass a registration that is still there at the end was live when reached. */
  lemma {:induction false} SurvivorsAreReached<I>(s: State<I>, ops: seq<Op<I>>, i: I, j: nat)
    requires During(s, ops, i) && RunsToEnd(s, ops, i)
    requires Pos(s, i) < j < |Run(s, ops).slots| && Run(s, ops).slots[j] != NULL
    requires s.live[i].limit.AtMost? ==> j < s.live[i].limit.n
    ensures j <= Pos(Run(s, ops), i) && LiveWhenReached(s, ops, i, j)
    decreases |ops|
  {
    var t := Step(s, ops[0]);
    DuringStep(s, ops, i);
    DuringRun(t, ops[1..], i);
    if Pos(t, i) < j { SurvivorsAreReached(t, ops[1..], i, j); }
  }

  lemma {:induction false} EndsAtEnd<I>(s: State<I>, ops: seq<Op<I>>, i: I)
    requires EnabledRun(s, ops) && RunsToEnd(s, ops, i)
    ensures AtEnd(Run(s, ops), i)
    decreases |ops|
  {
    if !AtEnd(Step(s, ops[0]), i) { EndsAtEnd(Step(s, ops[0]), ops[1..], i); }
  }

  /** A whole pass: construction of i, then anything that leaves i attached, until i is first at end. */
  ghost predicate Pass<I>(s: State<I>, ops: seq<Op<I>>, i: I) {
    && Inv(s)
    && EnabledRun(s, ops)
    && RunsToEnd(s, ops, i)
    && ops[0] == Begin(i)
    && forall k :: 0 < k < |ops| ==> Leaves(ops[k], i)
  }

  lemma {:induction false} PassStart<I>(s: State<I>, ops: seq<Op<I>>, i: I)
    requires Pass(s, ops, i) && s.slots != []
    ensures During(Step(s, ops[0]), ops[1..], i)
    ensures !AtEnd(Step(s, ops[0]), i) ==> RunsToEnd(Step(s, ops[0]), ops[1..], i)
  {
    StepKeepsInv(s, ops[0]);
  }

  /** Of the registrations the policy covers, a pass visits exactly those that are live when reached. */
  lemma {:induction false} PassVisitsTheLive<I>(s: State<I>, ops: seq<Op<I>>, i: I, j: nat)
    requires Pass(s, ops, i)
    requires j < |Run(s, ops).slots| && (s.policy.ExistingOnly? ==> j < |s.slots|)
    ensures s.slots != [] ==> (Visited(Visits(s, ops, i), j) <==> LiveWhenReached(s, ops, i, j))
    ensures s.slots != [] && Run(s, ops).slots[j] != NULL ==> Visited(Visits(s, ops, i), j)
    ensures j < |s.slots| && s.slots[j] == NULL ==> !Visited(Visits(s, ops, i), j)
  {
    if s.slots != [] {
      var t, rest := Step(s, ops[0]), ops[1..];
      PassStart(s, ops, i);
      DuringRun(t, rest, i);
      VisitsInOrder(t, rest, i);
      var v := Visits(t, rest, i);
      if AtEnd(t, i) {
        assert v == [] && Run(s, ops) == t;
      } else {
        VisitedCons((Pos(t, i), t.slots[Pos(t, i)]), v, j);
        if Pos(t, i) < j {
          EndsAtEnd(t, rest, i);
          VisitedIffLiveWhenReached(t, rest, i, j);
          if Run(s, ops).slots[j] != NULL { SurvivorsAreReached(t, rest, i, j); }
        }
      }
    }
  }

  /** A pass visits registrations in order, each at most once; under EXISTING_ONLY only those that were there
      when it began. What it finds in a slot is the observer that was registered there. */
  lemma {:induction false} PassVisitsInOrder<I>(s: State<I>, ops: seq<Op<I>>, i: I)
    requires Pass(s, ops, i)
    ensures var v := Visits(s, ops, i);
            && Ascending(v)
            && (forall n :: 0 <= n < |v| ==>
                  && v[n].1 != NULL
                  && (v[n].0 < |s.slots| ==> v[n].1 == s.slots[v[n].0])
                  && (s.policy.ExistingOnly? ==> v[n].0 < |s.slots|))
            && (s.slots == [] ==> v == [])
  {
    if s.slots != [] {
      var t, rest := Step(s, ops[0]), ops[1..];
      PassStart(s, ops, i);
      VisitsInOrder(t, rest, i);
      var v := Visits(t, rest, i);
      assert forall n :: 0 <= n < |v| ==> VisitOk(t, i, v[n]);
    }
  }

  // ----- Termination -----

  ghost function Advances<I>(ops: seq<Op<I>>, i: I): nat {
    if ops == [] then 0 else (if ops[0] == Advance(i) then 1 else 0) + Advances(ops[1..], i)
  }

  /** Whatever callbacks do, an EXISTING_ONLY pass makes at most (starting size - index) more `++`s. */
  lemma {:induction false} ExistingOnlyTerminates<I>(s: State<I>, ops: seq<Op<I>>, i: I)
    requires During(s, ops, i) && s.policy.ExistingOnly?
    ensures Advances(ops, i) <= s.live[i].limit.n - Pos(s, i)
    decreases |ops|
  {
    if ops != [] {
      DuringStep(s, ops, i);
      ExistingOnlyTerminates(Step(s, ops[0]), ops[1..], i);
    }
  }

  /** Under ALL there is no such bound: a callback that adds an observer each time keeps a pass going. */
  lemma {:induction false} AllNeedNotTerminate<I>(s: State<I>, i: I, next: Ptr, n: nat) returns (ops: seq<Op<I>>)
    requires Inv(s) && s.policy.All? && i in s.live && Pos(s, i) + 1 == |s.slots|
    requires next != NULL && forall j :: 0 <= j < |s.slots| ==> s.slots[j] < next
    ensures During(s, ops, i) && Advances(ops, i) == n == |Visits(s, ops, i)|
    ensures !AtEnd(Run(s, ops), i)
    decreases n
  {
    if n == 0 {
      ops := [];
    } else {
      var t := Step(s, Add(next));
      StepKeepsInv(s, Add(next));
      var u := Step(t, Advance(i));
      StepKeepsInv(t, Advance(i));
      assert u.slots == s.slots + [next] && Pos(u, i) == |s.slots|;
      var rest := AllNeedNotTerminate(u, i, next + 1, n - 1);
      ops := [Add(next), Advance(i)] + rest;
      assert ops[1..] == [Advance(i)] + rest && ops[1..][1..] == rest;
    }
  }
}
