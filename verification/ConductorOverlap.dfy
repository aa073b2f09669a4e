/** HandleDataChannel and CreateDataChannel of Spitfire::RtcConductor when calls overlap: the first is called from a
    WebRTC callback, the second by clients, and neither takes a lock. Each call looks the label up, registers a new
    observer, and enters it; every interleaving of these steps is a run. */
module ConductorOverlap {

  /** Where a call stands: before the lookup, past a lookup that did not find the label, or past the registration. */
  datatype Call = Idle | NotFound(name: string) | Made(name: string, id: nat)

  /** `observers` is data_observers_; `created` counts the observers ever registered; `lost` holds those that were
      replaced in the map, and so destroyed, without having been unregistered. */
  datatype State = State(observers: map<string, nat>, calls: seq<Call>, created: nat, lost: set<nat>)

  datatype Op =
    | Find(k: nat, name: string)
    | Register(k: nat)
    | Enter(k: nat)

  predicate Enabled(st: State, op: Op) {
    && op.k < |st.calls|
    && match op
       case Find(k, _) => st.calls[k].Idle?
       case Register(k) => st.calls[k].NotFound?
       case Enter(k) => st.calls[k].Made?
  }

  function Step(st: State, op: Op): State
    requires Enabled(st, op)
  {
    match op
    case Find(k, name) => if name in st.observers then st else st.(calls := st.calls[k := NotFound(name)])
    case Register(k) => st.(calls := st.calls[k := Made(st.calls[k].name, st.created)], created := st.created + 1)
    case Enter(k) =>
      var Made(name, id) := st.calls[k];
      var replaced := if name in st.observers then {st.observers[name]} else {};
      State(st.observers[name := id], st.calls[k := Idle], st.created, st.lost + replaced)
  }

  ghost predicate EnabledRun(st: State, ops: seq<Op>)
    decreases |ops|
  {
    ops == [] || (Enabled(st, ops[0]) && EnabledRun(Step(st, ops[0]), ops[1..]))
  }

  function Run(st: State, ops: seq<Op>): State
    requires EnabledRun(st, ops)
    decreases |ops|
  {
    if ops == [] then st else Run(Step(st, ops[0]), ops[1..])
  }

  ghost predicate Start(st: State) {
    st.observers == map[] && st.created == 0 && st.lost == {} && Drained(st)
  }

  /** No call is under way. */
  predicate Drained(st: State) {
    forall k :: 0 <= k < |st.calls| ==> st.calls[k].Idle?
  }

  // ----- Every observer is accounted for -----

  ghost predicate InMap(st: State, id: nat) {
    exists l :: l in st.observers && st.observers[l] == id
  }

  ghost predicate InHand(st: State, id: nat) {
    exists k :: 0 <= k < |st.calls| && st.calls[k].Made? && st.calls[k].id == id
  }

  ghost predicate Somewhere(st: State, id: nat) {
    InMap(st, id) || InHand(st, id) || id in st.lost
  }

  /** What is in the map was made and is not lost, and is there once. */
  ghost predicate MapOk(st: State) {
    && (forall l :: l in st.observers ==> st.observers[l] < st.created && st.observers[l] !in st.lost)
    && (forall l, m :: l in st.observers && m in st.observers && l != m ==> st.observers[l] != st.observers[m])
    && (forall id :: id in st.lost ==> id < st.created)
  }

  /** What a call holds was made, is not lost, is not in the map, and is held by no other call. */
  ghost predicate CallsOk(st: State) {
    && (forall k :: 0 <= k < |st.calls| && st.calls[k].Made? ==>
          st.calls[k].id < st.created && st.calls[k].id !in st.lost && !InMap(st, st.calls[k].id))
    && (forall j, k :: 0 <= j < k < |st.calls| && st.calls[j].Made? && st.calls[k].Made? ==>
          st.calls[j].id != st.calls[k].id)
  }

  ghost predicate Accounted(st: State) {
    (forall id :: 0 <= id < st.created ==> Somewhere(st, id)) && MapOk(st) && CallsOk(st)
  }

  lemma {:induction false} StepKeepsPlaces(st: State, op: Op, id: nat)
    requires Enabled(st, op) && (Somewhere(st, id) || (op.Register? && id == st.created))
    ensures Somewhere(Step(st, op), id)
  {
    var e := Step(st, op);
    if InMap(st, id) {
      var l :| l in st.observers && st.observers[l] == id;
      assert id in e.lost || (l in e.observers && e.observers[l] == id);
    } else if InHand(st, id) {
      var k :| 0 <= k < |st.calls| && st.calls[k].Made? && st.calls[k].id == id;
      if op == Enter(k) { assert e.observers[st.calls[k].name] == id; } else { assert e.calls[k] == st.calls[k]; }
    } else if op.Register? && id == st.created {
      assert e.calls[op.k].id == id;
    }
  }

  lemma {:induction false} StepKeepsMap(st: State, op: Op)
    requires MapOk(st) && CallsOk(st) && Enabled(st, op)
    ensures MapOk(Step(st, op))
  {
    if op.Enter? {
      var Made(name, id) := st.calls[op.k];
      assert forall l :: l in st.observers ==> st.observers[l] != id;
    }
  }

  lemma {:induction false} EnterKeepsCalls(st: State, k: nat)
    requires MapOk(st) && CallsOk(st) && Enabled(st, Enter(k))
    ensures CallsOk(Step(st, Enter(k)))
  {
    var e := Step(st, Enter(k));
    forall j | 0 <= j < |e.calls| && e.calls[j].Made? ensures e.calls[j].id !in e.lost && !InMap(e, e.calls[j].id) {
      assert j != k && e.calls[j] == st.calls[j];
      assert forall l :: l in st.observers ==> st.observers[l] != st.calls[j].id;
      assert st.calls[j].id != st.calls[k].id;
    }
  }

  lemma {:induction false} StepKeepsCalls(st: State, op: Op)
    requires MapOk(st) && CallsOk(st) && Enabled(st, op)
    ensures CallsOk(Step(st, op))
  {
    match op
    case Enter(k) => EnterKeepsCalls(st, k);
    case Register(k) =>
      var e := Step(st, op);
      forall j | 0 <= j < |e.calls| && e.calls[j].Made? ensures !InMap(e, e.calls[j].id) && e.calls[j].id !in e.lost {
        assert j != k ==> e.calls[j] == st.calls[j] && !InMap(st, st.calls[j].id);
      }
    case Find(_, _) =>
      var e := Step(st, op);
      forall j | 0 <= j < |e.calls| && e.calls[j].Made? ensures !InMap(e, e.calls[j].id) {
        assert e.calls[j] == st.calls[j] && !InMap(st, st.calls[j].id);
      }
  }

  lemma {:induction false} StepKeepsAccounted(st: State, op: Op)
    requires Accounted(st) && Enabled(st, op)
    ensures Accounted(Step(st, op))
  {
    forall id | 0 <= id < Step(st, op).created ensures Somewhere(Step(st, op), id) { StepKeepsPlaces(st, op, id); }
    StepKeepsMap(st, op);
    StepKeepsCalls(st, op);
  }

  /** When all calls have returned, every observer that was ever registered is in the map, or was lost, not both. */
  lemma {:induction false} InMapOrLost(st: State, ops: seq<Op>, id: nat)
    requires Accounted(st) && EnabledRun(st, ops) && Drained(Run(st, ops)) && id < Run(st, ops).created
    ensures InMap(Run(st, ops), id) <==> id !in Run(st, ops).lost
    decreases |ops|
  {
    if ops == [] {
      assert Somewhere(st, id) && !InHand(st, id);
    } else {
      StepKeepsAccounted(st, ops[0]);
      InMapOrLost(Step(st, ops[0]), ops[1..], id);
    }
  }

  // ----- Exactly when one is lost -----

  /** A call has found its label free, and it is not free any more. */
  predicate Outdated(st: State, k: nat) {
    k < |st.calls| && !st.calls[k].Idle? && st.calls[k].name in st.observers
  }

  /** Two calls have found the same label free. */
  predicate Rivals(st: State, j: nat, k: nat) {
    j < k < |st.calls| && !st.calls[j].Idle? && !st.calls[k].Idle? && st.calls[j].name == st.calls[k].name
  }

  ghost predicate SomeOutdated(st: State) {
    exists k: nat :: Outdated(st, k)
  }

  ghost predicate SomeRivals(st: State) {
    exists j: nat, k: nat :: Rivals(st, j, k)
  }

  ghost predicate PassesRivals(st: State, ops: seq<Op>)
    requires EnabledRun(st, ops)
    decreases |ops|
  {
    SomeRivals(st) || (ops != [] && PassesRivals(Step(st, ops[0]), ops[1..]))
  }

  lemma {:induction false} LostStays(st: State, ops: seq<Op>)
    requires EnabledRun(st, ops)
    ensures st.lost <= Run(st, ops).lost
    decreases |ops|
  {
    if ops != [] { LostStays(Step(st, ops[0]), ops[1..]); }
  }

  lemma {:induction false} ContendedStep(st: State, op: Op)
    requires (SomeOutdated(st) || SomeRivals(st)) && Enabled(st, op)
    ensures SomeOutdated(Step(st, op)) || SomeRivals(Step(st, op)) || Step(st, op).lost != {}
  {
    var e := Step(st, op);
    if k: nat :| Outdated(st, k) {
      if op == Enter(k) { assert st.observers[st.calls[k].name] in e.lost; } else { assert Outdated(e, k); }
    } else {
      var j: nat, k: nat :| Rivals(st, j, k);
      if op == Enter(j) { assert Outdated(e, k); }
      else if op == Enter(k) { assert Outdated(e, j); }
      else { assert Rivals(e, j, k); }
    }
  }

  lemma {:induction false} ContendedLoses(st: State, ops: seq<Op>)
    requires (SomeOutdated(st) || SomeRivals(st)) && EnabledRun(st, ops) && Drained(Run(st, ops))
    ensures Run(st, ops).lost != {}
    decreases |ops|
  {
    if ops != [] {
      ContendedStep(st, ops[0]);
      if SomeOutdated(Step(st, ops[0])) || SomeRivals(Step(st, ops[0])) {
        ContendedLoses(Step(st, ops[0]), ops[1..]);
      } else {
        LostStays(Step(st, ops[0]), ops[1..]);
      }
    }
  }

  /** Without rivals nothing is replaced, and no lookup gets out of date. */
  lemma {:induction false} UncontendedStep(st: State, op: Op)
    requires !SomeRivals(st) && !SomeOutdated(st) && Enabled(st, op)
    ensures Step(st, op).lost == st.lost && !SomeOutdated(Step(st, op))
    ensures forall l :: l in st.observers ==>
              l in Step(st, op).observers && Step(st, op).observers[l] == st.observers[l]
  {
    var e := Step(st, op);
    assert !Outdated(st, op.k);
    forall j: nat ensures !Outdated(e, j) {
      assert !Outdated(st, j) && !Rivals(st, op.k, j) && !Rivals(st, j, op.k);
    }
  }

  /** In a run of such calls that begins with no lookup out of date and ends with no call under way, an observer is
      lost if and only if at some time two calls stood past a lookup that had not found the same label. */
  lemma {:induction false} LostIffRivals(st: State, ops: seq<Op>)
    requires st.lost == {} && !SomeOutdated(st) && EnabledRun(st, ops) && Drained(Run(st, ops))
    ensures Run(st, ops).lost != {} <==> PassesRivals(st, ops)
    decreases |ops|
  {
    if SomeRivals(st) {
      ContendedLoses(st, ops);
    } else if ops != [] {
      UncontendedStep(st, ops[0]);
      LostIffRivals(Step(st, ops[0]), ops[1..]);
    }
  }

  /** Short of that, the first channel for a label wins also when calls overlap. */
  lemma {:induction false} FirstStaysWithoutRivals(st: State, ops: seq<Op>, name: string)
    requires !SomeOutdated(st) && EnabledRun(st, ops) && !PassesRivals(st, ops) && name in st.observers
    ensures name in Run(st, ops).observers && Run(st, ops).observers[name] == st.observers[name]
    decreases |ops|
  {
    if ops != [] {
      UncontendedStep(st, ops[0]);
      FirstStaysWithoutRivals(Step(st, ops[0]), ops[1..], name);
    }
  }

  /** It does happen: two calls for one label, both past the lookup before either enters its observer. */
  lemma {:induction false} TwoCallsLoseOne(st: State, name: string) returns (ops: seq<Op>)
    requires Start(st) && |st.calls| == 2
    ensures EnabledRun(st, ops) && Drained(Run(st, ops)) && Run(st, ops).lost == {0} && Run(st, ops).created == 2
  {
    var a := Step(Step(st, Find(0, name)), Find(1, name));
    var b := Step(Step(a, Register(0)), Register(1));
    var c := Step(b, Enter(0));
    var d := Step(c, Enter(1));
    assert d.lost == {0} && Drained(d);
    Prepend(c, Enter(1), []);
    Prepend(b, Enter(0), [Enter(1)] + []);
    var o := [Enter(0)] + ([Enter(1)] + []);
    Prepend(Step(a, Register(0)), Register(1), o);
    Prepend(a, Register(0), [Register(1)] + o);
    Prepend(Step(st, Find(0, name)), Find(1, name), [Register(0)] + ([Register(1)] + o));
    Prepend(st, Find(0, name), [Find(1, name)] + ([Register(0)] + ([Register(1)] + o)));
    ops := [Find(0, name)] + ([Find(1, name)] + ([Register(0)] + ([Register(1)] + o)));
  }

  lemma {:induction false} Prepend(st: State, op: Op, ops: seq<Op>)
    requires Enabled(st, op) && EnabledRun(Step(st, op), ops)
    ensures EnabledRun(st, [op] + ops) && Run(st, [op] + ops) == Run(Step(st, op), ops)
  {
    assert ([op] + ops)[1..] == ops;
  }
}
