/** What the lock of an ObserverListThreadSafe keeps apart, and what a removal makes sure of. */
module ThreadSafeRemoval {
  import opened ThreadSafeObserverList
  import opened ThreadSafeRuns

  // ----- The lock keeps dispatch of n out of its snapshot loop -----

  predicate NoDispatch(stack: Stack, n: nat) {
    stack.Push? ==>
      && NoDispatch(stack.below, n)
      && (stack.top.Running? || stack.top.Checked? ==> stack.top.t.n != n)
  }

  ghost predicate Closed(st: State) {
    !st.lock.Free? ==>
      && (forall t :: t in st.begun ==> t.n != st.lock.n)
      && (forall s :: 0 <= s < |st.threads| ==> NoDispatch(st.threads[s].stack, st.lock.n))
  }

  lemma {:induction false} FreshIsNotDispatched(stack: Stack, issued: set<nat>, n: nat)
    requires StackIssued(stack, issued) && n !in issued
    requires forall t: Task :: StackCount(stack, t) > 0 ==> t.n in issued
    ensures NoDispatch(stack, n)
  {
    if stack.Push? {
      assert forall t: Task :: StackCount(stack.below, t) > 0 ==> StackCount(stack, t) > 0;
      FreshIsNotDispatched(stack.below, issued, n);
      if stack.top.Checked? { assert StackCount(stack, stack.top.t) > 0; }
    }
  }

  lemma {:induction false} SendOpensClosed(st: State, n: nat)
    requires Inv(st) && n !in st.issued
    ensures forall s :: 0 <= s < |st.threads| ==> NoDispatch(st.threads[s].stack, n)
    ensures forall t :: t in st.begun ==> t.n != n
  {
    forall s | 0 <= s < |st.threads| ensures NoDispatch(st.threads[s].stack, n) {
      assert forall t: Task :: StackCount(st.threads[s].stack, t) > 0 ==> Pending(st.threads[s], t) > 0;
      FreshIsNotDispatched(st.threads[s].stack, st.issued, n);
    }
    forall t | t in st.begun ensures t.n != n { assert Balanced(st, t) && Recorded(st, t); }
  }

  lemma {:induction false} MovedStaysClosed(th: Thread, m: Move, registered: set<nat>, n: nat)
    requires CanMove(th, m) && !m.Check? && NoDispatch(th.stack, n)
    ensures NoDispatch(Moved(th, m, registered).stack, n)
    ensures forall t :: t in Begins(th, m) ==> t.n != n
  {
  }

  lemma {:induction false} StepKeepsClosed(st: State, op: Op)
    requires Inv(st) && Closed(st) && Enabled(st, op)
    ensures Closed(Step(st, op))
  {
    match op
    case NotifyBegin(n) => SendOpensClosed(st, n);
    case SyncBegin(_, n) => SendOpensClosed(st, n);
    case Local(s, m) =>
      if !st.lock.Free? { MovedStaysClosed(st.threads[s], m, st.observers.Keys, st.lock.n); }
    case _ =>
  }

  /** While the loop of notification n holds the lock, no callback for n has begun or passed its check. */
  lemma {:induction false} SnapshotBeforeDispatch(st: State, ops: seq<Op>)
    requires Inv(st) && Closed(st) && EnabledRun(st, ops)
    ensures Closed(Run(st, ops))
    decreases |ops|
  {
    if ops != [] {
      StepKeepsInv(st, ops[0]);
      StepKeepsClosed(st, ops[0]);
      SnapshotBeforeDispatch(Step(st, ops[0]), ops[1..]);
    }
  }

  // ----- Removal -----

  predicate NoneChecked(stack: Stack, o: nat) {
    stack.Push? ==> NoneChecked(stack.below, o) && (stack.top.Checked? ==> stack.top.t.obs != o)
  }

  ghost predicate Gone(st: State, o: nat) {
    o !in st.observers && forall s :: 0 <= s < |st.threads| ==> NoneChecked(st.threads[s].stack, o)
  }

  ghost predicate NotReadded(ops: seq<Op>, o: nat) {
    forall k :: 0 <= k < |ops| ==> !(ops[k].Add? && ops[k].obs == o)
  }

  lemma {:induction false} MovedNoneChecked(th: Thread, m: Move, registered: set<nat>, o: nat)
    requires CanMove(th, m) && NoneChecked(th.stack, o) && o !in registered
    ensures NoneChecked(Moved(th, m, registered).stack, o)
    ensures forall n :: Times(Begins(th, m), Task(o, n)) == 0
  {
  }

  lemma {:induction false} GoneStep(st: State, op: Op, o: nat)
    requires Gone(st, o) && Enabled(st, op) && !(op.Add? && op.obs == o)
    ensures Gone(Step(st, op), o)
    ensures forall n :: Times(Step(st, op).begun, Task(o, n)) == Times(st.begun, Task(o, n))
  {
    if op.Local? { MovedNoneChecked(st.threads[op.s], op.move, st.observers.Keys, o); }
  }

  /** Once an observer is out and nobody has passed the check for it, no callback to it begins. */
  lemma {:induction false} GoneStaysGone(st: State, ops: seq<Op>, o: nat)
    requires Gone(st, o) && EnabledRun(st, ops) && NotReadded(ops, o)
    ensures forall n :: Times(Run(st, ops).begun, Task(o, n)) == Times(st.begun, Task(o, n))
    decreases |ops|
  {
    if ops != [] {
      GoneStep(st, ops[0], o);
      GoneStaysGone(Step(st, ops[0]), ops[1..], o);
    }
  }

  lemma {:induction false} SettledHasNoneChecked(stack: Stack, o: nat)
    requires WellNested(stack) && (stack.Push? ==> Settled(stack.top) || !stack.top.Checked? || stack.top.t.obs != o)
    ensures NoneChecked(stack, o)
  {
    if stack.Push? { SettledHasNoneChecked(stack.below, o); }
  }

  lemma {:induction false} UncheckedWithoutPending(stack: Stack, o: nat)
    requires forall t: Task :: t.obs == o ==> StackCount(stack, t) == 0
    ensures NoneChecked(stack, o)
  {
    if stack.Push? {
      assert forall t: Task :: StackCount(stack.below, t) <= StackCount(stack, t);
      UncheckedWithoutPending(stack.below, o);
      if stack.top.Checked? { assert StackCount(stack, stack.top.t) > 0; }
    }
  }

  /** In every reachable state, RemoveObserver(o), called from client code on the one sequence where o was ever
      registered: whatever the other sequences do, no callback to o begins afterwards, unless o is added again. */
  lemma {:induction false} RemovedOnOwnSequence(st: State, s: nat, o: nat, after: seq<Op>)
    requires Inv(st) && Enabled(st, Remove(o)) && s < |st.threads| && InClient(st.threads[s].stack)
    requires forall h :: h in st.homes && h.0 == o ==> h.1 == s
    requires EnabledRun(Step(st, Remove(o)), after) && NotReadded(after, o)
    ensures var v := Step(st, Remove(o));
            forall n :: Times(Run(v, after).begun, Task(o, n)) == Times(v.begun, Task(o, n))
  {
    forall r | 0 <= r < |st.threads| ensures NoneChecked(st.threads[r].stack, o) {
      if r == s {
        SettledHasNoneChecked(st.threads[r].stack, o);
      } else {
        assert forall t: Task :: t.obs == o ==> Pending(st.threads[r], t) == 0;
        UncheckedWithoutPending(st.threads[r].stack, o);
      }
    }
    GoneStaysGone(Step(st, Remove(o)), after, o);
  }

  /** Some continuation begins a callback to o although o is not registered and not added again. */
  ghost predicate LateCallback(st: State, o: nat) {
    exists ops, n :: EnabledRun(st, ops) && NotReadded(ops, o) && LateIn(st, ops, Task(o, n))
  }

  ghost predicate LateIn(st: State, ops: seq<Op>, t: Task)
    requires EnabledRun(st, ops)
  {
    Times(Run(st, ops).begun, t) > Times(st.begun, t)
  }

  /** Without that, removal is not final: it is final if and only if no sequence stands between its check for o
      and the callback. */
  lemma {:induction false} LateCallbackIffChecked(st: State, o: nat)
    requires Inv(st) && o !in st.observers
    ensures LateCallback(st, o) <==>
            exists s :: && 0 <= s < |st.threads| && st.threads[s].stack.Push?
                        && st.threads[s].stack.top.Checked? && st.threads[s].stack.top.t.obs == o
  {
    if s :| && 0 <= s < |st.threads| && st.threads[s].stack.Push?
            && st.threads[s].stack.top.Checked? && st.threads[s].stack.top.t.obs == o {
      var ops := [Local(s, BeginCallback)];
      assert ops[1..] == [] && EnabledRun(st, ops);
      assert LateIn(st, ops, Task(o, st.threads[s].stack.top.t.n));
    } else {
      forall s | 0 <= s < |st.threads| ensures NoneChecked(st.threads[s].stack, o) {
        SettledHasNoneChecked(st.threads[s].stack, o);
      }
      forall ops, n | EnabledRun(st, ops) && NotReadded(ops, o) ensures !LateIn(st, ops, Task(o, n)) {
        GoneStaysGone(st, ops, o);
      }
    }
  }

  // ----- A run that shows what does not hold -----

  /** Sequence 0 is notified of 1, finds observer 7 registered, and then sequence 1 removes it. */
  lemma {:induction false} CheckedThenRemoved(st: State) returns (ops: seq<Op>)
    requires st.lock.Free? && st.observers == map[7 := 0] && |st.threads| == 2
    requires st.threads[0] == Thread([Task(7, 1)], Empty, Nothing)
    ensures EnabledRun(st, ops)
    ensures var end := Run(st, ops);
            && 7 !in end.observers && |end.threads| == 2
            && end.threads[0].stack == Push(Checked(Task(7, 1)), Empty)
  {
    var st1 := Step(st, Local(0, StartTask));
    var st2 := Step(st1, Local(0, Check));
    assert st2.threads[0].stack == Push(Checked(Task(7, 1)), Empty);
    var st3 := Step(st2, Remove(7));
    assert EnabledRun(st3, []);
    Prepend(st2, Remove(7), []);
    Prepend(st1, Local(0, Check), [Remove(7)] + []);
    ops := [Local(0, StartTask)] + ([Local(0, Check)] + ([Remove(7)] + []));
    Prepend(st, Local(0, StartTask), [Local(0, Check)] + ([Remove(7)] + []));
  }

  /** It does happen: sequence 1 removes the observer just after sequence 0 has found it registered. */
  lemma {:induction false} RemovalFromElsewhereCanBeLate(st: State) returns (ops: seq<Op>)
    requires Init(st) && |st.threads| == 2
    ensures EnabledRun(st, ops)
    ensures 7 !in Run(st, ops).observers && LateCallback(Run(st, ops), 7)
  {
    ops := OnePosted(st);
    var rest := CheckedThenRemoved(Run(st, ops));
    Concat(st, ops, rest);
    ops := ops + rest;
    InitInv(st);
    RunKeepsInv(st, ops);
    LateCallbackIffChecked(Run(st, ops), 7);
  }
}
