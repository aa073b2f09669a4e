/** Who gets which notification of an ObserverListThreadSafe, and how often. */
module ThreadSafeDelivery {
  import opened ThreadSafeObserverList
  import opened ThreadSafeRuns

  // ----- Delivery -----

  /** Under every interleaving, and whatever is removed and added again, a callback begins no more often than it was
      handed out; when all queues have drained it has begun each time, but for the tasks dropped because their
      observer was not registered. */
  lemma {:induction false} NoneLostNoneMadeUp(st: State, ops: seq<Op>, t: Task)
    requires Init(st) && EnabledRun(st, ops)
    ensures var end := Run(st, ops);
            && Times(end.begun, t) + end.dropped[t] <= end.handed[t]
            && (Quiet(end) ==> Times(end.begun, t) + end.dropped[t] == end.handed[t])
  {
    InitInv(st);
    RunKeepsInv(st, ops);
    var end := Run(st, ops);
    assert Balanced(end, t);
    if Quiet(end) { TotalOfIdle(end.threads, t); }
  }

  /** An observer that has not been removed since the notification was sent begins its callback at most once, and
      exactly once if it was to get it, when all queues have drained. */
  lemma {:induction false} DeliveredExactlyOnce(st: State, ops: seq<Op>, t: Task)
    requires Init(st) && EnabledRun(st, ops) && t !in Run(st, ops).stale
    ensures var end := Run(st, ops);
            && Times(end.begun, t) <= end.handed[t] <= 1
            && (Quiet(end) ==> Times(end.begun, t) == end.handed[t])
  {
    NoneLostNoneMadeUp(st, ops, t);
    InitInv(st);
    RunKeepsInv(st, ops);
    assert Recorded(Run(st, ops), t);
  }

  /** Under EXISTING_ONLY no callback begins twice, not even for observers that are removed and added again. */
  lemma {:induction false} ExistingOnlyAtMostOnce(st: State, ops: seq<Op>, t: Task)
    requires Init(st) && EnabledRun(st, ops) && Run(st, ops).policy.ExistingOnly?
    ensures Times(Run(st, ops).begun, t) <= 1
  {
    NoneLostNoneMadeUp(st, ops, t);
    InitInv(st);
    RunKeepsInv(st, ops);
    assert Recorded(Run(st, ops), t);
  }

  // ----- What is registered, handed out and stale, in terms of the calls made -----

  /** Where each observer is registered after the calls: where it was last added, unless it was removed since. */
  ghost function Registrations(observers: map<nat, nat>, ops: seq<Op>): map<nat, nat>
    decreases |ops|
  {
    if ops == [] then observers
    else
      match ops[0]
      case Add(s, o) => Registrations(observers[o := s], ops[1..])
      case Remove(o) => Registrations(observers - {o}, ops[1..])
      case _ => Registrations(observers, ops[1..])
  }

  ghost function SentBy(ops: seq<Op>): set<nat> {
    if ops == [] then {}
    else (if ops[0].NotifyBegin? || ops[0].SyncBegin? then {ops[0].n} else {}) + SentBy(ops[1..])
  }

  /** Nothing but the calls registers, removes or sends, whatever sequences do in between. */
  lemma {:induction false} RegistrationFollowsTheCalls(st: State, ops: seq<Op>)
    requires EnabledRun(st, ops)
    ensures Run(st, ops).observers == Registrations(st.observers, ops)
    ensures Run(st, ops).issued == st.issued + SentBy(ops)
    decreases |ops|
  {
    if ops != [] {
      if ops[0].Remove? && ops[0].obs !in st.observers { assert st.observers - {ops[0].obs} == st.observers; }
      RegistrationFollowsTheCalls(Step(st, ops[0]), ops[1..]);
    }
  }

  /** The two ways to be owed notification n: to be registered when it is sent, or to be added, under ALL, by a
      callback that it is being dispatched to. */
  ghost predicate MustNotify(st: State, op: Op, t: Task) {
    || ((op == NotifyBegin(t.n) || (op.SyncBegin? && op.n == t.n)) && t.obs in st.observers)
    || (op.Add? && op.obs == t.obs && st.policy.All? && op.s < |st.threads|
        && CurrentOf(st.threads[op.s].stack) == Mine(t.n))
  }

  /** How often that happens in a run. */
  ghost function TimesOwed(st: State, ops: seq<Op>, t: Task): nat
    requires EnabledRun(st, ops)
    decreases |ops|
  {
    if ops == [] then 0
    else (if MustNotify(st, ops[0], t) then 1 else 0) + TimesOwed(Step(st, ops[0]), ops[1..], t)
  }

  lemma {:induction false} HandedWhenOwed(st: State, ops: seq<Op>, t: Task)
    requires Shape(st) && EnabledRun(st, ops)
    ensures Run(st, ops).handed[t] == st.handed[t] + TimesOwed(st, ops, t)
    decreases |ops|
  {
    if ops != [] {
      StepKeepsShape(st, ops[0]);
      match ops[0] {
        case NotifyBegin(n) => ForAllCount(st.observers.Keys, n, t);
        case SyncBegin(_, n) => ForAllCount(st.observers.Keys, n, t);
        case Add(s, _) => assert ThreadOk(st.threads[s]);
        case _ =>
      }
      HandedWhenOwed(Step(st, ops[0]), ops[1..], t);
    }
  }

  /** The observer was taken out after the notification had been sent. */
  ghost predicate RemovedSince(st: State, ops: seq<Op>, t: Task)
    requires EnabledRun(st, ops)
    decreases |ops|
  {
    && ops != []
    && (|| (ops[0] == Remove(t.obs) && t.obs in st.observers && t.n in st.issued)
        || RemovedSince(Step(st, ops[0]), ops[1..], t))
  }

  lemma {:induction false} StaleIffRemovedSince(st: State, ops: seq<Op>, t: Task)
    requires EnabledRun(st, ops)
    ensures t in Run(st, ops).stale <==> t in st.stale || RemovedSince(st, ops, t)
    decreases |ops|
  {
    if ops != [] {
      StaleIffRemovedSince(Step(st, ops[0]), ops[1..], t);
    }
  }

  /** As long as an observer stays registered, what it is to get of a notification that was sent is settled. */
  lemma {:induction false} RegisteredIsSettled(st: State, ops: seq<Op>, t: Task)
    requires EnabledRun(st, ops) && t.obs in st.observers && t.n in st.issued && Remove(t.obs) !in ops
    ensures var end := Run(st, ops);
            && t.obs in end.observers && end.observers[t.obs] == st.observers[t.obs]
            && end.handed[t] == st.handed[t] && end.dropped[t] == st.dropped[t]
    decreases |ops|
  {
    if ops != [] {
      match ops[0] {
        case NotifyBegin(n) => ForAllCount(st.observers.Keys, n, t);
        case SyncBegin(_, n) => ForAllCount(st.observers.Keys, n, t);
        case _ =>
      }
      RegisteredIsSettled(Step(st, ops[0]), ops[1..], t);
    }
  }

  /** From every reachable state, exactly how often an observer that stays registered to the end gets notification n:
      as often as it was handed out and not dropped so far, however often the observer came and went before. */
  lemma {:induction false} StayingGetsTheRest(st: State, ops: seq<Op>, t: Task)
    requires Inv(st) && EnabledRun(st, ops) && Quiet(Run(st, ops))
    requires t.obs in st.observers && t.n in st.issued && Remove(t.obs) !in ops
    ensures Times(Run(st, ops).begun, t) + st.dropped[t] == st.handed[t]
  {
    RunKeepsInv(st, ops);
    RegisteredIsSettled(st, ops, t);
    assert Balanced(Run(st, ops), t);
    TotalOfIdle(Run(st, ops).threads, t);
  }

  /** How often a sequence drops t because its observer is not registered. */
  ghost function TimesDropped(st: State, ops: seq<Op>, t: Task): nat
    requires EnabledRun(st, ops)
    decreases |ops|
  {
    if ops == [] then 0 else (if DropsTask(st, ops[0], t) then 1 else 0) + TimesDropped(Step(st, ops[0]), ops[1..], t)
  }

  ghost predicate DropsTask(st: State, op: Op, t: Task)
    requires Enabled(st, op)
  {
    op.Local? && op.move.Check? && st.threads[op.s].stack.top == Waiting(t) && t.obs !in st.observers
  }

  lemma {:induction false} DroppedWhenGone(st: State, ops: seq<Op>, t: Task)
    requires EnabledRun(st, ops)
    ensures Run(st, ops).dropped[t] == st.dropped[t] + TimesDropped(st, ops, t)
    decreases |ops|
  {
    if ops != [] { DroppedWhenGone(Step(st, ops[0]), ops[1..], t); }
  }

  /** Exactly how often a notification is begun in a run after which all queues have drained, in terms of the calls
      made and the checks that failed; hence exactly when more than once. */
  lemma {:induction false} BegunExactly(st: State, ops: seq<Op>, t: Task)
    requires Init(st) && EnabledRun(st, ops) && Quiet(Run(st, ops))
    ensures Times(Run(st, ops).begun, t) == TimesOwed(st, ops, t) - TimesDropped(st, ops, t)
    ensures Times(Run(st, ops).begun, t) > 1 <==> TimesOwed(st, ops, t) > TimesDropped(st, ops, t) + 1
  {
    InitInv(st);
    NoneLostNoneMadeUp(st, ops, t);
    HandedWhenOwed(st, ops, t);
    DroppedWhenGone(st, ops, t);
  }

  /** A notification is begun more than once only under ALL, by an observer that was removed after it was sent and
      was added again from inside its dispatch. */
  lemma {:induction false} TwiceOnlyIfReadded(st: State, ops: seq<Op>, t: Task)
    requires Init(st) && EnabledRun(st, ops) && Times(Run(st, ops).begun, t) > 1
    ensures st.policy.All? && RemovedSince(st, ops, t) && TimesOwed(st, ops, t) > 1
  {
    InitInv(st);
    NoneLostNoneMadeUp(st, ops, t);
    HandedWhenOwed(st, ops, t);
    HistoryGrows(st, ops);
    StaleIffRemovedSince(st, ops, t);
    RunKeepsInv(st, ops);
    assert Recorded(Run(st, ops), t);
  }

  /** An observer registered when n is sent, or added under ALL by a callback that n is being dispatched to, and not
      removed since n was sent, has got n exactly once when all queues have drained. */
  lemma {:induction false} OwedGetsItOnce(st: State, before: seq<Op>, op: Op, after: seq<Op>, t: Task)
    requires Init(st) && EnabledRun(st, before)
    requires Enabled(Run(st, before), op) && EnabledRun(Step(Run(st, before), op), after)
    requires MustNotify(Run(st, before), op, t)
    requires !RemovedSince(st, before, t) && !RemovedSince(Step(Run(st, before), op), after, t)
    ensures var end := Run(Step(Run(st, before), op), after);
            Quiet(end) ==> Times(end.begun, t) == 1
  {
    var u := Run(st, before);
    var v := Step(u, op);
    InitInv(st);
    RunKeepsInv(st, before);
    StepKeepsInv(u, op);
    RunKeepsInv(v, after);
    StaleIffRemovedSince(st, before, t);
    StaleIffRemovedSince(v, after, t);
    OwedIsHanded(u, op, t);
    HandedWhenOwed(v, after, t);
    if Quiet(Run(v, after)) { OnceAtTheEnd(Run(v, after), t); }
  }

  lemma {:induction false} OwedIsHanded(u: State, op: Op, t: Task)
    requires Shape(u) && Enabled(u, op) && MustNotify(u, op, t)
    ensures Step(u, op).handed[t] == u.handed[t] + 1 && Step(u, op).stale == u.stale
  {
    if !op.Add? { ForAllCount(u.observers.Keys, op.n, t); } else { assert ThreadOk(u.threads[op.s]); }
  }

  lemma {:induction false} OnceAtTheEnd(end: State, t: Task)
    requires Inv(end) && t in end.handed && t !in end.stale && Quiet(end)
    ensures Times(end.begun, t) == 1
  {
    assert Balanced(end, t) && Recorded(end, t);
    TotalOfIdle(end.threads, t);
  }

  /** Under EXISTING_ONLY an observer that was not registered when n was sent never gets n. */
  lemma {:induction false} LatecomersGetNothing(st: State, ops: seq<Op>, t: Task)
    requires Inv(st) && EnabledRun(st, ops) && st.policy.ExistingOnly? && t.n in st.issued && t !in st.handed
    ensures t !in Run(st, ops).handed && t !in Run(st, ops).begun
    decreases |ops|
  {
    if ops == [] {
      assert Balanced(st, t);
    } else {
      match ops[0] {
        case NotifyBegin(n) => ForAllCount(st.observers.Keys, n, t);
        case SyncBegin(_, n) => ForAllCount(st.observers.Keys, n, t);
        case _ =>
      }
      StepKeepsInv(st, ops[0]);
      LatecomersGetNothing(Step(st, ops[0]), ops[1..], t);
    }
  }

  // ----- A run that shows what does not hold -----

  /** The callback of 8 removes 7 and adds it again. */
  lemma {:induction false} ReaddedInCallback(st: State) returns (ops: seq<Op>)
    requires st.lock.Free? && st.policy.All? && st.observers == map[7 := 0, 8 := 0] && st.threads != []
    requires st.threads[0] == Thread([Task(7, 1)], Push(Running(Task(8, 1), Nothing), Empty), Mine(1))
    ensures EnabledRun(st, ops)
    ensures var end := Run(st, ops);
            && end.lock.Free? && end.observers == map[7 := 0, 8 := 0]
            && |end.threads| == |st.threads| && end.begun == st.begun
            && end.threads[0] == Thread([Task(7, 1), Task(7, 1)], Empty, Nothing)
  {
    var d := Step(st, Remove(7));
    var e := Step(d, Add(0, 7));
    assert e.threads[0].queue == [Task(7, 1), Task(7, 1)] && e.observers == map[7 := 0, 8 := 0];
    var o: seq<Op> := [Local(0, EndCallback)];
    MoveOne(e, EndCallback, Thread([Task(7, 1), Task(7, 1)], Empty, Nothing));
    Prepend(d, Add(0, 7), o);
    Prepend(st, Remove(7), [Add(0, 7)] + o);
    ops := [Remove(7)] + ([Add(0, 7)] + o);
  }

  /** Under ALL an observer that a callback removes and adds again gets the notification twice. */
  lemma {:induction false} ReaddedGetsItTwice(st: State) returns (ops: seq<Op>)
    requires Init(st) && st.policy.All? && st.threads != []
    ensures EnabledRun(st, ops) && Times(Run(st, ops).begun, Task(7, 1)) == 2
  {
    ops := TwoAdded(st);
    var o := TwoNotified(Run(st, ops));
    Concat(st, ops, o);
    ops := ops + o;
    assert [Task(8, 1), Task(7, 1)] == [Task(8, 1)] + [Task(7, 1)];
    o := BeginOne(Run(st, ops), Task(8, 1), [Task(7, 1)]);
    Concat(st, ops, o);
    ops := ops + o;
    o := ReaddedInCallback(Run(st, ops));
    Concat(st, ops, o);
    ops := ops + o;
    o := TwiceDelivered(Run(st, ops), Task(7, 1));
    Concat(st, ops, o);
    ops := ops + o;
    assert Run(st, ops).begun == [Task(8, 1), Task(7, 1), Task(7, 1)];
  }

  lemma {:induction false} TwiceDelivered(st: State, t: Task) returns (ops: seq<Op>)
    requires st.lock.Free? && t.obs in st.observers && st.observers[t.obs] == 0 && st.threads != []
    requires st.threads[0] == Thread([t, t], Empty, Nothing)
    ensures EnabledRun(st, ops) && Run(st, ops).begun == st.begun + [t, t]
  {
    assert [t, t] == [t] + [t] && [t] == [t] + [];
    var a := DeliverOne(st, t, [t]);
    var b := DeliverOne(Run(st, a), t, []);
    Concat(st, a, b);
    ops := a + b;
  }
}
