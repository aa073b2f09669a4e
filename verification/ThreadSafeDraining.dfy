/** Whether the queues of an ObserverListThreadSafe can drain: what the sequences and the loops under way do when
    clients neither add, remove nor notify. */
module ThreadSafeDraining {
  import opened ThreadSafeObserverList
  import opened ThreadSafeRuns

  /** Going on with what is under way. */
  predicate GoesOn(op: Op) {
    match op
    case NotifyPost(_) => true
    case NotifyEnd => true
    case SyncVisit(_) => true
    case SyncEnd => true
    case Local(_, m) => !m.ForeignBegin?
    case _ => false
  }

  predicate AllGoOn(ops: seq<Op>) {
    forall k :: 0 <= k < |ops| ==> GoesOn(ops[k])
  }

  // ----- Each step leaves less to do -----

  function FrameWork(f: Frame): nat {
    match f
    case Waiting(_) => 3
    case Checked(_) => 2
    case Dispatching(_, todo) => 1 + 4 * |todo|
    case _ => 1
  }

  function StackWork(stack: Stack): nat {
    match stack
    case Empty => 0
    case Push(f, below) => FrameWork(f) + StackWork(below)
  }

  function ThreadWork(th: Thread): nat {
    4 * |th.queue| + StackWork(th.stack)
  }

  function ThreadsWork(threads: seq<Thread>): nat {
    if threads == [] then 0 else ThreadWork(threads[0]) + ThreadsWork(threads[1..])
  }

  function LockWork(lock: Lock): nat {
    match lock
    case Free => 0
    case Notifying(_, todo) => 1 + 5 * |todo|
    case NotifyingSync(_, _, todo, mine) => 1 + 5 * |todo| + 4 * |mine|
  }

  function Work(st: State): nat {
    LockWork(st.lock) + ThreadsWork(st.threads)
  }

  lemma {:induction false} WorkUpdate(threads: seq<Thread>, s: nat, th: Thread)
    requires s < |threads|
    ensures ThreadsWork(threads[s := th]) == ThreadsWork(threads) - ThreadWork(threads[s]) + ThreadWork(th)
    ensures ThreadWork(threads[s]) <= ThreadsWork(threads)
  {
    if s > 0 {
      assert threads[s := th][1..] == threads[1..][s - 1 := th];
      WorkUpdate(threads[1..], s - 1, th);
    } else {
      assert threads[s := th][1..] == threads[1..];
    }
  }

  lemma {:induction false} MoveWorks(th: Thread, m: Move, registered: set<nat>)
    requires CanMove(th, m) && !m.ForeignBegin?
    ensures ThreadWork(Moved(th, m, registered)) < ThreadWork(th)
  {
    if m.SyncNext? {
      var Push(Dispatching(n, todo), below) := th.stack;
      var rest := Push(Dispatching(n, todo[1..]), below);
      assert StackWork(rest) == 1 + 4 * (|todo| - 1) + StackWork(below);
      assert StackWork(Push(Waiting(Task(todo[0], n)), rest)) == 3 + StackWork(rest);
    }
  }

  lemma {:induction false} StepWorks(st: State, op: Op)
    requires LockOk(st) && Enabled(st, op) && GoesOn(op)
    ensures Work(Step(st, op)) < Work(st)
  {
    match op
    case Local(s, m) =>
      var th := Moved(st.threads[s], m, st.observers.Keys);
      MoveWorks(st.threads[s], m, st.observers.Keys);
      WorkUpdate(st.threads, s, th);
    case NotifyPost(o) =>
      var s := st.observers[o];
      WorkUpdate(st.threads, s, Posted(st.threads[s], Task(o, st.lock.n)));
    case SyncVisit(o) =>
      var s := st.observers[o];
      WorkUpdate(st.threads, s, Posted(st.threads[s], Task(o, st.lock.n)));
    case SyncEnd =>
      var th := st.threads[st.lock.who];
      WorkUpdate(st.threads, st.lock.who, th.(stack := Push(Dispatching(st.lock.n, st.lock.mine), th.stack.below)));
    case NotifyEnd =>
  }

  /** However what is under way goes on, it comes to an end. */
  lemma {:induction false} GoingOnIsBounded(st: State, ops: seq<Op>)
    requires Shape(st) && EnabledRun(st, ops) && AllGoOn(ops)
    ensures |ops| + Work(Run(st, ops)) <= Work(st)
    decreases |ops|
  {
    if ops != [] {
      StepWorks(st, ops[0]);
      StepKeepsShape(st, ops[0]);
      GoingOnIsBounded(Step(st, ops[0]), ops[1..]);
    }
  }

  // ----- What can be stuck -----

  /** How often t is under way on a sequence and has not passed the check for its observer. */
  function UncheckedOnStack(stack: Stack, t: Task): nat {
    match stack
    case Empty => 0
    case Push(f, below) => (if f.Checked? then 0 else FrameCount(f, t)) + UncheckedOnStack(below, t)
  }

  function Unchecked(th: Thread, t: Task): nat {
    multiset(th.queue)[t] + UncheckedOnStack(th.stack, t)
  }

  /** No task is to be checked on a sequence other than the one where its observer is registered, if it is. */
  ghost predicate AllAtHome(st: State) {
    forall s, t :: 0 <= s < |st.threads| && Unchecked(st.threads[s], t) > 0 && t.obs in st.observers ==>
      st.observers[t.obs] == s
  }

  lemma {:induction false} PostedUnchecked(th: Thread, t: Task, u: Task)
    ensures Unchecked(Posted(th, t), u) == Unchecked(th, u) + if t == u then 1 else 0
  {
  }

  /** Going on moves a task up to its check, and past it only if the observer is at home or gone. */
  lemma {:induction false} MovedUnchecked(th: Thread, m: Move, registered: set<nat>, t: Task)
    requires CanMove(th, m)
    ensures Unchecked(Moved(th, m, registered), t) <= Unchecked(th, t)
    ensures !(m.Check? && th.stack.top.t == t) ==> Unchecked(Moved(th, m, registered), t) == Unchecked(th, t)
  {
    match m
    case StartTask =>
      assert th.queue == [th.queue[0]] + th.queue[1..];
      assert multiset(th.queue)[t] == multiset(th.queue[1..])[t] + if th.queue[0] == t then 1 else 0;
    case SyncNext => SyncNextUnchecked(th, registered, t);
    case _ =>
  }

  lemma {:induction false} SyncNextUnchecked(th: Thread, registered: set<nat>, t: Task)
    requires CanMove(th, SyncNext)
    ensures Unchecked(Moved(th, SyncNext, registered), t) == Unchecked(th, t)
  {
    var Push(Dispatching(n, todo), below) := th.stack;
    var rest := Push(Dispatching(n, todo[1..]), below);
    assert multiset(todo) == multiset{todo[0]} + multiset(todo[1..]) by { assert todo == [todo[0]] + todo[1..]; }
    assert UncheckedOnStack(rest, t) == FrameCount(Dispatching(n, todo[1..]), t) + UncheckedOnStack(below, t);
    assert UncheckedOnStack(Push(Waiting(Task(todo[0], n)), rest), t)
        == FrameCount(Waiting(Task(todo[0], n)), t) + UncheckedOnStack(rest, t);
  }

  lemma {:induction false} PostKeepsHome(st: State, st': State, s: nat, t: Task)
    requires AllAtHome(st) && s < |st.threads| && t.obs in st.observers && st.observers[t.obs] == s
    requires st'.threads == st.threads[s := Posted(st.threads[s], t)] && st'.observers == st.observers
    ensures AllAtHome(st')
  {
    forall r, u | 0 <= r < |st'.threads| && Unchecked(st'.threads[r], u) > 0 && u.obs in st'.observers
      ensures st'.observers[u.obs] == r
    {
      PostedUnchecked(st.threads[s], t, u);
      if !(r == s && u == t) { assert Unchecked(st.threads[r], u) > 0; }
    }
  }

  lemma {:induction false} LocalKeepsHome(st: State, s: nat, m: Move)
    requires AllAtHome(st) && Enabled(st, Local(s, m))
    ensures AllAtHome(Step(st, Local(s, m)))
  {
    var st' := Step(st, Local(s, m));
    forall r, u | 0 <= r < |st'.threads| && Unchecked(st'.threads[r], u) > 0 && u.obs in st'.observers
      ensures st'.observers[u.obs] == r
    {
      MovedUnchecked(st.threads[s], m, st.observers.Keys, u);
      assert Unchecked(st.threads[r], u) > 0;
    }
  }

  lemma {:induction false} SyncEndKeepsHome(st: State)
    requires Shape(st) && AllAtHome(st) && Enabled(st, SyncEnd)
    ensures AllAtHome(Step(st, SyncEnd))
  {
    var st' := Step(st, SyncEnd);
    var NotifyingSync(n, who, _, mine) := st.lock;
    forall r, u | 0 <= r < |st'.threads| && Unchecked(st'.threads[r], u) > 0 && u.obs in st'.observers
      ensures st'.observers[u.obs] == r
    {
      if !(r == who && u.n == n && u.obs in mine) { assert Unchecked(st.threads[r], u) > 0; }
    }
  }

  lemma {:induction false} StepKeepsHome(st: State, op: Op)
    requires Shape(st) && AllAtHome(st) && Enabled(st, op) && GoesOn(op)
    ensures AllAtHome(Step(st, op))
  {
    match op
    case Local(s, m) => LocalKeepsHome(st, s, m);
    case NotifyPost(o) => PostKeepsHome(st, Step(st, op), st.observers[o], Task(o, st.lock.n));
    case SyncVisit(o) =>
      if st.observers[o] != st.lock.who { PostKeepsHome(st, Step(st, op), st.observers[o], Task(o, st.lock.n)); }
    case SyncEnd => SyncEndKeepsHome(st);
    case NotifyEnd =>
  }

  /** A task on the wrong sequence. */
  predicate Stray(st: State, s: nat, t: Task) {
    && s < |st.threads| && Unchecked(st.threads[s], t) > 0
    && t.obs in st.observers && st.observers[t.obs] != s
  }

  /** It stays there: its check would fail a DCHECK. */
  lemma {:induction false} StrayStays(st: State, op: Op, s: nat, t: Task)
    requires LockOk(st) && Enabled(st, op) && GoesOn(op) && Stray(st, s, t)
    ensures Stray(Step(st, op), s, t)
  {
    match op
    case Local(r, m) => if r == s { MovedUnchecked(st.threads[s], m, st.observers.Keys, t); }
    case NotifyPost(o) => PostedUnchecked(st.threads[st.observers[o]], Task(o, st.lock.n), t);
    case SyncVisit(o) => PostedUnchecked(st.threads[st.observers[o]], Task(o, st.lock.n), t);
    case _ =>
  }

  lemma {:induction false} StrayIsNotQuiet(st: State, s: nat, t: Task)
    requires Stray(st, s, t)
    ensures !Quiet(st)
  {
  }

  lemma {:induction false} StrayRun(st: State, ops: seq<Op>, s: nat, t: Task)
    requires Shape(st) && EnabledRun(st, ops) && AllGoOn(ops) && Stray(st, s, t)
    ensures Stray(Run(st, ops), s, t)
    decreases |ops|
  {
    if ops != [] {
      StrayStays(st, ops[0], s, t);
      StepKeepsShape(st, ops[0]);
      StrayRun(Step(st, ops[0]), ops[1..], s, t);
    }
  }

  // ----- Nothing else is stuck -----

  /** A sequence that collects holds the lock. */
  ghost predicate CollectorsHold(st: State) {
    forall s :: 0 <= s < |st.threads| && st.threads[s].stack.Push? && st.threads[s].stack.top.Collecting? ==>
      st.lock.NotifyingSync? && st.lock.who == s
  }

  lemma {:induction false} MovedIsNoCollector(th: Thread, m: Move, registered: set<nat>)
    requires CanMove(th, m) && WellNested(th.stack)
    ensures Moved(th, m, registered).stack.Push? ==> !Moved(th, m, registered).stack.top.Collecting?
  {
  }

  lemma {:induction false} StepKeepsCollectors(st: State, op: Op)
    requires Shape(st) && CollectorsHold(st) && Enabled(st, op)
    ensures CollectorsHold(Step(st, op))
  {
    match op
    case Local(s, m) =>
      assert ThreadOk(st.threads[s]);
      MovedIsNoCollector(st.threads[s], m, st.observers.Keys);
    case _ =>
  }

  lemma {:induction false} RunKeepsCollectors(st: State, ops: seq<Op>)
    requires Shape(st) && CollectorsHold(st) && EnabledRun(st, ops)
    ensures CollectorsHold(Run(st, ops))
    decreases |ops|
  {
    if ops != [] {
      StepKeepsShape(st, ops[0]);
      StepKeepsCollectors(st, ops[0]);
      RunKeepsCollectors(Step(st, ops[0]), ops[1..]);
    }
  }

  lemma {:induction false} NextOfLock(st: State) returns (op: Op)
    requires Shape(st) && !st.lock.Free?
    ensures Enabled(st, op) && GoesOn(op)
  {
    if st.lock.todo == {} {
      op := if st.lock.Notifying? then NotifyEnd else SyncEnd;
    } else {
      var o :| o in st.lock.todo;
      op := if st.lock.Notifying? then NotifyPost(o) else SyncVisit(o);
    }
  }

  lemma {:induction false} NextOfThread(st: State, s: nat) returns (op: Op)
    requires st.lock.Free? && AllAtHome(st) && CollectorsHold(st) && s < |st.threads|
    requires st.threads[s].queue != [] || st.threads[s].stack.Push?
    ensures Enabled(st, op) && GoesOn(op)
  {
    var th := st.threads[s];
    if th.stack.Empty? {
      op := Local(s, StartTask);
    } else {
      match th.stack.top
      case Waiting(t) =>
        assert Unchecked(th, t) > 0;
        op := Local(s, Check);
      case Checked(_) => op := Local(s, BeginCallback);
      case Running(_, _) => op := Local(s, EndCallback);
      case Foreign(_) => op := Local(s, ForeignEnd);
      case Dispatching(_, todo) => op := Local(s, if todo == [] then SyncDone else SyncNext);
    }
  }

  /** As long as something is under way, something of it can go on. */
  lemma {:induction false} SomethingGoesOn(st: State) returns (op: Op)
    requires Shape(st) && AllAtHome(st) && CollectorsHold(st) && !Quiet(st)
    ensures Enabled(st, op) && GoesOn(op)
  {
    if !st.lock.Free? {
      op := NextOfLock(st);
    } else {
      var s :| 0 <= s < |st.threads| && (st.threads[s].queue != [] || st.threads[s].stack.Push?);
      op := NextOfThread(st, s);
    }
  }

  lemma {:induction false} Drains(st: State) returns (ops: seq<Op>)
    requires Shape(st) && AllAtHome(st) && CollectorsHold(st)
    ensures EnabledRun(st, ops) && AllGoOn(ops) && Quiet(Run(st, ops))
    decreases Work(st)
  {
    ops := [];
    if !Quiet(st) {
      var op := SomethingGoesOn(st);
      StepWorks(st, op);
      StepKeepsShape(st, op);
      StepKeepsHome(st, op);
      StepKeepsCollectors(st, op);
      var rest := Drains(Step(st, op));
      Prepend(st, op, rest);
      ops := [op] + rest;
    }
  }

  ghost predicate QuietAfter(st: State, ops: seq<Op>) {
    EnabledRun(st, ops) && AllGoOn(ops) && Quiet(Run(st, ops))
  }

  /** From a state that a run has come to, what is under way can drain, with no help from clients, if and only if no
      task is still to be checked on a sequence other than its observer's. */
  lemma {:induction false} DrainsIffAllAtHome(st: State, before: seq<Op>)
    requires Init(st) && EnabledRun(st, before)
    ensures (exists ops :: QuietAfter(Run(st, before), ops)) <==> AllAtHome(Run(st, before))
  {
    var u := Run(st, before);
    InitInv(st);
    RunKeepsInv(st, before);
    RunKeepsCollectors(st, before);
    if AllAtHome(u) {
      var ops := Drains(u);
      assert QuietAfter(u, ops);
    }
    if ops :| QuietAfter(u, ops) {
      forall s, t | 0 <= s < |u.threads| && Unchecked(u.threads[s], t) > 0 && t.obs in u.observers
        ensures u.observers[t.obs] == s
      {
        if u.observers[t.obs] != s {
          StrayRun(u, ops, s, t);
          StrayIsNotQuiet(Run(u, ops), s, t);
        }
      }
    }
  }

  /** Observer 7 is removed and added again on sequence 1 while a task for it waits on sequence 0. */
  lemma {:induction false} AddedElsewhere(st: State) returns (ops: seq<Op>)
    requires st.lock.Free? && st.observers == map[7 := 0] && |st.threads| == 2 && InClient(st.threads[1].stack)
    requires st.threads[0] == Thread([Task(7, 1)], Empty, Nothing) && st.threads[1].current.Nothing?
    ensures EnabledRun(st, ops) && Stray(Run(st, ops), 0, Task(7, 1))
  {
    var a := Step(st, Remove(7));
    var b := Step(a, Add(1, 7));
    assert b.observers[7] == 1 && Unchecked(b.threads[0], Task(7, 1)) > 0;
    Prepend(a, Add(1, 7), []);
    Prepend(st, Remove(7), [Add(1, 7)] + []);
    ops := [Remove(7)] + ([Add(1, 7)] + []);
  }

  /** After that the queues cannot drain. */
  lemma {:induction false} NeverDrains(st: State) returns (ops: seq<Op>)
    requires Init(st) && |st.threads| == 2
    ensures EnabledRun(st, ops) && !(exists more :: QuietAfter(Run(st, ops), more))
  {
    ops := OnePosted(st);
    var o := AddedElsewhere(Run(st, ops));
    Concat(st, ops, o);
    ops := ops + o;
    assert !AllAtHome(Run(st, ops));
    DrainsIffAllAtHome(st, ops);
  }
}
