/** The order in which an observer of an ObserverListThreadSafe gets two notifications: exactly when the later one
    can overtake the earlier one. */
module ThreadSafeOvertaking {
  import opened ThreadSafeObserverList
  import opened ThreadSafeRuns
  import opened ThreadSafeDraining
  import opened ThreadSafeOrder

  /** The observers registered on sequence s. */
  function Home(st: State, s: nat): set<nat> {
    set o | o in st.observers && st.observers[o] == s
  }

  predicate NoneIn(todo: seq<nat>, home: set<nat>) {
    forall i :: 0 <= i < |todo| ==> todo[i] !in home
  }

  /** Of what the second loop of NotifySynchronously has still to call, t is the first that is registered. */
  predicate FirstOfTodo(n: nat, todo: seq<nat>, t: Task, home: set<nat>) {
    todo != [] && (Task(todo[0], n) == t || (todo[0] !in home && FirstOfTodo(n, todo[1..], t, home)))
  }

  /** On a sequence with this stack, t is the next callback to begin, and no client code runs before it. */
  predicate ComesNext(stack: Stack, t: Task, home: set<nat>) {
    match stack
    case Push(Waiting(u), below) => u == t || (u.obs !in home && ComesNext(below, t, home))
    case Push(Checked(u), _) => u == t
    case Push(Dispatching(n, todo), below) =>
      FirstOfTodo(n, todo, t, home) || (NoneIn(todo, home) && ComesNext(below, t, home))
    case _ => false
  }

  /** op sends notification t.n while the observer of t is registered. */
  ghost predicate SendsTo(st: State, op: Op, t: Task) {
    t.obs in st.observers && (op == NotifyBegin(t.n) || (op.SyncBegin? && op.n == t.n))
  }

  /** t1 has begun, or t2 is posted to the sequence s of their observer and t1 is in its queue or comes next on it. */
  ghost predicate KeepsOrder(st: State, op: Op, s: nat, t1: Task, t2: Task)
    requires s < |st.threads|
  {
    || t1 in st.begun
    || (PostsTo(st, op, t2)
        && (t1 in st.threads[s].queue || ComesNext(st.threads[s].stack, t1, Home(st, s))))
  }

  /** t2 begins, and no t1 before it. */
  ghost predicate OvertakenIn(st: State, ops: seq<Op>, t1: Task, t2: Task)
    requires EnabledRun(st, ops)
  {
    t2 in Run(st, ops).begun && !Ahead(Run(st, ops).begun, t1, t2)
  }

  /** In some continuation in which their observer stays registered, t2 overtakes t1. */
  ghost predicate CanOvertake(st: State, t1: Task, t2: Task) {
    exists ops :: EnabledRun(st, ops) && Remove(t1.obs) !in ops && OvertakenIn(st, ops, t1, t2)
  }

  // ----- When it cannot -----

  lemma {:induction false} AheadPrefix(a: seq<Task>, b: seq<Task>, t1: Task, t2: Task)
    requires Ahead(a, t1, t2) && a <= b
    ensures Ahead(b, t1, t2)
  {
    var i :| 0 <= i < |a| && a[i] == t1 && t2 !in a[..i];
    assert b[i] == t1 && b[..i] == a[..i];
  }

  lemma {:induction false} BegunStaysAhead(st: State, ops: seq<Op>, t1: Task, t2: Task)
    requires EnabledRun(st, ops) && t1 in st.begun && t2 !in st.begun
    ensures Ahead(Run(st, ops).begun, t1, t2)
  {
    HistoryGrows(st, ops);
    AheadAlone(st.begun, t1, t2);
    AheadPrefix(st.begun, Run(st, ops).begun, t1, t2);
  }

  lemma {:induction false} FirstOfFewer(n: nat, todo: seq<nat>, t: Task, home: set<nat>, fewer: set<nat>)
    requires FirstOfTodo(n, todo, t, home) && fewer <= home
    ensures FirstOfTodo(n, todo, t, fewer)
  {
    if Task(todo[0], n) != t { FirstOfFewer(n, todo[1..], t, home, fewer); }
  }

  lemma {:induction false} NextOfFewer(stack: Stack, t: Task, home: set<nat>, fewer: set<nat>)
    requires ComesNext(stack, t, home) && fewer <= home
    ensures ComesNext(stack, t, fewer)
  {
    match stack
    case Push(Waiting(u), below) => if u != t { NextOfFewer(below, t, home, fewer); }
    case Push(Dispatching(n, todo), below) =>
      if FirstOfTodo(n, todo, t, home) { FirstOfFewer(n, todo, t, home, fewer); }
      else { NextOfFewer(below, t, home, fewer); }
    case _ =>
  }

  /** t1 comes next, and t2 is nowhere past the queue. */
  ghost predicate Held(st: State, s: nat, t1: Task, t2: Task) {
    && t1 != t2 && t1.obs == t2.obs && OnSequence(st, s, t1.obs)
    && t2 !in st.stale && t2.n in st.issued && t2 !in st.begun
    && (st.lock.NotifyingSync? && st.lock.n == t2.n ==> st.lock.who != s)
    && StackCount(st.threads[s].stack, t2) == 0
    && ComesNext(st.threads[s].stack, t1, Home(st, s))
  }

  lemma {:induction false} SyncNextComesNext(n: nat, todo: seq<nat>, below: Stack, t: Task, home: set<nat>)
    requires todo != []
    ensures ComesNext(Push(Dispatching(n, todo), below), t, home)
            <==> ComesNext(Push(Waiting(Task(todo[0], n)), Push(Dispatching(n, todo[1..]), below)), t, home)
  {
    assert NoneIn(todo, home) <==> todo[0] !in home && NoneIn(todo[1..], home) by {
      assert todo == [todo[0]] + todo[1..];
    }
  }

  lemma {:induction false} MovedHeld(th: Thread, m: Move, registered: set<nat>, home: set<nat>, t1: Task, t2: Task)
    requires CanMove(th, m) && ComesNext(th.stack, t1, home) && StackCount(th.stack, t2) == 0 && t1 != t2
    requires home <= registered && t1.obs in home
    requires m.Check? && th.stack.top.t.obs in registered ==> th.stack.top.t.obs in home
    ensures StackCount(Moved(th, m, registered).stack, t2) == 0 && t2 !in Begins(th, m)
    ensures t1 in Begins(th, m) || ComesNext(Moved(th, m, registered).stack, t1, home)
  {
    if m.SyncNext? {
      var Push(Dispatching(n, todo), below) := th.stack;
      SyncNextComesNext(n, todo, below, t1, home);
      SyncNextPending(th, registered, t2);
    }
  }

  lemma {:induction false} LocalKeepsHeld(st: State, r: nat, m: Move, s: nat, t1: Task, t2: Task)
    requires Located(st) && Enabled(st, Local(r, m)) && Held(st, s, t1, t2)
    ensures Held(Step(st, Local(r, m)), s, t1, t2) || Before(Step(st, Local(r, m)), s, t1, t2)
  {
    var th, st' := st.threads[r], Step(st, Local(r, m));
    assert Home(st', s) == Home(st, s);
    if m.BeginCallback? {
      assert Pending(th, th.stack.top.t) > 0;
      assert AtHome(st, r, th.stack.top.t);
    }
    if r == s {
      MovedHeld(th, m, st.observers.Keys, Home(st, s), t1, t2);
      if t1 in Begins(th, m) { AheadAlone(st'.begun, t1, t2); }
    }
  }

  lemma {:induction false} HeldStep(st: State, op: Op, s: nat, t1: Task, t2: Task)
    requires Shape(st) && Located(st) && Enabled(st, op) && Held(st, s, t1, t2) && op != Remove(t1.obs)
    ensures Held(Step(st, op), s, t1, t2) || Before(Step(st, op), s, t1, t2)
  {
    match op
    case Local(r, m) => LocalKeepsHeld(st, r, m, s, t1, t2);
    case Remove(o) => NextOfFewer(st.threads[s].stack, t1, Home(st, s), Home(Step(st, op), s));
    case Add(r, o) => AddKeepsHeld(st, r, o, s, t1, t2);
    case _ => assert Home(Step(st, op), s) == Home(st, s);
  }

  /** Nobody can be added on a sequence where no client code runs. */
  lemma {:induction false} AddKeepsHeld(st: State, r: nat, o: nat, s: nat, t1: Task, t2: Task)
    requires Enabled(st, Add(r, o)) && Held(st, s, t1, t2)
    ensures Held(Step(st, Add(r, o)), s, t1, t2)
  {
    assert r != s;
    assert Home(Step(st, Add(r, o)), s) == Home(st, s);
  }

  lemma {:induction false} HeldRun(st: State, ops: seq<Op>, s: nat, t1: Task, t2: Task)
    requires Inv(st) && EnabledRun(st, ops) && Held(st, s, t1, t2) && Remove(t1.obs) !in ops
    ensures Held(Run(st, ops), s, t1, t2) || Before(Run(st, ops), s, t1, t2)
    decreases |ops|
  {
    if ops != [] {
      StepKeepsInv(st, ops[0]);
      HeldStep(st, ops[0], s, t1, t2);
      if Before(Step(st, ops[0]), s, t1, t2) {
        BeforeRun(Step(st, ops[0]), ops[1..], s, t1, t2);
      } else {
        HeldRun(Step(st, ops[0]), ops[1..], s, t1, t2);
      }
    }
  }

  lemma {:induction false} KeptInOrder(st: State, op: Op, ops: seq<Op>, s: nat, t1: Task, t2: Task)
    requires Inv(st) && Enabled(st, op) && t1.obs == t2.obs && t1 != t2 && OnSequence(st, s, t1.obs)
    requires SendsTo(st, op, t2) && KeepsOrder(st, op, s, t1, t2)
    requires EnabledRun(Step(st, op), ops) && Remove(t1.obs) !in ops
    ensures !OvertakenIn(Step(st, op), ops, t1, t2)
  {
    assert Balanced(st, t2) && Recorded(st, t2);
    UnsentIsNowhere(st, s, t2);
    if t1 in st.begun {
      BegunStaysAhead(Step(st, op), ops, t1, t2);
    } else if t1 in st.threads[s].queue {
      LaterStaysBehind(st, op, ops, s, t1, t2);
    } else {
      StepKeepsInv(st, op);
      assert Home(Step(st, op), s) == Home(st, s);
      HeldRun(Step(st, op), ops, s, t1, t2);
    }
  }

  // ----- When it can -----

  /** end is what a loop that holds the lock in st leads to, as sequence s sees it. */
  ghost predicate Finished(st: State, s: nat, end: State)
    requires !st.lock.Free? && s < |st.threads|
  {
    && end.lock.Free? && end.observers == st.observers && end.begun == st.begun && end.stale == st.stale
    && |end.threads| == |st.threads| && st.threads[s].queue <= end.threads[s].queue
    && (if st.lock.NotifyingSync? && st.lock.who == s
        then DispatchesFrom(end.threads[s].stack, st.lock.n, st.lock.mine)
        else end.threads[s].stack == st.threads[s].stack
             && forall o :: o in st.lock.todo * Home(st, s) ==> Task(o, st.lock.n) in end.threads[s].queue)
  }

  predicate DispatchesFrom(stack: Stack, n: nat, mine: seq<nat>) {
    stack.Push? && stack.top.Dispatching? && stack.top.n == n && mine <= stack.top.todo
  }

  lemma {:induction false} FinishLoop(st: State, s: nat) returns (ops: seq<Op>)
    requires Shape(st) && !st.lock.Free? && s < |st.threads|
    ensures EnabledRun(st, ops) && AllGoOn(ops) && Finished(st, s, Run(st, ops))
    decreases |st.lock.todo|
  {
    if st.lock.todo == {} {
      var op := if st.lock.Notifying? then NotifyEnd else SyncEnd;
      Prepend(st, op, []);
      ops := [op] + [];
    } else {
      var o :| o in st.lock.todo;
      var op := if st.lock.Notifying? then NotifyPost(o) else SyncVisit(o);
      var st1 := Step(st, op);
      StepKeepsShape(st, op);
      var rest := FinishLoop(st1, s);
      Prepend(st, op, rest);
      ops := [op] + rest;
      assert Home(st1, s) == Home(st, s);
      VisitedAndFinished(st, o, s, Run(st1, rest));
    }
  }

  lemma {:induction false} VisitedAndFinished(st: State, o: nat, s: nat, end: State)
    requires Shape(st) && !st.lock.Free? && s < |st.threads| && o in st.lock.todo
    requires var op := if st.lock.Notifying? then NotifyPost(o) else SyncVisit(o);
             Enabled(st, op) && Finished(Step(st, op), s, end)
    ensures Finished(st, s, end)
  {
    var st1 := Step(st, if st.lock.Notifying? then NotifyPost(o) else SyncVisit(o));
    assert Home(st1, s) == Home(st, s);
    if o in Home(st, s) && !(st.lock.NotifyingSync? && st.lock.who == s) {
      var k := |st.threads[s].queue|;
      assert st1.threads[s].queue[k] == Task(o, st.lock.n) == end.threads[s].queue[k];
    }
  }

  /** Client code of sequence s runs, or can run before t1 begins; t2 is in the queue. */
  ghost predicate Stalled(st: State, s: nat, t1: Task, t2: Task) {
    && Inv(st) && CollectorsHold(st) && st.lock.Free?
    && t1 != t2 && t1.obs == t2.obs && OnSequence(st, s, t1.obs) && t1 !in st.stale && t2 !in st.stale
    && StackCount(st.threads[s].stack, t1) > 0 && t2 in st.threads[s].queue
    && !ComesNext(st.threads[s].stack, t1, Home(st, s))
  }

  /** A task that is not stale is in one place only. */
  lemma {:induction false} OnePlaceOnly(st: State, s: nat, t: Task)
    requires Inv(st) && s < |st.threads| && t !in st.stale
    ensures StackCount(st.threads[s].stack, t) > 0 ==> t !in st.threads[s].queue && t !in st.begun
    ensures t in st.threads[s].queue ==> t !in st.begun
  {
    assert Balanced(st, t) && Recorded(st, t);
    TotalUpdate(st.threads, s, st.threads[s], t);
  }

  lemma {:induction false} LocalFacts(st: State, s: nat, m: Move)
    requires Inv(st) && CollectorsHold(st) && Enabled(st, Local(s, m))
    ensures var e := Step(st, Local(s, m));
            && Inv(e) && CollectorsHold(e) && e.lock == st.lock && e.observers == st.observers
            && e.stale == st.stale && e.begun == st.begun + Begins(st.threads[s], m)
            && |e.threads| == |st.threads| && e.threads[s] == Moved(st.threads[s], m, st.observers.Keys)
            && Home(e, s) == Home(st, s)
  {
    StepKeepsInv(st, Local(s, m));
    StepKeepsCollectors(st, Local(s, m));
  }

  /** Taking an observer out that is registered on another sequence. */
  lemma {:induction false} RemoveFacts(st: State, s: nat, o: nat)
    requires Inv(st) && CollectorsHold(st) && st.lock.Free? && o !in Home(st, s)
    ensures var e := Step(st, Remove(o));
            && Inv(e) && CollectorsHold(e) && e.lock == st.lock && e.threads == st.threads && e.begun == st.begun
            && o !in e.observers && Home(e, s) == Home(st, s)
            && (forall t: Task :: t.obs != o ==> (t in e.stale <==> t in st.stale))
            && (forall x :: x != o ==> (x in e.observers <==> x in st.observers))
            && (forall x :: x != o && x in st.observers ==> e.observers[x] == st.observers[x])
  {
    StepKeepsInv(st, Remove(o));
    StepKeepsCollectors(st, Remove(o));
  }

  /** Sequence s is about to check a task whose observer is not registered there: the task can be dropped. */
  lemma {:induction false} DropTop(st: State, s: nat, o: nat) returns (ops: seq<Op>)
    requires Inv(st) && CollectorsHold(st) && st.lock.Free? && OnSequence(st, s, o)
    requires st.threads[s].stack.Push? && st.threads[s].stack.top.Waiting?
    requires st.threads[s].stack.top.t.obs !in Home(st, s)
    ensures EnabledRun(st, ops) && Remove(o) !in ops
    ensures var e, th := Run(st, ops), st.threads[s];
            && Inv(e) && CollectorsHold(e) && e.lock.Free? && OnSequence(e, s, o) && Home(e, s) == Home(st, s)
            && e.threads[s] == th.(stack := th.stack.below) && e.begun == st.begun
            && (forall t: Task :: t.obs == o ==> (t in e.stale <==> t in st.stale))
  {
    var x := st.threads[s].stack.top.t.obs;
    var st1 := Step(st, Remove(x));
    RemoveFacts(st, s, x);
    var st2 := Step(st1, Local(s, Check));
    LocalFacts(st1, s, Check);
    assert st1.begun + [] == st1.begun;
    Prepend(st1, Local(s, Check), []);
    Prepend(st, Remove(x), [Local(s, Check)] + []);
    ops := [Remove(x)] + ([Local(s, Check)] + []);
  }

  /** One step of sequence s towards its client code. */
  lemma {:induction false} CloserToClient(st: State, s: nat, t1: Task, t2: Task) returns (ops: seq<Op>)
    requires Stalled(st, s, t1, t2) && !InClient(st.threads[s].stack)
    ensures EnabledRun(st, ops) && Remove(t1.obs) !in ops && Stalled(Run(st, ops), s, t1, t2)
    ensures StackWork(Run(st, ops).threads[s].stack) < StackWork(st.threads[s].stack)
  {
    var th := st.threads[s];
    if th.stack.top.Waiting? && th.stack.top.t.obs !in Home(st, s) {
      ops := DropTop(st, s, t1.obs);
    } else {
      var m := match th.stack.top
        case Waiting(_) => Check
        case Checked(_) => BeginCallback
        case Dispatching(_, todo) => if todo == [] then SyncDone else SyncNext
        case _ => SyncDone;
      LocalFacts(st, s, m);
      MoveWorks(th, m, st.observers.Keys);
      StalledMove(th, m, st.observers.Keys, Home(st, s), t1);
      Prepend(st, Local(s, m), []);
      ops := [Local(s, m)] + [];
      assert st.begun + [] == st.begun;
    }
  }

  lemma {:induction false} StalledMove(th: Thread, m: Move, registered: set<nat>, home: set<nat>, t: Task)
    requires CanMove(th, m) && StackCount(th.stack, t) > 0 && !ComesNext(th.stack, t, home)
    requires m.Check? || m.BeginCallback? || m.SyncDone? || m.SyncNext?
    requires m.Check? ==> th.stack.top.t.obs in home && th.stack.top.t.obs in registered
    ensures var e := Moved(th, m, registered);
            StackCount(e.stack, t) > 0 && !ComesNext(e.stack, t, home) && e.queue == th.queue
            && StackWork(e.stack) < StackWork(th.stack)
  {
    MoveWorks(th, m, registered);
    if m.SyncNext? {
      var Push(Dispatching(n, todo), below) := th.stack;
      SyncNextComesNext(n, todo, below, t, home);
      SyncNextPending(th, registered, t);
    }
  }

  lemma {:induction false} ToClient(st: State, s: nat, t1: Task, t2: Task) returns (ops: seq<Op>)
    requires Stalled(st, s, t1, t2)
    ensures EnabledRun(st, ops) && Remove(t1.obs) !in ops
    ensures Stalled(Run(st, ops), s, t1, t2) && InClient(Run(st, ops).threads[s].stack)
    decreases StackWork(st.threads[s].stack)
  {
    ops := [];
    if !InClient(st.threads[s].stack) {
      var a := CloserToClient(st, s, t1, t2);
      var b := ToClient(Run(st, a), s, t1, t2);
      Concat(st, a, b);
      ops := a + b;
    }
  }

  /** Sequence s takes the first task off its queue and gets it out of the way. */
  lemma {:induction false} PassFirst(st: State, s: nat, t1: Task, t2: Task) returns (ops: seq<Op>)
    requires Stalled(st, s, t1, t2) && InClient(st.threads[s].stack) && st.threads[s].queue[0] != t2
    ensures EnabledRun(st, ops) && Remove(t1.obs) !in ops
    ensures Stalled(Run(st, ops), s, t1, t2) && InClient(Run(st, ops).threads[s].stack)
    ensures |Run(st, ops).threads[s].queue| < |st.threads[s].queue|
  {
    var th := st.threads[s];
    var u, rest := th.queue[0], th.queue[1..];
    OnePlaceOnly(st, s, t1);
    assert th.queue == [u] + rest;
    LocalFacts(st, s, StartTask);
    var st1 := Step(st, Local(s, StartTask));
    Prepend(st, Local(s, StartTask), []);
    ops := [Local(s, StartTask)] + [];
    assert st1.threads[s] == Thread(rest, Push(Waiting(u), th.stack), th.current);
    if u.obs !in Home(st, s) {
      var b := DropTop(st1, s, t1.obs);
      Concat(st, ops, b);
      ops := ops + b;
    } else {
      var b := CallTop(st1, s, u, t1.obs);
      Concat(st, ops, b);
      ops := ops + b;
      assert StackCount(Push(Running(u, th.current), th.stack), t1) == StackCount(th.stack, t1);
    }
  }

  /** Sequence s, about to check a task whose observer is registered there, gets into its callback. */
  lemma {:induction false} CallTop(st: State, s: nat, u: Task, o: nat) returns (ops: seq<Op>)
    requires Inv(st) && CollectorsHold(st) && st.lock.Free? && s < |st.threads| && u.obs in Home(st, s)
    requires st.threads[s].stack.Push? && st.threads[s].stack.top == Waiting(u)
    ensures EnabledRun(st, ops) && Remove(o) !in ops
    ensures var e, th := Run(st, ops), st.threads[s];
            && Inv(e) && CollectorsHold(e) && e.lock.Free? && e.observers == st.observers && e.stale == st.stale
            && Home(e, s) == Home(st, s) && |e.threads| == |st.threads| && e.begun == st.begun + [u]
            && e.threads[s] == Thread(th.queue, Push(Running(u, th.current), th.stack.below), Mine(u.n))
  {
    LocalFacts(st, s, Check);
    var st1 := Step(st, Local(s, Check));
    LocalFacts(st1, s, BeginCallback);
    Prepend(st1, Local(s, BeginCallback), []);
    Prepend(st, Local(s, Check), [Local(s, BeginCallback)] + []);
    ops := [Local(s, Check)] + ([Local(s, BeginCallback)] + []);
    assert st.begun + [] == st.begun;
  }

  /** In client code, a nested loop gets to t2 while t1 waits on the stack. */
  lemma {:induction false} FromQueue(st: State, s: nat, t1: Task, t2: Task) returns (ops: seq<Op>)
    requires Stalled(st, s, t1, t2) && InClient(st.threads[s].stack)
    ensures EnabledRun(st, ops) && Remove(t1.obs) !in ops
    ensures t2 in Run(st, ops).begun && t1 !in Run(st, ops).begun
    decreases |st.threads[s].queue|
  {
    if st.threads[s].queue[0] != t2 {
      var a := PassFirst(st, s, t1, t2);
      var b := FromQueue(Run(st, a), s, t1, t2);
      Concat(st, a, b);
      ops := a + b;
    } else {
      OnePlaceOnly(st, s, t1);
      LocalFacts(st, s, StartTask);
      var st1 := Step(st, Local(s, StartTask));
      Prepend(st, Local(s, StartTask), []);
      ops := [Local(s, StartTask)] + [];
      var b := CallTop(st1, s, t2, t1.obs);
      Concat(st, ops, b);
      ops := ops + b;
      assert st.begun + [] == st.begun;
    }
  }

  /** Posted to a sequence whose client code can run before t1 begins, t2 overtakes t1. */
  lemma {:induction false} PostedOvertakes(st: State, op: Op, s: nat, t1: Task, t2: Task) returns (ops: seq<Op>)
    requires Inv(st) && CollectorsHold(st) && Enabled(st, op) && t1.obs == t2.obs && t1 != t2
    requires OnSequence(st, s, t1.obs) && PostsTo(st, op, t2) && t1 !in st.stale
    requires StackCount(st.threads[s].stack, t1) > 0 && !ComesNext(st.threads[s].stack, t1, Home(st, s))
    ensures EnabledRun(Step(st, op), ops) && Remove(t1.obs) !in ops
    ensures t2 in Run(Step(st, op), ops).begun && t1 !in Run(Step(st, op), ops).begun
  {
    var st1 := Step(st, op);
    assert Recorded(st, t2);
    StepKeepsInv(st, op);
    StepKeepsCollectors(st, op);
    assert Home(st1, s) == Home(st, s);
    var a := FinishLoop(st1, s);
    RunKeepsInv(st1, a);
    RunKeepsCollectors(st1, a);
    assert Home(Run(st1, a), s) == Home(st, s);
    var b := ToClient(Run(st1, a), s, t1, t2);
    Concat(st1, a, b);
    var c := FromQueue(Run(st1, a + b), s, t1, t2);
    Concat(st1, a + b, c);
    ops := a + b + c;
    assert Remove(t1.obs) !in a;
  }

  /** NotifySynchronously on the sequence of the observer calls it first, whatever is in its queue. */
  lemma {:induction false} SyncOvertakes(st: State, s: nat, t2: Task) returns (ops: seq<Op>)
    requires Inv(st) && CollectorsHold(st) && Enabled(st, SyncBegin(s, t2.n)) && OnSequence(st, s, t2.obs)
    ensures var st1 := Step(st, SyncBegin(s, t2.n));
            EnabledRun(st1, ops) && Remove(t2.obs) !in ops && Run(st1, ops).begun == st.begun + [t2]
  {
    var op, visit := SyncBegin(s, t2.n), SyncVisit(t2.obs);
    var st1 := Step(st, op);
    StepKeepsInv(st, op);
    StepKeepsCollectors(st, op);
    var st2 := Step(st1, visit);
    StepKeepsInv(st1, visit);
    StepKeepsCollectors(st1, visit);
    assert st2.lock.mine == [t2.obs];
    var a := FinishLoop(st2, s);
    RunKeepsInv(st2, a);
    RunKeepsCollectors(st2, a);
    assert Remove(t2.obs) !in a;
    var b := CallFirst(Run(st2, a), s, t2);
    Concat(st2, a, b);
    Prepend(st1, visit, a + b);
    ops := [visit] + (a + b);
  }

  lemma {:induction false} CallFirst(st: State, s: nat, t: Task) returns (ops: seq<Op>)
    requires Inv(st) && CollectorsHold(st) && st.lock.Free? && OnSequence(st, s, t.obs)
    requires DispatchesFrom(st.threads[s].stack, t.n, [t.obs])
    ensures EnabledRun(st, ops) && Remove(t.obs) !in ops && Run(st, ops).begun == st.begun + [t]
  {
    assert st.threads[s].stack.top.todo[0] == t.obs;
    LocalFacts(st, s, SyncNext);
    var st1 := Step(st, Local(s, SyncNext));
    Prepend(st, Local(s, SyncNext), []);
    ops := [Local(s, SyncNext)] + [];
    var b := CallTop(st1, s, t, t.obs);
    Concat(st, ops, b);
    ops := ops + b;
    assert st.begun + [] == st.begun;
  }

  lemma {:induction false} SomewherePending(threads: seq<Thread>, t: Task) returns (s: nat)
    requires Total(threads, t) > 0
    ensures s < |threads| && Pending(threads[s], t) > 0
  {
    if Pending(threads[0], t) > 0 {
      s := 0;
    } else {
      var r := SomewherePending(threads[1..], t);
      s := r + 1;
    }
  }

  /** A task handed out to an observer that was not removed since is on its sequence until it begins. */
  lemma {:induction false} IsOnItsSequence(st: State, s: nat, t: Task)
    requires Inv(st) && st.lock.Free? && OnSequence(st, s, t.obs) && t in st.handed && t !in st.stale && t !in st.begun
    ensures t in st.threads[s].queue || StackCount(st.threads[s].stack, t) > 0
  {
    assert Balanced(st, t) && Recorded(st, t);
    var r := SomewherePending(st.threads, t);
    assert AtHome(st, r, t);
  }

  /** In every reachable state, for an observer that is owed t1 and was not removed since it was sent: when t2 is sent
      to it too, t2 can overtake t1 if and only if t1 has not begun and either t2 is dispatched by a
      NotifySynchronously on the observer's own sequence, or client code can run there before t1, which such a
      NotifySynchronously has still to dispatch. */
  lemma {:induction false} OvertakesIff(st: State, op: Op, s: nat, t1: Task, t2: Task)
    requires Inv(st) && CollectorsHold(st) && Enabled(st, op) && t1.obs == t2.obs && t1 != t2
    requires OnSequence(st, s, t1.obs) && SendsTo(st, op, t2) && t1 in st.handed && t1 !in st.stale
    ensures CanOvertake(Step(st, op), t1, t2) <==> !KeepsOrder(st, op, s, t1, t2)
  {
    var st1 := Step(st, op);
    if KeepsOrder(st, op, s, t1, t2) {
      forall ops | EnabledRun(st1, ops) && Remove(t1.obs) !in ops ensures !OvertakenIn(st1, ops, t1, t2) {
        KeptInOrder(st, op, ops, s, t1, t2);
      }
    } else {
      var ops;
      if PostsTo(st, op, t2) {
        IsOnItsSequence(st, s, t1);
        ops := PostedOvertakes(st, op, s, t1, t2);
      } else {
        ops := SyncOvertakes(st, s, t2);
      }
      assert OvertakenIn(st1, ops, t1, t2);
    }
  }

  /** For a notification that was posted, however often its observer was removed and added before: it is overtaken if
      and only if it has not begun and the next one is sent by NotifySynchronously on the observer's own sequence. */
  lemma {:induction false} PostedIsOvertakenIff(st: State, op: Op, s: nat, t1: Task, t2: Task)
    requires Inv(st) && CollectorsHold(st) && Enabled(st, op) && t1.obs == t2.obs && t1 != t2
    requires InTheMail(st, s, t1) && SendsTo(st, op, t2)
    ensures CanOvertake(Step(st, op), t1, t2) <==> t1 !in st.begun && op == SyncBegin(s, t2.n)
  {
    var st1 := Step(st, op);
    if t1 in st.begun || op != SyncBegin(s, t2.n) {
      forall ops | EnabledRun(st1, ops) && Remove(t1.obs) !in ops ensures !OvertakenIn(st1, ops, t1, t2) {
        KeptInOrder(st, op, ops, s, t1, t2);
      }
    } else {
      var ops := SyncOvertakes(st, s, t2);
      assert OvertakenIn(st1, ops, t1, t2);
    }
  }

  // ----- Both ways to be overtaken do happen -----

  /** A NotifySynchronously on the sequence of the observer can overtake a notification that was posted before. */
  lemma {:induction false} SyncOvertakesPosted(st: State) returns (ops: seq<Op>)
    requires Init(st) && st.threads != []
    ensures EnabledRun(st, ops) && |ops| == 4 && ops[1] == NotifyBegin(1)
    ensures var u := Run(st, ops);
            && u.begun == [] && Enabled(u, SyncBegin(0, 2))
            && CanOvertake(Step(u, SyncBegin(0, 2)), Task(7, 1), Task(7, 2))
  {
    ops := OnePosted(st);
    InitInv(st);
    RunKeepsInv(st, ops);
    RunKeepsCollectors(st, ops);
    assert Run(st, ops).threads[0].queue[0] == Task(7, 1);
    PostedIsOvertakenIff(Run(st, ops), SyncBegin(0, 2), 0, Task(7, 1), Task(7, 2));
  }

  /** NotifySynchronously(1) on sequence 0 has called observer 8 and has still to call 7. */
  lemma {:induction false} HalfDispatched(st: State) returns (ops: seq<Op>)
    requires st.lock.Free? && st.issued == {} && st.observers == map[7 := 0, 8 := 0] && st.threads != []
    requires st.threads[0] == Thread([], Empty, Nothing) && st.handed == multiset{} && st.stale == {}
    ensures EnabledRun(st, ops)
    ensures var end := Run(st, ops);
            && end.lock.Free? && end.observers == st.observers && end.begun == st.begun && end.stale == {}
            && end.issued == {1} && Task(7, 1) in end.handed && |end.threads| == |st.threads|
            && end.threads[0] == Thread([], Push(Dispatching(1, [8, 7]), Empty), Nothing)
  {
    var a := Step(st, SyncBegin(0, 1));
    assert a.lock == NotifyingSync(1, 0, {7, 8}, []);
    ForAllCount(st.observers.Keys, 1, Task(7, 1));
    var b := Step(a, SyncVisit(8));
    assert b.lock == NotifyingSync(1, 0, {7}, [8]);
    var c := Step(b, SyncVisit(7));
    assert c.lock == NotifyingSync(1, 0, {}, [8, 7]);
    Prepend(c, SyncEnd, []);
    Prepend(b, SyncVisit(7), [SyncEnd] + []);
    Prepend(a, SyncVisit(8), [SyncVisit(7)] + ([SyncEnd] + []));
    Prepend(st, SyncBegin(0, 1), [SyncVisit(8)] + ([SyncVisit(7)] + ([SyncEnd] + [])));
    ops := [SyncBegin(0, 1)] + ([SyncVisit(8)] + ([SyncVisit(7)] + ([SyncEnd] + [])));
  }

  /** And is in the callback of 8. */
  lemma {:induction false} InFirstCallback(st: State) returns (ops: seq<Op>)
    requires Init(st) && st.threads != []
    ensures EnabledRun(st, ops)
    ensures var u := Run(st, ops);
            && u.lock.Free? && u.observers == map[7 := 0, 8 := 0] && u.begun == [Task(8, 1)] && u.stale == {}
            && u.issued == {1} && Task(7, 1) in u.handed && u.threads != []
            && u.threads[0].stack == Push(Running(Task(8, 1), Nothing), Push(Dispatching(1, [7]), Empty))
            && u.threads[0].queue == []
  {
    ops := TwoAdded(st);
    var o := HalfDispatched(Run(st, ops));
    Concat(st, ops, o);
    ops := ops + o;
    assert [8, 7][1..] == [7];
    var below := Push(Dispatching(1, [7]), Empty);
    MoveOne(Run(st, ops), SyncNext, Thread([], Push(Waiting(Task(8, 1)), below), Nothing));
    Concat(st, ops, [Local(0, SyncNext)]);
    ops := ops + [Local(0, SyncNext)];
    o := CallWaiting(Run(st, ops), Task(8, 1), [], below, Nothing);
    Concat(st, ops, o);
    ops := ops + o;
  }

  /** A callback of a synchronous notification sends another one and runs a nested loop: an observer that the first
      has still to reach can get the second before it. */
  lemma {:induction false} NestedLoopOvertakes(st: State) returns (ops: seq<Op>)
    requires Init(st) && st.threads != []
    ensures EnabledRun(st, ops)
    ensures var u := Run(st, ops);
            && u.begun == [Task(8, 1)] && Enabled(u, NotifyBegin(2))
            && CanOvertake(Step(u, NotifyBegin(2)), Task(7, 1), Task(7, 2))
  {
    ops := InFirstCallback(st);
    InitInv(st);
    RunKeepsInv(st, ops);
    RunKeepsCollectors(st, ops);
    OvertakesIff(Run(st, ops), NotifyBegin(2), 0, Task(7, 1), Task(7, 2));
  }
}
