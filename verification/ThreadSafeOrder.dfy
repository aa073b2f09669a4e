/** What is posted to an observer of an ObserverListThreadSafe begins in the order of posting. */
module ThreadSafeOrder {
  import opened ThreadSafeObserverList

  /** Some t1 comes before every t2. */
  ghost predicate Ahead(tasks: seq<Task>, t1: Task, t2: Task) {
    exists i :: 0 <= i < |tasks| && tasks[i] == t1 && t2 !in tasks[..i]
  }

  lemma {:induction false} AheadGrows(tasks: seq<Task>, t: Task, t1: Task, t2: Task)
    requires Ahead(tasks, t1, t2)
    ensures Ahead(tasks + [t], t1, t2)
  {
    var i :| 0 <= i < |tasks| && tasks[i] == t1 && t2 !in tasks[..i];
    assert (tasks + [t])[i] == t1 && (tasks + [t])[..i] == tasks[..i];
  }

  lemma {:induction false} AheadAlone(tasks: seq<Task>, t1: Task, t2: Task)
    requires t1 in tasks && t2 !in tasks
    ensures Ahead(tasks, t1, t2)
  {
    var i :| 0 <= i < |tasks| && tasks[i] == t1;
    assert t2 !in tasks[..i];
  }

  lemma {:induction false} AheadPopped(tasks: seq<Task>, t1: Task, t2: Task)
    requires Ahead(tasks, t1, t2) && t1 != t2
    ensures tasks[0] != t2 && (tasks[0] != t1 ==> Ahead(tasks[1..], t1, t2))
  {
    var i :| 0 <= i < |tasks| && tasks[i] == t1 && t2 !in tasks[..i];
    if i > 0 {
      assert tasks[..i][0] == tasks[0];
      assert tasks[1..][i - 1] == t1 && forall x :: x in tasks[1..][..i - 1] ==> x in tasks[..i];
    }
  }

  /** The task is in NotifyWrapper, before its callback. */
  predicate AtTop(stack: Stack, t: Task) {
    stack.Push? && (stack.top == Waiting(t) || stack.top == Checked(t))
  }

  /** op sends notification t.n, and the observer of t gets it as a posted task: by Notify, or by a
      NotifySynchronously on another sequence. */
  ghost predicate PostsTo(st: State, op: Op, t: Task) {
    && t.obs in st.observers
    && (op == NotifyBegin(t.n) || (op.SyncBegin? && op.n == t.n && op.s != st.observers[t.obs]))
  }

  /** The loop that holds the lock has still to post t to sequence s. */
  predicate AboutToPost(lock: Lock, s: nat, t: Task) {
    !lock.Free? && lock.n == t.n && t.obs in lock.todo && (lock.NotifyingSync? ==> lock.who != s)
  }

  ghost predicate OnSequence(st: State, s: nat, o: nat) {
    o in st.observers && st.observers[o] == s && s < |st.threads|
  }

  /** t was posted to s, or is about to be, and is at most in NotifyWrapper, or it has begun. */
  ghost predicate InTheMail(st: State, s: nat, t: Task) {
    && OnSequence(st, s, t.obs)
    && (|| t in st.begun || AtTop(st.threads[s].stack, t) || t in st.threads[s].queue
        || AboutToPost(st.lock, s, t))
  }

  lemma {:induction false} MovedInTheMail(th: Thread, m: Move, registered: set<nat>, t: Task)
    requires CanMove(th, m) && t.obs in registered && (AtTop(th.stack, t) || t in th.queue)
    ensures var th' := Moved(th, m, registered);
            AtTop(th'.stack, t) || t in th'.queue || t in Begins(th, m)
  {
    if m.StartTask? { assert th.queue == [th.queue[0]] + th.queue[1..]; }
  }

  lemma {:induction false} InTheMailStep(st: State, op: Op, s: nat, t: Task)
    requires Shape(st) && Enabled(st, op) && InTheMail(st, s, t) && op != Remove(t.obs)
    ensures InTheMail(Step(st, op), s, t)
  {
    match op
    case Local(r, m) =>
      if r == s && (AtTop(st.threads[s].stack, t) || t in st.threads[s].queue) {
        MovedInTheMail(st.threads[s], m, st.observers.Keys, t);
      }
    case _ =>
  }

  lemma {:induction false} InTheMailRun(st: State, ops: seq<Op>, s: nat, t: Task)
    requires Shape(st) && EnabledRun(st, ops) && InTheMail(st, s, t) && Remove(t.obs) !in ops
    ensures InTheMail(Run(st, ops), s, t)
    decreases |ops|
  {
    if ops != [] {
      StepKeepsShape(st, ops[0]);
      InTheMailStep(st, ops[0], s, t);
      InTheMailRun(Step(st, ops[0]), ops[1..], s, t);
    }
  }

  /** On its sequence, t1 is ahead of t2. */
  ghost predicate NextInLine(th: Thread, t1: Task, t2: Task) {
    StackCount(th.stack, t2) == 0 && (AtTop(th.stack, t1) || Ahead(th.queue, t1, t2))
  }

  ghost predicate Before(st: State, s: nat, t1: Task, t2: Task) {
    && t1 != t2 && t1.obs == t2.obs && OnSequence(st, s, t1.obs)
    && t2 !in st.stale && t2.n in st.issued
    && (st.lock.NotifyingSync? && st.lock.n == t2.n ==> st.lock.who != s)
    && (Ahead(st.begun, t1, t2) || (t2 !in st.begun && NextInLine(st.threads[s], t1, t2)))
  }

  lemma {:induction false} MovedNextInLine(th: Thread, m: Move, registered: set<nat>, t1: Task, t2: Task)
    requires CanMove(th, m) && NextInLine(th, t1, t2) && t1 != t2 && t1.obs in registered
    ensures t2 !in Begins(th, m)
    ensures t1 in Begins(th, m) || NextInLine(Moved(th, m, registered), t1, t2)
  {
    match m
    case StartTask => AheadPopped(th.queue, t1, t2);
    case SyncNext => SyncNextPending(th, registered, t2);
    case _ =>
  }

  lemma {:induction false} LocalKeepsBefore(st: State, r: nat, m: Move, s: nat, t1: Task, t2: Task)
    requires Located(st) && Enabled(st, Local(r, m)) && Before(st, s, t1, t2)
    ensures Before(Step(st, Local(r, m)), s, t1, t2)
  {
    var th, st' := st.threads[r], Step(st, Local(r, m));
    if m.BeginCallback? {
      assert Pending(th, th.stack.top.t) > 0;
      assert AtHome(st, r, th.stack.top.t);
      if Ahead(st.begun, t1, t2) { AheadGrows(st.begun, th.stack.top.t, t1, t2); }
    } else {
      assert st'.begun == st.begun;
    }
    if !Ahead(st.begun, t1, t2) && r == s {
      MovedNextInLine(th, m, st.observers.Keys, t1, t2);
      if t1 in Begins(th, m) { AheadAlone(st'.begun, t1, t2); }
    }
  }

  lemma {:induction false} PostKeepsNextInLine(th: Thread, t: Task, t1: Task, t2: Task)
    requires NextInLine(th, t1, t2)
    ensures NextInLine(Posted(th, t), t1, t2)
  {
    if Ahead(th.queue, t1, t2) { AheadGrows(th.queue, t, t1, t2); }
  }

  lemma {:induction false} BeforeStep(st: State, op: Op, s: nat, t1: Task, t2: Task)
    requires Shape(st) && Located(st) && Enabled(st, op) && Before(st, s, t1, t2) && op != Remove(t1.obs)
    ensures Before(Step(st, op), s, t1, t2)
  {
    var th := st.threads[s];
    match op
    case Local(r, m) => LocalKeepsBefore(st, r, m, s, t1, t2);
    case Add(r, o) =>
      if NextInLine(th, t1, t2) && th.current.Mine? { PostKeepsNextInLine(th, Task(o, th.current.n), t1, t2); }
    case NotifyPost(o) => if NextInLine(th, t1, t2) { PostKeepsNextInLine(th, Task(o, st.lock.n), t1, t2); }
    case SyncVisit(o) => if NextInLine(th, t1, t2) { PostKeepsNextInLine(th, Task(o, st.lock.n), t1, t2); }
    case _ =>
  }

  lemma {:induction false} BeforeRun(st: State, ops: seq<Op>, s: nat, t1: Task, t2: Task)
    requires Inv(st) && EnabledRun(st, ops) && Before(st, s, t1, t2) && Remove(t1.obs) !in ops
    ensures Before(Run(st, ops), s, t1, t2)
    decreases |ops|
  {
    if ops != [] {
      StepKeepsInv(st, ops[0]);
      BeforeStep(st, ops[0], s, t1, t2);
      BeforeRun(Step(st, ops[0]), ops[1..], s, t1, t2);
    }
  }

  lemma {:induction false} UnsentIsNowhere(st: State, s: nat, t: Task)
    requires Located(st) && s < |st.threads| && t.n !in st.issued
    ensures Pending(st.threads[s], t) == 0
  {
  }

  /** A notification that is sent is behind what is in the mail. */
  lemma {:induction false} SentIsBehind(st: State, op: Op, s: nat, t1: Task, t2: Task)
    requires Inv(st) && Enabled(st, op) && PostsTo(st, op, t2) && InTheMail(st, s, t1)
    requires t1.obs == t2.obs && t1 != t2
    ensures Before(Step(st, op), s, t1, t2)
  {
    var th := st.threads[s];
    assert Balanced(st, t2) && Recorded(st, t2);
    UnsentIsNowhere(st, s, t2);
    if t1 in st.begun {
      AheadAlone(st.begun, t1, t2);
    } else if t1 in th.queue {
      AheadAlone(th.queue, t1, t2);
    }
  }

  /** In every reachable state: what is posted to an observer now begins after what is in the mail for it already. */
  lemma {:induction false} LaterStaysBehind(st: State, op: Op, after: seq<Op>, s: nat, t1: Task, t2: Task)
    requires Inv(st) && Enabled(st, op) && EnabledRun(Step(st, op), after)
    requires t1.obs == t2.obs && t1 != t2 && InTheMail(st, s, t1) && PostsTo(st, op, t2) && Remove(t1.obs) !in after
    ensures var end := Run(Step(st, op), after);
            t2 in end.begun ==> Ahead(end.begun, t1, t2)
  {
    StepKeepsInv(st, op);
    SentIsBehind(st, op, s, t1, t2);
    BeforeRun(Step(st, op), after, s, t1, t2);
  }

  lemma {:induction false} SentIsInTheMail(st: State, op: Op, t: Task)
    requires Shape(st) && Enabled(st, op) && PostsTo(st, op, t)
    ensures InTheMail(Step(st, op), st.observers[t.obs], t)
  {
  }

  /** An observer that is sent n1 and then n2 as posted tasks, and is not removed meanwhile, begins n1 before n2. */
  lemma {:induction false} DeliveredInOrder(st: State, between: seq<Op>, op: Op, after: seq<Op>, s: nat,
                                            t1: Task, t2: Task)
    requires Inv(st) && t1.obs == t2.obs && t1 != t2 && InTheMail(st, s, t1)
    requires EnabledRun(st, between) && Remove(t1.obs) !in between
    requires Enabled(Run(st, between), op) && PostsTo(Run(st, between), op, t2)
    requires EnabledRun(Step(Run(st, between), op), after) && Remove(t1.obs) !in after
    ensures var end := Run(Step(Run(st, between), op), after);
            t2 in end.begun ==> Ahead(end.begun, t1, t2)
  {
    RunKeepsInv(st, between);
    InTheMailRun(st, between, s, t1);
    LaterStaysBehind(Run(st, between), op, after, s, t1, t2);
  }
}
