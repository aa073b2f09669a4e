/** Stretches of runs of an ObserverListThreadSafe from which the examples are made. Observers 7 and 8 live on
    sequence 0. */
module ThreadSafeRuns {
  import opened ThreadSafeObserverList

  /** One move of sequence 0 that drops nothing. */
  lemma {:induction false} MoveOne(st: State, m: Move, th: Thread)
    requires Enabled(st, Local(0, m)) && th == Moved(st.threads[0], m, st.observers.Keys)
    requires m.Check? ==> st.threads[0].stack.top.t.obs in st.observers
    ensures EnabledRun(st, [Local(0, m)])
    ensures Run(st, [Local(0, m)]) == st.(threads := st.threads[0 := th], begun := st.begun + Begins(st.threads[0], m))
  {
    assert st.dropped + multiset{} == st.dropped;
    assert EnabledRun(Step(st, Local(0, m)), []);
  }

  /** Sequence 0, in NotifyWrapper for a registered observer, gets into the callback. */
  lemma {:induction false} CallWaiting(st: State, t: Task, queue: seq<Task>, below: Stack, c: Current)
      returns (ops: seq<Op>)
    requires st.lock.Free? && t.obs in st.observers && st.observers[t.obs] == 0 && st.threads != []
    requires st.threads[0] == Thread(queue, Push(Waiting(t), below), c)
    ensures EnabledRun(st, ops)
    ensures var th := Thread(queue, Push(Running(t, c), below), Mine(t.n));
            Run(st, ops) == st.(threads := st.threads[0 := th], begun := st.begun + [t])
  {
    var a, b := [Local(0, Check)], [Local(0, BeginCallback)];
    MoveOne(st, Check, Thread(queue, Push(Checked(t), below), c));
    MoveOne(Run(st, a), BeginCallback, Thread(queue, Push(Running(t, c), below), Mine(t.n)));
    Concat(st, a, b);
    ops := a + b;
    assert st.begun + [] == st.begun;
  }

  /** One task off the queue of sequence 0 and into its callback. */
  lemma {:induction false} BeginOne(st: State, t: Task, rest: seq<Task>) returns (ops: seq<Op>)
    requires st.lock.Free? && t.obs in st.observers && st.observers[t.obs] == 0 && st.threads != []
    requires st.threads[0] == Thread([t] + rest, Empty, Nothing)
    ensures EnabledRun(st, ops)
    ensures var th := Thread(rest, Push(Running(t, Nothing), Empty), Mine(t.n));
            Run(st, ops) == st.(threads := st.threads[0 := th], begun := st.begun + [t])
  {
    var a := [Local(0, StartTask)];
    assert ([t] + rest)[1..] == rest;
    MoveOne(st, StartTask, Thread(rest, Push(Waiting(t), Empty), Nothing));
    assert st.begun + [] == st.begun;
    var b := CallWaiting(Run(st, a), t, rest, Empty, Nothing);
    Concat(st, a, b);
    ops := a + b;
  }

  /** And through it. */
  lemma {:induction false} DeliverOne(st: State, t: Task, rest: seq<Task>) returns (ops: seq<Op>)
    requires st.lock.Free? && t.obs in st.observers && st.observers[t.obs] == 0 && st.threads != []
    requires st.threads[0] == Thread([t] + rest, Empty, Nothing)
    ensures EnabledRun(st, ops)
    ensures Run(st, ops) == st.(threads := st.threads[0 := Thread(rest, Empty, Nothing)], begun := st.begun + [t])
  {
    var a := BeginOne(st, t, rest);
    var b := [Local(0, EndCallback)];
    MoveOne(Run(st, a), EndCallback, Thread(rest, Empty, Nothing));
    Concat(st, a, b);
    ops := a + b;
    assert (st.begun + [t]) + [] == st.begun + [t];
  }

  /** Observers 7 and 8 are registered on sequence 0. */
  lemma {:induction false} TwoAdded(st: State) returns (ops: seq<Op>)
    requires Init(st) && st.threads != []
    ensures EnabledRun(st, ops)
    ensures Run(st, ops) == st.(observers := map[7 := 0, 8 := 0], homes := {(7, 0), (8, 0)})
  {
    var a := Step(st, Add(0, 7));
    var b := Step(a, Add(0, 8));
    assert b.observers == map[7 := 0, 8 := 0];
    Prepend(a, Add(0, 8), []);
    Prepend(st, Add(0, 7), [Add(0, 8)] + []);
    ops := [Add(0, 7)] + ([Add(0, 8)] + []);
  }

  /** Both are notified of 1, observer 8 first. */
  lemma {:induction false} TwoNotified(st: State) returns (ops: seq<Op>)
    requires st.lock.Free? && st.issued == {} && st.observers == map[7 := 0, 8 := 0] && st.threads != []
    requires st.threads[0] == Thread([], Empty, Nothing)
    ensures EnabledRun(st, ops)
    ensures var end := Run(st, ops);
            && end.lock.Free? && end.policy == st.policy && end.observers == st.observers
            && |end.threads| == |st.threads| && end.begun == st.begun
            && end.threads[0] == Thread([Task(8, 1), Task(7, 1)], Empty, Nothing)
  {
    var c := Step(st, NotifyBegin(1));
    assert c.lock == Notifying(1, {7, 8});
    var d := Step(c, NotifyPost(8));
    assert d.lock == Notifying(1, {7}) && d.threads[0].queue == [Task(8, 1)];
    var e := Step(d, NotifyPost(7));
    assert e.threads[0].queue == [Task(8, 1), Task(7, 1)];
    Prepend(e, NotifyEnd, []);
    Prepend(d, NotifyPost(7), [NotifyEnd] + []);
    Prepend(c, NotifyPost(8), [NotifyPost(7)] + ([NotifyEnd] + []));
    ops := [NotifyBegin(1)] + ([NotifyPost(8)] + ([NotifyPost(7)] + ([NotifyEnd] + [])));
    Prepend(st, NotifyBegin(1), [NotifyPost(8)] + ([NotifyPost(7)] + ([NotifyEnd] + [])));
  }

  /** Observer 7 is registered on sequence 0 and notified of 1. */
  lemma {:induction false} OnePosted(st: State) returns (ops: seq<Op>)
    requires Init(st) && st.threads != []
    ensures EnabledRun(st, ops) && |ops| == 4 && ops[1] == NotifyBegin(1)
    ensures var end := Run(st, ops);
            && end.lock.Free? && end.observers == map[7 := 0] && end.issued == {1}
            && end.threads == st.threads[0 := Thread([Task(7, 1)], Empty, Nothing)] && end.begun == []
  {
    var a := Step(st, Add(0, 7));
    assert a.observers == map[7 := 0];
    var b := Step(a, NotifyBegin(1));
    assert b.lock == Notifying(1, {7});
    var c := Step(b, NotifyPost(7));
    assert c.threads[0].queue == [Task(7, 1)];
    Prepend(c, NotifyEnd, []);
    Prepend(b, NotifyPost(7), [NotifyEnd] + []);
    Prepend(a, NotifyBegin(1), [NotifyPost(7)] + ([NotifyEnd] + []));
    Prepend(st, Add(0, 7), [NotifyBegin(1)] + ([NotifyPost(7)] + ([NotifyEnd] + [])));
    ops := [Add(0, 7)] + ([NotifyBegin(1)] + ([NotifyPost(7)] + ([NotifyEnd] + [])));
  }
}
