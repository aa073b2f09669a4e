/** base::ObserverListThreadSafe as a protocol: any number of sequences, each with a task queue and a call stack
    (nested run loops included), take turns in steps no larger than what the lock and the task runners make
    atomic. Every interleaving is a run. A run that would fail a DCHECK ends before it does. */
module ThreadSafeObserverList {
  import opened Policies

  /** Notification n for observer obs: a posted NotifyWrapper, or a call to it. */
  datatype Task = Task(obs: nat, n: nat)

  /** `tls_current_notification_`: a notification of this list, one of some other list, or null. */
  datatype Current = Nothing | Mine(n: nat) | Other

  datatype Frame =
    | Waiting(t: Task)                      // in NotifyWrapper, before it takes the lock
    | Checked(t: Task)                      // in NotifyWrapper, observer found and lock released
    | Running(t: Task, previous: Current)   // in the callback
    | Foreign(previous: Current)            // in a callback of another list
    | Collecting(n: nat)                    // in the first loop of NotifySynchronously, holding the lock
    | Dispatching(n: nat, todo: seq<nat>)   // in its second loop

  datatype Stack = Empty | Push(top: Frame, below: Stack)

  datatype Thread = Thread(queue: seq<Task>, stack: Stack, current: Current)

  /** Who holds `lock_` across steps: a notification that has still to visit the observers in todo. */
  datatype Lock =
    | Free
    | Notifying(n: nat, todo: set<nat>)
    | NotifyingSync(n: nat, who: nat, todo: set<nat>, mine: seq<nat>)

  /** The last six fields are history: the notifications sent; how often each observer was to get which (once if
      registered when it was sent, and once more whenever, under ALL, it was added from inside its dispatch); the
      tasks dropped because the observer was not registered; the tasks of observers removed since their
      notification was sent; where each observer was ever registered; and the callbacks begun, in order. */
  datatype State = State(
    policy: Policy,
    observers: map<nat, nat>,
    lock: Lock,
    threads: seq<Thread>,
    issued: set<nat>,
    handed: multiset<Task>,
    dropped: multiset<Task>,
    stale: set<Task>,
    homes: set<(nat, nat)>,
    begun: seq<Task>)

  /** What a sequence does by itself. */
  datatype Move = StartTask | SyncNext | SyncDone | Check | BeginCallback | EndCallback | ForeignBegin | ForeignEnd

  datatype Op =
    | Add(s: nat, obs: nat)
    | Remove(obs: nat)
    | NotifyBegin(n: nat)
    | NotifyPost(obs: nat)
    | NotifyEnd
    | SyncBegin(s: nat, n: nat)
    | SyncVisit(obs: nat)
    | SyncEnd
    | Local(s: nat, move: Move)

  /** The sequence is in client code: idle, or inside a callback. */
  predicate InClient(stack: Stack) {
    stack.Empty? || stack.top.Running? || stack.top.Foreign?
  }

  predicate CanMove(th: Thread, m: Move) {
    match m
    case StartTask => InClient(th.stack) && th.queue != []
    case SyncNext => th.stack.Push? && th.stack.top.Dispatching? && th.stack.top.todo != []
    case SyncDone => th.stack.Push? && th.stack.top.Dispatching? && th.stack.top.todo == []
    case Check => th.stack.Push? && th.stack.top.Waiting?
    case BeginCallback => th.stack.Push? && th.stack.top.Checked?
    case EndCallback => th.stack.Push? && th.stack.top.Running?
    case ForeignBegin => InClient(th.stack)
    case ForeignEnd => th.stack.Push? && th.stack.top.Foreign?
  }

  predicate Enabled(st: State, op: Op) {
    match op
    case Add(s, o) => st.lock.Free? && s < |st.threads| && InClient(st.threads[s].stack) && o !in st.observers
    case Remove(_) => st.lock.Free?
    case NotifyBegin(n) => st.lock.Free? && n !in st.issued
    case NotifyPost(o) =>
      st.lock.Notifying? && o in st.lock.todo && o in st.observers && st.observers[o] < |st.threads|
    case NotifyEnd => st.lock.Notifying? && st.lock.todo == {}
    case SyncBegin(s, n) =>
      st.lock.Free? && n !in st.issued && s < |st.threads| && InClient(st.threads[s].stack)
    case SyncVisit(o) =>
      st.lock.NotifyingSync? && o in st.lock.todo && o in st.observers && st.observers[o] < |st.threads|
    case SyncEnd =>
      && st.lock.NotifyingSync? && st.lock.todo == {} && st.lock.who < |st.threads|
      && st.threads[st.lock.who].stack.Push?
    case Local(s, m) =>
      && s < |st.threads|
      && CanMove(st.threads[s], m)
      && (m.Check? ==>
            && st.lock.Free?
            && var o := st.threads[s].stack.top.t.obs; o in st.observers ==> st.observers[o] == s)
  }

  function Posted(th: Thread, t: Task): Thread {
    th.(queue := th.queue + [t])
  }

  function Moved(th: Thread, m: Move, registered: set<nat>): Thread
    requires CanMove(th, m)
  {
    var Thread(queue, stack, current) := th;
    match m
    case StartTask => Thread(queue[1..], Push(Waiting(queue[0]), stack), current)
    case SyncNext =>
      var Push(Dispatching(n, todo), below) := stack;
      Thread(queue, Push(Waiting(Task(todo[0], n)), Push(Dispatching(n, todo[1..]), below)), current)
    case SyncDone => Thread(queue, stack.below, current)
    case Check =>
      if stack.top.t.obs in registered then Thread(queue, Push(Checked(stack.top.t), stack.below), current)
      else Thread(queue, stack.below, current)
    case BeginCallback => Thread(queue, Push(Running(stack.top.t, current), stack.below), Mine(stack.top.t.n))
    case EndCallback => Thread(queue, stack.below, stack.top.previous)
    case ForeignBegin => Thread(queue, Push(Foreign(current), stack), Other)
    case ForeignEnd => Thread(queue, stack.below, stack.top.previous)
  }

  function With(st: State, s: nat, th: Thread): State
    requires s < |st.threads|
  {
    st.(threads := st.threads[s := th])
  }

  /** Notification n for every observer that is registered. */
  function ForAll(observers: set<nat>, n: nat): multiset<Task> {
    multiset(set o | o in observers :: Task(o, n))
  }

  function Sent(st: State, n: nat): State {
    st.(issued := st.issued + {n}, handed := st.handed + ForAll(st.observers.Keys, n))
  }

  function Begins(th: Thread, m: Move): seq<Task>
    requires CanMove(th, m)
  {
    if m.BeginCallback? then [th.stack.top.t] else []
  }

  function Drops(th: Thread, m: Move, registered: set<nat>): multiset<Task>
    requires CanMove(th, m)
  {
    if m.Check? && th.stack.top.t.obs !in registered then multiset{th.stack.top.t} else multiset{}
  }

  function Step(st: State, op: Op): State
    requires Enabled(st, op)
  {
    match op
    case Add(s, o) =>
      var st1 := st.(observers := st.observers[o := s], homes := st.homes + {(o, s)});
      var th := st.threads[s];
      if st.policy.All? && th.current.Mine? then
        var t := Task(o, th.current.n);
        With(st1, s, Posted(th, t)).(handed := st.handed + multiset{t})
      else st1
    case Remove(o) =>
      if o !in st.observers then st
      else st.(observers := st.observers - {o}, stale := st.stale + set n | n in st.issued :: Task(o, n))
    case NotifyBegin(n) => Sent(st, n).(lock := Notifying(n, st.observers.Keys))
    case NotifyPost(o) =>
      var s, Notifying(n, todo) := st.observers[o], st.lock;
      With(st, s, Posted(st.threads[s], Task(o, n))).(lock := Notifying(n, todo - {o}))
    case NotifyEnd => st.(lock := Free)
    case SyncBegin(s, n) =>
      var th := st.threads[s];
      With(Sent(st, n), s, th.(stack := Push(Collecting(n), th.stack)))
        .(lock := NotifyingSync(n, s, st.observers.Keys, []))
    case SyncVisit(o) =>
      var s, NotifyingSync(n, who, todo, mine) := st.observers[o], st.lock;
      if s == who then st.(lock := NotifyingSync(n, who, todo - {o}, mine + [o]))
      else With(st, s, Posted(st.threads[s], Task(o, n))).(lock := NotifyingSync(n, who, todo - {o}, mine))
    case SyncEnd =>
      var NotifyingSync(n, who, _, mine) := st.lock;
      var th := st.threads[who];
      With(st, who, th.(stack := Push(Dispatching(n, mine), th.stack.below))).(lock := Free)
    case Local(s, m) =>
      var th, registered := st.threads[s], st.observers.Keys;
      With(st, s, Moved(th, m, registered))
        .(begun := st.begun + Begins(th, m), dropped := st.dropped + Drops(th, m, registered))
  }

  ghost predicate EnabledRun(st: State, ops: seq<Op>)
    decreases |ops|
  {
    ops == [] || (Enabled(st, ops[0]) && EnabledRun(Step(st, ops[0]), ops[1..]))
  }

  function Run(st: State, ops: seq<Op>): State
    requires EnabledRun(st, ops)
    decreases |ops|
  {
    if ops == [] then st else Run(Step(st, ops[0]), ops[1..])
  }

  ghost predicate Init(st: State) {
    && st.observers == map[] && st.lock.Free?
    && st.issued == {} && st.handed == multiset{} && st.dropped == multiset{} && st.stale == {}
    && st.homes == {} && st.begun == []
    && forall s :: 0 <= s < |st.threads| ==> st.threads[s] == Thread([], Empty, Nothing)
  }

  // ----- Counting what is under way -----

  function FrameCount(f: Frame, t: Task): nat {
    match f
    case Waiting(u) => if u == t then 1 else 0
    case Checked(u) => if u == t then 1 else 0
    case Dispatching(n, todo) => if n == t.n then multiset(todo)[t.obs] else 0
    case _ => 0
  }

  function StackCount(stack: Stack, t: Task): nat {
    match stack
    case Empty => 0
    case Push(f, below) => FrameCount(f, t) + StackCount(below, t)
  }

  /** How often t is posted or being dispatched, but not begun, on a sequence. */
  function Pending(th: Thread, t: Task): nat {
    multiset(th.queue)[t] + StackCount(th.stack, t)
  }

  /** The same on all sequences together. */
  function Total(threads: seq<Thread>, t: Task): nat {
    if threads == [] then 0 else Pending(threads[0], t) + Total(threads[1..], t)
  }

  function Times(begun: seq<Task>, t: Task): nat {
    multiset(begun)[t]
  }

  /** How often a notification that holds the lock has still to hand out t. */
  function Reserved(lock: Lock, t: Task): nat {
    match lock
    case Free => 0
    case Notifying(n, todo) => if t.n == n && t.obs in todo then 1 else 0
    case NotifyingSync(n, _, todo, mine) =>
      if t.n == n then (if t.obs in todo then 1 else 0) + multiset(mine)[t.obs] else 0
  }

  // ----- Invariants -----

  /** Whose turn it was when the frame on top was pushed: what the tls pointer must be. */
  function CurrentOf(stack: Stack): Current {
    match stack
    case Empty => Nothing
    case Push(Running(t, _), _) => Mine(t.n)
    case Push(Foreign(_), _) => Other
    case Push(_, below) => CurrentOf(below)
  }

  predicate Settled(f: Frame) {
    f.Running? || f.Foreign? || f.Dispatching?
  }

  /** Only the innermost frame can be inside NotifyWrapper outside the callback or hold the lock, and every
      saved tls pointer is the one to go back to. */
  predicate WellNested(stack: Stack) {
    stack.Push? ==>
      && WellNested(stack.below)
      && (stack.below.Push? ==> Settled(stack.below.top))
      && (stack.top.Running? ==> stack.top.previous == CurrentOf(stack.below))
      && (stack.top.Foreign? ==> stack.top.previous == CurrentOf(stack.below))
  }

  predicate ThreadOk(th: Thread) {
    WellNested(th.stack) && th.current == CurrentOf(th.stack)
  }

  ghost predicate LockOk(st: State) {
    match st.lock
    case Free => true
    case Notifying(_, todo) => todo <= st.observers.Keys
    case NotifyingSync(n, who, todo, mine) =>
      && todo <= st.observers.Keys
      && who < |st.threads|
      && st.threads[who].stack.Push? && st.threads[who].stack.top == Collecting(n)
      && forall o :: o in mine ==> o in st.observers && st.observers[o] == who
  }

  ghost predicate Shape(st: State) {
    && (forall s :: 0 <= s < |st.threads| ==> ThreadOk(st.threads[s]))
    && (forall o :: o in st.observers ==> st.observers[o] < |st.threads|)
    && LockOk(st)
  }

  lemma {:induction false} MovedOk(th: Thread, m: Move, registered: set<nat>)
    requires ThreadOk(th) && CanMove(th, m)
    ensures ThreadOk(Moved(th, m, registered))
  {
  }

  lemma {:induction false} StepKeepsThreads(st: State, op: Op)
    requires Shape(st) && Enabled(st, op)
    ensures forall s :: 0 <= s < |st.threads| ==> ThreadOk(Step(st, op).threads[s])
  {
    match op
    case Local(s, m) => MovedOk(st.threads[s], m, st.observers.Keys);
    case SyncEnd => assert ThreadOk(st.threads[st.lock.who]);
    case SyncBegin(s, _) => assert ThreadOk(st.threads[s]);
    case _ =>
  }

  lemma {:induction false} StepKeepsLockOk(st: State, op: Op)
    requires Shape(st) && Enabled(st, op)
    ensures LockOk(Step(st, op))
  {
  }

  lemma {:induction false} StepKeepsShape(st: State, op: Op)
    requires Shape(st) && Enabled(st, op)
    ensures Shape(Step(st, op))
  {
    StepKeepsThreads(st, op);
    StepKeepsLockOk(st, op);
  }

  lemma {:induction false} SyncNextPending(th: Thread, registered: set<nat>, t: Task)
    requires CanMove(th, SyncNext)
    ensures Pending(Moved(th, SyncNext, registered), t) == Pending(th, t)
  {
    var Push(Dispatching(n, todo), below) := th.stack;
    var rest := Push(Dispatching(n, todo[1..]), below);
    assert multiset(todo) == multiset{todo[0]} + multiset(todo[1..]) by { assert todo == [todo[0]] + todo[1..]; }
    assert StackCount(rest, t) == FrameCount(Dispatching(n, todo[1..]), t) + StackCount(below, t);
    assert StackCount(Push(Waiting(Task(todo[0], n)), rest), t)
        == FrameCount(Waiting(Task(todo[0], n)), t) + StackCount(rest, t);
  }

  /** A move begins or drops what it takes off the pending count. */
  lemma {:induction false} MovedPending(th: Thread, m: Move, registered: set<nat>, t: Task)
    requires CanMove(th, m)
    ensures Pending(Moved(th, m, registered), t) + Times(Begins(th, m), t) + Drops(th, m, registered)[t]
            == Pending(th, t)
  {
    match m
    case StartTask => StartTaskPending(th, registered, t);
    case SyncNext => SyncNextPending(th, registered, t);
    case _ =>
  }

  lemma {:induction false} StartTaskPending(th: Thread, registered: set<nat>, t: Task)
    requires CanMove(th, StartTask)
    ensures Pending(Moved(th, StartTask, registered), t) == Pending(th, t)
  {
    assert th.queue == [th.queue[0]] + th.queue[1..];
    assert multiset(th.queue)[t] == multiset(th.queue[1..])[t] + if th.queue[0] == t then 1 else 0;
  }

  lemma {:induction false} TotalUpdate(threads: seq<Thread>, s: nat, th: Thread, t: Task)
    requires s < |threads|
    ensures Total(threads[s := th], t) == Total(threads, t) - Pending(threads[s], t) + Pending(th, t)
    ensures Pending(threads[s], t) <= Total(threads, t)
  {
    if s > 0 {
      assert threads[s := th][1..] == threads[1..][s - 1 := th];
      TotalUpdate(threads[1..], s - 1, th, t);
    } else {
      assert threads[s := th][1..] == threads[1..];
    }
  }

  lemma {:induction false} TotalOfIdle(threads: seq<Thread>, t: Task)
    requires forall s :: 0 <= s < |threads| ==> threads[s].queue == [] && threads[s].stack.Empty?
    ensures Total(threads, t) == 0
  {
    if threads != [] { TotalOfIdle(threads[1..], t); }
  }

  predicate StackIssued(stack: Stack, issued: set<nat>) {
    stack.Push? ==> StackIssued(stack.below, issued) && (stack.top.Running? ==> stack.top.t.n in issued)
  }

  /** A task is stale or is where its observer is registered; at any rate its observer was registered there. */
  ghost predicate AtHome(st: State, s: nat, t: Task) {
    && (t.obs, s) in st.homes && t.n in st.issued
    && (t in st.stale || (t.obs in st.observers && st.observers[t.obs] == s))
  }

  ghost predicate Located(st: State) {
    && (forall s, t :: 0 <= s < |st.threads| && Pending(st.threads[s], t) > 0 ==> AtHome(st, s, t))
    && (forall s :: 0 <= s < |st.threads| ==> StackIssued(st.threads[s].stack, st.issued))
    && (!st.lock.Free? ==> st.lock.n in st.issued)
    && (forall o :: o in st.observers ==> (o, st.observers[o]) in st.homes)
  }

  /** Every task handed out has begun, was dropped, or is under way: none is lost and none is made up. */
  predicate Balanced(st: State, t: Task) {
    Times(st.begun, t) + st.dropped[t] + Total(st.threads, t) + Reserved(st.lock, t) == st.handed[t]
  }

  /** A task is handed out at most once, and not dropped, until its observer is removed after the notification was
      sent; under EXISTING_ONLY at most once in any case. */
  ghost predicate Recorded(st: State, t: Task) {
    && (t in st.handed || t in st.stale ==> t.n in st.issued)
    && (t !in st.stale ==> st.handed[t] <= 1 && st.dropped[t] == 0 && (t in st.handed ==> t.obs in st.observers))
    && (st.policy.ExistingOnly? ==> st.handed[t] <= 1)
  }

  ghost predicate Ledger(st: State) {
    forall t: Task :: Balanced(st, t) && Recorded(st, t)
  }

  ghost predicate Inv(st: State) {
    Shape(st) && Located(st) && Ledger(st)
  }

  lemma {:induction false} PostedPending(th: Thread, t: Task, u: Task)
    ensures Pending(Posted(th, t), u) == Pending(th, u) + if t == u then 1 else 0
  {
  }

  lemma {:induction false} IssuedGrows(stack: Stack, a: set<nat>, b: set<nat>)
    requires StackIssued(stack, a) && a <= b
    ensures StackIssued(stack, b)
  {
    if stack.Push? { IssuedGrows(stack.below, a, b); }
  }

  lemma {:induction false} CurrentIssued(stack: Stack, issued: set<nat>)
    requires StackIssued(stack, issued)
    ensures CurrentOf(stack).Mine? ==> CurrentOf(stack).n in issued
  {
    if stack.Push? { CurrentIssued(stack.below, issued); }
  }

  // ----- Where tasks are -----

  lemma {:induction false} LocalKeepsLocated(st: State, s: nat, m: Move)
    requires Inv(st) && Enabled(st, Local(s, m))
    ensures Located(Step(st, Local(s, m)))
  {
    var th, st' := st.threads[s], Step(st, Local(s, m));
    if m.BeginCallback? { assert Pending(th, th.stack.top.t) > 0; }
    forall r, t | 0 <= r < |st'.threads| && Pending(st'.threads[r], t) > 0 ensures AtHome(st', r, t) {
      MovedPending(th, m, st.observers.Keys, t);
      assert Pending(st.threads[r], t) > 0;
      assert AtHome(st, r, t);
    }
  }

  /** Posting t to the sequence where its observer is registered. */
  lemma {:induction false} PostKeepsLocated(st: State, st': State, s: nat, t: Task)
    requires Located(st) && s < |st.threads|
    requires st'.threads == st.threads[s := Posted(st.threads[s], t)] && st'.issued == st.issued
    requires st.homes <= st'.homes && AtHome(st', s, t)
    requires st.stale <= st'.stale
    requires forall o :: o in st.observers ==> o in st'.observers && st'.observers[o] == st.observers[o]
    requires forall o :: o in st'.observers ==> (o, st'.observers[o]) in st'.homes
    requires !st'.lock.Free? ==> st'.lock.n in st.issued
    ensures Located(st')
  {
    forall r, u | 0 <= r < |st'.threads| && Pending(st'.threads[r], u) > 0 ensures AtHome(st', r, u) {
      PostedPending(st.threads[s], t, u);
      if !(r == s && u == t) { assert Pending(st.threads[r], u) > 0; assert AtHome(st, r, u); }
    }
  }

  lemma {:induction false} SendKeepsLocated(st: State, st': State)
    requires Located(st) && |st'.threads| == |st.threads|
    requires forall s :: 0 <= s < |st.threads| ==>
               || st'.threads[s] == st.threads[s]
               || exists n :: st'.threads[s] == st.threads[s].(stack := Push(Collecting(n), st.threads[s].stack))
    requires st.issued <= st'.issued && st'.homes == st.homes && (!st'.lock.Free? ==> st'.lock.n in st'.issued)
    requires st'.observers == st.observers && st'.stale == st.stale
    ensures Located(st')
  {
    forall s | 0 <= s < |st'.threads| ensures StackIssued(st'.threads[s].stack, st'.issued) {
      IssuedGrows(st.threads[s].stack, st.issued, st'.issued);
    }
    forall r, u | 0 <= r < |st'.threads| && Pending(st'.threads[r], u) > 0 ensures AtHome(st', r, u) {
      assert Pending(st.threads[r], u) > 0;
      assert AtHome(st, r, u);
    }
  }

  lemma {:induction false} SyncEndKeepsLocated(st: State)
    requires Inv(st) && Enabled(st, SyncEnd)
    ensures Located(Step(st, SyncEnd))
  {
    var st' := Step(st, SyncEnd);
    var NotifyingSync(n, who, _, mine) := st.lock;
    forall r, u | 0 <= r < |st'.threads| && Pending(st'.threads[r], u) > 0 ensures AtHome(st', r, u) {
      if r == who && u.n == n && u.obs in mine {
        assert st.observers[u.obs] == who;
      } else {
        assert Pending(st.threads[r], u) > 0;
        assert AtHome(st, r, u);
      }
    }
  }

  lemma {:induction false} RemoveKeepsLocated(st: State, o: nat)
    requires Located(st) && Enabled(st, Remove(o))
    ensures Located(Step(st, Remove(o)))
  {
    var st' := Step(st, Remove(o));
    forall r, u | 0 <= r < |st'.threads| && Pending(st'.threads[r], u) > 0 ensures AtHome(st', r, u) {
      assert AtHome(st, r, u);
    }
  }

  lemma {:induction false} AddKeepsLocated(st: State, s: nat, o: nat)
    requires Inv(st) && Enabled(st, Add(s, o))
    ensures Located(Step(st, Add(s, o)))
  {
    var st' := Step(st, Add(s, o));
    CurrentIssued(st.threads[s].stack, st.issued);
    if st.policy.All? && st.threads[s].current.Mine? {
      PostKeepsLocated(st, st', s, Task(o, st.threads[s].current.n));
    } else {
      forall r, u | 0 <= r < |st'.threads| && Pending(st'.threads[r], u) > 0 ensures AtHome(st', r, u) {
        assert AtHome(st, r, u);
      }
    }
  }

  lemma {:induction false} StepKeepsLocated(st: State, op: Op)
    requires Inv(st) && Enabled(st, op)
    ensures Located(Step(st, op))
  {
    var st' := Step(st, op);
    match op
    case Local(s, m) => LocalKeepsLocated(st, s, m);
    case Add(s, o) => AddKeepsLocated(st, s, o);
    case Remove(o) => RemoveKeepsLocated(st, o);
    case NotifyPost(o) => PostKeepsLocated(st, st', st.observers[o], Task(o, st.lock.n));
    case SyncVisit(o) =>
      if st.observers[o] != st.lock.who {
        PostKeepsLocated(st, st', st.observers[o], Task(o, st.lock.n));
      }
    case SyncEnd => SyncEndKeepsLocated(st);
    case NotifyBegin(_) => SendKeepsLocated(st, st');
    case SyncBegin(_, _) => SendKeepsLocated(st, st');
    case NotifyEnd =>
  }

  // ----- How many tasks there are -----

  lemma {:induction false} LocalKeepsBalanced(st: State, s: nat, m: Move, t: Task)
    requires Balanced(st, t) && Enabled(st, Local(s, m))
    ensures Balanced(Step(st, Local(s, m)), t)
  {
    var th, registered := st.threads[s], st.observers.Keys;
    MovedPending(th, m, registered, t);
    TotalUpdate(st.threads, s, Moved(th, m, registered), t);
  }

  lemma {:induction false} AddKeepsBalanced(st: State, s: nat, o: nat, t: Task)
    requires Balanced(st, t) && Enabled(st, Add(s, o))
    ensures Balanced(Step(st, Add(s, o)), t)
  {
    var th := st.threads[s];
    if th.current.Mine? { PostTotal(st.threads, s, Task(o, th.current.n), t); }
  }

  lemma {:induction false} ForAllCount(observers: set<nat>, n: nat, t: Task)
    ensures ForAll(observers, n)[t] == if t.n == n && t.obs in observers then 1 else 0
  {
    if t.n == n && t.obs in observers { assert t in set o | o in observers :: Task(o, n); }
  }

  lemma {:induction false} SendKeepsBalanced(st: State, op: Op, t: Task)
    requires Enabled(st, op) && (op.NotifyBegin? || op.SyncBegin?) && Balanced(st, t)
    ensures Balanced(Step(st, op), t)
  {
    ForAllCount(st.observers.Keys, op.n, t);
    if op.SyncBegin? {
      var th := st.threads[op.s];
      TotalUpdate(st.threads, op.s, th.(stack := Push(Collecting(op.n), th.stack)), t);
    }
  }

  lemma {:induction false} PostTotal(threads: seq<Thread>, s: nat, u: Task, t: Task)
    requires s < |threads|
    ensures Total(threads[s := Posted(threads[s], u)], t) == Total(threads, t) + if t == u then 1 else 0
  {
    PostedPending(threads[s], u, t);
    TotalUpdate(threads, s, Posted(threads[s], u), t);
  }

  lemma {:induction false} PostKeepsBalanced(st: State, o: nat, t: Task)
    requires Enabled(st, NotifyPost(o)) && Balanced(st, t)
    ensures Balanced(Step(st, NotifyPost(o)), t)
  {
    PostTotal(st.threads, st.observers[o], Task(o, st.lock.n), t);
  }

  lemma {:induction false} KeptForMyself(n: nat, who: nat, todo: set<nat>, mine: seq<nat>, o: nat, t: Task)
    requires o in todo
    ensures Reserved(NotifyingSync(n, who, todo - {o}, mine + [o]), t) == Reserved(NotifyingSync(n, who, todo, mine), t)
  {
    assert multiset(mine + [o])[t.obs] == multiset(mine)[t.obs] + if t.obs == o then 1 else 0;
  }

  lemma {:induction false} VisitKeepsBalanced(st: State, o: nat, t: Task)
    requires Enabled(st, SyncVisit(o)) && Balanced(st, t)
    ensures Balanced(Step(st, SyncVisit(o)), t)
  {
    var NotifyingSync(n, who, todo, mine) := st.lock;
    if st.observers[o] == who {
      KeptForMyself(n, who, todo, mine, o, t);
    } else {
      PostTotal(st.threads, st.observers[o], Task(o, n), t);
    }
  }

  lemma {:induction false} SyncEndKeepsBalanced(st: State, t: Task)
    requires LockOk(st) && Enabled(st, SyncEnd) && Balanced(st, t)
    ensures Balanced(Step(st, SyncEnd), t)
  {
    var NotifyingSync(n, who, _, mine) := st.lock;
    var th := st.threads[who];
    TotalUpdate(st.threads, who, th.(stack := Push(Dispatching(n, mine), th.stack.below)), t);
  }

  lemma {:induction false} StepKeepsBalanced(st: State, op: Op, t: Task)
    requires LockOk(st) && Enabled(st, op) && Balanced(st, t)
    ensures Balanced(Step(st, op), t)
  {
    match op
    case Local(s, m) => LocalKeepsBalanced(st, s, m, t);
    case Add(s, o) => AddKeepsBalanced(st, s, o, t);
    case NotifyBegin(_) => SendKeepsBalanced(st, op, t);
    case SyncBegin(_, _) => SendKeepsBalanced(st, op, t);
    case NotifyPost(o) => PostKeepsBalanced(st, o, t);
    case SyncVisit(o) => VisitKeepsBalanced(st, o, t);
    case SyncEnd => SyncEndKeepsBalanced(st, t);
    case Remove(_) =>
    case NotifyEnd =>
  }

  /** Only a task whose observer is not registered is dropped, and it is stale by then. */
  lemma {:induction false} LocalKeepsRecorded(st: State, s: nat, m: Move, t: Task)
    requires Located(st) && Recorded(st, t) && Enabled(st, Local(s, m))
    ensures Recorded(Step(st, Local(s, m)), t)
  {
    var th := st.threads[s];
    if m.Check? && th.stack.top.t == t {
      assert Pending(th, t) > 0;
      assert AtHome(st, s, t);
    }
  }

  lemma {:induction false} StepKeepsRecorded(st: State, op: Op, t: Task)
    requires Shape(st) && Located(st) && Recorded(st, t) && Enabled(st, op)
    ensures Recorded(Step(st, op), t)
  {
    match op
    case Local(s, m) => LocalKeepsRecorded(st, s, m, t);
    case Add(s, o) => CurrentIssued(st.threads[s].stack, st.issued);
    case NotifyBegin(n) => ForAllCount(st.observers.Keys, n, t);
    case SyncBegin(_, n) => ForAllCount(st.observers.Keys, n, t);
    case _ =>
  }

  lemma {:induction false} StepKeepsInv(st: State, op: Op)
    requires Inv(st) && Enabled(st, op)
    ensures Inv(Step(st, op))
  {
    StepKeepsShape(st, op);
    StepKeepsLocated(st, op);
    forall t: Task ensures Balanced(Step(st, op), t) && Recorded(Step(st, op), t) {
      assert Balanced(st, t) && Recorded(st, t);
      StepKeepsBalanced(st, op, t);
      StepKeepsRecorded(st, op, t);
    }
  }

  lemma {:induction false} RunKeepsInv(st: State, ops: seq<Op>)
    requires Inv(st) && EnabledRun(st, ops)
    ensures Inv(Run(st, ops))
    decreases |ops|
  {
    if ops != [] {
      StepKeepsInv(st, ops[0]);
      RunKeepsInv(Step(st, ops[0]), ops[1..]);
    }
  }

  lemma {:induction false} InitInv(st: State)
    requires Init(st)
    ensures Inv(st)
  {
    forall t: Task ensures Balanced(st, t) { TotalOfIdle(st.threads, t); }
  }

  // ----- Runs -----

  /** All queues have drained and nobody is inside the list. */
  predicate Quiet(st: State) {
    st.lock.Free? && forall s :: 0 <= s < |st.threads| ==> st.threads[s].queue == [] && st.threads[s].stack.Empty?
  }

  lemma {:induction false} HistoryGrows(st: State, ops: seq<Op>)
    requires EnabledRun(st, ops)
    ensures st.homes <= Run(st, ops).homes && st.stale <= Run(st, ops).stale && st.issued <= Run(st, ops).issued
    ensures Run(st, ops).policy == st.policy && |Run(st, ops).threads| == |st.threads|
    ensures st.begun <= Run(st, ops).begun
    decreases |ops|
  {
    if ops != [] { HistoryGrows(Step(st, ops[0]), ops[1..]); }
  }

  lemma {:induction false} Prepend(st: State, op: Op, ops: seq<Op>)
    requires Enabled(st, op) && EnabledRun(Step(st, op), ops)
    ensures EnabledRun(st, [op] + ops) && Run(st, [op] + ops) == Run(Step(st, op), ops)
  {
    assert ([op] + ops)[1..] == ops;
  }

  lemma {:induction false} HeadOfConcat(a: seq<Op>, b: seq<Op>)
    requires a != []
    ensures a + b == [a[0]] + (a[1..] + b)
  {
  }

  /** A run of two parts. */
  lemma {:induction false} Concat(st: State, a: seq<Op>, b: seq<Op>)
    requires EnabledRun(st, a) && EnabledRun(Run(st, a), b)
    ensures EnabledRun(st, a + b) && Run(st, a + b) == Run(Run(st, a), b)
    decreases |a|
  {
    if a == [] {
      assert a + b == b;
    } else {
      Concat(Step(st, a[0]), a[1..], b);
      Prepend(st, a[0], a[1..] + b);
      HeadOfConcat(a, b);
    }
  }
}
