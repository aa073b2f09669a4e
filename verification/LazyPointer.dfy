/** base::subtle::GetOrCreateLazyPointer as a protocol over one shared word: any number of threads, each
    taking the steps that the atomic operations allow, in every interleaving. NeedsLazyInstance and
    CompleteLazyInstance are taken at their documented contracts: the first claims the word if it is still
    zero, and otherwise waits while it says "creating"; the second stores the new instance. */
module LazyPointer {

  /** The word: 0, 1 while the instance is being created, then the address of the instance. */
  const UNSET: nat := 0
  const CREATING: nat := 1

  /** `instance & kLazyInstanceCreatedMask`: some bit other than the lowest is set. */
  predicate Created(word: nat) {
    word >= 2
  }

  /** Where a thread stands in the function. */
  datatype Thread =
    | Outside
    | AtNeeds                      // the first load saw no instance
    | Waiting                      // in NeedsLazyInstance, beaten by another thread
    | Creating                     // NeedsLazyInstance returned true; the creator is about to run
    | Completing(instance: nat)    // the creator has returned
    | Reloading                    // NeedsLazyInstance returned false
    | Returned(instance: nat)

  /** The last two fields are history: what the creator returned, in order, and what callers got. */
  datatype State = State(word: nat, threads: seq<Thread>, created: seq<nat>, results: set<nat>)

  datatype Op =
    | FirstLoad(k: nat)
    | Needs(k: nat)
    | Wake(k: nat)
    | RunCreator(k: nat, result: nat)
    | Complete(k: nat)
    | Reload(k: nat)
    | CallAgain(k: nat)

  /** The creator returns null or the address of an object, which is never 1. */
  predicate Enabled(st: State, op: Op) {
    && op.k < |st.threads|
    && match op
       case FirstLoad(k) => st.threads[k].Outside?
       case Needs(k) => st.threads[k].AtNeeds?
       case Wake(k) => st.threads[k].Waiting? && st.word != CREATING
       case RunCreator(k, result) => st.threads[k].Creating? && result != CREATING
       case Complete(k) => st.threads[k].Completing?
       case Reload(k) => st.threads[k].Reloading?
       case CallAgain(k) => st.threads[k].Returned?
  }

  function Goto(st: State, k: nat, th: Thread): State
    requires k < |st.threads|
  {
    st.(threads := st.threads[k := th])
  }

  function Return(st: State, k: nat, v: nat): State
    requires k < |st.threads|
  {
    Goto(st, k, Returned(v)).(results := st.results + {v})
  }

  function Step(st: State, op: Op): State
    requires Enabled(st, op)
  {
    match op
    case FirstLoad(k) => if Created(st.word) then Return(st, k, st.word) else Goto(st, k, AtNeeds)
    case Needs(k) =>
      if st.word == UNSET then Goto(st, k, Creating).(word := CREATING)
      else if st.word == CREATING then Goto(st, k, Waiting)
      else Goto(st, k, Reloading)
    case Wake(k) => Goto(st, k, Reloading)
    case RunCreator(k, result) => Goto(st, k, Completing(result)).(created := st.created + [result])
    case Complete(k) => Return(st, k, st.threads[k].instance).(word := st.threads[k].instance)
    case Reload(k) => Return(st, k, st.word)
    case CallAgain(k) => Goto(st, k, Outside)
  }

  ghost predicate EnabledRun(st: State, ops: seq<Op>)
    decreases |ops|
  {
    ops == [] || (Enabled(st, ops[0]) && EnabledRun(Step(st, ops[0]), ops[1..]))
  }

  function Run(st: State, ops: seq<Op>): State
    requires EnabledRun(st, ops)
    decreases |ops|
  {
    if ops == [] then st else Run(Step(st, ops[0]), ops[1..])
  }

  ghost predicate Init(st: State) {
    && st.word == UNSET && st.created == [] && st.results == {}
    && forall k :: 0 <= k < |st.threads| ==> st.threads[k].Outside?
  }

  /** A thread that has claimed the word and not yet given it back. */
  predicate Holds(th: Thread) {
    th.Creating? || th.Completing?
  }

  predicate AllNull(s: seq<nat>) {
    forall j :: 0 <= j < |s| ==> s[j] == UNSET
  }

  /** The creator returned v last, and nothing but null before. */
  predicate FirstInstance(created: seq<nat>, v: nat) {
    created != [] && created[|created| - 1] == v && AllNull(created[..|created| - 1])
  }

  predicate ThreadOk(st: State, th: Thread) {
    match th
    case Creating => AllNull(st.created)
    case Completing(v) => FirstInstance(st.created, v)
    case Waiting => st.word == UNSET ==> st.created != []
    case Reloading => !Created(st.word) ==> UNSET in st.created
    case Returned(v) => v in st.results
    case _ => true
  }

  /** The word is a lock: it says "creating" exactly while one thread, and only one, holds it. */
  ghost predicate LockOk(st: State) {
    && (st.word == CREATING <==> exists k :: 0 <= k < |st.threads| && Holds(st.threads[k]))
    && (forall j, k :: 0 <= j < k < |st.threads| ==> !(Holds(st.threads[j]) && Holds(st.threads[k])))
    && CREATING !in st.created
  }

  /** Callers get the instance, unless the creator has returned null. */
  ghost predicate ResultsOk(st: State) {
    forall v :: v in st.results ==> (Created(st.word) && v == st.word) || (!Created(v) && UNSET in st.created)
  }

  ghost predicate Inv(st: State) {
    && LockOk(st)
    && ResultsOk(st)
    && (forall k :: 0 <= k < |st.threads| ==> ThreadOk(st, st.threads[k]))
    && (st.word == UNSET ==> AllNull(st.created))
    && (Created(st.word) ==> FirstInstance(st.created, st.word))
  }

  lemma {:induction false} StepKeepsLock(st: State, op: Op)
    requires Inv(st) && Enabled(st, op)
    ensures LockOk(Step(st, op))
  {
    var st' := Step(st, op);
    if st.word == CREATING {
      var h :| 0 <= h < |st.threads| && Holds(st.threads[h]);
      assert h != op.k ==> Holds(st'.threads[h]);
    }
    assert st'.threads[op.k] == st'.threads[op.k];
  }

  lemma {:induction false} StepKeepsInv(st: State, op: Op)
    requires Inv(st) && Enabled(st, op)
    ensures Inv(Step(st, op))
  {
    StepKeepsLock(st, op);
    assert ThreadOk(st, st.threads[op.k]);
    var st' := Step(st, op);
    forall k | 0 <= k < |st'.threads| ensures ThreadOk(st', st'.threads[k]) {
      assert ThreadOk(st, st.threads[k]);
    }
  }

  lemma {:induction false} RunKeepsInv(st: State, ops: seq<Op>)
    requires Inv(st) && EnabledRun(st, ops)
    ensures Inv(Run(st, ops))
    decreases |ops|
  {
    if ops != [] {
      StepKeepsInv(st, ops[0]);
      RunKeepsInv(Step(st, ops[0]), ops[1..]);
    }
  }

  lemma {:induction false} InitInv(st: State)
    requires Init(st)
    ensures Inv(st)
  {
  }

  /** Under every interleaving, all the creator ever returned before its last result is null, so there is at
      most one instance, and every caller that got an instance got that one, completed. */
  lemma {:induction false} OneInstance(st: State, ops: seq<Op>)
    requires Init(st) && EnabledRun(st, ops)
    ensures var end := Run(st, ops);
            && (forall j :: 0 <= j < |end.created| - 1 ==> end.created[j] == UNSET)
            && (|end.created| > 1 ==> UNSET in end.created)
            && (forall v :: v in end.results && Created(v) ==> v == end.word && FirstInstance(end.created, v))
  {
    InitInv(st);
    RunKeepsInv(st, ops);
    var end := Run(st, ops);
    if end.word == CREATING {
      var k :| 0 <= k < |end.threads| && Holds(end.threads[k]);
      assert ThreadOk(end, end.threads[k]);
    }
    if |end.created| > 1 { assert end.created[0] == end.created[..|end.created| - 1][0]; }
  }

  /** If the creator has not returned null, it has run at most once, and no caller has returned before the word
      held its instance, which is what all of them got. */
  lemma {:induction false} CreatorRunsOnce(st: State, ops: seq<Op>)
    requires Init(st) && EnabledRun(st, ops) && UNSET !in Run(st, ops).created
    ensures |Run(st, ops).created| <= 1
    ensures Run(st, ops).results <= {Run(st, ops).word}
    ensures Run(st, ops).results != {} ==> Created(Run(st, ops).word) && Run(st, ops).created == [Run(st, ops).word]
  {
    OneInstance(st, ops);
    InitInv(st);
    RunKeepsInv(st, ops);
  }

  /** What the creator returned has been given to a caller, or is about to be. */
  ghost predicate HandedOut(st: State) {
    forall v :: v in st.created ==>
      v in st.results || exists k :: 0 <= k < |st.threads| && st.threads[k] == Completing(v)
  }

  lemma {:induction false} StepKeepsHandedOut(st: State, op: Op)
    requires HandedOut(st) && Enabled(st, op)
    ensures HandedOut(Step(st, op)) && st.results <= Step(st, op).results
  {
    var st' := Step(st, op);
    forall v | v in st'.created && v !in st'.results
      ensures exists k :: 0 <= k < |st'.threads| && st'.threads[k] == Completing(v)
    {
      if v in st.created {
        var k :| 0 <= k < |st.threads| && st.threads[k] == Completing(v);
        assert k != op.k && st'.threads[k] == Completing(v);
      } else {
        assert st'.threads[op.k] == Completing(v);
      }
    }
  }

  lemma {:induction false} RunKeepsHandedOut(st: State, ops: seq<Op>)
    requires HandedOut(st) && EnabledRun(st, ops)
    ensures HandedOut(Run(st, ops))
    decreases |ops|
  {
    if ops != [] {
      StepKeepsHandedOut(st, ops[0]);
      RunKeepsHandedOut(Step(st, ops[0]), ops[1..]);
    }
  }

  /** Once no call stands between the creator and its return, the creator has run at most once and every caller that
      has returned has got its instance, if and only if the creator has not returned null. */
  lemma {:induction false} OnceIffNeverNull(st: State, ops: seq<Op>)
    requires Init(st) && EnabledRun(st, ops)
    requires forall k :: 0 <= k < |Run(st, ops).threads| ==> !Run(st, ops).threads[k].Completing?
    ensures var end := Run(st, ops);
            |end.created| <= 1 && (forall v :: v in end.results ==> Created(v) && v == end.word)
            <==> UNSET !in end.created
  {
    RunKeepsHandedOut(st, ops);
    if UNSET !in Run(st, ops).created { CreatorRunsOnce(st, ops); }
  }

  // ----- Every call returns -----

  /** How many steps a thread has at most before it returns. */
  function StepsLeft(th: Thread): nat {
    match th
    case Outside => 4
    case AtNeeds => 3
    case Waiting => 2
    case Creating => 2
    case Completing(_) => 1
    case Reloading => 1
    case Returned(_) => 0
  }

  function Left(threads: seq<Thread>): nat {
    if threads == [] then 0 else StepsLeft(threads[0]) + Left(threads[1..])
  }

  lemma {:induction false} LeftUpdate(threads: seq<Thread>, k: nat, th: Thread)
    requires k < |threads|
    ensures Left(threads[k := th]) + StepsLeft(threads[k]) == Left(threads) + StepsLeft(th)
  {
    if k == 0 {
      assert threads[k := th][1..] == threads[1..];
    } else {
      LeftUpdate(threads[1..], k - 1, th);
      assert threads[k := th][1..] == threads[1..][k - 1 := th];
    }
  }

  lemma {:induction false} StepsComeToAnEnd(st: State, op: Op)
    requires Enabled(st, op) && !op.CallAgain?
    ensures Left(Step(st, op).threads) < Left(st.threads)
  {
    LeftUpdate(st.threads, op.k, Step(st, op).threads[op.k]);
  }

  ghost predicate AllReturned(st: State) {
    forall k :: 0 <= k < |st.threads| ==> st.threads[k].Returned?
  }

  /** While some call has not returned, some thread can go on: whoever waits, waits for one that can. */
  lemma {:induction false} SomeoneGoesOn(st: State, instance: nat) returns (op: Op)
    requires Inv(st) && !AllReturned(st) && Created(instance)
    ensures Enabled(st, op) && !op.CallAgain? && (op.RunCreator? ==> op.result == instance)
  {
    var k :| 0 <= k < |st.threads| && !st.threads[k].Returned?;
    if st.word == CREATING {
      k :| 0 <= k < |st.threads| && Holds(st.threads[k]);
    }
    match st.threads[k]
    case Outside => op := FirstLoad(k);
    case AtNeeds => op := Needs(k);
    case Waiting => op := Wake(k);
    case Creating => op := RunCreator(k, instance);
    case Completing(_) => op := Complete(k);
    case Reloading => op := Reload(k);
  }

  /** Every call has returned the instance that the word holds. */
  ghost predicate AllGotIt(st: State) {
    && (st.threads != [] ==> Created(st.word))
    && forall k :: 0 <= k < |st.threads| ==> st.threads[k] == Returned(st.word)
  }

  lemma {:induction false} ReturnedGotIt(st: State)
    requires Inv(st) && AllReturned(st) && UNSET !in st.created
    ensures AllGotIt(st)
  {
    forall k | 0 <= k < |st.threads| ensures st.threads[k] == Returned(st.word) {
      assert ThreadOk(st, st.threads[k]);
    }
    if st.threads != [] { assert ThreadOk(st, st.threads[0]); }
  }

  lemma {:induction false} NoNullYet(st: State, op: Op, instance: nat)
    requires Enabled(st, op) && Created(instance) && (op.RunCreator? ==> op.result == instance)
    requires UNSET !in st.created
    ensures UNSET !in Step(st, op).created
  {
  }

  /** From every reachable state all calls that are under way can return, and as long as the creator has not returned
      null, each of them returns the one instance. */
  lemma {:induction false} AllCanReturn(st: State, instance: nat) returns (ops: seq<Op>)
    requires Inv(st) && Created(instance)
    ensures EnabledRun(st, ops) && AllReturned(Run(st, ops))
    ensures UNSET !in st.created ==> AllGotIt(Run(st, ops))
    decreases Left(st.threads)
  {
    if AllReturned(st) {
      ops := [];
      if UNSET !in st.created { ReturnedGotIt(st); }
    } else {
      var op := SomeoneGoesOn(st, instance);
      StepKeepsInv(st, op);
      StepsComeToAnEnd(st, op);
      if UNSET !in st.created { NoNullYet(st, op, instance); }
      var rest := AllCanReturn(Step(st, op), instance);
      Prepend(st, op, rest);
      ops := [op] + rest;
    }
  }

  /** However the threads are scheduled: short of new calls a run has no more steps than there are left, and one that
      cannot go on has let every call return. */
  lemma {:induction false} EveryCallReturns(st: State, ops: seq<Op>)
    requires Inv(st) && EnabledRun(st, ops) && forall j :: 0 <= j < |ops| ==> !ops[j].CallAgain?
    ensures |ops| <= Left(st.threads)
    ensures (forall op :: Enabled(Run(st, ops), op) ==> op.CallAgain?) ==> AllReturned(Run(st, ops))
    decreases |ops|
  {
    if ops == [] {
      if !AllReturned(st) { var _ := SomeoneGoesOn(st, 2); }
    } else {
      StepKeepsInv(st, ops[0]);
      StepsComeToAnEnd(st, ops[0]);
      EveryCallReturns(Step(st, ops[0]), ops[1..]);
    }
  }

  /** Once there is an instance, a call gets it with its first load. */
  lemma {:induction false} FirstLoadGetsIt(st: State, k: nat)
    requires Enabled(st, FirstLoad(k)) && st.word >= 2
    ensures Step(st, FirstLoad(k)) == st.(threads := st.threads[k := Returned(st.word)], results := st.results + {st.word})
  {
  }

  lemma {:induction false} Prepend(st: State, op: Op, ops: seq<Op>)
    requires Enabled(st, op) && EnabledRun(Step(st, op), ops)
    ensures EnabledRun(st, [op] + ops) && Run(st, [op] + ops) == Run(Step(st, op), ops)
  {
    assert ([op] + ops)[1..] == ops;
  }

  /** That condition cannot be dropped. When the creator returns null to thread 0 while thread 1 waits, and
      thread 2 then claims the word, thread 1 returns the value "creating" itself; a build without DCHECKs does
      not notice. */
  lemma {:induction false} NullCreatorLetsCreatingOut(st: State) returns (ops: seq<Op>)
    requires Init(st) && |st.threads| >= 3
    ensures EnabledRun(st, ops) && CREATING in Run(st, ops).results
  {
    var st1 := Step(Step(st, FirstLoad(0)), Needs(0));
    var st2 := Step(Step(st1, FirstLoad(1)), Needs(1));
    assert st2.threads[0].Creating? && st2.threads[1].Waiting? && st2.threads[2].Outside?;
    var st3 := Step(Step(st2, RunCreator(0, UNSET)), Complete(0));
    var st4 := Step(st3, Wake(1));
    assert st4.word == UNSET && st4.threads[1].Reloading? && st4.threads[2].Outside?;
    var st5 := Step(Step(st4, FirstLoad(2)), Needs(2));
    assert st5.word == CREATING && st5.threads[1].Reloading?;
    var o5: seq<Op> := [Reload(1)] + [];
    Prepend(st5, Reload(1), []);
    var o4 := [FirstLoad(2)] + ([Needs(2)] + o5);
    Prepend(Step(st4, FirstLoad(2)), Needs(2), o5);
    Prepend(st4, FirstLoad(2), [Needs(2)] + o5);
    var o2 := [RunCreator(0, UNSET)] + ([Complete(0)] + ([Wake(1)] + o4));
    Prepend(st3, Wake(1), o4);
    Prepend(Step(st2, RunCreator(0, UNSET)), Complete(0), [Wake(1)] + o4);
    Prepend(st2, RunCreator(0, UNSET), [Complete(0)] + ([Wake(1)] + o4));
    var o1 := [FirstLoad(1)] + ([Needs(1)] + o2);
    Prepend(Step(st1, FirstLoad(1)), Needs(1), o2);
    Prepend(st1, FirstLoad(1), [Needs(1)] + o2);
    ops := [FirstLoad(0)] + ([Needs(0)] + o1);
    Prepend(Step(st, FirstLoad(0)), Needs(0), o1);
    Prepend(st, FirstLoad(0), [Needs(0)] + o1);
  }
}
