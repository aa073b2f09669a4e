/** The two ways to give up a reference: rtc::RefCountedBase decrements and tests the result; the hand-written
    Release of Spitfire's session description observers tests and then decrements. First for one thread, then
    for any number of threads in every interleaving. */
module ReleaseProtocols {
  import opened RefCounting

  // ----- One thread -----

  datatype Object = Object(count: int, deletions: nat)

  function BaseRelease(o: Object): (Object, ReleaseStatus) {
    var count := o.count - 1;
    if count == 0 then (Object(count, o.deletions + 1), DroppedLastRef)
    else (Object(count, o.deletions), OtherRefsRemained)
  }

  function SpitfireRelease(o: Object): (Object, ReleaseStatus) {
    if o.count == 1 then (Object(o.count, o.deletions + 1), DroppedLastRef)
    else (Object(o.count - 1, o.deletions), OtherRefsRemained)
  }

  /** Spitfire::Observers::SetSessionDescriptionObserver, and CreateSessionDescriptionObserver likewise. */
  class SessionDescriptionObserver {
    var refCount: int
    var deletions: nat

    constructor ()
      ensures refCount == 0 && deletions == 0
    {
      refCount, deletions := 0, 0;
    }

    method AddRef()
      modifies this`refCount
      ensures refCount == old(refCount) + 1
    {
      refCount := refCount + 1;
    }

    method Release() returns (status: ReleaseStatus)
      modifies this
      ensures (Object(refCount, deletions), status) == SpitfireRelease(old(Object(refCount, deletions)))
    {
      if refCount == 1 {
        deletions := deletions + 1;
        return DroppedLastRef;
      }
      refCount := refCount - 1;
      return OtherRefsRemained;
    }
  }

  datatype Call = AddRef | Release

  /** Calls that a program makes on an object that still exists, by callers that own a reference. */
  predicate Proper(count: nat, calls: seq<Call>)
    decreases |calls|
  {
    calls == [] ||
    match calls[0]
    case AddRef => Proper(count + 1, calls[1..])
    case Release => count > 0 && if count == 1 then calls[1..] == [] else Proper(count - 1, calls[1..])
  }

  /** The statuses returned and the number of deletions, under either way to release. */
  function History(o: Object, calls: seq<Call>, spitfire: bool): (seq<ReleaseStatus>, nat)
    decreases |calls|
  {
    if calls == [] then ([], o.deletions)
    else
      match calls[0]
      case AddRef => History(o.(count := o.count + 1), calls[1..], spitfire)
      case Release =>
        var (o1, status) := if spitfire then SpitfireRelease(o) else BaseRelease(o);
        var (rest, deletions) := History(o1, calls[1..], spitfire);
        ([status] + rest, deletions)
  }

  /** Called from one thread, the two are the same: every status, and the point of deletion. */
  lemma {:induction false} SameHistory(o: Object, calls: seq<Call>)
    requires o.count >= 0 && Proper(o.count, calls)
    ensures History(o, calls, true) == History(o, calls, false)
    decreases |calls|
  {
    if calls != [] {
      match calls[0]
      case AddRef => SameHistory(o.(count := o.count + 1), calls[1..]);
      case Release => if o.count != 1 { SameHistory(o.(count := o.count - 1), calls[1..]); }
    }
  }

  function Count(calls: seq<Call>, call: Call): nat {
    if calls == [] then 0 else (if calls[0] == call then 1 else 0) + Count(calls[1..], call)
  }

  /** What happens, under either way to release: every release leaves other references but the one that gives up the
      last, and that one, if it comes, deletes. */
  lemma {:induction false} HistoryByCounting(o: Object, calls: seq<Call>, spitfire: bool)
    requires o.count > 0 && Proper(o.count, calls)
    ensures var (statuses, deletions) := History(o, calls, spitfire);
            var last := Count(calls, Release) == o.count + Count(calls, AddRef);
            && |statuses| == Count(calls, Release)
            && deletions == o.deletions + (if last then 1 else 0)
            && forall i :: 0 <= i < |statuses| ==> (statuses[i] == DroppedLastRef <==> last && i == |statuses| - 1)
    decreases |calls|
  {
    if calls != [] {
      match calls[0]
      case AddRef => HistoryByCounting(o.(count := o.count + 1), calls[1..], spitfire);
      case Release => if o.count != 1 { HistoryByCounting(o.(count := o.count - 1), calls[1..], spitfire); }
    }
  }

  // ----- Many threads -----

  /** One reference: owned; in Release past the test that saw other references; in Release about to delete;
      given up. */
  datatype Ref = Owned | Tested | Deleting | Gone

  /** The counter word, the deletions so far, and all references there ever were. */
  datatype State = State(count: int, deletions: nat, refs: seq<Ref>)

  datatype Op = Share(k: nat) | Test(k: nat) | Decrement(k: nat) | Delete(k: nat)

  /** How often r occurs. */
  function Number(refs: seq<Ref>, r: Ref): nat {
    if refs == [] then 0 else (if refs[0] == r then 1 else 0) + Number(refs[1..], r)
  }

  lemma {:induction false} NumberUpdate(refs: seq<Ref>, k: nat, r: Ref)
    requires k < |refs|
    ensures forall x :: Number(refs[k := r], x) ==
              Number(refs, x) - (if x == refs[k] then 1 else 0) + if x == r then 1 else 0
    ensures Number(refs, refs[k]) > 0
  {
    if k == 0 {
      assert refs[k := r][1..] == refs[1..];
    } else {
      NumberUpdate(refs[1..], k - 1, r);
      assert refs[k := r][1..] == refs[1..][k - 1 := r];
    }
  }

  lemma {:induction false} NumberAppend(refs: seq<Ref>, r: Ref)
    ensures forall x :: Number(refs + [r], x) == Number(refs, x) + if x == r then 1 else 0
  {
    if refs == [] {
      assert refs + [r] == [r] && [r][1..] == [];
    } else {
      NumberAppend(refs[1..], r);
      assert (refs + [r])[1..] == refs[1..] + [r];
    }
  }

  function Set(st: State, k: nat, r: Ref): State
    requires k < |st.refs|
  {
    st.(refs := st.refs[k := r])
  }

  /** Spitfire: Test reads the counter and goes on to Delete or to Decrement, which subtracts and looks no more.
      Base: there is no test; Decrement subtracts and learns whether it was the last, Delete then deletes. */
  predicate Enabled(st: State, op: Op, spitfire: bool) {
    && op.k < |st.refs|
    && match op
       case Share(k) => st.refs[k].Owned?
       case Test(k) => spitfire && st.refs[k].Owned?
       case Decrement(k) => if spitfire then st.refs[k].Tested? else st.refs[k].Owned?
       case Delete(k) => st.refs[k].Deleting?
  }

  function Step(st: State, op: Op, spitfire: bool): State
    requires Enabled(st, op, spitfire)
  {
    match op
    case Share(_) => st.(count := st.count + 1, refs := st.refs + [Owned])
    case Test(k) => Set(st, k, if st.count == 1 then Deleting else Tested)
    case Decrement(k) =>
      Set(st, k, if !spitfire && st.count - 1 == 0 then Deleting else Gone).(count := st.count - 1)
    case Delete(k) => Set(st, k, Gone).(deletions := st.deletions + 1)
  }

  ghost predicate EnabledRun(st: State, ops: seq<Op>, spitfire: bool)
    decreases |ops|
  {
    ops == [] || (Enabled(st, ops[0], spitfire) && EnabledRun(Step(st, ops[0], spitfire), ops[1..], spitfire))
  }

  function Run(st: State, ops: seq<Op>, spitfire: bool): State
    requires EnabledRun(st, ops, spitfire)
    decreases |ops|
  {
    if ops == [] then st else Run(Step(st, ops[0], spitfire), ops[1..], spitfire)
  }

  /** Owners that have not begun to release, and releases under way. */
  function Holders(st: State): nat {
    Number(st.refs, Owned) + Number(st.refs, Tested)
  }

  predicate Drained(st: State) {
    Holders(st) == 0 && Number(st.refs, Deleting) == 0
  }

  /** Before the deletion the counter is the number of references left; from the moment one release has decided
      to delete, nobody else holds one. */
  predicate SpitfireInv(st: State) {
    && st.deletions + Number(st.refs, Deleting) <= 1
    && (st.deletions + Number(st.refs, Deleting) == 1 ==> Holders(st) == 0)
    && (st.deletions == 0 ==> st.count == Holders(st) + Number(st.refs, Deleting))
  }

  predicate BaseInv(st: State) {
    && Number(st.refs, Tested) == 0
    && st.count == Number(st.refs, Owned)
    && st.deletions + Number(st.refs, Deleting) == if st.count == 0 then 1 else 0
  }

  lemma {:induction false} StepKeepsSpitfireInv(st: State, op: Op)
    requires SpitfireInv(st) && Enabled(st, op, true)
    ensures SpitfireInv(Step(st, op, true))
    ensures Step(st, op, true).deletions > st.deletions ==> Holders(st) == 0
  {
    NumberAppend(st.refs, Owned);
    NumberUpdate(st.refs, op.k, Gone);
    NumberUpdate(st.refs, op.k, Tested);
    NumberUpdate(st.refs, op.k, Deleting);
  }

  lemma {:induction false} StepKeepsBaseInv(st: State, op: Op)
    requires BaseInv(st) && Enabled(st, op, false)
    ensures BaseInv(Step(st, op, false))
    ensures Step(st, op, false).deletions > st.deletions ==> Holders(st) == 0
  {
    NumberAppend(st.refs, Owned);
    NumberUpdate(st.refs, op.k, Gone);
    NumberUpdate(st.refs, op.k, Deleting);
  }

  lemma {:induction false} RunKeepsSpitfireInv(st: State, ops: seq<Op>)
    requires SpitfireInv(st) && EnabledRun(st, ops, true)
    ensures SpitfireInv(Run(st, ops, true)) && st.deletions <= Run(st, ops, true).deletions
    decreases |ops|
  {
    if ops != [] {
      StepKeepsSpitfireInv(st, ops[0]);
      RunKeepsSpitfireInv(Step(st, ops[0], true), ops[1..]);
    }
  }

  lemma {:induction false} RunKeepsBaseInv(st: State, ops: seq<Op>)
    requires BaseInv(st) && EnabledRun(st, ops, false)
    ensures BaseInv(Run(st, ops, false))
    decreases |ops|
  {
    if ops != [] {
      StepKeepsBaseInv(st, ops[0]);
      RunKeepsBaseInv(Step(st, ops[0], false), ops[1..]);
    }
  }

  /** A release decides to delete exactly when it holds the last reference there is. */
  lemma {:induction false} DecidesIffLast(st: State, op: Op, spitfire: bool)
    requires Enabled(st, op, spitfire) && st.refs[op.k].Owned?
    requires if spitfire then SpitfireInv(st) && op.Test? else BaseInv(st) && op.Decrement?
    ensures Step(st, op, spitfire).refs[op.k].Deleting? <==> Holders(st) == 1
  {
    NumberUpdate(st.refs, op.k, Gone);
  }

  /** A new object with one owner. */
  predicate Start(st: State) {
    st == State(1, 0, [Owned])
  }

  /** RefCountedBase: under every interleaving the object is deleted at most once, only when no reference is
      left, and once all references are given up it has been deleted. */
  lemma {:induction false} BaseDeletesExactlyOnce(st: State, ops: seq<Op>)
    requires Start(st) && EnabledRun(st, ops, false)
    ensures var end := Run(st, ops, false);
            && end.deletions <= 1
            && (end.deletions == 1 ==> Holders(end) == 0)
            && (Drained(end) ==> end.deletions == 1)
  {
    RunKeepsBaseInv(st, ops);
  }

  /** Spitfire: under every interleaving the object is deleted at most once, and never under a holder. */
  lemma {:induction false} SpitfireNeverDeletesEarlyOrTwice(st: State, ops: seq<Op>)
    requires Start(st) && EnabledRun(st, ops, true)
    ensures var end := Run(st, ops, true);
            end.deletions <= 1 && (end.deletions == 1 ==> Holders(end) == 0)
  {
    RunKeepsSpitfireInv(st, ops);
  }

  /** Every reference that is left is in Release past its test. */
  predicate Stranded(st: State) {
    Number(st.refs, Owned) == 0 && Number(st.refs, Tested) > 0
  }

  ghost predicate PassesStranded(st: State, ops: seq<Op>)
    requires EnabledRun(st, ops, true)
    decreases |ops|
  {
    Stranded(st) || (ops != [] && PassesStranded(Step(st, ops[0], true), ops[1..]))
  }

  lemma {:induction false} StrandedIsNeverDeleted(st: State, ops: seq<Op>)
    requires EnabledRun(st, ops, true) && Number(st.refs, Owned) == 0 && Number(st.refs, Deleting) == 0
    ensures Run(st, ops, true).deletions == st.deletions
    decreases |ops|
  {
    if ops != [] {
      NumberUpdate(st.refs, ops[0].k, Gone);
      StrandedIsNeverDeleted(Step(st, ops[0], true), ops[1..]);
    }
  }

  lemma {:induction false} DecidedIsDeleted(st: State, ops: seq<Op>)
    requires SpitfireInv(st) && EnabledRun(st, ops, true) && Drained(Run(st, ops, true))
    requires st.deletions + Number(st.refs, Deleting) == 1
    ensures Run(st, ops, true).deletions == 1 && !PassesStranded(st, ops)
    decreases |ops|
  {
    if ops != [] {
      StepKeepsSpitfireInv(st, ops[0]);
      NumberUpdate(st.refs, ops[0].k, Gone);
      DecidedIsDeleted(Step(st, ops[0], true), ops[1..]);
    }
  }

  /** Spitfire deletes an object whose references are all given up if and only if the run never came to a state
      in which all references left were in Release past their test: releases of the last references must not
      overlap. Otherwise the object leaks. */
  lemma {:induction false} SpitfireLeaksIffStranded(st: State, ops: seq<Op>)
    requires SpitfireInv(st) && Holders(st) > 0
    requires EnabledRun(st, ops, true) && Drained(Run(st, ops, true))
    ensures Run(st, ops, true).deletions == 0 <==> PassesStranded(st, ops)
    decreases |ops|
  {
    if Number(st.refs, Owned) == 0 {
      StrandedIsNeverDeleted(st, ops);
    } else {
      var t := Step(st, ops[0], true);
      StepKeepsSpitfireInv(st, ops[0]);
      NumberUpdate(st.refs, ops[0].k, Gone);
      NumberUpdate(st.refs, ops[0].k, Tested);
      NumberUpdate(st.refs, ops[0].k, Deleting);
      NumberAppend(st.refs, Owned);
      if Number(t.refs, Deleting) == 0 {
        SpitfireLeaksIffStranded(t, ops[1..]);
      } else {
        DecidedIsDeleted(t, ops[1..]);
      }
    }
  }

  /** Every release runs from its test to its end before another call comes in between. */
  ghost predicate Serial(ops: seq<Op>)
    decreases |ops|
  {
    ops == []
    || (ops[0].Share? && Serial(ops[1..]))
    || (ops[0].Test? && |ops| > 1 && (ops[1] == Decrement(ops[0].k) || ops[1] == Delete(ops[0].k)) && Serial(ops[2..]))
  }

  /** Spitfire's Release deletes exactly once when releases do not overlap. */
  lemma {:induction false} SerialReleasesDelete(st: State, ops: seq<Op>)
    requires SpitfireInv(st) && Number(st.refs, Tested) == 0 && Number(st.refs, Deleting) == 0
    requires Number(st.refs, Owned) > 0 && st.deletions == 0
    requires EnabledRun(st, ops, true) && Serial(ops) && Drained(Run(st, ops, true))
    ensures Run(st, ops, true).deletions == 1
    decreases |ops|
  {
    var t := Step(st, ops[0], true);
    StepKeepsSpitfireInv(st, ops[0]);
    NumberUpdate(st.refs, ops[0].k, Tested);
    NumberUpdate(st.refs, ops[0].k, Deleting);
    NumberAppend(st.refs, Owned);
    if ops[0].Share? {
      SerialReleasesDelete(t, ops[1..]);
    } else {
      DecidesIffLast(st, ops[0], true);
      var u := Step(t, ops[1], true);
      StepKeepsSpitfireInv(t, ops[1]);
      NumberUpdate(t.refs, ops[1].k, Gone);
      assert ops[1..][1..] == ops[2..] && Run(t, ops[1..], true) == Run(u, ops[2..], true);
      if ops[1].Delete? { DecidedIsDeleted(u, ops[2..]); } else { SerialReleasesDelete(u, ops[2..]); }
    }
  }

  lemma {:induction false} Prepend(st: State, op: Op, ops: seq<Op>)
    requires Enabled(st, op, true) && EnabledRun(Step(st, op, true), ops, true)
    ensures EnabledRun(st, [op] + ops, true)
    ensures Run(st, [op] + ops, true) == Run(Step(st, op, true), ops, true)
  {
    assert ([op] + ops)[1..] == ops;
  }

  /** The shortest leak: two references, both tested before either is decremented. */
  lemma {:induction false} TwoReleasesCanLeak(st: State) returns (ops: seq<Op>)
    requires Start(st)
    ensures EnabledRun(st, ops, true)
    ensures Drained(Run(st, ops, true)) && Run(st, ops, true).deletions == 0
  {
    var s1 := Step(st, Share(0), true);
    var s2 := Step(s1, Test(0), true);
    var s3 := Step(s2, Test(1), true);
    var s4 := Step(s3, Decrement(0), true);
    var s5 := Step(s4, Decrement(1), true);
    assert |s5.refs| == 2 && s5.refs[0] == s5.refs[1] == Gone && s5.deletions == 0;
    AllGone(s5.refs);
    var o4: seq<Op> := [Decrement(1)] + [];
    Prepend(s4, Decrement(1), []);
    var o3 := [Decrement(0)] + o4;
    Prepend(s3, Decrement(0), o4);
    var o2 := [Test(1)] + o3;
    Prepend(s2, Test(1), o3);
    var o1 := [Test(0)] + o2;
    Prepend(s1, Test(0), o2);
    ops := [Share(0)] + o1;
    Prepend(st, Share(0), o1);
  }

  lemma {:induction false} AllGone(refs: seq<Ref>)
    requires forall k :: 0 <= k < |refs| ==> refs[k] == Gone
    ensures forall r :: r != Gone ==> Number(refs, r) == 0
  {
    if refs != [] { AllGone(refs[1..]); }
  }
}
