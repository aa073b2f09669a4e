/** base::ObserverList and its iterators as objects that change in place. Every method is proved to do to the
    abstract view of the list what ObserverListSpec.Step says. */
module ObserverLists {
  import opened Policies
  import opened ObserverListSpec

  ghost predicate Distinct(live: seq<Iter>) {
    forall a, b :: 0 <= a < b < |live| ==> live[a] != live[b]
  }

  function Position(live: seq<Iter>, it: Iter): (k: nat)
    requires it in live
    ensures k < |live| && live[k] == it
  {
    if live[0] == it then 0 else 1 + Position(live[1..], it)
  }

  /** `live_iterators_` without one node. */
  function Unlinked(live: seq<Iter>, it: Iter): seq<Iter>
    requires it in live
  {
    var k := Position(live, it);
    live[..k] + live[k + 1..]
  }

  lemma {:induction false} UnlinkedFacts(live: seq<Iter>, it: Iter)
    requires Distinct(live) && it in live
    ensures Distinct(Unlinked(live, it)) && |Unlinked(live, it)| == |live| - 1
    ensures (set x | x in Unlinked(live, it)) == (set x | x in live) - {it}
    ensures live == [it] <==> (set x | x in live) == {it}
  {
    var k, r := Position(live, it), Unlinked(live, it);
    assert forall j :: 0 <= j < |r| ==> r[j] == live[if j < k then j else j + 1];
    forall x | x in live && x != it ensures x in r {
      var j := Position(live, x);
      assert r[if j < k then j else j - 1] == x;
    }
    forall x | x in r ensures x in live && x != it {
      var j := Position(r, x);
    }
    var keys := set x | x in live;
    assert live[0] in keys && live[|live| - 1] in keys;
  }

  class ObserverList {
    var observers: seq<Ptr>
    var live: seq<Iter>
    const policy: Policy

    ghost predicate Linked()
      reads this, live
    {
      Distinct(live) && forall it :: it in live ==> it.list == this
    }

    ghost function View(): State<Iter>
      reads this, live
    {
      State(observers, policy, map it | it in live :: Cursor(it.index, it.limit))
    }

    ghost predicate Valid()
      reads this, live
    {
      Linked() && Inv(View())
    }

    lemma NoneLive()
      ensures live == [] <==> View().live == map[]
    {
      if live != [] { assert live[0] in View().live; }
    }

    constructor (policy: Policy)
      ensures Valid() && View() == State([], policy, map[])
    {
      observers, live, this.policy := [], [], policy;
    }

    method HasObserver(obs: Ptr) returns (found: bool)
      requires Valid()
      ensures found <==> obs in Live(observers)
    {
      LiveContents(observers);
      if obs == NULL {
        return false;
      }
      found := obs in observers;
    }

    method AddObserver(obs: Ptr)
      requires Valid() && obs != NULL
      modifies this`observers
      ensures Valid() && View() == Step(old(View()), Add(obs))
    {
      StepKeepsInv(View(), Add(obs));
      LiveContents(observers);
      var found := HasObserver(obs);
      if found {
        return;
      }
      observers := observers + [obs];
    }

    method RemoveObserver(obs: Ptr)
      requires Valid() && obs != NULL
      modifies this`observers
      ensures Valid() && View() == Step(old(View()), Remove(obs))
    {
      StepKeepsInv(View(), Remove(obs));
      NoneLive();
      if obs !in observers {
        return;
      }
      var k := IndexOf(observers, obs);
      if live == [] {
        observers := observers[..k] + observers[k + 1..];
      } else {
        observers := observers[k := NULL];
      }
    }

    method Clear()
      requires Valid()
      modifies this`observers
      ensures Valid() && View() == Step(old(View()), Op<Iter>.Clear)
    {
      StepKeepsInv(View(), Op<Iter>.Clear);
      NoneLive();
      if live == [] {
        observers := [];
      } else {
        var k := 0;
        while k < |observers|
          invariant k <= |observers| == |old(observers)|
          invariant forall j :: 0 <= j < k ==> observers[j] == NULL
        {
          observers := observers[k := NULL];
          k := k + 1;
        }
        assert observers == Marked(old(observers));
      }
    }

    /** EraseIf over the vector. */
    method Compact()
      modifies this`observers
      ensures observers == Live(old(observers))
      ensures View() == old(View()).(slots := Live(old(observers)))
    {
      var kept, k := [], 0;
      while k < |observers|
        invariant k <= |observers| && observers == old(observers)
        invariant kept == Live(observers[..k])
      {
        LiveAppend(observers[..k], [observers[k]]);
        assert observers[..k + 1] == observers[..k] + [observers[k]];
        assert [observers[k]][1..] == [];
        if observers[k] != NULL {
          kept := kept + [observers[k]];
        }
        k := k + 1;
      }
      assert observers[..k] == observers;
      observers := kept;
    }

    method Begin() returns (it: Iter)
      requires Valid()
      modifies this`live
      ensures fresh(it) && Valid() && it.Valid()
      ensures it.list == (if observers == [] then null else this)
      ensures View() == Step(old(View()), ObserverListSpec.Begin(it))
    {
      if observers == [] {
        it := new Iter.AtEnd();
      } else {
        it := new Iter.OnList(this);
      }
      StepKeepsInv(old(View()), ObserverListSpec.Begin(it));
    }

    /** The destructor: terminates, detaches every iterator, and touches nothing else. */
    method Destroy()
      requires Valid()
      modifies this`live, live`list
      ensures live == [] && forall it :: it in old(live) ==> it.list == null
      ensures observers == old(observers)
    {
      while live != []
        invariant Linked()
        invariant forall it :: it in live ==> it in old(live)
        invariant forall it :: it in old(live) && it !in live ==> it.list == null
        decreases |live|
      {
        UnlinkedFacts(live, live[0]);
        ghost var before := live;
        live[0].Invalidate();
      }
    }
  }

  class Iter {
    var list: ObserverList?
    var index: nat
    var limit: Limit

    ghost predicate Valid()
      reads this, list, if list == null then {} else set it | it in list.live
    {
      list != null ==> this in list.live && list.Valid()
    }

    ghost function Home(): set<ObserverList>
      reads this
    {
      if list == null then {} else {list}
    }

    predicate IsEnd()
      reads this, list
    {
      list == null || index == End(list.observers, limit)
    }

    /** The default constructor, which is also end(). */
    constructor AtEnd()
      ensures list == null && Valid()
    {
      list, index, limit := null, 0, AtMost(0);
    }

    constructor OnList(l: ObserverList)
      requires l.Valid() && l.observers != []
      modifies l`live
      ensures list == l && l.live == old(l.live) + [this] && l.Linked() && this !in old(l.live)
      ensures l.View() == Step(old(l.View()), ObserverListSpec.Begin(this))
    {
      list := null;
      index := 0;
      limit := if l.policy == All then Unlimited else AtMost(|l.observers|);
      new;
      SetList(l);
      EnsureValidIndex();
      assert l.View().live == old(l.View()).live[this := Cursor(index, limit)];
    }

    constructor CopyOf(other: Iter)
      requires other.Valid()
      modifies other.Home()`live
      ensures list == other.list && index == other.index && limit == other.limit && Valid()
      ensures list != null ==>
                && this !in old(other.list.live)
                && list.View() == Step(old(other.list.View()), Copy(this, other))
    {
      list, index, limit := null, 0, AtMost(0);
      new;
      if other.list != null {
        StepKeepsInv(other.list.View(), Copy(this, other));
      }
      Join(other);
    }

    /** WeakLinkNode::SetList */
    method SetList(l: ObserverList)
      requires list == null && l.Linked() && this !in l.live
      modifies this`list, l`live
      ensures list == l && l.live == old(l.live) + [this] && l.Linked()
    {
      list := l;
      l.live := l.live + [this];
    }

    /** WeakLinkNode::Invalidate */
    method Invalidate()
      requires list != null ==> this in list.live && list.Linked()
      modifies this`list, Home()`live
      ensures list == null
      ensures old(list) != null ==>
                && old(list).live == Unlinked(old(list.live), this)
                && old(list).Linked()
                && old(list).View() == old(list.View()).(live := old(list.View()).live - {this})
    {
      if list != null {
        var l := list;
        UnlinkedFacts(l.live, this);
        list := null;
        l.live := Unlinked(l.live, this);
        assert (set x | x in l.live) == l.View().live.Keys;
        assert l.View().live == old(list.View()).live - {this};
      }
    }

    /** WeakLinkNode::IsOnlyRemainingNode compares the ends of the linked list. */
    method IsOnlyRemainingNode() returns (only: bool)
      requires list != null ==> this in list.live && Distinct(list.live)
      ensures only <==> list != null && list.live == [this]
    {
      only := list != null && list.live[0] == list.live[|list.live| - 1];
    }

    method EnsureValidIndex()
      requires list != null && index <= End(list.observers, limit)
      modifies this`index
      ensures index == Skip(list.observers, old(index), End(list.observers, limit))
    {
      var maxIndex := End(list.observers, limit);
      while index < maxIndex && list.observers[index] == NULL
        invariant index <= maxIndex
        invariant Skip(list.observers, index, maxIndex) == Skip(list.observers, old(index), maxIndex)
      {
        index := index + 1;
      }
    }

    /** `++`: a no-op on a detached iterator. */
    method Increment()
      requires Valid() && (list != null ==> index < End(list.observers, limit))
      modifies this`index
      ensures list == null ==> index == old(index)
      ensures list != null ==> list.Valid() && list.View() == Step(old(list.View()), Advance(this))
      ensures Valid()
    {
      if list != null {
        StepKeepsInv(list.View(), Advance(this));
        index := index + 1;
        EnsureValidIndex();
      }
    }

    /** The observer that the iterator stands on; a callback may have unregistered it since. */
    method GetCurrent() returns (obs: Ptr)
      requires Valid() && !IsEnd()
      ensures index < |list.observers| && obs == list.observers[index]
    {
      assert this in list.View().live;
      obs := list.observers[index];
    }

    /** What the destructor and assignment do first: the last iterator compacts, then leaves. */
    method Leave()
      requires Valid()
      modifies this`list, Home()`live, Home()`observers
      ensures list == null
      ensures old(list) != null ==>
                && old(list).Linked() && this !in old(list).live
                && old(list).live == Unlinked(old(list.live), this)
                && old(list).View() == Detach(old(list.View()), this)
    {
      var only := IsOnlyRemainingNode();
      ghost var l := list;
      if l != null {
        UnlinkedFacts(l.live, this);
        assert l.View().live.Keys == set x | x in l.live;
      }
      if only {
        list.Compact();
      }
      Invalidate();
    }

    /** The destructor. */
    method Destroy()
      requires Valid()
      modifies this`list, Home()`live, Home()`observers
      ensures list == null
      ensures old(list) != null ==>
                old(list).Valid() && old(list).View() == Step(old(list.View()), Drop(this))
    {
      if list != null {
        StepKeepsInv(list.View(), Drop(this));
      }
      Leave();
    }

    /** What the copy constructor and assignment do last: stand where other stands. */
    method Join(other: Iter)
      requires other != this && list == null
      requires other.list != null ==> other in other.list.live && other.list.Linked() && this !in other.list.live
      modifies this, other.Home()`live
      ensures list == other.list && index == other.index && limit == other.limit
      ensures list != null ==>
                && list.Linked() && this in list.live
                && var v := old(other.list.View()); list.View() == v.(live := v.live[this := v.live[other]])
    {
      if other.list != null {
        SetList(other.list);
      }
      index, limit := other.index, other.limit;
    }

    method Rejoin(other: Iter)
      requires Valid() && other.Valid() && other != this
      modifies this, Home()`live, Home()`observers, other.Home()`live
      ensures list == other.list && index == other.index && limit == other.limit
      ensures list != null ==> list.Linked() && this in list.live
      ensures old(list) != null ==>
                && old(list).Linked()
                && var t := Detach(old(list.View()), this);
                   old(list).View() == if other in t.live then t.(live := t.live[this := t.live[other]]) else t
      ensures list != null && list != old(list) ==>
                && this !in old(other.list.live)
                && var v := old(other.list.View()); list.View() == v.(live := v.live[this := v.live[other]])
    {
      ghost var l, o := list, other.list;
      assert o != null && o != l ==> this !in o.live;
      Leave();
      assert o != null ==> o.Linked() && other in o.live && this !in o.live;
      assert o != null && o != l ==> o.View() == old(other.list.View());
      label left:
      Join(other);
      if l != null && l != o {
        assert unchanged@left(l) && forall it :: it in l.live ==> unchanged@left(it);
        assert l.View() == old@left(l.View());
      }
    }

    /** operator=: leaves the old list as a destructor would, then joins the list of other. */
    method Assign(other: Iter)
      requires Valid() && other.Valid()
      modifies this, Home()`live, Home()`observers, other.Home()`live
      ensures Valid() && list == other.list && index == other.index && limit == other.limit
      ensures old(list) != null ==>
                && old(list).Valid()
                && old(list).View() == Step(old(list.View()), ObserverListSpec.Assign(this, other))
      ensures old(other.list) != null && old(other.list) != old(list) ==>
                && other.list == old(other.list)
                && this !in old(other.list.live)
                && other.list.View() == Step(old(other.list.View()), Copy(this, other))
    {
      if other == this {
        return;
      }
      if list != null {
        StepKeepsInv(list.View(), ObserverListSpec.Assign(this, other));
      }
      if other.list != null && other.list != list {
        StepKeepsInv(other.list.View(), Copy(this, other));
      }
      Rejoin(other);
    }
  }
}
