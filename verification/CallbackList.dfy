/** base::CallbackList and its iterators as objects that change in place. Every method is proved to do to the
    abstract view of the list what CallbackListSpec.Step says. Running the removal callback is the last thing
    any method does; here it is recorded which one ran. */
module CallbackLists {
  import opened Options
  import opened CallbackListSpec

  lemma {:induction false} CompactedAppend(a: seq<Node>, b: seq<Node>)
    ensures Compacted(a + b) == Compacted(a) + Compacted(b)
  {
    if a == [] {
      assert a + b == b;
    } else {
      var h := if a[0].bound then [a[0]] else [];
      assert (a + b)[1..] == a[1..] + b;
      CompactedAppend(a[1..], b);
      assert h + (Compacted(a[1..]) + Compacted(b)) == (h + Compacted(a[1..])) + Compacted(b);
    }
  }

  lemma {:induction false} CompactedErased(nodes: seq<Node>, k: nat)
    requires k < |nodes| && !nodes[k].bound
    ensures Compacted(Erased(nodes, k)) == Compacted(nodes)
  {
    var a, b := nodes[..k], nodes[k + 1..];
    assert nodes == a + ([nodes[k]] + b) && Erased(nodes, k) == a + b;
    CompactedAppend(a, [nodes[k]] + b);
    CompactedAppend(a, b);
    assert ([nodes[k]] + b)[1..] == b;
  }

  lemma {:induction false} CompactedOfBound(nodes: seq<Node>)
    requires AllBound(nodes)
    ensures Compacted(nodes) == nodes
  {
    if nodes != [] { CompactedOfBound(nodes[1..]); }
  }

  class CallbackList {
    var callbacks: seq<Node>
    var activeIteratorCount: nat
    var removalCallback: Option<nat>
    var removalRuns: seq<nat>   // the removal callbacks that were run
    var nextId: nat
    ghost var iters: set<Iterator>
    ghost var subs: set<nat>

    ghost function View(): State<Iterator>
      reads this, iters
    {
      State(callbacks, map it | it in iters :: it.place, subs, nextId, removalCallback, removalRuns)
    }

    ghost predicate Valid()
      reads this, iters
    {
      && activeIteratorCount == |iters|
      && (forall it :: it in iters ==> it.list == this)
      && Inv(View())
    }

    constructor ()
      ensures Valid() && View() == NewList()
    {
      callbacks, activeIteratorCount, removalCallback, removalRuns, nextId := [], 0, None, [], 0;
      iters, subs := {}, {};
    }

    lemma NoneActive()
      requires Valid()
      ensures activeIteratorCount == 0 <==> View().passes == map[]
    {
      if activeIteratorCount != 0 {
        var it :| it in iters;
        assert it in View().passes;
      }
    }

    /** Returns the identity of the new node, which the Subscription keeps. */
    method Add() returns (id: nat)
      requires Valid()
      modifies this`callbacks, this`nextId, this`subs
      ensures Valid() && View() == Step(old(View()), Subscribe) && id == old(nextId)
    {
      StepKeepsInv(View(), Subscribe);
      id := nextId;
      callbacks, nextId, subs := callbacks + [Node(id, true)], nextId + 1, subs + {id};
    }

    method SetRemovalCallback(callback: Option<nat>)
      requires Valid()
      modifies this`removalCallback
      ensures Valid() && View() == Step(old(View()), SetRemoval(callback))
    {
      removalCallback := callback;
    }

    /** Runs when the Subscription of node id is destroyed. */
    method OnSubscriptionDestroyed(id: nat)
      requires Valid() && id in subs
      modifies this`callbacks, this`subs, this`removalRuns
      ensures Valid() && View() == Step(old(View()), Unsubscribe(id))
    {
      StepKeepsInv(View(), Unsubscribe(id));
      NoneActive();
      var k := Find(callbacks, id);
      subs := subs - {id};
      if activeIteratorCount != 0 {
        callbacks := callbacks[k := Node(id, false)];
      } else {
        callbacks := Erased(callbacks, k);
        if removalCallback.Some? {
          removalRuns := removalRuns + [removalCallback.value];
        }
      }
    }

    method Compact()
      modifies this`callbacks, this`removalRuns
      ensures callbacks == Compacted(old(callbacks))
      ensures removalRuns == old(removalRuns) + if AllBound(old(callbacks)) then [] else Set(removalCallback)
    {
      var k, updated := 0, false;
      while k < |callbacks|
        invariant k <= |callbacks| && removalRuns == old(removalRuns)
        invariant forall j :: 0 <= j < k ==> callbacks[j].bound
        invariant Compacted(callbacks) == Compacted(old(callbacks))
        invariant if updated then !AllBound(old(callbacks)) else callbacks == old(callbacks)
        decreases |callbacks| - k
      {
        if !callbacks[k].bound {
          updated := true;
          CompactedErased(callbacks, k);
          callbacks := Erased(callbacks, k);
        } else {
          k := k + 1;
        }
      }
      CompactedOfBound(callbacks);
      if updated && removalCallback.Some? {
        removalRuns := removalRuns + [removalCallback.value];
      }
    }
  }

  class Iterator {
    const list: CallbackList
    var place: Place

    ghost predicate Valid()
      reads this, list, list.iters
    {
      list.Valid() && this in list.iters
    }

    constructor (l: CallbackList)
      requires l.Valid()
      modifies l`activeIteratorCount, l`iters
      ensures Valid() && list == l && this !in old(l.iters)
      ensures l.View() == Step(old(l.View()), Start(this))
    {
      list, place := l, PlaceOf(0, l.callbacks);
      new;
      ghost var v := l.View();
      StepKeepsInv(v, Start(this));
      l.iters := l.iters + {this};
      l.activeIteratorCount := l.activeIteratorCount + 1;
      assert l.View() == Step(v, Start(this));
    }

    constructor CopyOf(other: Iterator)
      requires other.Valid()
      modifies other.list`activeIteratorCount, other.list`iters
      ensures Valid() && list == other.list && place == other.place && this !in old(other.list.iters)
      ensures list.View() == Step(old(other.list.View()), Copy(this, other))
    {
      list, place := other.list, other.place;
      new;
      ghost var v := list.View();
      StepKeepsInv(v, Copy(this, other));
      list.iters := list.iters + {this};
      list.activeIteratorCount := list.activeIteratorCount + 1;
      assert list.View() == Step(v, Copy(this, other));
    }

    /** The destructor: the last iterator out compacts the list. */
    method Destroy()
      requires Valid()
      modifies list`activeIteratorCount, list`iters, list`callbacks, list`removalRuns
      ensures list.Valid() && list.View() == Step(old(list.View()), Finish(this))
    {
      ghost var v := list.View();
      StepKeepsInv(v, Finish(this));
      assert v.passes.Keys == list.iters;
      assert |list.iters - {this}| == |list.iters| - 1;
      list.iters := list.iters - {this};
      list.activeIteratorCount := list.activeIteratorCount - 1;
      if list.activeIteratorCount == 0 {
        assert v.passes.Keys == {this};
        list.Compact();
      }
      assert list.View() == Step(v, Finish(this));
    }

    /** The next callback to run, if any. */
    method GetNext() returns (found: bool, id: nat)
      requires Valid()
      modifies this`place
      ensures Valid() && list.View() == Step(old(list.View()), Next(this))
      ensures found <==> Fetch(list.callbacks, old(place)) < |list.callbacks|
      ensures found ==> id == list.callbacks[Fetch(list.callbacks, old(place))].id
    {
      ghost var v := list.View();
      assert this in v.passes;
      StepKeepsInv(v, Next(this));
      while place.At? && !list.callbacks[place.k].bound
        invariant place.At? ==> place.k < |list.callbacks|
        invariant Fetch(list.callbacks, place) == Fetch(list.callbacks, old(place))
        decreases if place.At? then |list.callbacks| - place.k else 0
      {
        place := PlaceOf(place.k + 1, list.callbacks);
      }
      found, id := false, 0;
      if place.At? {
        found, id := true, list.callbacks[place.k].id;
        place := PlaceOf(place.k + 1, list.callbacks);
      }
      assert list.View().passes == Step(v, Next(this)).passes;
    }
  }
}
