/** rtc::scoped_refptr over rtc::RefCountedBase, as objects that change in place. `handles` and `objs` stand for
    all smart pointers and all counted objects there are; Conserved is what every operation keeps. */
module ScopedRefptrs {
  import opened RefCounting

  class RefCountedBase {
    var refCount: int
    ghost var deletions: nat   // how often `delete this` was executed
    ghost var held: bool       // some reference was taken
    ghost var rawOwners: nat   // references owned by raw pointers that came from release()

    constructor ()
      ensures refCount == 0 && deletions == 0 && !held && rawOwners == 0
    {
      refCount, deletions, held, rawOwners := 0, 0, false, 0;
    }

    method AddRef()
      requires deletions == 0
      modifies this`refCount, this`held
      ensures refCount == old(refCount) + 1 && held
    {
      refCount := refCount + 1;
      held := true;
    }

    method Release() returns (status: ReleaseStatus)
      requires deletions == 0
      modifies this`refCount, this`deletions
      ensures refCount == old(refCount) - 1
      ensures status == (if old(refCount) == 1 then DroppedLastRef else OtherRefsRemained)
      ensures deletions == (if status == DroppedLastRef then 1 else 0)
    {
      refCount := refCount - 1;
      status := if refCount == 0 then DroppedLastRef else OtherRefsRemained;
      if status == DroppedLastRef {
        deletions := deletions + 1;
      }
    }
  }

  /** Where every smart pointer points. */
  ghost function Pointers(handles: set<ScopedRefptr>): map<ScopedRefptr, RefCountedBase?>
    reads handles
  {
    map h | h in handles :: h.ptr
  }

  ghost function Owners<H, O>(m: map<H, O>, o: O): nat {
    |set h | h in m && m[h] == o|
  }

  lemma {:induction false} OwnersAdd<H, O>(m: map<H, O>, h: H, p: O, o: O)
    requires h !in m
    ensures Owners(m[h := p], o) == Owners(m, o) + if p == o then 1 else 0
  {
    var before := set x | x in m && m[x] == o;
    var m1 := m[h := p];
    var after := set x | x in m1 && m1[x] == o;
    assert after == if p == o then before + {h} else before;
  }

  lemma {:induction false} OwnersDrop<H, O>(m: map<H, O>, h: H, o: O)
    requires h in m
    ensures Owners(m - {h}, o) == Owners(m, o) - if m[h] == o then 1 else 0
  {
    assert h !in m - {h} && (m - {h})[h := m[h]] == m;
    OwnersAdd(m - {h}, h, m[h], o);
  }

  lemma {:induction false} OwnersMove<H, O>(m: map<H, O>, h: H, p: O, o: O)
    requires h in m
    ensures Owners(m[h := p], o) == Owners(m, o) - (if m[h] == o then 1 else 0) + if p == o then 1 else 0
  {
    OwnersDrop(m, h, o);
    OwnersAdd(m - {h}, h, p, o);
    assert (m - {h})[h := p] == m[h := p];
  }

  lemma {:induction false} OwnersSome<H, O>(m: map<H, O>, h: H)
    requires h in m
    ensures Owners(m, m[h]) > 0
  {
    OwnersDrop(m, h, m[h]);
  }

  /** The count is the number of owners, and the object was deleted once if owners have come and all are gone,
      and otherwise not at all. */
  ghost predicate Counted(m: map<ScopedRefptr, RefCountedBase?>, o: RefCountedBase)
    reads o
  {
    && o.refCount == Owners(m, o) + o.rawOwners
    && o.deletions == (if o.held && o.refCount == 0 then 1 else 0)
    && (!o.held ==> o.refCount == 0)
  }

  ghost predicate Conserved(handles: set<ScopedRefptr>, objs: set<RefCountedBase>)
    reads handles, objs
  {
    && (forall h :: h in handles && h.ptr != null ==> h.ptr in objs)
    && (forall o :: o in objs ==> Counted(Pointers(handles), o))
  }

  class ScopedRefptr {
    var ptr: RefCountedBase?

    ghost function Target(): set<RefCountedBase>
      reads this
    {
      if ptr == null then {} else {ptr}
    }

    constructor Null(ghost handles: set<ScopedRefptr>, ghost objs: set<RefCountedBase>)
      requires Conserved(handles, objs)
      ensures ptr == null && Conserved(handles + {this}, objs)
    {
      ptr := null;
      new;
      ghost var m := old(Pointers(handles));
      assert Pointers(handles + {this}) == m[this := null];
      forall o | o in objs ensures Counted(m[this := null], o) { OwnersAdd(m, this, null, o); }
    }

    /** From a raw pointer to an object that has not been deleted. */
    constructor OfRaw(p: RefCountedBase?, ghost handles: set<ScopedRefptr>, ghost objs: set<RefCountedBase>)
      requires Conserved(handles, objs) && (p != null ==> p in objs && p.deletions == 0)
      modifies if p == null then {} else {p}
      ensures ptr == p && Conserved(handles + {this}, objs)
    {
      ptr := p;
      new;
      if ptr != null {
        ptr.AddRef();
      }
      ghost var m := old(Pointers(handles));
      assert Pointers(handles + {this}) == m[this := p];
      forall o | o in objs ensures Counted(m[this := p], o) { OwnersAdd(m, this, p, o); }
    }

    constructor CopyOf(r: ScopedRefptr, ghost handles: set<ScopedRefptr>, ghost objs: set<RefCountedBase>)
      requires Conserved(handles, objs) && r in handles
      modifies r.Target()
      ensures ptr == r.ptr && Conserved(handles + {this}, objs)
    {
      ptr := r.ptr;
      new;
      ghost var m := old(Pointers(handles));
      OwnersSome(m, r);
      if ptr != null {
        ptr.AddRef();
      }
      assert Pointers(handles + {this}) == m[this := ptr];
      forall o | o in objs ensures Counted(m[this := ptr], o) { OwnersAdd(m, this, ptr, o); }
    }

    /** Takes the reference of r over; no count changes. */
    constructor MoveOf(r: ScopedRefptr, ghost handles: set<ScopedRefptr>, ghost objs: set<RefCountedBase>)
      requires Conserved(handles, objs) && r in handles
      modifies r
      ensures ptr == old(r.ptr) && r.ptr == null && Conserved(handles + {this}, objs)
    {
      ptr := r.ptr;
      new;
      r.ptr := null;
      ghost var m := old(Pointers(handles));
      ghost var m1: map<ScopedRefptr, RefCountedBase?> := m[r := null];
      assert Pointers(handles + {this}) == m1[this := ptr];
      forall o | o in objs ensures Counted(m1[this := ptr], o) {
        OwnersMove(m, r, null, o);
        OwnersAdd(m1, this, ptr, o);
      }
    }

    /** The destructor. */
    method Destroy(ghost handles: set<ScopedRefptr>, ghost objs: set<RefCountedBase>)
      requires Conserved(handles, objs) && this in handles
      modifies Target()
      ensures ptr == old(ptr) && Conserved(handles - {this}, objs)
    {
      ghost var m := Pointers(handles);
      OwnersSome(m, this);
      if ptr != null {
        var _ := ptr.Release();
      }
      assert Pointers(handles - {this}) == m - {this};
      forall o | o in objs ensures Counted(m - {this}, o) { OwnersDrop(m, this, o); }
    }

    /** release(): the caller becomes the owner of one reference. */
    method ReleaseOwnership(ghost handles: set<ScopedRefptr>, ghost objs: set<RefCountedBase>)
      returns (p: RefCountedBase?)
      requires Conserved(handles, objs) && this in handles
      modifies this, Target()`rawOwners
      ensures p == old(ptr) && ptr == null && Conserved(handles, objs)
      ensures p != null ==> p.rawOwners == old(p.rawOwners) + 1
    {
      ghost var m := Pointers(handles);
      p := ptr;
      ptr := null;
      if p != null {
        p.rawOwners := p.rawOwners + 1;
      }
      assert Pointers(handles) == m[this := null];
      forall o | o in objs ensures Counted(m[this := null], o) { OwnersMove(m, this, null, o); }
    }

    /** operator=(T*): AddRef before Release, so that self-assignment never drops the last reference. */
    method AssignRaw(p: RefCountedBase?, ghost handles: set<ScopedRefptr>, ghost objs: set<RefCountedBase>)
      requires Conserved(handles, objs) && this in handles && (p != null ==> p in objs && p.deletions == 0)
      modifies this, Target(), if p == null then {} else {p}
      ensures ptr == p && Conserved(handles, objs)
      ensures p != null && p == old(ptr) ==> p.refCount == old(p.refCount) && p.deletions == 0
    {
      ghost var m, q := Pointers(handles), ptr;
      assert q != null ==> q.refCount > 0 && q.held && q.deletions == 0 by { OwnersSome(m, this); }
      if p != null {
        p.AddRef();
      }
      if ptr != null {
        var _ := ptr.Release();
      }
      ptr := p;
      assert Pointers(handles) == m[this := p];
      forall o | o in objs ensures Counted(m[this := p], o) {
        OwnersMove(m, this, p, o);
        assert old(Counted(m, o));
        if o == p {
        } else if o == q {
        }
      }
    }

    method Assign(r: ScopedRefptr, ghost handles: set<ScopedRefptr>, ghost objs: set<RefCountedBase>)
      requires Conserved(handles, objs) && this in handles && r in handles
      modifies this, Target(), r.Target()
      ensures ptr == old(r.ptr) && Conserved(handles, objs)
    {
      OwnersSome(Pointers(handles), r);
      AssignRaw(r.ptr, handles, objs);
    }

    method Swap(r: ScopedRefptr, ghost handles: set<ScopedRefptr>, ghost objs: set<RefCountedBase>)
      requires Conserved(handles, objs) && this in handles && r in handles
      modifies this, r
      ensures ptr == old(r.ptr) && r.ptr == old(ptr) && Conserved(handles, objs)
    {
      ghost var m := Pointers(handles);
      ptr, r.ptr := r.ptr, ptr;
      ghost var m1: map<ScopedRefptr, RefCountedBase?> := m[this := ptr];
      assert Pointers(handles) == m1[r := r.ptr];
      forall o | o in objs ensures Counted(m1[r := r.ptr], o) {
        OwnersMove(m, this, ptr, o);
        OwnersMove(m1, r, r.ptr, o);
      }
    }

    /** operator=(scoped_refptr&&): a temporary takes the reference, swaps with this, and dies. */
    method MoveAssign(r: ScopedRefptr, ghost handles: set<ScopedRefptr>, ghost objs: set<RefCountedBase>)
      requires Conserved(handles, objs) && this in handles && r in handles
      modifies this, r, Target()
      ensures ptr == old(r.ptr) && (r != this ==> r.ptr == null) && Conserved(handles, objs)
      ensures r == this && ptr != null ==> ptr.refCount == old(ptr.refCount) && ptr.deletions == 0
    {
      OwnersSome(Pointers(handles), this);
      var temp := new ScopedRefptr.MoveOf(r, handles, objs);
      temp.Swap(this, handles + {temp}, objs);
      temp.Destroy(handles + {temp}, objs);
      assert handles + {temp} - {temp} == handles;
    }
  }

  /** The owner of a reference that came from release() gives it up. */
  method DropRaw(p: RefCountedBase, ghost handles: set<ScopedRefptr>, ghost objs: set<RefCountedBase>)
    requires Conserved(handles, objs) && p in objs && p.rawOwners > 0
    modifies p
    ensures Conserved(handles, objs) && p.rawOwners == old(p.rawOwners) - 1
  {
    var _ := p.Release();
    p.rawOwners := p.rawOwners - 1;
  }
}
