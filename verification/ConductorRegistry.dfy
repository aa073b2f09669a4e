/** The data channel registry of Spitfire::RtcConductor in terms of the calls alone: which label is registered after
    a run, on which channel, and where a message then goes. */
module ConductorRegistry {
  import opened Options
  import opened ConductorSpec

  // ----- What the calls say -----

  predicate Succeeds(op: Op) {
    op.Initialize? && op.factoryOk && op.connection.Some?
  }

  /** Whether there is a connection after the calls: the last initialisation or teardown decides. */
  predicate ConnectedAfter(connected: bool, ops: seq<Op>) {
    if ops == [] then connected
    else
      var last := ops[|ops| - 1];
      if last.Initialize? || last.Teardown? then Succeeds(last) else ConnectedAfter(connected, ops[..|ops| - 1])
  }

  /** The channel that a call brings: a handled one, or one that the connection makes. */
  function Brought(connected: bool, op: Op): Option<Channel> {
    match op
    case HandleDataChannel(channel) => Some(channel)
    case CreateDataChannel(name, c) => if connected then Some(Channel(c, name)) else None
    case _ => None
  }

  predicate Brings(connected: bool, op: Op, name: string) {
    Brought(connected, op).Some? && Brought(connected, op).value.name == name
  }

  /** The calls after which a label is free: its channel is closed, or everything is torn down. */
  predicate Frees(op: Op, name: string) {
    op == CloseDataChannel(name) || op.Teardown? || (op.Initialize? && !Succeeds(op))
  }

  /** The channel that call k brings. */
  function BroughtAt(connected: bool, ops: seq<Op>, k: nat): Option<Channel>
    requires k < |ops|
  {
    Brought(ConnectedAfter(connected, ops[..k]), ops[k])
  }

  predicate BringsAt(connected: bool, ops: seq<Op>, k: nat, name: string)
    requires k < |ops|
  {
    Brings(ConnectedAfter(connected, ops[..k]), ops[k], name)
  }

  predicate FreedBetween(ops: seq<Op>, j: nat, k: nat, name: string)
    requires k <= |ops|
  {
    exists m :: j < m < k && Frees(ops[m], name)
  }

  /** Call k brings a channel for the label, the first since the label was last free, and nothing has freed it since. */
  ghost predicate Holds(connected: bool, ops: seq<Op>, k: nat, name: string) {
    && k < |ops|
    && BringsAt(connected, ops, k, name)
    && !FreedBetween(ops, k, |ops|, name)
    && forall j :: 0 <= j < k && BringsAt(connected, ops, j, name) ==> FreedBetween(ops, j, k, name)
  }

  // ----- One call -----

  /** A call that brings a channel for a free label enters a new observer on that channel, registers it, and changes
      nothing else; for a taken label it changes nothing at all. */
  lemma {:induction false} BroughtIsEntered(st: State, op: Op)
    requires Enabled(st, op) && Brought(HasConnection(st), op).Some?
    ensures var channel := Brought(HasConnection(st), op).value;
            Step(st, op) == if channel.name in st.observers then st
                            else st.(observers := st.observers[channel.name := Observer(st.created, channel)],
                                     created := st.created + 1,
                                     log := st.log + [Registered(st.created)])
  {
  }

  /** Closing a label closes the channel of its observer, unregisters it, and changes nothing for the other labels. */
  lemma {:induction false} ClosedIsLeft(st: State, name: string)
    ensures Step(st, CloseDataChannel(name))
            == if name !in st.observers then st
               else st.(observers := st.observers - {name},
                        log := st.log + [ChannelClosed(st.observers[name].id), Unregistered(st.observers[name].id)])
  {
  }

  /** The channel of a label, if it is registered. */
  function ChannelOf(st: State, name: string): Option<Channel> {
    if name in st.observers then Some(st.observers[name].channel) else None
  }

  lemma {:induction false} FreedStep(st: State, op: Op, name: string)
    requires Enabled(st, op) && Frees(op, name)
    ensures name !in Step(st, op).observers
  {
    match op
    case Initialize(_, _, _, _) => InitializeConnectsOrTearsDown(st, op);
    case Teardown(order, current) => TornDownFields(st, order, current);
    case CloseDataChannel(_) =>
  }

  lemma {:induction false} KeptStep(st: State, op: Op, name: string)
    requires Enabled(st, op) && !Frees(op, name)
    ensures ChannelOf(Step(st, op), name)
            == if name in st.observers then ChannelOf(st, name)
               else if Brings(HasConnection(st), op, name) then Brought(HasConnection(st), op) else None
  {
    match op
    case Initialize(_, _, _, _) => InitializeConnectsOrTearsDown(st, op);
    case _ =>
  }

  lemma {:induction false} ConnectionStep(st: State, op: Op)
    requires Enabled(st, op)
    ensures HasConnection(Step(st, op))
            == if op.Initialize? || op.Teardown? then Succeeds(op) else HasConnection(st)
  {
    match op
    case Initialize(_, _, _, _) => InitializeConnectsOrTearsDown(st, op);
    case Teardown(order, current) => TornDownFields(st, order, current);
    case _ =>
  }

  // ----- Whole runs -----

  lemma {:induction false} RunSnoc(st: State, ops: seq<Op>, op: Op)
    requires EnabledRun(st, ops + [op])
    ensures EnabledRun(st, ops) && Enabled(Run(st, ops), op)
    ensures Run(st, ops + [op]) == Step(Run(st, ops), op)
    decreases |ops|
  {
    if ops == [] {
      assert ops + [op] == [op] && [op][1..] == [];
    } else {
      assert (ops + [op])[1..] == ops[1..] + [op];
      RunSnoc(Step(st, ops[0]), ops[1..], op);
    }
  }

  lemma {:induction false} ConnectionFollowsTheCalls(st: State, ops: seq<Op>)
    requires EnabledRun(st, ops)
    ensures HasConnection(Run(st, ops)) == ConnectedAfter(HasConnection(st), ops)
    decreases |ops|
  {
    if ops != [] {
      var before, op := ops[..|ops| - 1], ops[|ops| - 1];
      assert ops == before + [op];
      RunSnoc(st, before, op);
      ConnectionStep(Run(st, before), op);
      ConnectionFollowsTheCalls(st, before);
    }
  }

  /** What the calls say of earlier calls does not depend on later ones. */
  lemma {:induction false} Earlier(connected: bool, ops: seq<Op>, op: Op, k: nat, name: string)
    requires k < |ops|
    ensures BroughtAt(connected, ops + [op], k) == BroughtAt(connected, ops, k)
    ensures BringsAt(connected, ops + [op], k, name) == BringsAt(connected, ops, k, name)
    ensures forall j: nat :: FreedBetween(ops + [op], j, k, name) == FreedBetween(ops, j, k, name)
    ensures FreedBetween(ops + [op], k, |ops| + 1, name) == (FreedBetween(ops, k, |ops|, name) || Frees(op, name))
  {
    var all := ops + [op];
    assert all[..k] == ops[..k];
    assert forall m :: 0 <= m < |ops| ==> all[m] == ops[m];
    forall j: nat ensures FreedBetween(all, j, k, name) == FreedBetween(ops, j, k, name) {
      if FreedBetween(ops, j, k, name) {
        var m :| j < m < k && Frees(ops[m], name);
        assert Frees(all[m], name);
      }
    }
    if FreedBetween(ops, k, |ops|, name) {
      var m :| k < m < |ops| && Frees(ops[m], name);
      assert Frees(all[m], name);
    }
    assert all[|ops|] == op;
  }

  lemma {:induction false} HoldsEarlier(connected: bool, ops: seq<Op>, op: Op, k: nat, name: string)
    requires k < |ops|
    ensures Holds(connected, ops + [op], k, name) <==> Holds(connected, ops, k, name) && !Frees(op, name)
  {
    Earlier(connected, ops, op, k, name);
    forall j | 0 <= j < k ensures BringsAt(connected, ops + [op], j, name) == BringsAt(connected, ops, j, name) {
      Earlier(connected, ops, op, j, name);
    }
  }

  /** The last call holds the label exactly when it brings a channel for it and no earlier call holds it. */
  lemma {:induction false} HoldsLast(connected: bool, ops: seq<Op>, op: Op, name: string)
    ensures Holds(connected, ops + [op], |ops|, name)
            <==> Brings(ConnectedAfter(connected, ops), op, name) && !Held(connected, ops, name)
  {
    var all, n := ops + [op], |ops|;
    assert all[..n] == ops && all[n] == op;
    assert BringsAt(connected, all, n, name) == Brings(ConnectedAfter(connected, ops), op, name);
    forall j | 0 <= j < n
      ensures BringsAt(connected, all, j, name) == BringsAt(connected, ops, j, name)
      ensures FreedBetween(all, j, n, name) == FreedBetween(ops, j, n, name)
    {
      Earlier(connected, ops, op, j, name);
      FreedSame(ops, op, j, name);
    }
    HeldIff(connected, ops, name);
  }

  lemma {:induction false} FreedSame(ops: seq<Op>, op: Op, j: nat, name: string)
    ensures FreedBetween(ops + [op], j, |ops|, name) == FreedBetween(ops, j, |ops|, name)
  {
    assert forall m :: 0 <= m < |ops| ==> (ops + [op])[m] == ops[m];
    if FreedBetween(ops, j, |ops|, name) {
      var m :| j < m < |ops| && Frees(ops[m], name);
      assert Frees((ops + [op])[m], name);
    }
  }

  ghost predicate Held(connected: bool, ops: seq<Op>, name: string) {
    exists k :: Holds(connected, ops, k, name)
  }

  /** A label is held exactly when some call brought a channel for it and nothing has freed it since. */
  lemma {:induction false} HeldIff(connected: bool, ops: seq<Op>, name: string)
    ensures Held(connected, ops, name)
            <==> exists j :: 0 <= j < |ops| && BringsAt(connected, ops, j, name) && !FreedBetween(ops, j, |ops|, name)
  {
    if j :| 0 <= j < |ops| && BringsAt(connected, ops, j, name) && !FreedBetween(ops, j, |ops|, name) {
      FirstHolds(connected, ops, j, name);
    }
  }

  lemma {:induction false} FirstHolds(connected: bool, ops: seq<Op>, j: nat, name: string)
    requires j < |ops| && BringsAt(connected, ops, j, name) && !FreedBetween(ops, j, |ops|, name)
    ensures Held(connected, ops, name)
    decreases j
  {
    if i :| 0 <= i < j && BringsAt(connected, ops, i, name) && !FreedBetween(ops, i, j, name) {
      assert !Frees(ops[j], name);
      FirstHolds(connected, ops, i, name);
    } else {
      assert Holds(connected, ops, j, name);
    }
  }

  /** From any state in which a label is free, whatever is called: afterwards the label is registered exactly when a
      call brought a channel for it and nothing has freed the label since, and it is registered on the channel of the
      first such call. */
  lemma {:induction false} RegisteredIff(st: State, ops: seq<Op>, name: string)
    requires EnabledRun(st, ops) && name !in st.observers
    ensures name in Run(st, ops).observers <==> Held(HasConnection(st), ops, name)
    ensures forall k :: Holds(HasConnection(st), ops, k, name) ==>
              ChannelOf(Run(st, ops), name) == BroughtAt(HasConnection(st), ops, k)
    decreases |ops|
  {
    if ops != [] {
      var before, op := ops[..|ops| - 1], ops[|ops| - 1];
      assert ops == before + [op];
      RunSnoc(st, before, op);
      RegisteredIff(st, before, name);
      RegisteredSnoc(st, before, op, name);
    }
  }

  lemma {:induction false} RegisteredSnoc(st: State, ops: seq<Op>, op: Op, name: string)
    requires EnabledRun(st, ops) && Enabled(Run(st, ops), op)
    requires name in Run(st, ops).observers <==> Held(HasConnection(st), ops, name)
    requires forall k :: Holds(HasConnection(st), ops, k, name) ==>
               ChannelOf(Run(st, ops), name) == BroughtAt(HasConnection(st), ops, k)
    ensures name in Step(Run(st, ops), op).observers <==> Held(HasConnection(st), ops + [op], name)
    ensures forall k :: Holds(HasConnection(st), ops + [op], k, name) ==>
              ChannelOf(Step(Run(st, ops), op), name) == BroughtAt(HasConnection(st), ops + [op], k)
  {
    var c, n := HasConnection(st), |ops|;
    ConnectionFollowsTheCalls(st, ops);
    HoldsLast(c, ops, op, name);
    forall k | 0 <= k < n
      ensures Holds(c, ops + [op], k, name) <==> Holds(c, ops, k, name) && !Frees(op, name)
      ensures BroughtAt(c, ops + [op], k) == BroughtAt(c, ops, k)
    {
      HoldsEarlier(c, ops, op, k, name);
      Earlier(c, ops, op, k, name);
    }
    assert (ops + [op])[..n] == ops;
    if Frees(op, name) {
      FreedStep(Run(st, ops), op, name);
    } else {
      KeptStep(Run(st, ops), op, name);
      if k :| Holds(c, ops, k, name) { assert Holds(c, ops + [op], k, name); }
    }
  }

  /** Where a message goes after any calls: to the channel of the first call that brought one for the label since it was
      last free, and nowhere if there is none. */
  lemma {:induction false} SentOnTheFirstChannel(st: State, ops: seq<Op>, name: string, data: string)
    requires EnabledRun(st, ops) && name !in st.observers
    ensures var r := Run(st, ops);
            && (forall k :: Holds(HasConnection(st), ops, k, name) ==>
                  && BroughtAt(HasConnection(st), ops, k).Some?
                  && Step(r, Send(name, data))
                     == r.(log := r.log + [Sent(BroughtAt(HasConnection(st), ops, k).value, data)]))
            && (!Held(HasConnection(st), ops, name) ==> Step(r, Send(name, data)) == r)
  {
    RegisteredIff(st, ops, name);
    var c, r := HasConnection(st), Run(st, ops);
    forall k | Holds(c, ops, k, name) ensures name in r.observers && BroughtAt(c, ops, k) == ChannelOf(r, name) {
      assert Held(c, ops, name);
    }
  }
}
