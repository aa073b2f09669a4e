/** Specification of Spitfire::RtcConductor: which of its parts exist, the registry of data channel observers,
    and a log of what it did to the WebRTC objects it owns. */
module ConductorSpec {
  import opened Options
  import opened Sequences

  datatype Channel = Channel(id: nat, name: string)

  /** A DataChannelObserver; id is its identity. */
  datatype Observer = Observer(id: nat, channel: Channel)

  datatype Worker = Network | Media | Signaling

  datatype Server = Server(uri: string, username: string, password: string)

  datatype Ports = Ports(min: nat, max: nat)

  /** Configured: a peer connection is asked for, with these servers and ports. */
  datatype Event =
    | Configured(servers: seq<Server>, ports: Ports)
    | Connected(pc: nat)
    | Closed(pc: nat)
    | Registered(obs: nat)
    | ChannelClosed(obs: nat)
    | Unregistered(obs: nat)
    | Sent(channel: Channel, data: string)
    | Started(worker: Worker)
    | Quit(worker: Worker)
    | QuitCurrent

  /** peer_observer_ is absent, or present with or without a peer connection. */
  datatype Peer = NoPeer | Peer(connection: Option<nat>)

  /** `created` counts the observers ever made; their identities are the numbers below it. */
  datatype State = State(
    peer: Peer,
    factory: bool,
    networkManager: bool,
    socketFactory: bool,
    relayPortFactory: bool,
    workers: set<Worker>,
    sessionObservers: bool,
    servers: seq<Server>,
    observers: map<string, Observer>,
    created: nat,
    log: seq<Event>)

  function NewConductor(): State {
    State(Peer(None), false, false, false, false, {}, true, [], map[], 0, [])
  }

  /** What the environment answers is part of the call: whether a factory and a connection come about, which
      channel is made, in which order the hash map of observers is walked, and whether the calling thread has a
      message queue. Initialisation sees to it that it has. */
  datatype Op =
    | Initialize(ports: Ports, factoryOk: bool, connection: Option<nat>, order: seq<string>)
    | Teardown(order: seq<string>, current: bool)
    | AddServer(server: Server)
    | CreateDataChannel(name: string, newId: nat)
    | HandleDataChannel(channel: Channel)
    | CloseDataChannel(name: string)
    | Send(name: string, data: string)

  ghost predicate Walks(order: seq<string>, names: set<string>) {
    && (set l | l in order) == names
    && forall i, j :: 0 <= i < j < |order| ==> order[i] != order[j]
  }

  /** The RTC_DCHECKs of the source, and that it dereferences peer_observer_ where it does. */
  ghost predicate Enabled(st: State, op: Op) {
    match op
    case Initialize(_, _, _, order) =>
      st.peer == Peer(None) && !st.factory && st.workers == {} && Walks(order, st.observers.Keys)
    case Teardown(order, _) => Walks(order, st.observers.Keys)
    case CreateDataChannel(_, _) => st.peer.Peer?
    case _ => true
  }

  function Logged(st: State, e: Event): State {
    st.(log := st.log + [e])
  }

  /** A new observer is registered on its channel and entered under its label. */
  function Observe(st: State, channel: Channel): State {
    if channel.name in st.observers then st
    else
      Logged(st, Registered(st.created))
        .(created := st.created + 1, observers := st.observers[channel.name := Observer(st.created, channel)])
  }

  /** An observer closes its channel, unregisters, and leaves the registry. */
  function Unobserve(st: State, name: string): State {
    if name !in st.observers then st
    else
      var id := st.observers[name].id;
      Logged(Logged(st, ChannelClosed(id)), Unregistered(id)).(observers := st.observers - {name})
  }

  function UnobserveAll(st: State, order: seq<string>): State
    decreases |order|
  {
    if order == [] then st else UnobserveAll(Unobserve(st, order[0]), order[1..])
  }

  function ClosePeer(st: State): State {
    (if st.peer.Peer? && st.peer.connection.Some? then Logged(st, Closed(st.peer.connection.value)) else st)
      .(peer := NoPeer, factory := false, socketFactory := false, networkManager := false)
  }

  function QuitWorker(st: State, w: Worker): State {
    if w in st.workers then Logged(st, Quit(w)).(workers := st.workers - {w}) else st
  }

  function QuitAll(st: State): State {
    QuitWorker(QuitWorker(QuitWorker(st, Signaling), Media), Network)
  }

  /** DeletePeerConnection. The relay port factory is not released. */
  function TornDown(st: State, order: seq<string>, current: bool): State {
    var st1 := UnobserveAll(ClosePeer(st), order).(servers := []);
    var st2 := QuitAll(st1).(sessionObservers := false);
    if current then Logged(st2, QuitCurrent) else st2
  }

  function StartWorker(st: State, w: Worker): State {
    Logged(st, Started(w)).(workers := st.workers + {w})
  }

  function StartWorkers(st: State): State {
    StartWorker(StartWorker(StartWorker(st, Network), Media), Signaling)
  }

  /** The peer connection, if any, that a factory makes. */
  function Connect(st: State, ports: Ports, connection: Option<nat>): State {
    var st1 := Logged(st, Configured(st.servers, ports));
    (if connection.Some? then Logged(st1, Connected(connection.value)) else st1)
      .(peer := Peer(connection), factory := true, networkManager := true, socketFactory := true,
        relayPortFactory := true)
  }

  function Step(st: State, op: Op): State
    requires Enabled(st, op)
  {
    match op
    case Initialize(ports, factoryOk, connection, order) =>
      var st1 := StartWorkers(st);
      if !factoryOk then TornDown(st1, order, true)
      else
        var st2 := Connect(st1, ports, connection);
        if connection.Some? then st2 else TornDown(st2, order, true)
    case Teardown(order, current) => TornDown(st, order, current)
    case AddServer(server) => st.(servers := st.servers + [server])
    case CreateDataChannel(name, c) => if st.peer.connection.None? then st else Observe(st, Channel(c, name))
    case HandleDataChannel(channel) => Observe(st, channel)
    case CloseDataChannel(name) => Unobserve(st, name)
    case Send(name, data) =>
      if name in st.observers then Logged(st, Sent(st.observers[name].channel, data)) else st
  }

  ghost predicate EnabledRun(st: State, ops: seq<Op>)
    decreases |ops|
  {
    ops == [] || (Enabled(st, ops[0]) && EnabledRun(Step(st, ops[0]), ops[1..]))
  }

  ghost function Run(st: State, ops: seq<Op>): State
    requires EnabledRun(st, ops)
    decreases |ops|
  {
    if ops == [] then st else Run(Step(st, ops[0]), ops[1..])
  }

  // ----- Invariants -----

  function Count(log: seq<Event>, e: Event): nat {
    multiset(log)[e]
  }

  ghost predicate InRegistry(st: State, id: nat) {
    exists l :: l in st.observers && st.observers[l].id == id
  }

  /** An observer was registered once; it is in the registry and untouched, or it is not and its channel was
      closed once and it was unregistered once. */
  ghost predicate AccountedFor(st: State, id: nat) {
    && Count(st.log, Registered(id)) == 1
    && Count(st.log, ChannelClosed(id)) == Count(st.log, Unregistered(id)) == if InRegistry(st, id) then 0 else 1
  }

  ghost predicate Registry(st: State) {
    && (forall l :: l in st.observers ==> st.observers[l].id < st.created && st.observers[l].channel.name == l)
    && (forall l, m :: l in st.observers && m in st.observers && l != m ==> st.observers[l].id != st.observers[m].id)
    && (forall id :: 0 <= id < st.created ==> AccountedFor(st, id))
    && (forall e :: e in st.log && (e.Registered? || e.ChannelClosed? || e.Unregistered?) ==> e.obs < st.created)
  }

  /** A connection is closed as often as it was made, but for the one that is installed. */
  ghost predicate Connections(log: seq<Event>, peer: Peer) {
    forall pc :: Count(log, Connected(pc)) == Count(log, Closed(pc)) + if peer == Peer(Some(pc)) then 1 else 0
  }

  /** A worker was quit as often as it was started, but for those that are running. */
  ghost predicate Workers(log: seq<Event>, workers: set<Worker>) {
    forall w :: Count(log, Started(w)) == Count(log, Quit(w)) + if w in workers then 1 else 0
  }

  /** Nothing is connected and nothing is registered any more. */
  ghost predicate Silent(log: seq<Event>) {
    && (forall pc :: Connected(pc) in log ==> Closed(pc) in log)
    && (forall id :: Registered(id) in log ==> Unregistered(id) in log)
  }

  predicate Idle(log: seq<Event>, w: Worker) {
    Count(log, Started(w)) == Count(log, Quit(w))
  }

  /** What must have happened before an event. The signalling thread quits first and when everything is silent, then the
      media thread, then the network thread. */
  ghost predicate Proper(log: seq<Event>, e: Event) {
    match e
    case Connected(_) => log != [] && log[|log| - 1].Configured?
    case Closed(pc) => Connected(pc) in log
    case ChannelClosed(id) => Registered(id) in log
    case Unregistered(id) => ChannelClosed(id) in log
    case Quit(w) =>
      && Started(w) in log
      && (match w case Signaling => Silent(log) case Media => Idle(log, Signaling) case Network => Idle(log, Media))
    case _ => true
  }

  ghost predicate Orderly(log: seq<Event>) {
    forall k :: 0 <= k < |log| ==> Proper(log[..k], log[k])
  }

  ghost predicate Inv(st: State) {
    Registry(st) && Connections(st.log, st.peer) && Workers(st.log, st.workers) && Orderly(st.log)
  }

  lemma {:induction false} OrderlyAppend(log: seq<Event>, e: Event)
    requires Orderly(log) && Proper(log, e)
    ensures Orderly(log + [e])
  {
    forall k | 0 <= k < |log + [e]| ensures Proper((log + [e])[..k], (log + [e])[k]) {
      assert (log + [e])[..k] == if k < |log| then log[..k] else log;
    }
  }

  lemma {:induction false} CountAppend(log: seq<Event>, e: Event, f: Event)
    ensures Count(log + [e], f) == Count(log, f) + if e == f then 1 else 0
  {
  }

  /** An event that is not about connections leaves their balance alone, and one that is not about workers theirs. */
  lemma {:induction false} BalancesAppend(log: seq<Event>, e: Event, peer: Peer, workers: set<Worker>)
    ensures !e.Connected? && !e.Closed? && Connections(log, peer) ==> Connections(log + [e], peer)
    ensures !e.Started? && !e.Quit? && Workers(log, workers) ==> Workers(log + [e], workers)
  {
    if !e.Connected? && !e.Closed? && Connections(log, peer) {
      forall pc ensures Count(log + [e], Connected(pc))
                        == Count(log + [e], Closed(pc)) + if peer == Peer(Some(pc)) then 1 else 0 {
        assert Count(log, Connected(pc)) == Count(log, Closed(pc)) + if peer == Peer(Some(pc)) then 1 else 0;
        CountAppend(log, e, Connected(pc));
        CountAppend(log, e, Closed(pc));
      }
    }
    if !e.Started? && !e.Quit? && Workers(log, workers) {
      forall w ensures Count(log + [e], Started(w)) == Count(log + [e], Quit(w)) + if w in workers then 1 else 0 {
        assert Count(log, Started(w)) == Count(log, Quit(w)) + if w in workers then 1 else 0;
        CountAppend(log, e, Started(w));
        CountAppend(log, e, Quit(w));
      }
    }
  }

  /** Events about workers, connections and messages do not concern the registry. */
  predicate Neutral(e: Event) {
    e.Sent? || e.Started? || e.Quit? || e.Connected? || e.Closed? || e.Configured? || e.QuitCurrent?
  }

  /** The registry does not depend on the other fields. */
  lemma {:induction false} RegistryOnly(a: State, b: State)
    requires Registry(a) && a.observers == b.observers && a.created == b.created && a.log == b.log
    ensures Registry(b)
  {
    forall id | 0 <= id < b.created ensures AccountedFor(b, id) {
      assert AccountedFor(a, id);
      assert InRegistry(a, id) == InRegistry(b, id);
    }
  }

  lemma {:induction false} NeutralKeepsRegistry(st: State, e: Event, after: State)
    requires Registry(st) && Neutral(e)
    requires after.observers == st.observers && after.created == st.created && after.log == st.log + [e]
    ensures Registry(after)
  {
    forall id | 0 <= id < st.created ensures AccountedFor(Logged(st, e), id) {
      assert AccountedFor(st, id);
      assert InRegistry(Logged(st, e), id) == InRegistry(st, id);
    }
    RegistryOnly(Logged(st, e), after);
  }

  lemma {:induction false} InvOnly(a: State, b: State)
    requires Inv(a) && a.observers == b.observers && a.created == b.created && a.log == b.log
    requires a.peer == b.peer && a.workers == b.workers
    ensures Inv(b)
  {
    RegistryOnly(a, b);
  }

  /** Events that are about none of what is accounted for. */
  lemma {:induction false} NeutralKeepsInv(st: State, e: Event)
    requires Inv(st) && (e.Sent? || e.Configured? || e.QuitCurrent?)
    ensures Inv(Logged(st, e))
  {
    NeutralKeepsRegistry(st, e, Logged(st, e));
    BalancesAppend(st.log, e, st.peer, st.workers);
    OrderlyAppend(st.log, e);
  }

  lemma {:induction false} ObserveKeepsRegistry(st: State, channel: Channel)
    requires Registry(st) && channel.name !in st.observers
    ensures Registry(Observe(st, channel))
  {
    var st' := Observe(st, channel);
    forall id | 0 <= id < st'.created ensures AccountedFor(st', id) {
      if id < st.created {
        assert AccountedFor(st, id);
        if l :| l in st.observers && st.observers[l].id == id {
          assert st'.observers[l].id == id;
        }
      } else {
        assert st'.observers[channel.name].id == id;
      }
    }
  }

  lemma {:induction false} ObserveKeepsInv(st: State, channel: Channel)
    requires Inv(st)
    ensures Inv(Observe(st, channel))
  {
    if channel.name !in st.observers {
      ObserveKeepsRegistry(st, channel);
      OrderlyAppend(st.log, Registered(st.created));
      BalancesAppend(st.log, Registered(st.created), st.peer, st.workers);
    }
  }

  lemma {:induction false} UnobserveKeepsRegistry(st: State, name: string)
    requires Registry(st) && name in st.observers
    ensures Registry(Unobserve(st, name)) && Registered(st.observers[name].id) in st.log
  {
    var st', gone := Unobserve(st, name), st.observers[name].id;
    assert AccountedFor(st, gone);
    forall id | 0 <= id < st'.created ensures AccountedFor(st', id) {
      assert AccountedFor(st, id);
      if id == gone {
        assert InRegistry(st, id) && !InRegistry(st', id);
      } else if l :| l in st.observers && st.observers[l].id == id {
        assert l in st'.observers;
      }
    }
  }

  lemma {:induction false} UnobserveKeepsInv(st: State, name: string)
    requires Inv(st)
    ensures Inv(Unobserve(st, name))
  {
    if name in st.observers {
      var gone := st.observers[name].id;
      var log := st.log + [ChannelClosed(gone)];
      UnobserveKeepsRegistry(st, name);
      OrderlyAppend(st.log, ChannelClosed(gone));
      OrderlyAppend(log, Unregistered(gone));
      BalancesAppend(st.log, ChannelClosed(gone), st.peer, st.workers);
      BalancesAppend(log, Unregistered(gone), st.peer, st.workers);
    }
  }

  lemma {:induction false} UnobserveAllMembers(st: State, order: seq<string>)
    ensures var r := UnobserveAll(st, order);
            && r == st.(observers := r.observers, log := r.log)
            && (forall l :: l in r.observers <==> l in st.observers && l !in order)
            && (forall l :: l in r.observers ==> r.observers[l] == st.observers[l])
    decreases |order|
  {
    if order != [] { UnobserveAllMembers(Unobserve(st, order[0]), order[1..]); }
  }

  lemma {:induction false} UnobserveAllFields(st: State, order: seq<string>)
    ensures var r := UnobserveAll(st, order);
            && r == st.(observers := r.observers, log := r.log)
            && r.observers == st.observers - set l | l in order
  {
    UnobserveAllMembers(st, order);
  }

  lemma {:induction false} UnobserveAllKeepsInv(st: State, order: seq<string>)
    requires Inv(st)
    ensures Inv(UnobserveAll(st, order))
    decreases |order|
  {
    if order != [] {
      UnobserveKeepsInv(st, order[0]);
      UnobserveAllKeepsInv(Unobserve(st, order[0]), order[1..]);
    }
  }

  lemma {:induction false} ClosedIsBalanced(log: seq<Event>, pc: nat)
    requires Connections(log, Peer(Some(pc)))
    ensures Connections(log + [Closed(pc)], NoPeer) && Connected(pc) in log
  {
    assert Count(log, Connected(pc)) == Count(log, Closed(pc)) + 1;
    forall c ensures Count(log + [Closed(pc)], Connected(c)) == Count(log + [Closed(pc)], Closed(c)) {
      assert Count(log, Connected(c)) == Count(log, Closed(c)) + if c == pc then 1 else 0;
      CountAppend(log, Closed(pc), Connected(c));
      CountAppend(log, Closed(pc), Closed(c));
    }
  }

  lemma {:induction false} ConnectedIsBalanced(log: seq<Event>, pc: nat)
    requires Connections(log, Peer(None))
    ensures Connections(log + [Connected(pc)], Peer(Some(pc)))
  {
    forall c ensures Count(log + [Connected(pc)], Connected(c))
                     == Count(log + [Connected(pc)], Closed(c)) + if c == pc then 1 else 0 {
      assert Count(log, Connected(c)) == Count(log, Closed(c));
      CountAppend(log, Connected(pc), Connected(c));
      CountAppend(log, Connected(pc), Closed(c));
    }
  }

  lemma {:induction false} WorkerIsBalanced(log: seq<Event>, workers: set<Worker>, w: Worker)
    requires Workers(log, workers)
    ensures w in workers ==> Workers(log + [Quit(w)], workers - {w}) && Started(w) in log
    ensures w !in workers ==> Workers(log + [Started(w)], workers + {w}) && Idle(log, w)
  {
    var e := if w in workers then Quit(w) else Started(w);
    var after := if w in workers then workers - {w} else workers + {w};
    assert Count(log, Started(w)) == Count(log, Quit(w)) + if w in workers then 1 else 0;
    forall v ensures Count(log + [e], Started(v)) == Count(log + [e], Quit(v)) + if v in after then 1 else 0 {
      assert Count(log, Started(v)) == Count(log, Quit(v)) + if v in workers then 1 else 0;
      CountAppend(log, e, Started(v));
      CountAppend(log, e, Quit(v));
    }
  }

  lemma {:induction false} ClosePeerFacts(st: State)
    requires Inv(st)
    ensures Inv(ClosePeer(st)) && ClosePeer(st).peer.NoPeer? && ClosePeer(st).observers == st.observers
  {
    if st.peer.Peer? && st.peer.connection.Some? {
      var e := Closed(st.peer.connection.value);
      ClosedIsBalanced(st.log, e.pc);
      BalancesAppend(st.log, e, st.peer, st.workers);
      NeutralKeepsRegistry(st, e, ClosePeer(st));
      OrderlyAppend(st.log, e);
    } else {
      RegistryOnly(st, ClosePeer(st));
    }
  }

  /** Workers quit in this order. */
  predicate Next(workers: set<Worker>, w: Worker) {
    match w
    case Signaling => true
    case Media => Signaling !in workers
    case Network => Media !in workers
  }

  lemma {:induction false} QuitIsProper(log: seq<Event>, workers: set<Worker>, w: Worker)
    requires Workers(log, workers) && w in workers && Next(workers, w) && Silent(log)
    ensures Proper(log, Quit(w))
  {
    WorkerIsBalanced(log, workers, w);
    match w
    case Signaling =>
    case Media => WorkerIsBalanced(log, workers, Signaling);
    case Network => WorkerIsBalanced(log, workers, Media);
  }

  lemma {:induction false} QuitWorkerKeepsInv(st: State, w: Worker)
    requires Inv(st) && Next(st.workers, w) && Silent(st.log)
    ensures Inv(QuitWorker(st, w))
  {
    if w in st.workers {
      QuitIsProper(st.log, st.workers, w);
      WorkerIsBalanced(st.log, st.workers, w);
      BalancesAppend(st.log, Quit(w), st.peer, st.workers);
      NeutralKeepsRegistry(st, Quit(w), QuitWorker(st, w));
      OrderlyAppend(st.log, Quit(w));
    }
  }

  lemma {:induction false} EmptyIsSilent(st: State)
    requires Emptied(st)
    ensures Silent(st.log)
  {
    forall pc | Connected(pc) in st.log ensures Closed(pc) in st.log {
      assert Count(st.log, Connected(pc)) == Count(st.log, Closed(pc));
    }
    forall id | Registered(id) in st.log ensures Unregistered(id) in st.log {
      assert AccountedFor(st, id) && !InRegistry(st, id);
    }
  }

  /** Nothing is connected or registered any more. */
  ghost predicate Emptied(st: State) {
    Inv(st) && st.peer.NoPeer? && st.observers == map[]
  }

  lemma {:induction false} QuitWorkerKeepsEmptied(st: State, w: Worker)
    requires Emptied(st) && Next(st.workers, w)
    ensures Emptied(QuitWorker(st, w)) && w !in QuitWorker(st, w).workers
  {
    EmptyIsSilent(st);
    QuitWorkerKeepsInv(st, w);
  }

  lemma {:induction false} QuitAllKeepsEmptied(st: State)
    requires Emptied(st)
    ensures Emptied(QuitAll(st))
  {
    QuitWorkerKeepsEmptied(st, Signaling);
    QuitWorkerKeepsEmptied(QuitWorker(st, Signaling), Media);
    QuitWorkerKeepsEmptied(QuitWorker(QuitWorker(st, Signaling), Media), Network);
  }

  lemma {:induction false} TornDownKeepsInv(st: State, order: seq<string>, current: bool)
    requires Inv(st) && Walks(order, st.observers.Keys)
    ensures Inv(TornDown(st, order, current)) && Silent(TornDown(st, order, current).log)
  {
    ClosePeerFacts(st);
    UnobserveAllKeepsInv(ClosePeer(st), order);
    UnobserveAllFields(ClosePeer(st), order);
    var st0 := UnobserveAll(ClosePeer(st), order);
    assert st0.observers.Keys == {};
    var st1 := st0.(servers := []);
    InvOnly(st0, st1);
    QuitAllKeepsEmptied(st1);
    var st2 := QuitAll(st1);
    var st3 := st2.(sessionObservers := false);
    InvOnly(st2, st3);
    NeutralKeepsInv(st3, QuitCurrent);
    EmptyIsSilent(TornDown(st, order, current));
  }

  lemma {:induction false} StartWorkerKeepsInv(st: State, w: Worker)
    requires Inv(st) && w !in st.workers
    ensures Inv(StartWorker(st, w))
  {
    WorkerIsBalanced(st.log, st.workers, w);
    BalancesAppend(st.log, Started(w), st.peer, st.workers);
    NeutralKeepsRegistry(st, Started(w), StartWorker(st, w));
    OrderlyAppend(st.log, Started(w));
  }

  lemma {:induction false} StartWorkersKeepsInv(st: State)
    requires Inv(st) && st.workers == {}
    ensures Inv(StartWorkers(st))
  {
    StartWorkerKeepsInv(st, Network);
    StartWorkerKeepsInv(StartWorker(st, Network), Media);
    StartWorkerKeepsInv(StartWorker(StartWorker(st, Network), Media), Signaling);
  }

  lemma {:induction false} ConnectKeepsInv(st: State, ports: Ports, connection: Option<nat>)
    requires Inv(st) && st.peer == Peer(None)
    ensures Inv(Connect(st, ports, connection))
  {
    var st1 := Logged(st, Configured(st.servers, ports));
    NeutralKeepsInv(st, Configured(st.servers, ports));
    if connection.Some? {
      var e := Connected(connection.value);
      ConnectedIsBalanced(st1.log, e.pc);
      BalancesAppend(st1.log, e, st1.peer, st1.workers);
      NeutralKeepsRegistry(st1, e, Connect(st, ports, connection));
      OrderlyAppend(st1.log, e);
    } else {
      InvOnly(st1, Connect(st, ports, connection));
    }
  }

  lemma {:induction false} StepKeepsInv(st: State, op: Op)
    requires Inv(st) && Enabled(st, op)
    ensures Inv(Step(st, op))
  {
    match op
    case Initialize(ports, factoryOk, connection, order) =>
      var st1 := StartWorkers(st);
      StartWorkersKeepsInv(st);
      ConnectKeepsInv(st1, ports, connection);
      if !factoryOk {
        TornDownKeepsInv(st1, order, true);
      } else if connection.None? {
        TornDownKeepsInv(Connect(st1, ports, connection), order, true);
      }
    case Teardown(order, current) => TornDownKeepsInv(st, order, current);
    case AddServer(_) => InvOnly(st, Step(st, op));
    case CreateDataChannel(name, c) => ObserveKeepsInv(st, Channel(c, name));
    case HandleDataChannel(channel) => ObserveKeepsInv(st, channel);
    case CloseDataChannel(name) => UnobserveKeepsInv(st, name);
    case Send(name, data) =>
      if name in st.observers { NeutralKeepsInv(st, Sent(st.observers[name].channel, data)); }
  }

  /** In every reachable state: each label has one observer, registered once, on a channel of that label; every
      observer ever made is in the registry, or its channel was closed once and then it was unregistered once; a
      connection was closed, and a worker quit, as often as it was made or started, but for those that are there; and
      the signalling thread never quits while a connection is open or an observer registered, nor another worker
      before it. */
  lemma {:induction false} RunKeepsInv(st: State, ops: seq<Op>)
    requires Inv(st) && EnabledRun(st, ops)
    ensures Inv(Run(st, ops))
    decreases |ops|
  {
    if ops != [] {
      StepKeepsInv(st, ops[0]);
      RunKeepsInv(Step(st, ops[0]), ops[1..]);
    }
  }

  /** A new conductor has a peer observer without a connection, session observers, and nothing else, so it can be
      initialised. */
  lemma {:induction false} NewConductorInv()
    ensures Inv(NewConductor())
    ensures forall ports, ok, connection :: Enabled(NewConductor(), Initialize(ports, ok, connection, []))
    ensures var st := NewConductor();
            && !st.networkManager && !st.socketFactory && !st.relayPortFactory && st.sessionObservers
            && st.servers == [] && st.log == []
  {
  }

  /** The first channel for a label wins: while it is not closed, or torn down, the observer of a label is not
      replaced by anything that is created or handled. */
  lemma {:induction false} FirstChannelWins(st: State, ops: seq<Op>, name: string)
    requires EnabledRun(st, ops) && name in st.observers
    requires forall k :: 0 <= k < |ops| ==>
               !ops[k].Initialize? && !ops[k].Teardown? && ops[k] != CloseDataChannel(name)
    ensures name in Run(st, ops).observers && Run(st, ops).observers[name] == st.observers[name]
    decreases |ops|
  {
    if ops != [] { FirstChannelWins(Step(st, ops[0]), ops[1..], name); }
  }

  // ----- Initialisation and teardown -----

  predicate HasConnection(st: State) {
    st.peer.Peer? && st.peer.connection.Some?
  }

  /** Everything but the history. */
  function Fields(st: State): State {
    st.(log := [], created := 0)
  }

  predicate IsTornDown(st: State) {
    && st.peer.NoPeer? && !st.factory && !st.networkManager && !st.socketFactory
    && st.workers == {} && !st.sessionObservers && st.servers == [] && st.observers == map[]
  }

  lemma {:induction false} TornDownFields(st: State, order: seq<string>, current: bool)
    requires Walks(order, st.observers.Keys)
    ensures var r := TornDown(st, order, current);
            IsTornDown(r) && r.relayPortFactory == st.relayPortFactory
  {
    UnobserveAllFields(ClosePeer(st), order);
    var st1 := UnobserveAll(ClosePeer(st), order).(servers := []);
    assert st1.observers.Keys == {};
    QuitAllFields(st1);
  }

  lemma {:induction false} QuitWorkerFields(st: State, w: Worker)
    ensures QuitWorker(st, w) == st.(workers := st.workers - {w}, log := QuitWorker(st, w).log)
  {
    assert w !in st.workers ==> st.workers - {w} == st.workers;
  }

  lemma {:induction false} NoWorkerLeft(workers: set<Worker>)
    ensures workers - {Signaling} - {Media} - {Network} == {}
  {
    forall w | w in workers ensures w in {Signaling, Media, Network} {
      match w case Network => case Media => case Signaling =>
    }
  }

  lemma {:induction false} QuitAllFields(st: State)
    ensures QuitAll(st) == st.(workers := {}, log := QuitAll(st).log)
  {
    QuitWorkerFields(st, Signaling);
    QuitWorkerFields(QuitWorker(st, Signaling), Media);
    QuitWorkerFields(QuitWorker(QuitWorker(st, Signaling), Media), Network);
    NoWorkerLeft(st.workers);
  }

  /** Every observer of the walk closes its channel and unregisters. */
  function LeavingEvents(observers: map<string, Observer>, order: seq<string>): seq<Event>
    requires forall k :: 0 <= k < |order| ==> order[k] in observers
    decreases |order|
  {
    if order == [] then []
    else
      var id := observers[order[0]].id;
      [ChannelClosed(id), Unregistered(id)] + LeavingEvents(observers, order[1..])
  }

  function QuitEvent(workers: set<Worker>, w: Worker): seq<Event> {
    if w in workers then [Quit(w)] else []
  }

  function CloseEvent(peer: Peer): seq<Event> {
    if peer.Peer? && peer.connection.Some? then [Closed(peer.connection.value)] else []
  }

  lemma {:induction false} LeavingEventsOnly(a: map<string, Observer>, b: map<string, Observer>, order: seq<string>)
    requires forall k :: 0 <= k < |order| ==> order[k] in a && order[k] in b && a[order[k]] == b[order[k]]
    ensures LeavingEvents(a, order) == LeavingEvents(b, order)
    decreases |order|
  {
    if order != [] { LeavingEventsOnly(a, b, order[1..]); }
  }

  lemma {:induction false} UnobserveAllLog(st: State, order: seq<string>)
    requires forall k :: 0 <= k < |order| ==> order[k] in st.observers
    requires forall i, j :: 0 <= i < j < |order| ==> order[i] != order[j]
    ensures UnobserveAll(st, order).log == st.log + LeavingEvents(st.observers, order)
    decreases |order|
  {
    if order != [] {
      var t, rest, id := Unobserve(st, order[0]), order[1..], st.observers[order[0]].id;
      assert t.log == st.log + [ChannelClosed(id), Unregistered(id)];
      UnobserveAllLog(t, rest);
      LeavingEventsOnly(t.observers, st.observers, rest);
      Associative(st.log, [ChannelClosed(id), Unregistered(id)], LeavingEvents(st.observers, rest));
    }
  }

  lemma {:induction false} QuitWorkerLog(st: State, w: Worker)
    ensures QuitWorker(st, w).log == st.log + QuitEvent(st.workers, w)
    ensures forall v :: v != w ==> (v in QuitWorker(st, w).workers <==> v in st.workers)
  {
  }

  lemma {:induction false} QuitAllLog(st: State)
    ensures QuitAll(st).log == st.log + QuitEvent(st.workers, Signaling) + QuitEvent(st.workers, Media)
                               + QuitEvent(st.workers, Network)
  {
    QuitWorkerLog(st, Signaling);
    QuitWorkerLog(QuitWorker(st, Signaling), Media);
    QuitWorkerLog(QuitWorker(QuitWorker(st, Signaling), Media), Network);
  }

  lemma {:induction false} ClosePeerLog(st: State)
    ensures ClosePeer(st).log == st.log + CloseEvent(st.peer)
    ensures ClosePeer(st).observers == st.observers && ClosePeer(st).workers == st.workers
  {
  }

  lemma {:induction false} WalkedAreThere(order: seq<string>, names: set<string>)
    requires Walks(order, names)
    ensures forall k :: 0 <= k < |order| ==> order[k] in names
  {
    assert forall k :: 0 <= k < |order| ==> order[k] in set l | l in order;
  }

  /** What a teardown does, in order: it closes the connection, closes and unregisters every observer, quits the
      workers, the signalling thread first, and the queue of the calling thread. */
  lemma {:induction false} TeardownInOrder(st: State, order: seq<string>, current: bool)
    requires Walks(order, st.observers.Keys)
    ensures forall k :: 0 <= k < |order| ==> order[k] in st.observers
    ensures TornDown(st, order, current).log
            == st.log + CloseEvent(st.peer) + LeavingEvents(st.observers, order)
               + QuitEvent(st.workers, Signaling) + QuitEvent(st.workers, Media) + QuitEvent(st.workers, Network)
               + if current then [QuitCurrent] else []
  {
    WalkedAreThere(order, st.observers.Keys);
    ClosePeerLog(st);
    UnobserveAllLog(ClosePeer(st), order);
    UnobserveAllFields(ClosePeer(st), order);
    QuitAllLog(UnobserveAll(ClosePeer(st), order).(servers := []));
  }

  /** A teardown leaves every field as it is if and only if the conductor is torn down already: nothing has been
      handled or added since. */
  lemma {:induction false} TeardownChangesNothingIff(st: State, order: seq<string>, current: bool)
    requires Walks(order, st.observers.Keys)
    ensures Fields(TornDown(st, order, current)) == Fields(st) <==> IsTornDown(st)
  {
    TornDownFields(st, order, current);
  }

  /** Initialisation leaves a peer connection installed, all workers up, or it tears everything down. */
  lemma {:induction false} InitializeConnectsOrTearsDown(st: State, op: Op)
    requires op.Initialize? && Enabled(st, op)
    ensures var st' := Step(st, op);
            if op.factoryOk && op.connection.Some?
            then
              && st' == st.(peer := Peer(op.connection), factory := true, networkManager := true, socketFactory := true,
                            relayPortFactory := true, workers := {Network, Media, Signaling}, log := st'.log)
              && st'.log == st.log + [Started(Network), Started(Media), Started(Signaling)]
                            + [Configured(st.servers, op.ports), Connected(op.connection.value)]
            else IsTornDown(st') && st'.relayPortFactory == (st.relayPortFactory || op.factoryOk)
  {
    var st1 := StartWorkers(st);
    if !op.factoryOk {
      TornDownFields(st1, op.order, true);
    } else if op.connection.None? {
      TornDownFields(Connect(st1, op.ports, op.connection), op.order, true);
    }
  }

  /** What an initialisation that fails has done, in order. */
  lemma {:induction false} FailedInitialize(st: State, op: Op)
    requires op.Initialize? && Enabled(st, op) && !(op.factoryOk && op.connection.Some?)
    ensures forall k :: 0 <= k < |op.order| ==> op.order[k] in st.observers
    ensures Step(st, op).log
            == st.log + [Started(Network), Started(Media), Started(Signaling)]
               + (if op.factoryOk then [Configured(st.servers, op.ports)] else [])
               + LeavingEvents(st.observers, op.order) + [Quit(Signaling)] + [Quit(Media)] + [Quit(Network)] + [QuitCurrent]
  {
    var st1 := StartWorkers(st);
    assert st1.log == st.log + [Started(Network), Started(Media), Started(Signaling)];
    var st2 := if op.factoryOk then Connect(st1, op.ports, op.connection) else st1;
    TeardownInOrder(st2, op.order, true);
    assert CloseEvent(st2.peer) == [];
    assert st2.log == st1.log + if op.factoryOk then [Configured(st.servers, op.ports)] else [];
    assert st2.log + [] == st2.log;
  }

  lemma {:induction false} InitializedIff(st: State, op: Op)
    requires op.Initialize? && Enabled(st, op)
    ensures op.factoryOk && op.connection.Some? <==> HasConnection(Step(st, op))
    ensures HasConnection(Step(st, op)) || IsTornDown(Step(st, op))
  {
    InitializeConnectsOrTearsDown(st, op);
  }

  function AddedBy(op: Op): seq<Server> {
    if op.AddServer? then [op.server] else []
  }

  /** The servers that calls add, in order. */
  function Added(ops: seq<Op>): seq<Server> {
    if ops == [] then [] else AddedBy(ops[0]) + Added(ops[1..])
  }

  lemma {:induction false} StepAdds(st: State, op: Op)
    requires Enabled(st, op) && !op.Initialize? && !op.Teardown?
    ensures Step(st, op).servers == st.servers + AddedBy(op)
  {
    assert st.servers + [] == st.servers;
    match op
    case AddServer(_) =>
    case CreateDataChannel(_, _) => assert AddedBy(op) == [];
    case HandleDataChannel(_) => assert AddedBy(op) == [];
    case CloseDataChannel(_) => assert AddedBy(op) == [];
    case Send(_, _) => assert AddedBy(op) == [];
  }

  lemma {:induction false} ServersAreAdded(st: State, ops: seq<Op>)
    requires EnabledRun(st, ops)
    requires forall k :: 0 <= k < |ops| ==> !ops[k].Initialize? && !ops[k].Teardown?
    ensures Run(st, ops).servers == st.servers + Added(ops)
    decreases |ops|
  {
    if ops != [] {
      StepAdds(st, ops[0]);
      ServersAreAdded(Step(st, ops[0]), ops[1..]);
      Associative(st.servers, AddedBy(ops[0]), Added(ops[1..]));
    }
  }

  /** Initialisation asks for a connection with exactly the servers added since the conductor was made, in order. */
  lemma {:induction false} ConfiguredWithAllServers(ops: seq<Op>, op: Op)
    requires EnabledRun(NewConductor(), ops) && op.Initialize? && op.factoryOk && op.connection.Some?
    requires forall k :: 0 <= k < |ops| ==> !ops[k].Initialize? && !ops[k].Teardown?
    requires Enabled(Run(NewConductor(), ops), op)
    ensures Step(Run(NewConductor(), ops), op).log
            == Run(NewConductor(), ops).log + [Started(Network), Started(Media), Started(Signaling)]
               + [Configured(Added(ops), op.ports), Connected(op.connection.value)]
  {
    ServersAreAdded(NewConductor(), ops);
    InitializeConnectsOrTearsDown(Run(NewConductor(), ops), op);
    assert [] + Added(ops) == Added(ops);
  }

  /** After a teardown no run that keeps to the preconditions gets a connection or a worker again. */
  lemma {:induction false} NoConnectionAfterTeardown(st: State, ops: seq<Op>)
    requires EnabledRun(st, ops) && st.peer.NoPeer? && st.workers == {}
    ensures Run(st, ops).peer.NoPeer? && Run(st, ops).workers == {}
    decreases |ops|
  {
    if ops != [] {
      if ops[0].Teardown? { TornDownFields(st, ops[0].order, ops[0].current); }
      NoConnectionAfterTeardown(Step(st, ops[0]), ops[1..]);
    }
  }
}
