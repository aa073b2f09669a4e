/** Spitfire::RtcConductor and its data channel observers as objects that change in place. Every method is proved
    to do to the abstract view of the conductor what ConductorSpec.Step says. WebRTC objects are stubs: a call to
    one leaves an event in the trace, and what one answers is a parameter. */
module Conductor {
  import opened Options
  import opened ConductorSpec

  class Trace {
    ghost var log: seq<Event>

    constructor ()
      ensures log == []
    {
      log := [];
    }

    ghost method Record(e: Event)
      modifies this
      ensures log == old(log) + [e]
    {
      log := log + [e];
    }
  }

  class DataChannelObserver {
    const channel: Channel
    const trace: Trace
    ghost const id: nat
    var registered: bool

    constructor (channel: Channel, trace: Trace, ghost id: nat)
      ensures this.channel == channel && this.trace == trace && this.id == id && !registered
    {
      this.channel, this.trace, this.id, registered := channel, trace, id, false;
    }

    method RegisterObserver()
      requires !registered
      modifies this, trace
      ensures registered && trace.log == old(trace.log) + [Registered(id)]
    {
      trace.Record(Registered(id));
      registered := true;
    }

    /** Closes the channel along with the observer. */
    method UnregisterObserver()
      requires registered
      modifies this, trace
      ensures !registered && trace.log == old(trace.log) + [ChannelClosed(id)] + [Unregistered(id)]
    {
      trace.Record(ChannelClosed(id));
      trace.Record(Unregistered(id));
      registered := false;
    }
  }

  class RtcConductor {
    const trace: Trace
    var peer: Peer
    var factory: bool
    var networkManager: bool
    var socketFactory: bool
    var relayPortFactory: bool
    var threads: set<Worker>
    var sessionObservers: bool
    var servers: seq<Server>
    var dataObservers: map<string, DataChannelObserver>
    ghost var created: nat

    ghost function Observers(): set<DataChannelObserver>
      reads this
    {
      set l | l in dataObservers :: dataObservers[l]
    }

    ghost function Registry(): map<string, Observer>
      reads this
    {
      map l | l in dataObservers :: Observer(dataObservers[l].id, dataObservers[l].channel)
    }

    ghost function View(): State
      reads this, trace
    {
      State(peer, factory, networkManager, socketFactory, relayPortFactory, threads, sessionObservers, servers,
            Registry(), created, trace.log)
    }

    /** Every observer in the map is registered, and none is there twice. */
    ghost predicate Linked()
      reads this, Observers()
    {
      && (forall l :: l in dataObservers ==> dataObservers[l].registered && dataObservers[l].trace == trace)
      && (forall l, m :: l in dataObservers && m in dataObservers && l != m ==> dataObservers[l] != dataObservers[m])
    }

    ghost predicate Valid()
      reads this, trace, Observers()
    {
      Linked() && Inv(View())
    }

    constructor ()
      ensures Valid() && View() == NewConductor() && fresh(trace)
    {
      trace := new Trace();
      peer, factory, networkManager, socketFactory, relayPortFactory := Peer(None), false, false, false, false;
      threads, sessionObservers := {}, true;
      servers, dataObservers, created := [], map[], 0;
      new;
      NewConductorInv();
      assert View() == NewConductor();
    }

    method AddServerConfig(uri: string, username: string, password: string)
      requires Valid()
      modifies this`servers
      ensures Valid() && View() == Step(old(View()), AddServer(Server(uri, username, password)))
    {
      var server := Server(uri, username, password);
      StepKeepsInv(View(), AddServer(server));
      servers := servers + [server];
    }

    method Enter(channel: Channel)
      requires Linked()
      modifies this`dataObservers, this`created, trace
      ensures Linked() && View() == Observe(old(View()), channel)
      ensures forall o :: o in Observers() ==> o in old(Observers()) || fresh(o)
    {
      if channel.name in dataObservers {
        return;
      }
      var observer := new DataChannelObserver(channel, trace, created);
      observer.RegisterObserver();
      dataObservers := dataObservers[channel.name := observer];
      created := created + 1;
      assert Registry() == old(Registry())[channel.name := Observer(old(created), channel)];
    }

    method HandleDataChannel(channel: Channel)
      requires Valid()
      modifies this`dataObservers, this`created, trace
      ensures Valid() && View() == Step(old(View()), ConductorSpec.HandleDataChannel(channel))
      ensures forall o :: o in Observers() ==> o in old(Observers()) || fresh(o)
    {
      ObserveKeepsInv(View(), channel);
      Enter(channel);
    }

    /** newId is the channel that the peer connection makes. */
    method CreateDataChannel(name: string, newId: nat)
      requires Valid() && peer.Peer?
      modifies this`dataObservers, this`created, trace
      ensures Valid() && View() == Step(old(View()), ConductorSpec.CreateDataChannel(name, newId))
      ensures forall o :: o in Observers() ==> o in old(Observers()) || fresh(o)
    {
      if peer.connection.None? {
        return;
      }
      ObserveKeepsInv(View(), Channel(newId, name));
      Enter(Channel(newId, name));
    }

    method Leave(name: string)
      requires Linked()
      modifies this`dataObservers, trace, Observers()
      ensures Linked() && View() == Unobserve(old(View()), name)
    {
      if name !in dataObservers {
        return;
      }
      dataObservers[name].UnregisterObserver();
      dataObservers := dataObservers - {name};
      assert Registry() == old(Registry()) - {name};
    }

    method CloseDataChannel(name: string)
      requires Valid()
      modifies this`dataObservers, trace, Observers()
      ensures Valid() && View() == Step(old(View()), ConductorSpec.CloseDataChannel(name))
    {
      UnobserveKeepsInv(View(), name);
      Leave(name);
    }

    /** GetDataChannelInfo and GetDataChannelState: what the channel of a label reports of itself. */
    method Query<R>(name: string, report: Channel -> R) returns (r: Option<R>)
      requires Valid()
      ensures r == if name in View().observers then Some(report(View().observers[name].channel)) else None
    {
      var channel := FindChannel(name);
      if channel.None? {
        return None;
      }
      return Some(report(channel.value));
    }

    method FindChannel(name: string) returns (channel: Option<Channel>)
      requires Valid()
      ensures channel.Some? <==> name in dataObservers
      ensures channel.Some? ==> channel.value == View().observers[name].channel && channel.value.name == name
    {
      if name !in dataObservers {
        return None;
      }
      assert name in View().observers;
      return Some(dataObservers[name].channel);
    }

    method SendToDataChannel(name: string, data: string)
      requires Valid()
      modifies trace
      ensures Valid() && View() == Step(old(View()), Send(name, data))
    {
      StepKeepsInv(View(), Send(name, data));
      var channel := FindChannel(name);
      if channel.Some? {
        trace.Record(Sent(channel.value, data));
      }
    }

    /** The loop of DeletePeerConnection over the map; order is the order of the walk. */
    method UnregisterAll() returns (ghost order: seq<string>)
      requires Linked()
      modifies this`dataObservers, trace, Observers()
      ensures dataObservers == map[] && Walks(order, old(dataObservers.Keys))
      ensures View() == UnobserveAll(old(View()), order)
    {
      ghost var st := View();
      var left := dataObservers.Keys;
      order := [];
      while left != {}
        invariant left <= dataObservers.Keys && dataObservers == old(dataObservers)
        invariant Walks(order, dataObservers.Keys - left)
        invariant forall l :: l in left ==> dataObservers[l].registered
        invariant trace.log == UnobserveAll(st, order).log
      {
        var l :| l in left;
        WalkOn(st, order, left, l);
        dataObservers[l].UnregisterObserver();
        left, order := left - {l}, order + [l];
      }
      dataObservers := map[];
      UnobserveAllFields(st, order);
      assert UnobserveAll(st, order).observers.Keys == {};
    }

    method ClosePeerConnection()
      modifies this`peer, this`factory, this`socketFactory, this`networkManager, trace
      ensures View() == ClosePeer(old(View()))
    {
      if peer.Peer? {
        if peer.connection.Some? {
          trace.Record(Closed(peer.connection.value));
        }
        peer := NoPeer;
      }
      factory, socketFactory, networkManager := false, false, false;
    }

    method QuitThread(w: Worker)
      modifies this`threads, trace
      ensures View() == QuitWorker(old(View()), w)
    {
      if w in threads {
        trace.Record(Quit(w));
        threads := threads - {w};
      }
    }

    method QuitThreads()
      modifies this`threads, trace
      ensures View() == QuitAll(old(View()))
    {
      QuitThread(Signaling);
      QuitThread(Media);
      QuitThread(Network);
    }

    /** current says whether the calling thread has a message queue, which then quits. */
    method TearDown(current: bool) returns (ghost order: seq<string>)
      requires Linked()
      modifies this, trace, Observers()
      ensures dataObservers == map[] && Walks(order, old(dataObservers.Keys))
      ensures View() == TornDown(old(View()), order, current)
    {
      ghost var st := View();
      ClosePeerConnection();
      order := UnregisterAll();
      servers := [];
      assert View() == UnobserveAll(ClosePeer(st), order).(servers := []);
      QuitThreads();
      sessionObservers := false;
      if current {
        trace.Record(QuitCurrent);
      }
    }

    method DeletePeerConnection(current: bool) returns (ghost order: seq<string>)
      requires Valid()
      modifies this, trace, Observers()
      ensures Valid() && Walks(order, old(dataObservers.Keys))
      ensures View() == Step(old(View()), Teardown(order, current)) && IsTornDown(View()) && Silent(trace.log)
    {
      ghost var st := View();
      order := TearDown(current);
      TornDownKeepsInv(st, order, current);
      TornDownFields(st, order, current);
    }

    method StartThread(w: Worker)
      modifies this`threads, trace
      ensures View() == StartWorker(old(View()), w)
    {
      trace.Record(Started(w));
      threads := threads + {w};
    }

    method StartThreads()
      modifies this`threads, trace
      ensures View() == StartWorkers(old(View()))
    {
      StartThread(Network);
      StartThread(Media);
      StartThread(Signaling);
    }

    /** The loop that copies the servers into the configuration. */
    method ConfiguredServers() returns (config: seq<Server>)
      ensures config == servers
    {
      config := [];
      for i := 0 to |servers|
        invariant config == servers[..i]
      {
        config := config + [servers[i]];
      }
    }

    method CreatePeerConnection(ports: Ports, connection: Option<nat>)
      requires factory
      modifies this`peer, this`networkManager, this`socketFactory, this`relayPortFactory, trace
      ensures View() == Connect(old(View()), ports, connection)
    {
      networkManager, socketFactory, relayPortFactory := true, true, true;
      var config := ConfiguredServers();
      trace.Record(Configured(config, ports));
      if connection.Some? {
        trace.Record(Connected(connection.value));
      }
      peer := Peer(connection);
    }

    method BuildUp(ports: Ports, factoryOk: bool, connection: Option<nat>)
      requires !factory
      modifies this`threads, this`factory, this`peer, this`networkManager, this`socketFactory, this`relayPortFactory
      modifies trace
      ensures var st1 := StartWorkers(old(View()));
              View() == if factoryOk then Connect(st1, ports, connection) else st1
    {
      StartThreads();
      factory := factoryOk;
      if factory {
        CreatePeerConnection(ports, connection);
      }
    }

    /** factoryOk and connection are what WebRTC answers: a factory or null, a peer connection or null. */
    method StartUp(ports: Ports, factoryOk: bool, connection: Option<nat>)
      returns (ok: bool, ghost order: seq<string>)
      requires Linked() && peer == Peer(None) && !factory && threads == {}
      modifies this, trace, Observers()
      ensures Linked() && Walks(order, old(dataObservers.Keys))
      ensures View() == Step(old(View()), Initialize(ports, factoryOk, connection, order))
      ensures ok <==> factoryOk && connection.Some?
    {
      BuildUp(ports, factoryOk, connection);
      ok := factory && peer.connection.Some?;
      if ok {
        order := SomeWalk(dataObservers.Keys);
      } else {
        order := TearDown(true);
      }
    }

    method InitializePeerConnection(ports: Ports, factoryOk: bool, connection: Option<nat>)
      returns (ok: bool, ghost order: seq<string>)
      requires Valid() && peer == Peer(None) && !factory && threads == {}
      modifies this, trace, Observers()
      ensures Valid() && Walks(order, old(dataObservers.Keys))
      ensures View() == Step(old(View()), Initialize(ports, factoryOk, connection, order))
      ensures ok <==> HasConnection(View())
      ensures !ok ==> IsTornDown(View())
    {
      ghost var st := View();
      ok, order := StartUp(ports, factoryOk, connection);
      StepKeepsInv(st, Initialize(ports, factoryOk, connection, order));
      InitializedIff(st, Initialize(ports, factoryOk, connection, order));
    }
  }

  ghost function SomeWalk(names: set<string>): (order: seq<string>)
    ensures Walks(order, names)
  {
    if names == {} then []
    else
      var l :| l in names;
      var rest := SomeWalk(names - {l});
      assert l !in rest by { assert l !in set x | x in rest; }
      assert (set x | x in [l] + rest) == {l} + set x | x in rest;
      [l] + rest
  }

  lemma {:induction false} UnobserveAllSnoc(st: State, order: seq<string>, l: string)
    ensures UnobserveAll(st, order + [l]) == Unobserve(UnobserveAll(st, order), l)
    decreases |order|
  {
    if order == [] {
      assert order + [l] == [l] && [l][1..] == [];
    } else {
      assert (order + [l])[1..] == order[1..] + [l];
      UnobserveAllSnoc(Unobserve(st, order[0]), order[1..], l);
    }
  }

  lemma {:induction false} WalkOn(st: State, order: seq<string>, left: set<string>, l: string)
    requires Walks(order, st.observers.Keys - left) && left <= st.observers.Keys && l in left
    ensures Walks(order + [l], st.observers.Keys - (left - {l}))
    ensures var id := st.observers[l].id;
            UnobserveAll(st, order + [l]).log == UnobserveAll(st, order).log + [ChannelClosed(id)] + [Unregistered(id)]
  {
    UnobserveAllFields(st, order);
    UnobserveAllSnoc(st, order, l);
    assert l !in order by { assert l !in set x | x in order; }
    assert (set x | x in order + [l]) == (set x | x in order) + {l};
  }
}
