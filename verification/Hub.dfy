/**
 The message hub: a registry of connected clients, and a broadcast that may remove clients while it
 iterates over them, each removal broadcasting in turn.
 */
module Hub {
  import opened Options

  type ConnectionId = string
  type AgentId = string
  type TenantId = string

  datatype Principal = Principal(agent: AgentId, tenant: TenantId)

  datatype Client = Client(agent: AgentId, tenant: TenantId, subscriptions: set<AgentId>, lastHeartbeat: nat)

  datatype EventType = MessageNew | MessageRead | AgentOnline | AgentOffline | Heartbeat

  datatype Event = Event(kind: EventType, agent: Option<AgentId>, target: Option<AgentId>, tenant: TenantId)

  /**
   The outside world, asked once per question: whether a client's credential is active, whether its
   socket is open, whether a send succeeds. Answers may differ from one question to the next.
   */
  datatype World = World(active: (nat, ConnectionId) -> bool, open: (nat, ConnectionId) -> bool,
                         sends: (nat, ConnectionId) -> bool) {
    ghost predicate ActivityStable() {
      forall m, n, c :: active(m, c) == active(n, c)
    }

    ghost predicate Stable() {
      && ActivityStable()
      && (forall m, n, c :: open(m, c) == open(n, c))
      && (forall m, n, c :: sends(m, c) == sends(n, c))
    }
  }

  predicate TenantCharacter(c: char) {
    'A' <= c <= 'Z' || 'a' <= c <= 'z' || '0' <= c <= '9' || c in {'_', '.', ':', '-'}
  }

  /** One exact tenant identity, 1 to 128 characters. */
  predicate ExactTenant(t: TenantId) {
    1 <= |t| <= 128 && forall i :: 0 <= i < |t| ==> TenantCharacter(t[i])
  }

  predicate SubscribedTo(client: Client, agent: Option<AgentId>) {
    Truthy(agent) && agent.value in client.subscriptions
  }

  /** shouldNotifyClient */
  predicate ShouldNotify(client: Client, event: Event) {
    event.tenant == client.tenant &&
    match event.kind
    case MessageNew => event.target == Some(client.agent) && client.agent in client.subscriptions
    case MessageRead => SubscribedTo(client, event.agent) || SubscribedTo(client, event.target)
    case AgentOnline => true
    case AgentOffline => true
    case Heartbeat => event.agent == Some(client.agent)
  }

  function Offline(client: Client): Event {
    Event(AgentOffline, Some(client.agent), None, client.tenant)
  }

  type Registry = map<ConnectionId, Client>

  /** A client is subscribed to nobody but itself, and belongs to one exact tenant. */
  ghost predicate Proper(clients: Registry) {
    forall c :: c in clients ==> clients[c].subscriptions <= {clients[c].agent} && ExactTenant(clients[c].tenant)
  }

  /** The offline events of the removed clients, in the order their announcements complete. */
  ghost function OfflineEvents(clients: Registry, removed: seq<ConnectionId>): seq<Event> {
    if removed == [] then []
    else
      var last := removed[|removed| - 1];
      OfflineEvents(clients, removed[..|removed| - 1]) + if last in clients then [Offline(clients[last])] else []
  }

  ghost predicate Once(xs: seq<ConnectionId>) {
    forall i, j :: 0 <= i < j < |xs| ==> xs[i] != xs[j]
  }

  /** Exactly the clients of `before` that are gone from `after` were removed, each once; the rest are as they were. */
  ghost predicate Removal(before: Registry, after: Registry, removed: seq<ConnectionId>) {
    && Once(removed)
    && (forall c :: c in removed <==> c in before && c !in after)
    && (forall c :: c in after ==> c in before && after[c] == before[c])
  }

  lemma {:induction false} OfflineSplit(before: Registry, middle: Registry, a: seq<ConnectionId>, b: seq<ConnectionId>)
    requires forall c :: c in b ==> c in middle
    requires forall c :: c in middle ==> c in before && middle[c] == before[c]
    ensures OfflineEvents(before, a + b) == OfflineEvents(before, a) + OfflineEvents(middle, b)
  {
    if b == [] {
      assert a + b == a;
    } else {
      assert (a + b)[..|a + b| - 1] == a + b[..|b| - 1];
      OfflineSplit(before, middle, a, b[..|b| - 1]);
    }
  }

  lemma RemovalTwice(before: Registry, middle: Registry, after: Registry, a: seq<ConnectionId>, b: seq<ConnectionId>)
    requires Removal(before, middle, a) && Removal(middle, after, b)
    ensures Removal(before, after, a + b)
    ensures OfflineEvents(before, a + b) == OfflineEvents(before, a) + OfflineEvents(middle, b)
  {
    OfflineSplit(before, middle, a, b);
    var both := a + b;
    forall i, j | 0 <= i < j < |both| ensures both[i] != both[j] {
      if i < |a| <= j {
        assert both[i] in a && both[j] in b;
      }
    }
  }

  /** Removing only ever shrinks the registry, and keeps it proper. */
  lemma RemovalShrinks(before: Registry, after: Registry, removed: seq<ConnectionId>)
    requires Removal(before, after, removed)
    ensures after.Keys <= before.Keys && |after| <= |before|
    ensures forall c :: c in after ==> after[c] == before[c]
    ensures forall c :: c in before && c !in after ==> c in removed
    ensures Proper(before) ==> Proper(after)
  {
    var a, b := after.Keys, before.Keys;
    assert b == a + (b - a);
    assert |after| == |a| && |before| == |b|;
  }

  lemma RemoveOne(before: Registry, c: ConnectionId)
    requires c in before
    ensures Removal(before, before - {c}, [c])
    ensures OfflineEvents(before, [c]) == [Offline(before[c])]
    ensures |before - {c}| < |before|
  {
    assert [c][..0] == [];
    assert (before - {c}).Keys == before.Keys - {c};
    assert |before| == |before.Keys| && |before - {c}| == |(before - {c}).Keys|;
  }

  /** A client removed first is announced last, after those its own announcement removed. */
  lemma RemovalAround(before: Registry, c: ConnectionId, after: Registry, later: seq<ConnectionId>)
    requires c in before && Removal(before - {c}, after, later)
    ensures Removal(before, after, later + [c])
    ensures OfflineEvents(before, later + [c]) == OfflineEvents(before - {c}, later) + [Offline(before[c])]
  {
    RemovedAround(before, c, after, later);
    hide Removal, Once;
    OfflineSplit(before, before - {c}, [], later);
    assert [] + later == later && (later + [c])[..|later + [c]| - 1] == later;
  }

  lemma RemovedAround(before: Registry, c: ConnectionId, after: Registry, later: seq<ConnectionId>)
    requires c in before && Removal(before - {c}, after, later)
    ensures Removal(before, after, later + [c])
    ensures forall r :: r in later ==> r in before - {c}
  {
    var all := later + [c];
    forall i, j | 0 <= i < j < |all| ensures all[i] != all[j] {
      if j == |later| {
        assert all[i] in later;
      }
    }
    forall r ensures r in all <==> r in before && r !in after {
      assert r in all <==> r in later || r == c;
    }
  }

  lemma RemoveNone(before: Registry)
    ensures Removal(before, before, []) && OfflineEvents(before, []) == []
  {
  }

  /** A client whose credential is gone, or whose open socket does not take what is sent. */
  predicate Faulty(w: World, c: ConnectionId) {
    !w.active(0, c) || (w.open(0, c) && !w.sends(0, c))
  }

  /** Who gets an event in a stable world: the interested clients that are open and not faulty. */
  ghost function Audience(w: World, clients: Registry, among: set<ConnectionId>, event: Event): set<ConnectionId> {
    set c | c in among && Hears(w, clients, c, event)
  }

  ghost predicate Hears(w: World, clients: Registry, c: ConnectionId, event: Event) {
    c in clients && !Faulty(w, c) && w.open(0, c) && ShouldNotify(clients[c], event)
  }

  lemma AudienceOneMore(w: World, clients: Registry, among: set<ConnectionId>, c: ConnectionId, event: Event)
    ensures Hears(w, clients, c, event) ==>
      Audience(w, clients, among + {c}, event) == Audience(w, clients, among, event) + {c}
    ensures !Hears(w, clients, c, event) ==>
      Audience(w, clients, among + {c}, event) == Audience(w, clients, among, event)
    ensures Audience(w, clients, {}, event) == {}
    ensures Faulty(w, c) ==> !Hears(w, clients, c, event)
  {
    hide ShouldNotify, Faulty;
  }

  lemma Reassociate<T>(xs: seq<T>, a: seq<T>, b: seq<T>)
    ensures xs + a + b == xs + (a + b)
  {
  }

  /**
   What a broadcast has achieved when `todo` is still to be visited: who is gone, who is known to be
   active, and who has received the event.
   */
  ghost predicate Swept(w: World, before: Registry, now_: Registry, todo: set<ConnectionId>, event: Event,
                        removed: seq<ConnectionId>, receivers: set<ConnectionId>) {
    && todo <= before.Keys && now_.Keys <= before.Keys
    && (w.ActivityStable() ==> forall c :: c in now_ && c !in todo ==> w.active(0, c))
    && (forall c :: c in receivers ==> c in before && c !in todo && ShouldNotify(before[c], event))
    && (w.Stable() ==> receivers == Audience(w, before, before.Keys - todo, event))
    && (w.Stable() ==> forall c :: c in removed ==> Faulty(w, c))
  }

  /** What one visit establishes about client c. */
  ghost predicate Visited(w: World, before: Registry, c: ConnectionId, event: Event, sent: bool, stays: bool) {
    && c in before
    && (sent ==> ShouldNotify(before[c], event))
    && (w.ActivityStable() && stays ==> w.active(0, c))
    && (w.Stable() ==> (sent <==> Hears(w, before, c, event)))
  }

  lemma SweptOneMore(w: World, before: Registry, now_: Registry, todo: set<ConnectionId>, event: Event,
                     removed: seq<ConnectionId>, receivers: set<ConnectionId>, c: ConnectionId, sent: bool,
                     now': Registry, removed': seq<ConnectionId>)
    requires Swept(w, before, now_, todo, event, removed, receivers) && c in todo
    requires Visited(w, before, c, event, sent, c in now') && now'.Keys <= now_.Keys
    requires w.Stable() ==> forall r :: r in removed' ==> Faulty(w, r)
    ensures Swept(w, before, now', todo - {c}, event, removed', if sent then receivers + {c} else receivers)
    ensures c !in receivers
  {
    hide ShouldNotify, Faulty, Hears;
    AudienceOneMore(w, before, before.Keys - todo, c, event);
    assert before.Keys - (todo - {c}) == before.Keys - todo + {c};
  }

  lemma SweptNothing(w: World, before: Registry, event: Event)
    ensures Swept(w, before, before, before.Keys, event, [], {})
  {
    AudienceOneMore(w, before, {}, "", event);
    assert before.Keys - before.Keys == {};
  }

  lemma SweptAll(w: World, before: Registry, now_: Registry, event: Event, removed: seq<ConnectionId>,
                 receivers: set<ConnectionId>)
    requires Swept(w, before, now_, {}, event, removed, receivers)
    ensures w.ActivityStable() ==> forall c :: c in now_ ==> w.active(0, c)
    ensures forall c :: c in receivers ==> c in before && ShouldNotify(before[c], event)
    ensures forall c :: c in receivers ==> c in before && before[c].tenant == event.tenant
    ensures w.Stable() ==> receivers == Audience(w, before, before.Keys, event)
    ensures w.Stable() ==> forall c :: c in removed ==> Faulty(w, c)
  {
    assert before.Keys - {} == before.Keys;
  }

  lemma GoneIsFaulty(w: World, before: Registry, now_: Registry, todo: set<ConnectionId>, event: Event,
                     removed: seq<ConnectionId>, receivers: set<ConnectionId>, c: ConnectionId)
    requires Swept(w, before, now_, todo, event, removed, receivers) && c in before && c !in now_ && c in removed
    ensures Visited(w, before, c, event, false, c in now_)
    ensures w.Stable() ==> forall r :: r in removed ==> Faulty(w, r)
  {
    hide ShouldNotify;
  }

  class MessageHub {
    const world: World
    var asked: nat
    var clients: map<ConnectionId, Client>
    /** What was broadcast, in the order the broadcasts completed. */
    var emitted: seq<Event>

    ghost predicate Valid()
      reads this
    {
      Proper(clients)
    }

    constructor (world: World)
      ensures this.world == world && Valid() && clients == map[] && emitted == []
    {
      this.world := world;
      asked, clients, emitted := 0, map[], [];
    }

    method IsClientActive(c: ConnectionId) returns (b: bool)
      modifies this`asked
      ensures b == world.active(old(asked), c)
    {
      b := world.active(asked, c);
      asked := asked + 1;
    }

    method IsOpen(c: ConnectionId) returns (b: bool)
      modifies this`asked
      ensures b == world.open(old(asked), c)
    {
      b := world.open(asked, c);
      asked := asked + 1;
    }

    method Send(c: ConnectionId) returns (b: bool)
      modifies this`asked
      ensures b == world.sends(old(asked), c)
    {
      b := world.sends(asked, c);
      asked := asked + 1;
    }

    /** Remove first, then tell the others; every removal on the way is told too, exactly once. */
    method HandleClientDisconnect(c: ConnectionId) returns (ghost removed: seq<ConnectionId>)
      requires Valid()
      modifies this
      ensures Valid()
      ensures Removal(old(clients), clients, removed)
      ensures emitted == old(emitted) + OfflineEvents(old(clients), removed)
      ensures c !in clients && (c !in old(clients) ==> removed == [])
      ensures world.Stable() ==> forall r :: r in removed ==> r == c || Faulty(world, r)
      decreases |clients|, 0
    {
      hide Proper, Removal, OfflineEvents, ExactTenant, Faulty, World.Stable, World.ActivityStable, Audience;
      removed := [];
      RemoveNone(clients);
      if c in clients {
        ghost var before := clients;
        var client := clients[c];
        clients := clients - {c};
        RemoveOne(before, c);
        RemovalShrinks(before, clients, [c]);
        TenantOf(before, c);
        ghost var middle := clients;
        ghost var later, receivers;
        var notified;
        notified, later, receivers := BroadcastEvent(Offline(client));
        RemovalAround(before, c, clients, later);
        RemovalShrinks(middle, clients, later);
        removed := later + [c];
      }
    }

    /**
     Iterate over the clients, skipping those a nested disconnect has already removed. Terminates
     because every nested broadcast has fewer clients; every removed client is announced exactly
     once; and if activity does not change meanwhile only active clients stay registered. In a
     stable world the event reaches exactly its audience.
     */
    method BroadcastEvent(event: Event)
      returns (notified: nat, ghost removed: seq<ConnectionId>, ghost receivers: set<ConnectionId>)
      requires Valid() && ExactTenant(event.tenant)
      modifies this
      ensures Valid()
      ensures Removal(old(clients), clients, removed)
      ensures emitted == old(emitted) + OfflineEvents(old(clients), removed) + [event]
      ensures world.ActivityStable() ==> forall c :: c in clients ==> world.active(0, c)
      ensures notified == |receivers|
      ensures forall c :: c in receivers ==> c in old(clients) && ShouldNotify(old(clients)[c], event)
      ensures forall c :: c in receivers ==> c in old(clients) && old(clients)[c].tenant == event.tenant
      ensures world.Stable() ==> receivers == Audience(world, old(clients), old(clients).Keys, event)
      ensures world.Stable() ==> forall c :: c in removed ==> Faulty(world, c)
      decreases |clients|, 2
    {
      hide Proper, Removal, OfflineEvents, ExactTenant, ShouldNotify, Faulty, Audience, Hears, Swept, Visited,
           World.Stable, World.ActivityStable;
      notified, removed, receivers := 0, [], {};
      RemoveNone(clients);
      SweptNothing(world, clients, event);
      var todo := clients.Keys;
      while todo != {}
        invariant Valid()
        invariant Removal(old(clients), clients, removed)
        invariant emitted == old(emitted) + OfflineEvents(old(clients), removed)
        invariant Swept(world, old(clients), clients, todo, event, removed, receivers)
        invariant notified == |receivers|
        decreases todo
      {
        var c :| c in todo;
        RemovalShrinks(old(clients), clients, removed);
        TodoInRegistry(world, old(clients), clients, todo, event, removed, receivers);
        ghost var middle, gone := clients, removed;
        var sent := false;
        if c !in clients {
          GoneIsFaulty(world, old(clients), clients, todo, event, removed, receivers, c);
        } else {
          var keep;
          sent, keep := VisitClient(c, event, old(clients));
          FaultyGone(world, old(clients), clients, todo, event, removed, receivers);
          if !keep {
            removed := DisconnectVisited(c, old(clients), old(emitted), removed);
          }
        }
        SweptOneMore(world, old(clients), middle, todo, event, gone, receivers, c, sent, clients, removed);
        if sent {
          notified := notified + 1;
          receivers := receivers + {c};
        }
        todo := todo - {c};
      }
      SweptAll(world, old(clients), clients, event, removed, receivers);
      emitted := emitted + [event];
    }

    /** A disconnect in the middle of a broadcast, added to what the broadcast has removed so far. */
    method DisconnectVisited(c: ConnectionId, ghost before: Registry, ghost already: seq<Event>,
                             ghost removed: seq<ConnectionId>)
      returns (ghost all: seq<ConnectionId>)
      requires Valid() && Removal(before, clients, removed)
      requires emitted == already + OfflineEvents(before, removed)
      requires world.Stable() ==> Faulty(world, c) && forall r :: r in removed ==> Faulty(world, r)
      modifies this
      ensures Valid() && Removal(before, clients, all)
      ensures emitted == already + OfflineEvents(before, all)
      ensures world.Stable() ==> forall r :: r in all ==> Faulty(world, r)
      ensures c !in clients && clients.Keys <= old(clients).Keys
      decreases |clients|, 1
    {
      hide Proper, Removal, OfflineEvents, Faulty, World.Stable;
      ghost var middle := clients;
      ghost var more := HandleClientDisconnect(c);
      RemovalTwice(before, middle, clients, removed, more);
      RemovalShrinks(middle, clients, more);
      Reassociate(already, OfflineEvents(before, removed), OfflineEvents(middle, more));
      all := removed + more;
    }

    /** One visited client: checked, and if it is interested and open, sent to. */
    method VisitClient(c: ConnectionId, event: Event, ghost before: Registry) returns (sent: bool, keep: bool)
      requires c in clients && c in before && before[c] == clients[c]
      modifies this`asked
      ensures sent ==> keep
      ensures Visited(world, before, c, event, sent, keep)
      ensures world.Stable() ==> !keep ==> Faulty(world, c)
    {
      hide ShouldNotify;
      var active := IsClientActive(c);
      if !active {
        return false, false;
      }
      if !ShouldNotify(clients[c], event) {
        return false, true;
      }
      var open := IsOpen(c);
      if !open {
        return false, true;
      }
      sent := Send(c);
      keep := sent;
    }

    /**
     Registration binds the connection to its authenticated identity: a claim of any other agent
     changes nothing. The new client is subscribed to itself only, and everyone is told.
     */
    method HandleClientRegistration(c: ConnectionId, principal: Principal, claimed: Option<AgentId>, now: nat)
      returns (accepted: bool, ghost removed: seq<ConnectionId>)
      requires Valid() && ExactTenant(principal.tenant)
      modifies this
      ensures Valid()
      ensures accepted <==> Truthy(claimed) && claimed.value == principal.agent
      ensures !accepted ==> clients == old(clients) && emitted == old(emitted)
      ensures accepted ==>
        var registered := old(clients)[c := Client(principal.agent, principal.tenant, {principal.agent}, now)];
        && Removal(registered, clients, removed)
        && emitted == old(emitted) + OfflineEvents(registered, removed)
                      + [Event(AgentOnline, Some(principal.agent), None, principal.tenant)]
    {
      hide ExactTenant, Removal, OfflineEvents;
      removed := [];
      if !Truthy(claimed) || claimed.value != principal.agent {
        return false, [];
      }
      clients := clients[c := Client(principal.agent, principal.tenant, {principal.agent}, now)];
      ghost var receivers;
      var notified;
      notified, removed, receivers := BroadcastEvent(Event(AgentOnline, Some(principal.agent), None, principal.tenant));
      accepted := true;
    }

    /** Only the client's own agent can be subscribed to. */
    method HandleSubscription(c: ConnectionId, target: Option<AgentId>)
      requires Valid()
      modifies this`clients
      ensures Valid() && clients.Keys == old(clients).Keys
      ensures forall d :: d in old(clients) && d != c ==> clients[d] == old(clients)[d]
      ensures c in old(clients) ==> var client := old(clients)[c];
        clients[c] == if target == Some(client.agent)
          then client.(subscriptions := client.subscriptions + {client.agent}) else client
    {
      if c !in clients {
        return;
      }
      var client := clients[c];
      if Truthy(target) && target.value != client.agent {
        return;
      }
      if target == Some(client.agent) {
        clients := clients[c := client.(subscriptions := client.subscriptions + {client.agent})];
      }
    }

    method HandleUnsubscription(c: ConnectionId, target: Option<AgentId>)
      requires Valid()
      modifies this`clients
      ensures Valid() && clients.Keys == old(clients).Keys
      ensures forall d :: d in old(clients) && d != c ==> clients[d] == old(clients)[d]
      ensures c in old(clients) ==> var client := old(clients)[c];
        clients[c] == if Truthy(target) then client.(subscriptions := client.subscriptions - {target.value}) else client
    {
      if c !in clients {
        return;
      }
      var client := clients[c];
      if Truthy(target) {
        clients := clients[c := client.(subscriptions := client.subscriptions - {target.value})];
      }
    }

    /** A heartbeat of a client whose credential is gone disconnects it; otherwise only its time moves. */
    method HandleHeartbeat(c: ConnectionId, now: nat) returns (ghost removed: seq<ConnectionId>)
      requires Valid()
      modifies this
      ensures Valid()
      ensures c in old(clients) && !world.active(old(asked), c) ==>
        c !in clients && Removal(old(clients), clients, removed) &&
          emitted == old(emitted) + OfflineEvents(old(clients), removed)
      ensures c in old(clients) && world.active(old(asked), c) ==>
        clients == old(clients)[c := old(clients)[c].(lastHeartbeat := now)] && emitted == old(emitted)
      ensures c !in old(clients) ==> clients == old(clients) && emitted == old(emitted)
    {
      hide ExactTenant, Removal, OfflineEvents;
      removed := [];
      if c in clients {
        var active := IsClientActive(c);
        if !active {
          removed := HandleClientDisconnect(c);
        } else {
          clients := clients[c := clients[c].(lastHeartbeat := now)];
        }
      }
    }
  }

  lemma TodoInRegistry(w: World, before: Registry, now_: Registry, todo: set<ConnectionId>, event: Event,
                       removed: seq<ConnectionId>, receivers: set<ConnectionId>)
    requires Swept(w, before, now_, todo, event, removed, receivers)
    ensures todo <= before.Keys
  {
  }

  lemma FaultyGone(w: World, before: Registry, now_: Registry, todo: set<ConnectionId>, event: Event,
                   removed: seq<ConnectionId>, receivers: set<ConnectionId>)
    requires Swept(w, before, now_, todo, event, removed, receivers)
    ensures w.Stable() ==> forall r :: r in removed ==> Faulty(w, r)
  {
  }

  lemma TenantOf(clients: Registry, c: ConnectionId)
    requires Proper(clients) && c in clients
    ensures ExactTenant(clients[c].tenant)
  {
  }

  // ----- Who is told what

  /** Nobody of another tenant; and within the tenant, by the kind of event. */
  lemma NotifiedIff(client: Client, event: Event)
    ensures ShouldNotify(client, event) ==> client.tenant == event.tenant
    ensures event.kind == MessageNew ==> (ShouldNotify(client, event) <==>
      client.tenant == event.tenant && event.target == Some(client.agent) && client.agent in client.subscriptions)
    ensures event.kind == MessageRead ==> (ShouldNotify(client, event) <==>
      && client.tenant == event.tenant
      && exists agent :: && agent in client.subscriptions && agent != ""
                         && (event.agent == Some(agent) || event.target == Some(agent)))
    ensures event.kind == AgentOnline || event.kind == AgentOffline ==>
      (ShouldNotify(client, event) <==> client.tenant == event.tenant)
    ensures event.kind == Heartbeat ==>
      (ShouldNotify(client, event) <==> client.tenant == event.tenant && event.agent == Some(client.agent))
  {
  }

  /** In a stable world the audience is who is registered, interested, active and open, and takes what is sent. */
  lemma AudienceIff(w: World, clients: Registry, event: Event, c: ConnectionId)
    requires w.Stable()
    ensures c in Audience(w, clients, clients.Keys, event) <==>
      c in clients && ShouldNotify(clients[c], event) && forall n :: w.active(n, c) && w.open(n, c) && w.sends(n, c)
  {
    hide ShouldNotify;
    if forall n :: w.active(n, c) && w.open(n, c) && w.sends(n, c) {
      assert w.active(0, c) && w.open(0, c) && w.sends(0, c);
    }
  }

  /** A world is stable exactly when it answers every question about a client as it did the first time. */
  lemma StableIff(w: World)
    ensures w.ActivityStable() <==> forall n, c :: w.active(n, c) == w.active(0, c)
    ensures w.Stable() <==>
      && (forall n, c :: w.active(n, c) == w.active(0, c)) && (forall n, c :: w.open(n, c) == w.open(0, c))
      && (forall n, c :: w.sends(n, c) == w.sends(0, c))
  {
  }

  /** A client is faulty when its credential is gone, or its socket is open and does not take what is sent. */
  lemma FaultyIff(w: World, c: ConnectionId)
    requires w.Stable()
    ensures Faulty(w, c) <==> forall n :: !w.active(n, c) || (w.open(n, c) && !w.sends(n, c))
  {
    if !Faulty(w, c) {
      assert w.active(0, c) && !(w.open(0, c) && !w.sends(0, c));
    }
  }

  /** Each removed client is announced as its agent going offline, to its tenant, in the order of removal. */
  lemma {:induction false} AnnouncedAs(clients: Registry, removed: seq<ConnectionId>)
    requires forall c :: c in removed ==> c in clients
    ensures |OfflineEvents(clients, removed)| == |removed|
    ensures forall i :: 0 <= i < |removed| ==>
      var e := OfflineEvents(clients, removed)[i];
      && e.kind == AgentOffline && e.agent == Some(clients[removed[i]].agent) && e.target == None
      && e.tenant == clients[removed[i]].tenant
  {
    if removed != [] {
      var front := removed[..|removed| - 1];
      forall c | c in front ensures c in clients {
      }
      AnnouncedAs(clients, front);
    }
  }

  const UPPER: string := "ABCDEFGHIJKLMNOPQRSTUVWXYZ"
  const LOWER: string := "abcdefghijklmnopqrstuvwxyz"
  const OTHER: string := "0123456789_.:-"

  lemma UpperIs(c: char)
    ensures 'A' <= c <= 'Z' <==> c in UPPER
  {
    if 'A' <= c <= 'Z' {
      assert UPPER[c as int - 65] == c;
    }
  }

  lemma LowerIs(c: char)
    ensures 'a' <= c <= 'z' <==> c in LOWER
  {
    if 'a' <= c <= 'z' {
      assert LOWER[c as int - 97] == c;
    }
  }

  lemma OtherIs(c: char)
    ensures '0' <= c <= '9' || c in {'_', '.', ':', '-'} <==> c in OTHER
  {
    if '0' <= c <= '9' {
      assert OTHER[c as int - 48] == c;
    }
    if c in {'_', '.', ':', '-'} {
      assert OTHER[10] == '_' && OTHER[11] == '.' && OTHER[12] == ':' && OTHER[13] == '-';
    }
  }

  /** A tenant identity has 1 to 128 characters: letters, digits, and four signs. */
  lemma TenantIs(t: TenantId)
    ensures ExactTenant(t) <==>
      t != "" && |t| <= 128 && forall i :: 0 <= i < |t| ==> t[i] in UPPER || t[i] in LOWER || t[i] in OTHER
  {
    forall c: char ensures TenantCharacter(c) <==> c in UPPER || c in LOWER || c in OTHER {
      UpperIs(c);
      LowerIs(c);
      OtherIs(c);
    }
  }
}
