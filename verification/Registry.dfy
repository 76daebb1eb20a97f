/** The registration directory (two indexes) and the private store that owns the registered instances. */
module Registry {
  import opened Options
  import Ordered

  const MAX_ID: nat := 0xFFFF_FFFF_FFFF_FFFF

  type Key = string

  /** A Resident as the framework sees it: `address` is the identity of the shared pointer, and the rest is
      what its four accessors answer when it is registered. */
  datatype Resident = Resident(address: nat, key: Key, capabilities: set<string>,
                               mailbox: nat, outbound: Option<nat>, inbound: Option<nat>)

  datatype Record = Record(instance: nat, key: Key, capabilities: set<string>,
                           mailbox: nat, outbound: Option<nat>, inbound: Option<nat>)

  datatype Directory = Directory(
    nextInstance: nat, instances: map<nat, nat>,            // the store: a counter, and id -> address
    residents: map<Key, Record>, byInstance: map<nat, Key>) // the two indexes

  const EMPTY := Directory(0, map[], map[], map[])

  datatype RegisterResult =
    | Registered(instance: nat)
    | AlreadyRegistered(instance: nat, registeredAs: Key)
    | IdsExhausted
    | DuplicateName(registeredInstance: nat, requestedInstance: nat)

  datatype UnregisterResult = Unregistered(key: Key) | UnknownRegistration | IndexesDisagree

  datatype Route = Route(source: Key, target: Key, outbound: Option<nat>, inbound: Option<nat>, mailbox: nat)

  datatype RouteResult = Resolved(route: Route) | UnknownSource | UnknownTarget | SourceIndexesDisagree

  // ---------- the operations ----------

  /** The first id, in order, under which the store holds this very instance. */
  function Holder(instances: map<nat, nat>, ids: seq<nat>, address: nat): (id: Option<nat>)
    requires forall k :: k in ids ==> k in instances
    ensures id.Some? ==> id.value in instances && instances[id.value] == address
    ensures id.None? ==> forall k :: k in ids ==> instances[k] != address
  {
    if ids == [] then None else
    assert ids[0] in ids;
    if instances[ids[0]] == address then Some(ids[0]) else Holder(instances, ids[1..], address)
  }

  function RecordOf(id: nat, r: Resident): Record {
    Record(id, r.key, r.capabilities, r.mailbox, r.outbound, r.inbound)
  }

  function Register(d: Directory, r: Resident): (Directory, RegisterResult) {
    var holder := Holder(d.instances, Ordered.InOrder(d.instances.Keys), r.address);
    if holder.Some? then
      (d, AlreadyRegistered(holder.value, if holder.value in d.byInstance then d.byInstance[holder.value] else r.key))
    else if d.nextInstance >= MAX_ID then (d, IdsExhausted) else
    var id := d.nextInstance + 1;
    var reserved := d.(nextInstance := id);
    if r.key in d.residents then (reserved, DuplicateName(d.residents[r.key].instance, id)) else
    (Entered(d, r), Registered(id))
  }

  /** A new entry under the next id, in all three maps. */
  function Entered(d: Directory, r: Resident): Directory {
    var id := d.nextInstance + 1;
    Directory(id, d.instances[id := r.address], d.residents[r.key := RecordOf(id, r)], d.byInstance[id := r.key])
  }

  function Unregister(d: Directory, id: nat): (Directory, UnregisterResult) {
    if id !in d.byInstance then (d, UnknownRegistration) else
    var key := d.byInstance[id];
    if key !in d.residents || id !in d.instances then (d, IndexesDisagree) else
    (d.(byInstance := d.byInstance - {id}, residents := d.residents - {key}, instances := d.instances - {id}),
     Unregistered(key))
  }

  function Resolve(d: Directory, source: nat, target: Key): RouteResult {
    if source !in d.byInstance then UnknownSource else
    var key := d.byInstance[source];
    if key !in d.residents then SourceIndexesDisagree else
    if target !in d.residents then UnknownTarget else
    Resolved(Route(key, target, d.residents[key].outbound, d.residents[target].inbound, d.residents[target].mailbox))
  }

  // ---------- consistency ----------

  /** The two indexes are inverse to each other, the store holds exactly the registered ids, no instance is
      stored twice, and the counter is above every id. */
  ghost predicate Consistent(d: Directory) {
    && (forall id :: id in d.byInstance ==>
          d.byInstance[id] in d.residents && d.residents[d.byInstance[id]].instance == id)
    && (forall key :: key in d.residents ==>
          && d.residents[key].instance in d.byInstance && d.byInstance[d.residents[key].instance] == key
          && d.residents[key].key == key)
    && d.instances.Keys == d.byInstance.Keys
    && (forall a, b :: a in d.instances && b in d.instances && d.instances[a] == d.instances[b] ==> a == b)
    && (forall id :: id in d.instances ==> 1 <= id <= d.nextInstance)
    && d.nextInstance <= MAX_ID
  }

  lemma RegisterKeeps(d: Directory, r: Resident)
    requires Consistent(d)
    ensures var (d', result) := Register(d, r);
            && Consistent(d') && d.nextInstance <= d'.nextInstance
            && (forall id :: id <= d.nextInstance && id !in d.byInstance ==> id !in d'.byInstance)
  {
    hide Consistent, Holder, Resolve;
    RegisterAnswers(d, r);
    if Register(d, r).1.Registered? {
      AddKeeps(d, r);
    } else if d.nextInstance < MAX_ID {
      CounterKeeps(d);
    }
  }

  lemma IndexesAgree(d: Directory)
    requires Consistent(d)
    ensures d.instances.Keys == d.byInstance.Keys && d.nextInstance + 1 !in d.instances && d.nextInstance <= MAX_ID
  {
  }

  lemma NamesAgree(d: Directory, key: Key)
    requires Consistent(d)
    ensures key in d.residents ==>
              d.residents[key].instance in d.byInstance && d.byInstance[d.residents[key].instance] == key
  {
  }

  lemma CounterKeeps(d: Directory)
    requires Consistent(d) && d.nextInstance < MAX_ID
    ensures Consistent(d.(nextInstance := d.nextInstance + 1))
  {
  }

  lemma AddKeeps(d: Directory, r: Resident)
    requires Consistent(d) && r.key !in d.residents && r.address !in d.instances.Values && d.nextInstance < MAX_ID
    ensures Consistent(Entered(d, r))
  {
    var id := d.nextInstance + 1;
    var instances := d.instances[id := r.address];
    assert id !in d.instances && id !in d.byInstance;
    forall a, b | a in instances && b in instances && instances[a] == instances[b]
      ensures a == b
    {
      assert a != id ==> d.instances[a] in d.instances.Values;
      assert b != id ==> d.instances[b] in d.instances.Values;
    }
  }

  /** What a registration answers: it succeeds with a fresh id exactly when the instance is not stored, its
      name is free and an id is left; otherwise it names the conflicting registration and changes at most the
      counter. */
  lemma RegisterAnswers(d: Directory, r: Resident)
    requires Consistent(d)
    ensures var (d', result) := Register(d, r);
            match result
            case Registered(id) =>
              && r.address !in d.instances.Values && r.key !in d.residents
              && id == d.nextInstance + 1 && id !in d.byInstance
              && d'.byInstance == d.byInstance[id := r.key] && d'.instances == d.instances[id := r.address]
              && d'.residents ==
                   d.residents[r.key := Record(id, r.key, r.capabilities, r.mailbox, r.outbound, r.inbound)]
              && Resolve(d', id, r.key) == Resolved(Route(r.key, r.key, r.outbound, r.inbound, r.mailbox))
            case AlreadyRegistered(id, key) =>
              && d' == d && id in d.instances && d.instances[id] == r.address
              && id in d.byInstance && d.byInstance[id] == key
            case IdsExhausted =>
              d' == d && d.nextInstance == MAX_ID && r.address !in d.instances.Values
            case DuplicateName(id, requested) =>
              && d' == d.(nextInstance := requested) && requested == d.nextInstance + 1
              && r.address !in d.instances.Values && r.key in d.residents
              && id in d.byInstance && d.byInstance[id] == r.key
  {
    hide Holder, Consistent, Resolve, Entered, Ordered.InOrder;
    HolderIsFound(d.instances, r.address);
    if r.address in d.instances.Values {
      IndexesAgree(d);
    } else if d.nextInstance >= MAX_ID {
      IndexesAgree(d);
    } else if r.key in d.residents {
      NamesAgree(d, r.key);
    } else {
      IndexesAgree(d);
      EnteredResolves(d, r);
    }
  }

  lemma EnteredResolves(d: Directory, r: Resident)
    ensures var (id, later) := (d.nextInstance + 1, Entered(d, r));
            && later.byInstance == d.byInstance[id := r.key] && later.instances == d.instances[id := r.address]
            && later.residents ==
                 d.residents[r.key := Record(id, r.key, r.capabilities, r.mailbox, r.outbound, r.inbound)]
            && Resolve(later, id, r.key) == Resolved(Route(r.key, r.key, r.outbound, r.inbound, r.mailbox))
  {
  }

  lemma HolderIsFound(instances: map<nat, nat>, address: nat)
    ensures Holder(instances, Ordered.InOrder(instances.Keys), address).None? <==> address !in instances.Values
  {
    var ids := Ordered.InOrder(instances.Keys);
    if Holder(instances, ids, address).None? {
      forall k | k in instances
        ensures instances[k] != address
      {
        assert k in ids;
      }
    }
  }

  lemma UnregisterKeeps(d: Directory, id: nat)
    requires Consistent(d)
    ensures var (d', result) := Unregister(d, id);
            && Consistent(d') && d.nextInstance == d'.nextInstance
            && !result.IndexesDisagree?
            && (result.Unregistered? <==> id in d.byInstance)
            && d'.byInstance == d.byInstance - {id} && d'.instances == d.instances - {id}
            && (result.Unregistered? ==>
                  result.key == d.byInstance[id] && d'.residents == d.residents - {d.byInstance[id]})
            && (!result.Unregistered? ==> d' == d)
  {
  }

  // ---------- the registry itself ----------

  /** The store: it hands out ids and owns the registered instances. */
  class ResidentStore {
    var nextInstance: nat
    var instances: map<nat, nat>

    constructor ()
      ensures nextInstance == 0 && instances == map[]
    {
      nextInstance, instances := 0, map[];
    }

    method ReserveInstanceId() returns (id: Option<nat>)
      modifies this`nextInstance
      ensures id == if old(nextInstance) < MAX_ID then Some(nextInstance) else None
      ensures nextInstance == if old(nextInstance) < MAX_ID then old(nextInstance) + 1 else old(nextInstance)
    {
      if nextInstance >= MAX_ID {
        return None;
      }
      nextInstance := nextInstance + 1;
      id := Some(nextInstance);
    }

    method Insert(id: nat, address: nat)
      requires id !in instances
      modifies this`instances
      ensures instances == old(instances)[id := address]
    {
      instances := instances[id := address];
    }

    /** Look for the same pointer, in the order of the ids. */
    method InstanceId(address: nat) returns (id: Option<nat>)
      ensures id == Holder(instances, Ordered.InOrder(instances.Keys), address)
    {
      var ids := Ordered.InOrder(instances.Keys);
      for n := 0 to |ids|
        invariant Holder(instances, ids, address) == Holder(instances, ids[n..], address)
      {
        assert ids[n] in ids && ids[n..][1..] == ids[n + 1..];
        if instances[ids[n]] == address {
          return Some(ids[n]);
        }
      }
      id := None;
    }

    method Remove(id: nat) returns (address: Option<nat>)
      modifies this`instances
      ensures instances == old(instances) - {id}
      ensures address == if id in old(instances) then Some(old(instances)[id]) else None
    {
      address := if id in instances then Some(instances[id]) else None;
      instances := instances - {id};
    }
  }

  class Rdf {
    const store: ResidentStore
    var residents: map<Key, Record>
    var byInstance: map<nat, Key>

    constructor ()
      ensures fresh(store) && State() == EMPTY && Valid()
    {
      store := new ResidentStore();
      residents, byInstance := map[], map[];
    }

    function State(): Directory
      reads this, store
    {
      Directory(store.nextInstance, store.instances, residents, byInstance)
    }

    ghost predicate Valid()
      reads this, store
    {
      Consistent(State())
    }

    method RegisterResident(r: Resident) returns (result: RegisterResult)
      requires Valid()
      modifies this, store
      ensures Valid()
      ensures (State(), result) == Register(old(State()), r)
    {
      hide Consistent, Holder, RecordOf, Ordered.InOrder;
      RegisterKeeps(State(), r);
      IndexesAgree(State());
      var held := store.InstanceId(r.address);
      if held.Some? {
        return AlreadyRegistered(held.value, byInstance[held.value]);
      }
      var requested := store.ReserveInstanceId();
      if requested.None? {
        return IdsExhausted;
      }
      if r.key in residents {
        return DuplicateName(residents[r.key].instance, requested.value);
      }
      store.Insert(requested.value, r.address);
      byInstance := byInstance[requested.value := r.key];
      residents := residents[r.key := RecordOf(requested.value, r)];
      result := Registered(requested.value);
    }

    method UnregisterResident(id: nat) returns (result: UnregisterResult)
      requires Valid()
      modifies this, store
      ensures Valid()
      ensures (State(), result) == Unregister(old(State()), id)
      ensures id !in byInstance && id !in store.instances
    {
      UnregisterKeeps(State(), id);
      if id !in byInstance {
        return UnknownRegistration;
      }
      var key := byInstance[id];
      byInstance := byInstance - {id};
      assert key in residents;
      residents := residents - {key};
      var address := store.Remove(id);
      assert address.Some?;
      result := Unregistered(key);
    }
  }

  // ---------- deliveries ----------

  /** A message on its way. `Sent` waits for its route; afterwards only the captured endpoints count. */
  datatype Delivery =
    | Sent(source: nat, target: Key, body: string)
    | AtOutboundGate(source: nat, route: Route, body: string)
    | AtInboundGate(source: nat, route: Route, body: string)
    | AtMailbox(source: nat, route: Route, body: string)
    | Over(accepted: bool)

  /** A message that a mailbox accepted. */
  datatype Receipt = Receipt(delivery: nat, source: Key, target: Key, mailbox: nat, body: string)

  datatype World = World(directory: Directory, deliveries: seq<Delivery>, received: seq<Receipt>)

  /** What can happen next. The verdict of a gate is the message it lets through, if any. */
  datatype Event =
    | RegisterEvent(resident: Resident)
    | UnregisterEvent(instance: nat)
    | SendEvent(source: nat, target: Key, body: string)
    | ResolveEvent(delivery: nat)
    | GateEvent(delivery: nat, verdict: Option<string>)
    | MailboxEvent(delivery: nat, accepts: bool)

  /** One step of one delivery. */
  ghost function Advance(w: World, i: nat, d: Delivery, received: seq<Receipt>): World
    requires i < |w.deliveries|
  {
    w.(deliveries := w.deliveries[i := d], received := w.received + received)
  }

  /** One event; an event that does not fit the state changes nothing. */
  ghost function Step(w: World, e: Event): World {
    match e
    case RegisterEvent(r) => w.(directory := Register(w.directory, r).0)
    case UnregisterEvent(id) => w.(directory := Unregister(w.directory, id).0)
    case SendEvent(source, target, body) => w.(deliveries := w.deliveries + [Sent(source, target, body)])
    case ResolveEvent(i) =>
      if i < |w.deliveries| && w.deliveries[i].Sent? then
        var d := w.deliveries[i];
        match Resolve(w.directory, d.source, d.target)
        case Resolved(route) =>
          Advance(w, i, if route.outbound.Some? then AtOutboundGate(d.source, route, d.body)
                        else PastOutbound(d.source, route, d.body), [])
        case _ => Advance(w, i, Over(false), [])
      else w
    case GateEvent(i, verdict) =>
      if i < |w.deliveries| && w.deliveries[i].AtOutboundGate? then
        var d := w.deliveries[i];
        Advance(w, i, if verdict.Some? then PastOutbound(d.source, d.route, verdict.value) else Over(false), [])
      else if i < |w.deliveries| && w.deliveries[i].AtInboundGate? then
        var d := w.deliveries[i];
        Advance(w, i, if verdict.Some? then AtMailbox(d.source, d.route, verdict.value) else Over(false), [])
      else w
    case MailboxEvent(i, accepts) =>
      if i < |w.deliveries| && w.deliveries[i].AtMailbox? then
        var d := w.deliveries[i];
        Advance(w, i, Over(accepts),
                if accepts then [Receipt(i, d.route.source, d.route.target, d.route.mailbox, d.body)] else [])
      else w
  }

  function PastOutbound(source: nat, route: Route, body: string): Delivery {
    if route.inbound.Some? then AtInboundGate(source, route, body) else AtMailbox(source, route, body)
  }

  ghost function After(events: seq<Event>, n: nat): World
    requires n <= |events|
  {
    if n == 0 then World(EMPTY, [], []) else Step(After(events, n - 1), events[n - 1])
  }

  // ---------- every run ----------

  lemma StepKeeps(w: World, e: Event)
    requires Consistent(w.directory)
    ensures Consistent(Step(w, e).directory)
    ensures w.directory.nextInstance <= Step(w, e).directory.nextInstance
    ensures forall id :: id <= w.directory.nextInstance && id !in w.directory.byInstance ==>
              id !in Step(w, e).directory.byInstance
  {
    match e
    case RegisterEvent(r) => RegisterKeeps(w.directory, r);
    case UnregisterEvent(id) => UnregisterKeeps(w.directory, id);
    case _ =>
  }

  /** Over every run of registrations, unregistrations and deliveries the indexes and the store move together,
      so the two places that trust them to agree can never fail. */
  lemma {:induction false} EveryRunIsConsistent(events: seq<Event>, n: nat, id: nat, target: Key)
    requires n <= |events|
    ensures var d := After(events, n).directory;
            Consistent(d) && !Unregister(d, id).1.IndexesDisagree? && !Resolve(d, id, target).SourceIndexesDisagree?
  {
    if n > 0 {
      EveryRunIsConsistent(events, n - 1, id, target);
      StepKeeps(After(events, n - 1), events[n - 1]);
    }
    UnregisterKeeps(After(events, n).directory, id);
  }

  /** An id that was handed out and is no longer registered stays unknown as a source for ever, whoever
      takes its name. */
  lemma {:induction false} RetiredIdsStayRetired(events: seq<Event>, i: nat, n: nat, id: nat, target: Key)
    requires i <= n <= |events|
    requires id <= After(events, i).directory.nextInstance && id !in After(events, i).directory.byInstance
    ensures id <= After(events, n).directory.nextInstance && id !in After(events, n).directory.byInstance
    ensures Resolve(After(events, n).directory, id, target) == UnknownSource
    decreases n - i
  {
    hide Step, Consistent;
    if i < n {
      RetiredIdsStayRetired(events, i, n - 1, id, target);
      EveryRunIsConsistent(events, n - 1, id, target);
      StepKeeps(After(events, n - 1), events[n - 1]);
    }
  }

  function RouteOf(d: Delivery): Option<Route> {
    match d
    case AtOutboundGate(_, route, _) => Some(route)
    case AtInboundGate(_, route, _) => Some(route)
    case AtMailbox(_, route, _) => Some(route)
    case _ => None
  }

  /** This event gave the delivery its route: the route names the keys and endpoints that the directory holds now. */
  ghost predicate Routes(w: World, e: Event, i: nat, route: Route) {
    && e == ResolveEvent(i) && i < |w.deliveries| && w.deliveries[i].Sent?
    && w.deliveries[i].source in w.directory.byInstance
    && w.directory.byInstance[w.deliveries[i].source] == route.source
    && w.deliveries[i].target == route.target
    && route.source in w.directory.residents && route.target in w.directory.residents
    && w.directory.residents[route.source].outbound == route.outbound
    && w.directory.residents[route.target].inbound == route.inbound
    && w.directory.residents[route.target].mailbox == route.mailbox
  }

  ghost predicate RoutedAt(events: seq<Event>, k: nat, i: nat, route: Route)
    requires k < |events|
  {
    Routes(After(events, k), events[k], i, route)
  }

  ghost predicate ReceiptExplained(events: seq<Event>, n: nat, r: Receipt)
    requires n <= |events|
  {
    exists k, route :: 0 <= k < n && RoutedAt(events, k, r.delivery, route)
                       && (r.source, r.target, r.mailbox) == (route.source, route.target, route.mailbox)
  }

  ghost predicate DeliveriesExplained(events: seq<Event>, n: nat, w: World)
    requires n <= |events|
  {
    && (forall i :: 0 <= i < |w.deliveries| && RouteOf(w.deliveries[i]).Some? ==>
          exists k :: 0 <= k < n && RoutedAt(events, k, i, RouteOf(w.deliveries[i]).value))
    && (forall r :: r in w.received ==>
          && r.delivery < |w.deliveries| && w.deliveries[r.delivery] == Over(true)
          && ReceiptExplained(events, n, r))
    && (forall a, b :: 0 <= a < b < |w.received| ==> w.received[a].delivery != w.received[b].delivery)
  }

  lemma NothingToExplain(events: seq<Event>)
    ensures DeliveriesExplained(events, 0, World(EMPTY, [], []))
  {
  }

  /** Every message that a mailbox accepted names the key that its source held when the route was resolved,
      and went to the mailbox that the target name had at that same moment, however the directory has changed
      since; each delivery is accepted at most once. */
  lemma {:induction false} MessagesKeepTheirRoute(events: seq<Event>, n: nat)
    requires n <= |events|
    ensures DeliveriesExplained(events, n, After(events, n))
  {
    hide Step, DeliveriesExplained;
    if n == 0 {
      NothingToExplain(events);
    } else {
      MessagesKeepTheirRoute(events, n - 1);
      ExplainedStep(events, n - 1);
    }
  }

  lemma StepRoutes(w: World, e: Event, i: nat)
    requires i < |Step(w, e).deliveries| && RouteOf(Step(w, e).deliveries[i]).Some?
    ensures || (i < |w.deliveries| && RouteOf(w.deliveries[i]) == RouteOf(Step(w, e).deliveries[i]))
            || Routes(w, e, i, RouteOf(Step(w, e).deliveries[i]).value)
  {
    hide Register, Unregister;
  }

  /** An event adds at most one receipt: that of a delivery that was waiting at its mailbox. */
  lemma StepReceives(w: World, e: Event)
    ensures var w' := Step(w, e);
            && |w.deliveries| <= |w'.deliveries|
            && (forall i :: 0 <= i < |w.deliveries| && w.deliveries[i].Over? ==> w'.deliveries[i] == w.deliveries[i])
            && (w'.received == w.received ||
                var i := e.delivery;
                && e.MailboxEvent? && i < |w.deliveries| && w.deliveries[i].AtMailbox? && w'.deliveries[i] == Over(true)
                && var d := w.deliveries[i];
                   w'.received == w.received + [Receipt(i, d.route.source, d.route.target, d.route.mailbox, d.body)])
  {
    hide Register, Unregister, Resolve;
  }

  lemma ExplainedStep(events: seq<Event>, n: nat)
    requires n < |events| && DeliveriesExplained(events, n, After(events, n))
    ensures DeliveriesExplained(events, n + 1, After(events, n + 1))
  {
    hide Step, Routes;
    var w, w' := After(events, n), After(events, n + 1);
    StepReceives(w, events[n]);
    forall i | 0 <= i < |w'.deliveries| && RouteOf(w'.deliveries[i]).Some?
      ensures exists k :: 0 <= k < n + 1 && RoutedAt(events, k, i, RouteOf(w'.deliveries[i]).value)
    {
      StepRoutes(w, events[n], i);
      if i < |w.deliveries| && RouteOf(w.deliveries[i]) == RouteOf(w'.deliveries[i]) {
        var k :| 0 <= k < n && RoutedAt(events, k, i, RouteOf(w.deliveries[i]).value);
        assert 0 <= k < n + 1;
      } else {
        assert RoutedAt(events, n, i, RouteOf(w'.deliveries[i]).value);
      }
    }
    forall r | r in w'.received
      ensures ReceiptExplained(events, n + 1, r)
    {
      if r in w.received {
        var k, route :| 0 <= k < n && RoutedAt(events, k, r.delivery, route)
                        && (r.source, r.target, r.mailbox) == (route.source, route.target, route.mailbox);
        assert 0 <= k < n + 1;
      } else {
        var route := w.deliveries[r.delivery].route;
        var k :| 0 <= k < n && RoutedAt(events, k, r.delivery, route);
        assert 0 <= k < n + 1;
      }
    }
    forall a | 0 <= a < |w.received|
      ensures w.received[a].delivery < |w.deliveries| && w.deliveries[w.received[a].delivery] == Over(true)
    {
      assert w.received[a] in w.received;
    }
  }
}
