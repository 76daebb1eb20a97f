/** The way of a message: which gates let it through and with what body, and what its receiver gets. */
module Deliveries {
  import opened Options
  import opened Registry

  // ---------- one event ----------

  /** Where a message is after its route is known, and after the outbound gate if there is one. */
  predicate IsPastOutbound(d: Delivery, source: nat, route: Route, body: string) {
    if route.inbound.Some? then d == AtInboundGate(source, route, body) else d == AtMailbox(source, route, body)
  }

  /** The route between two registered Residents, from what the directory holds now. */
  predicate IsRoute(w: World, source: nat, target: Key, route: Route) {
    && source in w.directory.byInstance && w.directory.byInstance[source] in w.directory.residents
    && target in w.directory.residents
    && route.source == w.directory.byInstance[source] && route.target == target
    && route.outbound == w.directory.residents[route.source].outbound
    && (route.inbound, route.mailbox) == (w.directory.residents[target].inbound, w.directory.residents[target].mailbox)
  }

  predicate IsKnown(w: World, source: nat, target: Key) {
    && source in w.directory.byInstance && w.directory.byInstance[source] in w.directory.residents
    && target in w.directory.residents
  }

  /** A message gets its route exactly when its source and its target are registered, and waits at the first gate
      of the route; otherwise its delivery is over. */
  lemma ResolvingExactly(w: World, i: nat)
    requires i < |w.deliveries| && w.deliveries[i].Sent?
    ensures var (d, later) := (w.deliveries[i], Step(w, ResolveEvent(i)).deliveries[i]);
            if IsKnown(w, d.source, d.target) then
              exists route :: IsRoute(w, d.source, d.target, route)
                && (if route.outbound.Some? then later == AtOutboundGate(d.source, route, d.body)
                    else IsPastOutbound(later, d.source, route, d.body))
            else later == Over(false)
  {
    var d := w.deliveries[i];
    if IsKnown(w, d.source, d.target) {
      var route := Resolve(w.directory, d.source, d.target).route;
      assert IsRoute(w, d.source, d.target, route);
    }
  }

  /** A gate decides: a refusal ends the delivery, and otherwise the gate's own version of the body goes on. */
  lemma GatesExactly(w: World, i: nat, verdict: Option<string>)
    requires i < |w.deliveries| && (w.deliveries[i].AtOutboundGate? || w.deliveries[i].AtInboundGate?)
    ensures var (d, later) := (w.deliveries[i], Step(w, GateEvent(i, verdict)).deliveries[i]);
            match verdict
            case None => later == Over(false)
            case Some(body) =>
              if d.AtOutboundGate? then IsPastOutbound(later, d.source, d.route, body)
              else later == AtMailbox(d.source, d.route, body)
  {
  }

  /** What an accepting mailbox gets. */
  lemma MailboxesExactly(w: World, i: nat, accepts: bool)
    requires i < |w.deliveries| && w.deliveries[i].AtMailbox?
    ensures var (d, later) := (w.deliveries[i], Step(w, MailboxEvent(i, accepts)));
            && later.deliveries[i] == Over(accepts)
            && later.received == w.received
                 + if accepts then [Receipt(i, d.route.source, d.route.target, d.route.mailbox, d.body)] else []
  {
  }

  // ---------- the story of a message ----------

  /** Delivery `i` began with this message. */
  ghost predicate WasSent(events: seq<Event>, k: nat, i: nat, source: nat, target: Key, body: string) {
    k < |events| && events[k] == SendEvent(source, target, body) && |After(events, k).deliveries| == i
  }

  /** A gate let the message through with this body. */
  ghost predicate Passed(events: seq<Event>, k: nat, i: nat, outbound: bool, body: string) {
    && k < |events| && events[k] == GateEvent(i, Some(body)) && i < |After(events, k).deliveries|
    && var d := After(events, k).deliveries[i];
       if outbound then d.AtOutboundGate? else d.AtInboundGate?
  }

  /** Before event `n` the message was sent with this body, and then got this route. */
  ghost predicate Begun(events: seq<Event>, n: nat, i: nat, route: Route, body: string)
    requires n <= |events|
  {
    exists k, r, source ::
      0 <= k < r < n && WasSent(events, k, i, source, route.target, body) && RoutedAt(events, r, i, route)
  }

  /** And then, if the source has an outbound gate, that gate made this body of it. */
  ghost predicate PastOut(events: seq<Event>, n: nat, i: nat, route: Route, body: string)
    requires n <= |events|
  {
    if route.outbound.Some? then
      exists k, sent :: 0 <= k < n && Begun(events, k, i, route, sent) && Passed(events, k, i, true, body)
    else Begun(events, n, i, route, body)
  }

  /** And then, if the target has an inbound gate, that gate made this body of that. */
  ghost predicate PastIn(events: seq<Event>, n: nat, i: nat, route: Route, body: string)
    requires n <= |events|
  {
    if route.inbound.Some? then
      exists k, between :: 0 <= k < n && PastOut(events, k, i, route, between) && Passed(events, k, i, false, body)
    else PastOut(events, n, i, route, body)
  }

  ghost predicate HasStory(events: seq<Event>, n: nat, i: nat, d: Delivery)
    requires n <= |events|
  {
    match d
    case Sent(source, target, body) => exists k :: 0 <= k < n && WasSent(events, k, i, source, target, body)
    case AtOutboundGate(_, route, body) => route.outbound.Some? && Begun(events, n, i, route, body)
    case AtInboundGate(_, route, body) => route.inbound.Some? && PastOut(events, n, i, route, body)
    case AtMailbox(_, route, body) => PastIn(events, n, i, route, body)
    case Over(_) => true
  }

  /** The receiver got what all the gates of the route made of what was sent. */
  ghost predicate ReceiptHasStory(events: seq<Event>, n: nat, r: Receipt)
    requires n <= |events|
  {
    exists route: Route :: (r.source, r.target, r.mailbox) == (route.source, route.target, route.mailbox)
                    && PastIn(events, n, r.delivery, route, r.body)
  }

  lemma BegunLater(events: seq<Event>, n: nat, i: nat, route: Route, body: string)
    requires n < |events| && Begun(events, n, i, route, body)
    ensures Begun(events, n + 1, i, route, body)
  {
    hide WasSent, RoutedAt;
    var k, r, source :|
      0 <= k < r < n && WasSent(events, k, i, source, route.target, body) && RoutedAt(events, r, i, route);
    assert 0 <= k < r < n + 1;
  }

  lemma PastOutLater(events: seq<Event>, n: nat, i: nat, route: Route, body: string)
    requires n < |events| && PastOut(events, n, i, route, body)
    ensures PastOut(events, n + 1, i, route, body)
  {
    hide Begun, Passed;
    if route.outbound.Some? {
      var k, sent :| 0 <= k < n && Begun(events, k, i, route, sent) && Passed(events, k, i, true, body);
      assert 0 <= k < n + 1;
    } else {
      BegunLater(events, n, i, route, body);
    }
  }

  lemma PastInLater(events: seq<Event>, n: nat, i: nat, route: Route, body: string)
    requires n < |events| && PastIn(events, n, i, route, body)
    ensures PastIn(events, n + 1, i, route, body)
  {
    hide PastOut, Passed;
    if route.inbound.Some? {
      var k, between :| 0 <= k < n && PastOut(events, k, i, route, between) && Passed(events, k, i, false, body);
      assert 0 <= k < n + 1;
    } else {
      PastOutLater(events, n, i, route, body);
    }
  }

  lemma StoryLater(events: seq<Event>, n: nat, i: nat, d: Delivery)
    requires n < |events| && HasStory(events, n, i, d)
    ensures HasStory(events, n + 1, i, d)
  {
    hide WasSent, Begun, PastOut, PastIn;
    match d
    case Sent(source, target, body) =>
      var k :| 0 <= k < n && WasSent(events, k, i, source, target, body);
      assert 0 <= k < n + 1;
    case AtOutboundGate(_, route, body) => BegunLater(events, n, i, route, body);
    case AtInboundGate(_, route, body) => PastOutLater(events, n, i, route, body);
    case AtMailbox(_, route, body) => PastInLater(events, n, i, route, body);
    case Over(_) =>
  }

  /** A delivery after one event: as before, new, or moved on by this very event. */
  lemma DeliveryMoves(w: World, e: Event, i: nat)
    requires i < |Step(w, e).deliveries|
    ensures var later := Step(w, e).deliveries[i];
            || (i < |w.deliveries| && later == w.deliveries[i])
            || (i == |w.deliveries| && e.SendEvent? && later == Sent(e.source, e.target, e.body))
            || (e == ResolveEvent(i) && i < |w.deliveries| && w.deliveries[i].Sent?)
            || (e.GateEvent? && e.delivery == i && i < |w.deliveries|
                && (w.deliveries[i].AtOutboundGate? || w.deliveries[i].AtInboundGate?))
            || later.Over?
  {
    hide Register, Unregister, Resolve;
  }

  lemma IsRouted(events: seq<Event>, n: nat, i: nat, route: Route)
    requires n < |events| && events[n] == ResolveEvent(i)
    requires i < |After(events, n).deliveries| && After(events, n).deliveries[i].Sent?
    requires var d := After(events, n).deliveries[i]; IsRoute(After(events, n), d.source, d.target, route)
    ensures RoutedAt(events, n, i, route)
  {
  }

  lemma PastOutboundHasStory(events: seq<Event>, n: nat, i: nat, d: Delivery, source: nat, route: Route, body: string)
    requires n <= |events| && IsPastOutbound(d, source, route, body) && PastOut(events, n, i, route, body)
    ensures HasStory(events, n, i, d)
  {
    hide PastOut;
  }

  lemma ResolvedHasStory(events: seq<Event>, n: nat, i: nat)
    requires n < |events| && events[n] == ResolveEvent(i) && i < |After(events, n).deliveries|
    requires i < |Step(After(events, n), events[n]).deliveries|
    requires After(events, n).deliveries[i].Sent? && HasStory(events, n, i, After(events, n).deliveries[i])
    ensures HasStory(events, n + 1, i, Step(After(events, n), events[n]).deliveries[i])
  {
    hide Step, WasSent, RoutedAt, IsRoute, IsKnown, IsPastOutbound, PastIn;
    var w := After(events, n);
    var d, later := w.deliveries[i], Step(w, events[n]).deliveries[i];
    ResolvingExactly(w, i);
    if IsKnown(w, d.source, d.target) {
      var route :| IsRoute(w, d.source, d.target, route)
        && (if route.outbound.Some? then later == AtOutboundGate(d.source, route, d.body)
            else IsPastOutbound(later, d.source, route, d.body));
      IsRouted(events, n, i, route);
      RouteTarget(w, d.source, d.target, route);
      var k :| 0 <= k < n && WasSent(events, k, i, d.source, d.target, d.body);
      assert Begun(events, n + 1, i, route, d.body);
      if route.outbound.None? {
        PastOutboundHasStory(events, n + 1, i, later, d.source, route, d.body);
      }
    }
  }

  lemma RouteTarget(w: World, source: nat, target: Key, route: Route)
    requires IsRoute(w, source, target, route)
    ensures route.target == target
  {
  }

  lemma GatedHasStory(events: seq<Event>, n: nat, i: nat)
    requires n < |events| && events[n].GateEvent? && events[n].delivery == i && i < |After(events, n).deliveries|
    requires i < |Step(After(events, n), events[n]).deliveries|
    requires After(events, n).deliveries[i].AtOutboundGate? || After(events, n).deliveries[i].AtInboundGate?
    requires HasStory(events, n, i, After(events, n).deliveries[i])
    ensures HasStory(events, n + 1, i, Step(After(events, n), events[n]).deliveries[i])
  {
    hide Step, Begun, IsPastOutbound, After;
    var w := After(events, n);
    var d, later := w.deliveries[i], Step(w, events[n]).deliveries[i];
    GatesExactly(w, i, events[n].verdict);
    match events[n].verdict
    case None =>
    case Some(body) =>
      assert Passed(events, n, i, d.AtOutboundGate?, body);
      if d.AtOutboundGate? {
        assert PastOut(events, n + 1, i, d.route, body);
        PastOutboundHasStory(events, n + 1, i, later, d.source, d.route, body);
      } else {
        assert PastIn(events, n + 1, i, d.route, body);
      }
  }

  lemma DeliveryHasStory(events: seq<Event>, n: nat, i: nat)
    requires n < |events| && i < |Step(After(events, n), events[n]).deliveries|
    requires i < |After(events, n).deliveries| ==> HasStory(events, n, i, After(events, n).deliveries[i])
    ensures HasStory(events, n + 1, i, Step(After(events, n), events[n]).deliveries[i])
  {
    var w, e := After(events, n), events[n];
    var later := Step(w, e).deliveries[i];
    DeliveryMoves(w, e, i);
    hide Step, After, HasStory;
    if i < |w.deliveries| && later == w.deliveries[i] {
      StoryLater(events, n, i, later);
    } else if later.Over? {
      OverHasStory(events, n + 1, i, later);
    } else if i == |w.deliveries| && e.SendEvent? {
      NewHasStory(events, n, i);
    } else if e == ResolveEvent(i) {
      ResolvedHasStory(events, n, i);
    } else {
      GatedHasStory(events, n, i);
    }
  }

  lemma OverHasStory(events: seq<Event>, n: nat, i: nat, d: Delivery)
    requires n <= |events| && d.Over?
    ensures HasStory(events, n, i, d)
  {
  }

  lemma NewHasStory(events: seq<Event>, n: nat, i: nat)
    requires n < |events| && i == |After(events, n).deliveries| && events[n].SendEvent?
    ensures HasStory(events, n + 1, i, Sent(events[n].source, events[n].target, events[n].body))
  {
    hide After;
    assert WasSent(events, n, i, events[n].source, events[n].target, events[n].body);
  }

  ghost predicate AllHaveStories(events: seq<Event>, n: nat, w: World)
    requires n <= |events|
  {
    && (forall i :: 0 <= i < |w.deliveries| ==> HasStory(events, n, i, w.deliveries[i]))
    && (forall r :: r in w.received ==> ReceiptHasStory(events, n, r))
  }

  lemma ReceiptLater(events: seq<Event>, n: nat, r: Receipt)
    requires n < |events| && ReceiptHasStory(events, n, r)
    ensures ReceiptHasStory(events, n + 1, r)
  {
    hide PastIn;
    var route: Route :| (r.source, r.target, r.mailbox) == (route.source, route.target, route.mailbox)
                 && PastIn(events, n, r.delivery, route, r.body);
    PastInLater(events, n, r.delivery, route, r.body);
  }

  lemma StoriesGoOn(events: seq<Event>, n: nat)
    requires n < |events| && AllHaveStories(events, n, After(events, n))
    ensures AllHaveStories(events, n + 1, Step(After(events, n), events[n]))
  {
    hide Step, HasStory, ReceiptHasStory, After;
    var w, later := After(events, n), Step(After(events, n), events[n]);
    forall i | 0 <= i < |later.deliveries|
      ensures HasStory(events, n + 1, i, later.deliveries[i])
    {
      DeliveryHasStory(events, n, i);
    }
    StepReceives(w, events[n]);
    forall r | r in later.received
      ensures ReceiptHasStory(events, n + 1, r)
    {
      if r in w.received {
        ReceiptLater(events, n, r);
      } else {
        NewReceiptHasStory(events, n, r);
      }
    }
  }

  lemma NewReceiptHasStory(events: seq<Event>, n: nat, r: Receipt)
    requires n < |events| && events[n].MailboxEvent?
    requires var (w, i) := (After(events, n), events[n].delivery);
             && i < |w.deliveries| && w.deliveries[i].AtMailbox? && HasStory(events, n, i, w.deliveries[i])
             && var d := w.deliveries[i];
                r == Receipt(i, d.route.source, d.route.target, d.route.mailbox, d.body)
    ensures ReceiptHasStory(events, n + 1, r)
  {
    hide PastIn, After;
    var d := After(events, n).deliveries[events[n].delivery];
    PastInLater(events, n, r.delivery, d.route, r.body);
  }

  /** Over every run: what a mailbox accepted was sent to this target, and then got its route; the outbound gate of
      its source, if the route has one, let it through after that; the inbound gate of its target, if the route has
      one, after that; and the body is that of the last of these verdicts, or the one that was sent if there is no
      gate on the route. */
  lemma {:induction false} MessagesPassTheirGates(events: seq<Event>, n: nat)
    requires n <= |events|
    ensures AllHaveStories(events, n, After(events, n))
    ensures forall r :: r in After(events, n).received ==> ReceiptHasStory(events, n, r)
  {
    hide Step, HasStory, ReceiptHasStory;
    if n > 0 {
      MessagesPassTheirGates(events, n - 1);
      StoriesGoOn(events, n - 1);
    }
  }

  lemma {:induction false} OverForEver(events: seq<Event>, k: nat, n: nat, i: nat)
    requires k <= n <= |events| && i < |After(events, k).deliveries| && After(events, k).deliveries[i] == Over(false)
    ensures i < |After(events, n).deliveries| && After(events, n).deliveries[i] == Over(false)
  {
    hide Step;
    if k < n {
      OverForEver(events, k, n - 1, i);
      StepReceives(After(events, n - 1), events[n - 1]);
    }
  }

  /** What a gate refuses is never received. */
  lemma RefusedIsNeverReceived(events: seq<Event>, k: nat, n: nat, i: nat)
    requires k < n <= |events| && events[k] == GateEvent(i, None) && i < |After(events, k).deliveries|
    requires After(events, k).deliveries[i].AtOutboundGate? || After(events, k).deliveries[i].AtInboundGate?
    ensures forall r :: r in After(events, n).received ==> r.delivery != i
  {
    hide Step, ReceiptExplained, RoutedAt;
    RefusalEnds(After(events, k), i);
    OverForEver(events, k + 1, n, i);
    MessagesKeepTheirRoute(events, n);
  }

  lemma RefusalEnds(w: World, i: nat)
    requires i < |w.deliveries| && (w.deliveries[i].AtOutboundGate? || w.deliveries[i].AtInboundGate?)
    ensures var later := Step(w, GateEvent(i, None)); i < |later.deliveries| && later.deliveries[i] == Over(false)
  {
  }
}
