/** What a turn can rely on, in every run of the coordinator and for every interleaving of its rooms. */
module Promises {
  import opened Options
  import opened Rooms
  import opened Paging
  import opened ChatOps
  import opened Coordinator
  import opened Invariants
  import opened Preservation
  import opened Runs
  import opened Continuity
  import Relay

  // ---------- serial continuity ----------

  /** A member has at most one request under way, over all rooms. */
  lemma OneRequestPerMember(start: State, events: seq<Event>, n: nat, alphanumeric: char -> bool, i: RequestId,
                            j: RequestId)
    requires Started(start) && n <= |events|
    requires var pending := After(start, events, n, alphanumeric).pending;
             i in pending && j in pending && pending[i].expected == pending[j].expected
    ensures i == j
  {
    hide Step, StoreInv, RunInv, AskInv, AnswersInv, SleepInv;
    ReachableInv(start, events, n, alphanumeric);
    var s := After(start, events, n, alphanumeric);
    var a, b := s.pending[i].ask, s.pending[j].ask;
    assert Waits(s.asks, a, i) && Waits(s.asks, b, j);
    OnlyTheHolderAnswers(s, a, b);
  }

  lemma {:induction false} ReachableRemembers(start: State, events: seq<Event>, n: nat, alphanumeric: char -> bool)
    requires Started(start) && n <= |events|
    ensures var s := After(start, events, n, alphanumeric);
            RememberInv(s.store.rooms, s.asks, s.log) && RoundsAnswered(s.asks, s.log)
  {
    hide Step, Inv, Remembers, AnswersTheRound;
    if n > 0 {
      hide Started, RememberInv, RoundsAnswered;
      ReachableRemembers(start, events, n - 1, alphanumeric);
      ReachableInv(start, events, n - 1, alphanumeric);
      StepRemembers(After(start, events, n - 1, alphanumeric), events[n - 1], alphanumeric);
      StepRounds(After(start, events, n - 1, alphanumeric), events[n - 1], alphanumeric);
    }
  }

  /** From its snapshot until it settles, a turn has in its context every answer that its member ever gave in
      an ordinary room (or, in an incognito room, in that room): rooms are many, the conversation is one. */
  lemma OpenTurnsRememberEveryAnswer(start: State, events: seq<Event>, n: nat, alphanumeric: char -> bool, a: AskId,
                                     e: Entry)
    requires Started(start) && n <= |events|
    requires var s := After(start, events, n, alphanumeric);
             && a in s.asks && Looked(s.asks[a].stage) && e in s.log && e.Gave? && e.member == s.asks[a].member
             && s.asks[a].room in s.store.rooms && e.room in s.store.rooms
             && (if s.store.rooms[s.asks[a].room].incognito then e.room == s.asks[a].room
                 else !s.store.rooms[e.room].incognito)
    ensures var ask := After(start, events, n, alphanumeric).asks[a];
            ask.context.Some?
            && exists c :: c in ask.context.value
                && (c.room, c.id, c.author, c.text) == (e.room, e.message, e.member, e.text)
  {
    hide Step;
    ReachableRemembers(start, events, n, alphanumeric);
    var s := After(start, events, n, alphanumeric);
    assert Remembers(s.store.rooms, s.asks[a], s.log) && Relevant(s.store.rooms, s.asks[a], e);
  }

  // ---------- paged reads ----------

  /** The query about the turn's own history that the turn makes through its tools. */
  function OwnQuery(ask: Ask, all: bool, limit: nat): ContextQuery
    requires ask.context.Some?
  {
    ContextQuery(ask.member, ask.room, VisibleThrough(ask.context.value), all, None, limit)
  }

  function RoomsAt(start: State, events: seq<Event>, moments: seq<nat>, alphanumeric: char -> bool): (r: seq<Rooms>)
    requires forall j :: 0 <= j < |moments| ==> moments[j] <= |events|
    ensures |r| == |moments|
    ensures forall j :: 0 <= j < |moments| ==> r[j] == After(start, events, moments[j], alphanumeric).store.rooms
  {
    seq(|moments|, j requires 0 <= j < |moments| => After(start, events, moments[j], alphanumeric).store.rooms)
  }

  lemma MomentsOfRun(start: State, events: seq<Event>, k: nat, n: nat, alphanumeric: char -> bool)
    requires Started(start) && k <= n <= |events|
    ensures var s, later := After(start, events, k, alphanumeric).store, After(start, events, n, alphanumeric).store;
            Moments(s.rooms, s.nextMessage, later.rooms, later.nextMessage)
  {
    hide Step, RoomsOk, Grows, RunInv, AskInv, LockInv, PendingInv, AnswersInv, SleepInv;
    ReachableInv(start, events, k, alphanumeric);
    ReachableInv(start, events, n, alphanumeric);
    RunIsLater(start, events, k, n, alphanumeric);
  }

  lemma ItIsLater(rooms: Rooms, bound: nat, later: Store)
    requires Moments(rooms, bound, later.rooms, later.nextMessage)
    ensures IsLater(rooms, bound, later.rooms)
  {
    hide Moments;
  }

  lemma AllMoments(start: State, events: seq<Event>, k: nat, n: nat, moments: seq<nat>, alphanumeric: char -> bool)
    requires Started(start) && k <= n <= |events| && forall j :: 0 <= j < |moments| ==> n <= moments[j] <= |events|
    ensures var s := After(start, events, k, alphanumeric).store;
            && RoomsOk(s.rooms, s.nextMessage)
            && AllLater(s.rooms, s.nextMessage, RoomsAt(start, events, moments, alphanumeric))
  {
    hide Step, Moments, IsLater, RoomsOk;
    var s := After(start, events, k, alphanumeric).store;
    forall j | 0 <= j < |moments|
      ensures IsLater(s.rooms, s.nextMessage, RoomsAt(start, events, moments, alphanumeric)[j])
    {
      MomentsOfRun(start, events, k, moments[j], alphanumeric);
      ItIsLater(s.rooms, s.nextMessage, After(start, events, moments[j], alphanumeric).store);
    }
    BoundOfRun(start, events, k, alphanumeric);
  }

  lemma BoundOfRun(start: State, events: seq<Event>, k: nat, alphanumeric: char -> bool)
    requires Started(start) && k <= |events|
    ensures var s := After(start, events, k, alphanumeric).store; RoomsOk(s.rooms, s.nextMessage)
  {
    hide Step, RoomsOk, RunInv, AskInv, LockInv, PendingInv, AnswersInv, SleepInv;
    ReachableInv(start, events, k, alphanumeric);
  }

  /** The room of a turn that looks now, its member, and the first message of its round. */
  lemma TurnThatLooks(s: State, a: AskId)
    requires Inv(s) && a in s.asks && s.asks[a].stage == Holding
    ensures var ask := s.asks[a];
            && ask.room in s.store.rooms && ask.member in s.store.rooms[ask.room].members
            && a.run in s.runs && HasStart(s.store.rooms[ask.room], s.runs[a.run].start)
            && (ask.start == None || ask.start == Some(s.runs[a.run].start))
  {
    hide StoreInv, AskInv, LockInv, PendingInv, AnswersInv, SleepInv, AskFits;
    TurnRoom(s, a);
    TurnOfRound(s, a);
    assert RunOk(s.store, s.stuck, s.runs[a.run]);
  }

  /** The pages that a turn reads of its own history, at whatever later moments of the run it reads them, are
      together the context that it was sent with: nothing is missing, nothing is doubled, nothing is newer. */
  lemma TurnsReadBackTheirContext(start: State, events: seq<Event>, n: nat, alphanumeric: char -> bool,
                                  a: AskId, all: bool, limit: nat, moments: seq<nat>, pages: seq<ContextReply>)
    requires Started(start) && n <= |events| && limit >= 1
    requires a in After(start, events, n, alphanumeric).asks
    requires After(start, events, n, alphanumeric).asks[a].context.Some?
    requires forall j :: 0 <= j < |moments| ==> n <= moments[j] <= |events|
    requires Chain(RoomsAt(start, events, moments, alphanumeric), pages,
                   OwnQuery(After(start, events, n, alphanumeric).asks[a], all, limit))
    requires pages != []
    ensures var ask := After(start, events, n, alphanumeric).asks[a];
            && (forall j :: 0 <= j < |pages| ==> pages[j].Page?)
            && (!pages[|pages| - 1].hasEarlier ==> Assembled(pages) == Scoped(ask.context.value, all, ask.room))
            && (!pages[|pages| - 1].hasEarlier && all ==> Assembled(pages) == ask.context.value)
            && |pages| <= |ask.context.value| + 1
  {
    hide Step, Inv, TurnContext, Chain, Assembled, Scoped, VisibleThrough, Started, RoomsOk;
    var ask := After(start, events, n, alphanumeric).asks[a];
    var k := ContextsAreTaken(start, events, n, a, alphanumeric);
    var s := After(start, events, k, alphanumeric);
    ReachableInv(start, events, k, alphanumeric);
    TurnThatLooks(s, a);
    AllMoments(start, events, k, n, moments, alphanumeric);
    PagedReadsEqualSnapshot(s.store.rooms, s.store.nextMessage, ask.start, OwnQuery(ask, all, limit),
                            RoomsAt(start, events, moments, alphanumeric), pages);
  }

  /** The tools never turn a turn away that asks about its own room: its context is not empty there. */
  lemma TurnsMayAlwaysRead(start: State, events: seq<Event>, n: nat, alphanumeric: char -> bool,
                           a: AskId, callId: string, limit: nat)
    requires Started(start) && n <= |events|
    requires a in After(start, events, n, alphanumeric).asks
    requires After(start, events, n, alphanumeric).asks[a].context.Some?
    requires 1 <= limit <= 200 && !Relay.Text.IsBlank(callId)
    ensures var ask := After(start, events, n, alphanumeric).asks[a];
            Relay.Valid(Relay.Request(Relay.ChatContext, callId, ask.room, VisibleThrough(ask.context.value).Keys,
                                      limit))
  {
    hide Step, Inv, TurnContext, VisibleThrough, Started;
    var ask := After(start, events, n, alphanumeric).asks[a];
    var k := ContextsAreTaken(start, events, n, a, alphanumeric);
    var s := After(start, events, k, alphanumeric);
    ReachableInv(start, events, k, alphanumeric);
    BoundOfRun(start, events, k, alphanumeric);
    TurnThatLooks(s, a);
    SeesStart(s.store.rooms, s.store.nextMessage, ask.member, ask.room, ask.start, s.runs[a.run].start);
  }

  lemma SeesStart(rooms: Rooms, bound: nat, member: string, id: nat, start: Option<nat>, first: nat)
    requires RoomsOk(rooms, bound) && id in rooms && member in rooms[id].members && HasStart(rooms[id], first)
    requires start == None || start == Some(first)
    ensures id in VisibleThrough(TurnContext(rooms, member, id, start)) && id >= 1
  {
    hide TurnContext, VisibleThrough;
    var m :| m in rooms[id].messages && IsStart(m, first);
    assert RoomOk(id, rooms[id], bound);
    InTurnContext(rooms, bound, member, id, start, id, m);
    VisibleThroughIsMax(TurnContext(rooms, member, id, start));
  }

  // ---------- round independence ----------

  /** The own-room part of a contribution's context, from its definition: the messages up to the start. */
  lemma OwnPart(rooms: Rooms, bound: nat, member: string, id: nat, start: nat, c: ContextMessage)
    requires RoomsOk(rooms, bound) && id in rooms && member in rooms[id].members
    ensures c in Scoped(TurnContext(rooms, member, id, Some(start)), false, id) <==>
            exists m :: m in rooms[id].messages && m.id <= start && c == InContext(rooms[id], m)
  {
    hide TurnContext, Scoped, RoomsOk;
    RoomIds(rooms, bound, id);
    var context := TurnContext(rooms, member, id, Some(start));
    if c in context && c.room == id {
      var m := ContextSource(rooms, bound, member, id, Some(start), c);
    }
    if m :| m in rooms[id].messages && m.id <= start && c == InContext(rooms[id], m) {
      InTurnContext(rooms, bound, member, id, Some(start), id, m);
    }
  }

  lemma OwnPartsAgree(rooms: Rooms, bound: nat, later: Rooms, laterBound: nat, x: string, y: string, id: nat,
                      start: nat)
    requires Moments(rooms, bound, later, laterBound) && id in rooms && start < bound
    requires x in rooms[id].members && y in rooms[id].members
    ensures id in later && Scoped(TurnContext(rooms, x, id, Some(start)), false, id)
                        == Scoped(TurnContext(later, y, id, Some(start)), false, id)
  {
    assert Continues(rooms[id], later[id], bound);
    hide TurnContext, Scoped, RoomsOk;
    var p := Scoped(TurnContext(rooms, x, id, Some(start)), false, id);
    var q := Scoped(TurnContext(later, y, id, Some(start)), false, id);
    forall c
      ensures c in p <==> c in q
    {
      OwnPart(rooms, bound, x, id, start, c);
      OwnPart(later, laterBound, y, id, start, c);
      if c in p {
        var m :| m in rooms[id].messages && m.id <= start && c == InContext(rooms[id], m);
        OldMessages(rooms[id], later[id], bound, m);
      }
      if c in q {
        var m :| m in later[id].messages && m.id <= start && c == InContext(later[id], m);
        OldMessages(rooms[id], later[id], bound, m);
      }
    }
    ContextIsSorted(rooms, bound, x, id, start);
    ContextIsSorted(later, laterBound, y, id, start);
    SameElementsSameSequence(p, q);
  }

  lemma ContextIsSorted(rooms: Rooms, bound: nat, member: string, id: nat, start: nat)
    requires RoomsOk(rooms, bound) && id in rooms
    ensures StrictlySorted(Scoped(TurnContext(rooms, member, id, Some(start)), false, id))
  {
    ReadableOk(rooms, bound, member, id);
    CollectedStrictly(Readable(rooms, member, id), TurnFilter(id, Some(start)), bound);
    ScopedStrictly(TurnContext(rooms, member, id, Some(start)), false, id);
  }

  /** The contributions of one round all read the same history of their room, whoever of them is first. */
  lemma ContributionsReadTheSame(start: State, events: seq<Event>, n: nat, alphanumeric: char -> bool, a: AskId,
                                 b: AskId)
    requires Started(start) && n <= |events| && a.run == b.run
    requires var asks := After(start, events, n, alphanumeric).asks;
             && a in asks && b in asks && asks[a].context.Some? && asks[b].context.Some?
             && asks[a].start.Some? && asks[b].start.Some?
    ensures var asks := After(start, events, n, alphanumeric).asks;
            Scoped(asks[a].context.value, false, asks[a].room) == Scoped(asks[b].context.value, false, asks[b].room)
  {
    hide Step, Inv, TurnContext, Scoped, Started;
    var j := ContextsAreTaken(start, events, n, a, alphanumeric);
    var k := ContextsAreTaken(start, events, n, b, alphanumeric);
    if j <= k {
      TakenTheSame(start, events, n, alphanumeric, a, j, b, k);
    } else {
      TakenTheSame(start, events, n, alphanumeric, b, k, a, j);
    }
  }

  lemma TakenTheSame(start: State, events: seq<Event>, n: nat, alphanumeric: char -> bool, a: AskId, j: nat, b: AskId,
                     k: nat)
    requires Started(start) && j <= k < n <= |events| && a.run == b.run
    requires var asks := After(start, events, n, alphanumeric).asks;
             && a in asks && b in asks && asks[a].start.Some? && asks[b].start.Some?
             && TakenAt(start, events, j, a, asks[a], alphanumeric)
             && TakenAt(start, events, k, b, asks[b], alphanumeric)
    ensures var asks := After(start, events, n, alphanumeric).asks;
            asks[a].context.Some? && asks[b].context.Some? &&
            Scoped(asks[a].context.value, false, asks[a].room) == Scoped(asks[b].context.value, false, asks[b].room)
  {
    hide Step, Inv, TurnContext, Scoped, Started, StoreOk;
    var asks := After(start, events, n, alphanumeric).asks;
    var s, t := After(start, events, j, alphanumeric), After(start, events, k, alphanumeric);
    ReachableInv(start, events, j, alphanumeric);
    ReachableInv(start, events, k, alphanumeric);
    TurnsPersist(start, events, j, k, a, alphanumeric);
    SameRound(t, a, b);
    TurnThatLooks(s, a);
    TurnThatLooks(t, b);
    MomentsOfRun(start, events, j, k, alphanumeric);
    StartsBelow(s, a);
    var room := asks[a].room;
    assert Continues(s.store.rooms[room], t.store.rooms[room], s.store.nextMessage);
    OwnPartsAgree(s.store.rooms, s.store.nextMessage, t.store.rooms, t.store.nextMessage,
                  asks[a].member, asks[b].member, room, asks[a].start.value);
  }

  lemma StartsBelow(s: State, a: AskId)
    requires Inv(s) && a in s.asks && s.asks[a].stage == Holding && s.asks[a].start.Some?
    ensures s.asks[a].start.value < s.store.nextMessage
  {
    hide StoreInv, AskInv, RunInv, LockInv, PendingInv, AnswersInv, SleepInv;
    TurnThatLooks(s, a);
    TurnOfRound(s, a);
  }

  lemma SameRound(s: State, a: AskId, b: AskId)
    requires Inv(s) && a in s.asks && b in s.asks && a.run == b.run && s.asks[b].stage == Holding
    requires s.asks[a].start.Some? && s.asks[b].start.Some?
    ensures s.asks[a].room == s.asks[b].room && s.asks[a].start == s.asks[b].start
  {
    hide StoreInv, AskInv, RunInv, LockInv, PendingInv, AnswersInv, SleepInv;
    TurnThatLooks(s, b);
    TurnOfRound(s, a);
    TurnOfRound(s, b);
  }

  lemma {:induction false} TurnsPersist(start: State, events: seq<Event>, j: nat, k: nat, a: AskId,
                                        alphanumeric: char -> bool)
    requires Started(start) && j <= k <= |events| && a in After(start, events, j, alphanumeric).asks
    ensures a in After(start, events, k, alphanumeric).asks
    ensures SameTurn(After(start, events, j, alphanumeric).asks[a], After(start, events, k, alphanumeric).asks[a])
  {
    hide Step, StoreInv, RunInv, AskInv, LockInv, PendingInv, AnswersInv, SleepInv, Started, TakesContext;
    if j < k {
      TurnsPersist(start, events, j, k - 1, a, alphanumeric);
      ReachableInv(start, events, k - 1, alphanumeric);
      StepTurns(After(start, events, k - 1, alphanumeric), events[k - 1], alphanumeric);
    }
  }

  /** No contribution reads an answer of its own round. */
  lemma ContributionsAreIndependent(start: State, events: seq<Event>, n: nat, alphanumeric: char -> bool,
                                    a: AskId, e: Entry, c: ContextMessage)
    requires Started(start) && n <= |events|
    requires var s := After(start, events, n, alphanumeric);
             && a in s.asks && s.asks[a].context.Some? && s.asks[a].start.Some?
             && e in s.log && e.Gave? && e.ask.run == a.run && c in s.asks[a].context.value
    ensures c.room == e.room ==> c.id < e.message
  {
    hide Step, Inv, TurnContext, Started;
    var s := After(start, events, n, alphanumeric);
    ReachableRemembers(start, events, n, alphanumeric);
    assert AnswersTheRound(s.asks, e) && Precedes(s.asks[a], e);
    var k := ContextsAreTaken(start, events, n, a, alphanumeric);
    var t := After(start, events, k, alphanumeric);
    BoundOfRun(start, events, k, alphanumeric);
    var m := ContextSource(t.store.rooms, t.store.nextMessage, s.asks[a].member, s.asks[a].room, s.asks[a].start, c);
  }
}
