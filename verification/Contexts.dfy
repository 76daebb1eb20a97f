/** The two history queries in plain terms: which messages they show, and what they show of each. */
module Contexts {
  import opened Options
  import opened Rooms
  import opened Paging
  import opened ChatOps
  import opened Coordinator
  import opened Invariants
  import opened Runs
  import opened Promises

  /** All that a reader gets of a message. */
  predicate Shows(c: ContextMessage, r: nat, room: Room, m: Message) {
    (c.room, c.id, c.roomName, c.role, c.author, c.text, c.createdAt, c.attachments)
    == (r, m.id, room.name, m.role, m.author, m.text, m.createdAt, m.media)
  }

  /** `member` may read room `r` while it works in room `id`. */
  predicate MayRead(rooms: Rooms, member: string, id: nat, r: nat) {
    id in rooms && r in rooms && member in rooms[r].members
    && (if rooms[id].incognito then r == id else !rooms[r].incognito)
  }

  /** A contribution does not see what came into its own room after the start of its round. */
  predicate BeforeCut(id: nat, start: Option<nat>, r: nat, m: Message) {
    r == id && start.Some? ==> m.id <= start.value
  }

  lemma IdentityOf(rooms: Rooms, bound: nat, r: nat)
    requires RoomsOk(rooms, bound) && r in rooms
    ensures rooms[r].id == r
  {
    assert RoomOk(r, rooms[r], bound);
  }

  lemma InContextShows(room: Room, m: Message)
    ensures Shows(InContext(room, m), room.id, room, m)
  {
  }

  /** The context of a turn shows every message that the turn may read, and nothing else. */
  lemma TurnContextExactly(rooms: Rooms, bound: nat, member: string, id: nat, start: Option<nat>)
    requires RoomsOk(rooms, bound) && id in rooms
    ensures var context := TurnContext(rooms, member, id, start);
            && StrictlySorted(context)
            && (forall r, m :: MayRead(rooms, member, id, r) && m in rooms[r].messages && BeforeCut(id, start, r, m) ==>
                  exists c :: c in context && Shows(c, r, rooms[r], m))
            && (forall c :: c in context ==>
                  exists m :: MayRead(rooms, member, id, c.room) && m in rooms[c.room].messages
                              && BeforeCut(id, start, c.room, m) && Shows(c, c.room, rooms[c.room], m))
  {
    hide TurnContext, RoomsOk, Shows, StrictlySorted;
    var context := TurnContext(rooms, member, id, start);
    forall r, m | MayRead(rooms, member, id, r) && m in rooms[r].messages && BeforeCut(id, start, r, m)
      ensures exists c :: c in context && Shows(c, r, rooms[r], m)
    {
      InTurnContext(rooms, bound, member, id, start, r, m);
      InContextShows(rooms[r], m);
      IdentityOf(rooms, bound, r);
    }
    forall c | c in context
      ensures exists m :: MayRead(rooms, member, id, c.room) && m in rooms[c.room].messages
                          && BeforeCut(id, start, c.room, m) && Shows(c, c.room, rooms[c.room], m)
    {
      var m := ContextSource(rooms, bound, member, id, start, c);
      InContextShows(rooms[c.room], m);
      IdentityOf(rooms, bound, c.room);
    }
    TurnContextIsSorted(rooms, bound, member, id, start);
  }

  lemma TurnContextIsSorted(rooms: Rooms, bound: nat, member: string, id: nat, start: Option<nat>)
    requires RoomsOk(rooms, bound) && id in rooms
    ensures StrictlySorted(TurnContext(rooms, member, id, start))
  {
    ReadableOk(rooms, bound, member, id);
    CollectedStrictly(Readable(rooms, member, id), TurnFilter(id, start), bound);
  }

  /** In every run: what a turn has been sent is, in order of ids, exactly what it could read at the moment at
      which it looked: every message of every readable room, whoever wrote it, with all its parts. */
  lemma TurnsAreSentWhatTheyMayRead(start: State, events: seq<Event>, n: nat, alphanumeric: char -> bool, a: AskId)
    returns (k: nat)
    requires Started(start) && n <= |events|
    requires var asks := After(start, events, n, alphanumeric).asks; a in asks && asks[a].context.Some?
    ensures k < n && events[k] == Snapshot(a)
    ensures var rooms := After(start, events, k, alphanumeric).store.rooms;
            var ask := After(start, events, n, alphanumeric).asks[a];
            var context := ask.context.value;
            && ask.room in rooms && ask.member in rooms[ask.room].members && StrictlySorted(context)
            && (forall r, m :: MayRead(rooms, ask.member, ask.room, r) && m in rooms[r].messages
                               && BeforeCut(ask.room, ask.start, r, m) ==>
                  exists c :: c in context && Shows(c, r, rooms[r], m))
            && (forall c :: c in context ==>
                  exists m :: MayRead(rooms, ask.member, ask.room, c.room) && m in rooms[c.room].messages
                              && BeforeCut(ask.room, ask.start, c.room, m) && Shows(c, c.room, rooms[c.room], m))
  {
    hide Step, Inv, TurnContext, Started, RoomsOk, Shows, MayRead, BeforeCut, StrictlySorted;
    k := ContextsAreTaken(start, events, n, a, alphanumeric);
    var s, ask := After(start, events, k, alphanumeric), After(start, events, n, alphanumeric).asks[a];
    ReachableInv(start, events, k, alphanumeric);
    BoundOfRun(start, events, k, alphanumeric);
    TurnThatLooks(s, a);
    TurnContextExactly(s.store.rooms, s.store.nextMessage, ask.member, ask.room, ask.start);
  }

  // ---------- pages ----------

  predicate Shown(rooms: Rooms, c: ContextMessage, r: nat, m: Message) {
    r in rooms && Shows(c, r, rooms[r], m)
  }

  /** The query is about this message. */
  predicate IsAskedFor(rooms: Rooms, q: ContextQuery, r: nat, m: Message) {
    && MayRead(rooms, q.requester, q.room, r) && m in rooms[r].messages
    && (q.scopeAll || r == q.room)
    && r in q.visibleThrough && m.id <= q.visibleThrough[r]
    && (q.before.Some? ==> m.id < q.before.value)
  }

  /** Every one of these is asked for, and shown with all its parts. */
  ghost predicate OnlyAsked(rooms: Rooms, q: ContextQuery, messages: seq<ContextMessage>) {
    forall c :: c in messages ==> exists m :: IsAskedFor(rooms, q, c.room, m) && Shown(rooms, c, c.room, m)
  }

  /** All that is asked for, perhaps but for what is below `cut`, is among these. */
  ghost predicate AllAsked(rooms: Rooms, q: ContextQuery, messages: seq<ContextMessage>, cut: Option<nat>) {
    forall r, m :: IsAskedFor(rooms, q, r, m) ==>
      (exists c :: c in messages && Shown(rooms, c, r, m)) || (cut.Some? && m.id < cut.value)
  }

  ghost predicate AskedBelow(rooms: Rooms, q: ContextQuery, cut: nat) {
    exists r, m :: IsAskedFor(rooms, q, r, m) && m.id < cut
  }

  lemma MatchingExactly(rooms: Rooms, bound: nat, q: ContextQuery)
    requires RoomsOk(rooms, bound) && q.room in rooms
    ensures StrictlySorted(Matching(rooms, q))
    ensures AllAsked(rooms, q, Matching(rooms, q), None) && OnlyAsked(rooms, q, Matching(rooms, q))
  {
    hide Matching, RoomsOk, Shows, StrictlySorted;
    forall r, m | IsAskedFor(rooms, q, r, m)
      ensures exists c :: c in Matching(rooms, q) && Shown(rooms, c, r, m)
    {
      InMatching(rooms, bound, q, r, m);
      InContextShows(rooms[r], m);
      IdentityOf(rooms, bound, r);
      assert Shown(rooms, InContext(rooms[r], m), r, m);
    }
    forall c | c in Matching(rooms, q)
      ensures exists m :: IsAskedFor(rooms, q, c.room, m) && Shown(rooms, c, c.room, m)
    {
      var m := MatchingSource(rooms, bound, q, c);
      InContextShows(rooms[c.room], m);
      IdentityOf(rooms, bound, c.room);
      assert IsAskedFor(rooms, q, c.room, m) && Shown(rooms, c, c.room, m);
    }
    MatchingIsSorted(rooms, bound, q);
  }

  lemma MatchingIsSorted(rooms: Rooms, bound: nat, q: ContextQuery)
    requires RoomsOk(rooms, bound) && q.room in rooms
    ensures StrictlySorted(Matching(rooms, q))
  {
    ReadableOk(rooms, bound, q.requester, q.room);
    CollectedStrictly(Readable(rooms, q.requester, q.room), QueryFilter(q), bound);
  }

  /** The messages on the page are the newest of those that are asked for, and the rest is announced. */
  ghost predicate IsLastPage(rooms: Rooms, q: ContextQuery, page: ContextReply)
    requires page.Page?
  {
    && StrictlySorted(page.messages) && |page.messages| <= q.limit
    && OnlyAsked(rooms, q, page.messages) && AllAsked(rooms, q, page.messages, page.nextBefore)
    && (if page.hasEarlier then
          && page.messages != [] && |page.messages| == q.limit && page.nextBefore == Some(page.messages[0].id)
          && AskedBelow(rooms, q, page.messages[0].id)
        else page.nextBefore == None)
  }

  /** A reply to a query, for any rooms in order: only members of an existing room get one; it names the room and
      has, with all their parts, the newest messages that are asked for, as many as fit. */
  lemma RepliesExactly(rooms: Rooms, bound: nat, q: ContextQuery)
    requires RoomsOk(rooms, bound) && q.limit >= 1
    ensures var reply := ChatContextFor(rooms, q);
            if q.room in rooms && q.requester in rooms[q.room].members then
              reply.Page? && reply.roomName == rooms[q.room].name && IsLastPage(rooms, q, reply)
            else reply == Denied
  {
    hide Matching, RoomsOk, StrictlySorted, OnlyAsked, AllAsked, AskedBelow;
    if q.room in rooms && q.requester in rooms[q.room].members {
      MatchingExactly(rooms, bound, q);
      if |Matching(rooms, q)| > q.limit {
        LaterPart(rooms, q, Matching(rooms, q));
      }
    }
  }

  lemma LaterPart(rooms: Rooms, q: ContextQuery, all: seq<ContextMessage>)
    requires StrictlySorted(all) && 1 <= q.limit < |all| && AllAsked(rooms, q, all, None) && OnlyAsked(rooms, q, all)
    ensures var page := all[|all| - q.limit..];
            && StrictlySorted(page) && OnlyAsked(rooms, q, page) && AllAsked(rooms, q, page, Some(page[0].id))
            && AskedBelow(rooms, q, page[0].id)
  {
    hide OnlyAsked, AllAsked, AskedBelow;
    var cut := |all| - q.limit;
    TailOf(all, cut);
    hide StrictlySorted;
    OnlyAskedPart(rooms, q, all, all[cut..]);
    AllAskedPart(rooms, q, all, all[cut..]);
    FirstIsAsked(rooms, q, all, all[cut..][0].id);
  }

  lemma OnlyAskedPart(rooms: Rooms, q: ContextQuery, all: seq<ContextMessage>, part: seq<ContextMessage>)
    requires OnlyAsked(rooms, q, all) && forall c :: c in part ==> c in all
    ensures OnlyAsked(rooms, q, part)
  {
    hide IsAskedFor, Shown;
  }

  lemma AllAskedPart(rooms: Rooms, q: ContextQuery, all: seq<ContextMessage>, part: seq<ContextMessage>)
    requires AllAsked(rooms, q, all, None) && part != []
    requires forall c :: c in all && c !in part ==> c.id < part[0].id
    ensures AllAsked(rooms, q, part, Some(part[0].id))
  {
    hide IsAskedFor, Shown;
    forall r, m | IsAskedFor(rooms, q, r, m)
      ensures (exists c :: c in part && Shown(rooms, c, r, m)) || m.id < part[0].id
    {
      var c :| c in all && Shown(rooms, c, r, m);
      ShownId(rooms, c, r, m);
    }
  }

  lemma FirstIsAsked(rooms: Rooms, q: ContextQuery, all: seq<ContextMessage>, cut: nat)
    requires OnlyAsked(rooms, q, all) && all != [] && all[0].id < cut
    ensures AskedBelow(rooms, q, cut)
  {
    hide IsAskedFor, Shown;
    var c := all[0];
    var m :| IsAskedFor(rooms, q, c.room, m) && Shown(rooms, c, c.room, m);
    ShownId(rooms, c, c.room, m);
  }

  lemma ShownId(rooms: Rooms, c: ContextMessage, r: nat, m: Message)
    requires Shown(rooms, c, r, m)
    ensures c.id == m.id
  {
  }

  /** What is not in the last part is below it. */
  lemma TailOf(all: seq<ContextMessage>, cut: nat)
    requires StrictlySorted(all) && 0 < cut < |all|
    ensures StrictlySorted(all[cut..]) && all[0] in all && all[0].id < all[cut].id
    ensures forall c :: c in all[cut..] ==> c in all
    ensures forall c :: c in all && c !in all[cut..] ==> c.id < all[cut].id
  {
    forall k | 0 <= k < |all|
      ensures all[k] in all[cut..] || all[k].id < all[cut].id
    {
      if k >= cut {
        assert all[cut..][k - cut] == all[k];
      }
    }
  }
}
