/** What a turn remembers: every reply that its member ever gave where it may read, in this run or before the
    last start of the program. */
module Recall {
  import opened Rooms
  import opened Paging
  import opened ChatOps
  import opened Coordinator
  import opened Invariants
  import opened Runs
  import opened Continuity
  import opened Promises
  import opened RoomHistories
  import opened Contexts

  // ---------- where replies come from ----------

  predicate IsLogged(log: seq<Entry>, r: nat, id: nat) {
    exists e :: e in log && e.Gave? && e.room == r && e.message == id
  }

  /** This message of a later moment was there before. */
  predicate WasThere(rooms: Rooms, r: nat, m: Message) {
    r in rooms && m in rooms[r].messages
  }

  ghost predicate NewRepliesAreLogged(rooms: Rooms, later: Rooms, log: seq<Entry>) {
    forall r, m :: WasThere(later, r, m) && IsReply(m) ==> WasThere(rooms, r, m) || IsLogged(log, r, m.id)
  }

  lemma QuietStep(st: Store, later: Store, slept: set<nat>, log: seq<Entry>)
    requires StoreAdvances(st, later, slept, false)
    ensures NewRepliesAreLogged(st.rooms, later.rooms, log)
  {
    forall r, m | WasThere(later.rooms, r, m) && IsReply(m)
      ensures WasThere(st.rooms, r, m)
    {
      assert r in st.rooms && RoomAdvances(st.rooms[r], later.rooms[r], r in slept, false);
      OldOrLast(st.rooms[r], later.rooms[r], r in slept, m);
    }
  }

  lemma OldOrLast(room: Room, later: Room, slept: bool, m: Message)
    requires RoomAdvances(room, later, slept, false) && m in later.messages && IsReply(m)
    ensures m in room.messages
  {
    var k :| 0 <= k < |later.messages| && later.messages[k] == m;
    assert k < |room.messages|;
  }

  lemma SettleStep(s: State, a: AskId, now: nat, alphanumeric: char -> bool)
    ensures var later := DoSettle(s, a, now, alphanumeric);
              NewRepliesAreLogged(s.store.rooms, later.store.rooms, later.log)
  {
    hide AnswerText, Role, Pushed;
    var later := DoSettle(s, a, now, alphanumeric);
    if a in s.asks && s.asks[a].stage.Requested? && s.asks[a].stage.sent && s.asks[a].stage.reply.Some? {
      var ask, result := s.asks[a], s.asks[a].stage.reply.value;
      if AnswerText(result).Some? {
        var text := AnswerText(result).value;
        var role := Role(ask.kind, text, alphanumeric);
        assert later.log[|s.log|] == Gave(ask.member, ask.room, s.store.nextMessage, text, a);
        assert IsLogged(later.log, ask.room, s.store.nextMessage);
        hide IsLogged;
        PushStep(s.store, ask.room, role, ask.member, text, result.attachments, now, later.log);
      }
    }
  }

  lemma PushStep(st: Store, id: nat, role: string, author: string, text: string, media: seq<Asset>, now: nat,
                 log: seq<Entry>)
    requires IsLogged(log, id, st.nextMessage)
    ensures NewRepliesAreLogged(st.rooms, Pushed(st, id, role, author, text, media, now).rooms, log)
  {
    hide IsLogged, Views;
  }

  lemma StepReplies(s: State, e: Event, alphanumeric: char -> bool)
    requires StoreInv(s.store, s.reserved)
    ensures var later := Step(s, e, alphanumeric); NewRepliesAreLogged(s.store.rooms, later.store.rooms, later.log)
  {
    hide StoreInv, NewRepliesAreLogged, StoreAdvances, SleptNow, Step;
    StepAdvances(s, e, alphanumeric);
    if e.Settle? {
      SettleStep(s, e.ask, e.now, alphanumeric);
      assert Step(s, e, alphanumeric) == DoSettle(s, e.ask, e.now, alphanumeric) by {
        SettleIsAStep(s, e.ask, e.now, alphanumeric);
      }
    } else {
      QuietStep(s.store, Step(s, e, alphanumeric).store, SleptNow(s, e), Step(s, e, alphanumeric).log);
    }
  }

  lemma SettleIsAStep(s: State, a: AskId, now: nat, alphanumeric: char -> bool)
    ensures Step(s, Settle(a, now), alphanumeric) == DoSettle(s, a, now, alphanumeric)
  {
  }

  lemma LoggedLater(log: seq<Entry>, later: seq<Entry>, r: nat, id: nat)
    requires log <= later && IsLogged(log, r, id)
    ensures IsLogged(later, r, id)
  {
    var e :| e in log && e.Gave? && e.room == r && e.message == id;
    assert e in later;
  }

  /** Every reply in a room was there at the start, or has been logged since. */
  lemma {:induction false} RepliesAreLogged(start: State, events: seq<Event>, n: nat, alphanumeric: char -> bool)
    requires Started(start) && n <= |events|
    ensures var s := After(start, events, n, alphanumeric); NewRepliesAreLogged(start.store.rooms, s.store.rooms, s.log)
  {
    hide Step, RunInv, AskInv, LockInv, PendingInv, AnswersInv, SleepInv, Started, IsLogged, StoreInv, WasThere;
    if n > 0 {
      var before, s := After(start, events, n - 1, alphanumeric), After(start, events, n, alphanumeric);
      RepliesAreLogged(start, events, n - 1, alphanumeric);
      ReachableInv(start, events, n - 1, alphanumeric);
      StepReplies(before, events[n - 1], alphanumeric);
      StepLog(before, events[n - 1], alphanumeric);
      forall r, m | WasThere(s.store.rooms, r, m) && IsReply(m)
        ensures WasThere(start.store.rooms, r, m) || IsLogged(s.log, r, m.id)
      {
        if IsLogged(before.log, r, m.id) {
          LoggedLater(before.log, s.log, r, m.id);
        }
      }
    }
  }

  /** No round of this run starts at a message from before the run. */
  lemma {:induction false} RoundsStartLater(start: State, events: seq<Event>, n: nat, alphanumeric: char -> bool,
                                            a: AskId)
    requires Started(start) && n <= |events| && a in After(start, events, n, alphanumeric).asks
    requires After(start, events, n, alphanumeric).asks[a].start.Some?
    ensures start.store.nextMessage <= After(start, events, n, alphanumeric).asks[a].start.value
  {
    hide Step, Inv, TakesContext;
    if n > 0 {
      var s := After(start, events, n - 1, alphanumeric);
      ReachableAsks(start, events, n - 1, alphanumeric);
      StepTurns(s, events[n - 1], alphanumeric);
      if a in s.asks {
        RoundsStartLater(start, events, n - 1, alphanumeric, a);
      } else {
        RunIsLater(start, events, 0, n - 1, alphanumeric);
      }
    }
  }

  lemma ReachableAsks(start: State, events: seq<Event>, n: nat, alphanumeric: char -> bool)
    requires Started(start) && n <= |events|
    ensures var s := After(start, events, n, alphanumeric); AskInv(s.store.rooms, s.runs, s.nextRun, s.asks)
  {
    hide Step, StoreInv, RunInv, AskInv, LockInv, PendingInv, AnswersInv, SleepInv, Started;
    ReachableInv(start, events, n, alphanumeric);
  }

  // ---------- what is remembered ----------

  /** A turn of `ask` may read this reply of its own member. */
  predicate IsOwnReply(rooms: Rooms, ask: Ask, r: nat, m: Message) {
    && WasThere(rooms, r, m) && IsReply(m) && m.author == ask.member
    && ask.room in rooms && ask.member in rooms[r].members
    && (if rooms[ask.room].incognito then r == ask.room else !rooms[r].incognito)
  }

  /** A reply from before the start is in every context that may have it. */
  lemma OldRepliesAreRead(start: State, events: seq<Event>, n: nat, alphanumeric: char -> bool, a: AskId, r: nat,
                          m: Message)
    requires Started(start) && n <= |events|
    requires var s := After(start, events, n, alphanumeric);
             && a in s.asks && s.asks[a].context.Some? && IsOwnReply(s.store.rooms, s.asks[a], r, m)
             && WasThere(start.store.rooms, r, m)
    ensures var s := After(start, events, n, alphanumeric); InContext(s.store.rooms[r], m) in s.asks[a].context.value
  {
    hide Step, Inv, TurnContext, RoomsOk, StoreOk, Grows;
    var s := After(start, events, n, alphanumeric);
    var ask := s.asks[a];
    var k := ContextsAreTaken(start, events, n, a, alphanumeric);
    var t := After(start, events, k, alphanumeric);
    RunIsLater(start, events, 0, k, alphanumeric);
    RunIsLater(start, events, k, n, alphanumeric);
    BoundOfRun(start, events, 0, alphanumeric);
    BoundOfRun(start, events, k, alphanumeric);
    StaysInRoom(start.store.rooms, start.store.nextMessage, t.store.rooms, r, m);
    SameIdentity(t.store.rooms, t.store.nextMessage, s.store.rooms, r);
    SameIdentity(t.store.rooms, t.store.nextMessage, s.store.rooms, ask.room);
    if ask.start.Some? {
      RoundsStartLater(start, events, n, alphanumeric, a);
    }
    InTurnContext(t.store.rooms, t.store.nextMessage, ask.member, ask.room, ask.start, r, m);
  }

  lemma StaysInRoom(rooms: Rooms, bound: nat, later: Rooms, r: nat, m: Message)
    requires RoomsOk(rooms, bound) && Grows(rooms, bound, later) && WasThere(rooms, r, m)
    ensures WasThere(later, r, m) && m.id < bound
  {
    assert Continues(rooms[r], later[r], bound) && RoomOk(r, rooms[r], bound);
    OldMessages(rooms[r], later[r], bound, m);
  }

  lemma SameIdentity(rooms: Rooms, bound: nat, later: Rooms, r: nat)
    requires Grows(rooms, bound, later) && r in rooms
    ensures r in later && (later[r].id, later[r].name, later[r].members, later[r].incognito)
                       == (rooms[r].id, rooms[r].name, rooms[r].members, rooms[r].incognito)
  {
    assert Continues(rooms[r], later[r], bound);
  }

  /** A logged answer that is listed is listed as the message that it is. */
  lemma ListedAsItIs(start: State, events: seq<Event>, n: nat, alphanumeric: char -> bool, a: AskId, r: nat,
                     m: Message, c: ContextMessage)
    requires Started(start) && n <= |events|
    requires var s := After(start, events, n, alphanumeric);
             && a in s.asks && s.asks[a].context.Some? && c in s.asks[a].context.value
             && WasThere(s.store.rooms, r, m) && c.room == r && c.id == m.id
    ensures c == InContext(After(start, events, n, alphanumeric).store.rooms[r], m)
  {
    hide Step, Inv, TurnContext, RoomsOk, StoreOk, Grows, Started;
    var s := After(start, events, n, alphanumeric);
    var ask := s.asks[a];
    var k := ContextsAreTaken(start, events, n, a, alphanumeric);
    var t := After(start, events, k, alphanumeric);
    RunIsLater(start, events, k, n, alphanumeric);
    BoundOfRun(start, events, k, alphanumeric);
    BoundOfRun(start, events, n, alphanumeric);
    var x := ContextSource(t.store.rooms, t.store.nextMessage, ask.member, ask.room, ask.start, c);
    StaysInRoom(t.store.rooms, t.store.nextMessage, s.store.rooms, r, x);
    SameIdentity(t.store.rooms, t.store.nextMessage, s.store.rooms, r);
    OneMessagePerId(s.store.rooms, s.store.nextMessage, r, m, x);
  }

  lemma OneMessagePerId(rooms: Rooms, bound: nat, r: nat, m: Message, n: Message)
    requires RoomsOk(rooms, bound) && WasThere(rooms, r, m) && WasThere(rooms, r, n) && m.id == n.id
    ensures m == n
  {
    SameIdSameMessage(r, rooms[r], bound, m, n);
  }

  /** Who gave a logged reply. */
  lemma GiverOf(s: State, e: Entry, m: Message)
    requires StoreInv(s.store, s.reserved) && AnswersInv(s.store.rooms, s.asks, s.log)
    requires e in s.log && e.Gave? && WasThere(s.store.rooms, e.room, m) && m.id == e.message
    ensures m.author == e.member
  {
    hide RoomsOk, SeesAnswers;
    assert IsKept(s.store.rooms, e);
    var x :| x in s.store.rooms[e.room].messages && IsAnswer(x, e);
    OneMessagePerId(s.store.rooms, s.store.nextMessage, e.room, m, x);
  }

  /** From its snapshot until it settles, a turn has in its context every reply that its member ever gave in an
      ordinary room (or, in an incognito room, in that room), whether in this run or before the last start, with
      text and attachments: rooms are many, the conversation is one. */
  lemma OpenTurnsRememberEveryReply(start: State, events: seq<Event>, n: nat, alphanumeric: char -> bool, a: AskId,
                                    r: nat, m: Message)
    requires Started(start) && n <= |events|
    requires var s := After(start, events, n, alphanumeric);
             a in s.asks && Looked(s.asks[a].stage) && IsOwnReply(s.store.rooms, s.asks[a], r, m)
    ensures var s := After(start, events, n, alphanumeric);
            && s.asks[a].context.Some?
            && InContext(s.store.rooms[r], m) in s.asks[a].context.value
            && (exists c :: c in s.asks[a].context.value && Shows(c, r, s.store.rooms[r], m))
  {
    hide Step, TurnContext, Started, StoreInv, RunInv, AskInv, LockInv, PendingInv, AnswersInv, SleepInv, IsLogged;
    var s := After(start, events, n, alphanumeric);
    ReachableRemembers(start, events, n, alphanumeric);
    RepliesAreLogged(start, events, n, alphanumeric);
    ReachableInv(start, events, n, alphanumeric);
    assert s.asks[a].context.Some? by { LookedHasContext(s, a); }
    InContextShows(s.store.rooms[r], m);
    assert s.store.rooms[r].id == r by {
      BoundOfRun(start, events, n, alphanumeric);
      IdentityOf(s.store.rooms, s.store.nextMessage, r);
    }
    hide RememberInv, RoundsAnswered, Inv, Shows;
    if WasThere(start.store.rooms, r, m) {
      OldRepliesAreRead(start, events, n, alphanumeric, a, r, m);
    } else {
      var e := EntryOf(s.log, r, m.id);
      GiverOf(s, e, m);
      OpenTurnsRememberEveryAnswer(start, events, n, alphanumeric, a, e);
      var c :| c in s.asks[a].context.value
          && (c.room, c.id, c.author, c.text) == (e.room, e.message, e.member, e.text);
      ListedAsItIs(start, events, n, alphanumeric, a, r, m, c);
    }
  }

  lemma LookedHasContext(s: State, a: AskId)
    requires RememberInv(s.store.rooms, s.asks, s.log) && a in s.asks && Looked(s.asks[a].stage)
    ensures s.asks[a].context.Some?
  {
    assert Remembers(s.store.rooms, s.asks[a], s.log);
  }

  lemma EntryOf(log: seq<Entry>, r: nat, id: nat) returns (e: Entry)
    requires IsLogged(log, r, id)
    ensures e in log && e.Gave? && e.room == r && e.message == id
  {
    e :| e in log && e.Gave? && e.room == r && e.message == id;
  }
}
