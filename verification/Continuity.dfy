/** What a turn has read: everything that its member ever answered, and, in a contribution, nothing that the
    same round produced. */
module Continuity {
  import opened Options
  import opened Rooms
  import opened Paging
  import opened ChatOps
  import opened Coordinator
  import opened Invariants
  import opened Preservation
  import opened Runs

  // ---------- the log ----------

  predicate NoAnswers(entries: seq<Entry>) {
    forall e :: e in entries ==> !e.Gave?
  }

  predicate NoSleeps(entries: seq<Entry>) {
    forall e :: e in entries ==> !e.Slept?
  }

  /** The step adds entries to the log: an answer only when a turn settles, a sleep only when rooms were checked. */
  predicate LogGrows(s: State, e: Event, later: State) {
    && s.log <= later.log && (e.SleepDue? || NoSleeps(later.log[|s.log|..]))
    && (NoAnswers(later.log[|s.log|..])
        || (e.Settle? && e.ask in s.asks && Settles(s, s.asks[e.ask], e.ask, later)))
  }

  predicate Settles(s: State, ask: Ask, a: AskId, later: State) {
    && ask.stage.Requested? && a in later.asks && later.asks[a].stage.Settled? && later.asks[a].stage.outcome.Answered?
    && later.log == s.log + [Gave(ask.member, ask.room, s.store.nextMessage, later.asks[a].stage.outcome.text, a)]
  }

  lemma StepLog(s: State, e: Event, alphanumeric: char -> bool)
    ensures LogGrows(s, e, Step(s, e, alphanumeric))
  {
    hide Pushed, Role, AnswerText, SendVerdict, Sent, FirstAsks, TurnContext, SoloExists, WithRoom, Finished, Reports,
         ChatOps.Slept, WithActive, AllJoined, SleptEntries;
    hide DoSettle, DoSend, DoSleep, LogGrows;
    if e.SleepDue? {
      SleepsAreLogged(s, e.due, e);
    } else if e.Send? {
      SendIsLogged(s, e, alphanumeric);
    } else if e.Settle? {
      SettleIsLogged(s, e.ask, e.now, alphanumeric);
    } else {
      NothingIsLogged(s, e, Step(s, e, alphanumeric));
    }
  }

  lemma NothingIsLogged(s: State, e: Event, later: State)
    requires later.log == s.log
    ensures LogGrows(s, e, later)
  {
  }

  lemma SendIsLogged(s: State, e: Event, alphanumeric: char -> bool)
    requires e.Send?
    ensures LogGrows(s, e, DoSend(s, e, alphanumeric))
  {
    hide SendVerdict, Sent, FirstAsks;
    var later := DoSend(s, e, alphanumeric);
    assert later.log == s.log || later.log[|s.log|..] == [Said(e.id)];
  }

  lemma SleepsAreLogged(s: State, due: set<nat>, e: Event)
    requires e.SleepDue?
    ensures LogGrows(s, e, DoSleep(s, due))
  {
    var entries := SleptEntries(Reports(s.store, due));
    assert DoSleep(s, due).log[|s.log|..] == entries;
  }

  lemma SettleIsLogged(s: State, a: AskId, now: nat, alphanumeric: char -> bool)
    ensures LogGrows(s, Settle(a, now), DoSettle(s, a, now, alphanumeric))
  {
    hide Pushed, Role, AnswerText;
  }

  // ---------- the answers of a round come after its start ----------

  predicate Precedes(ask: Ask, e: Entry)
    requires e.Gave?
  {
    ask.room == e.room && (ask.start.Some? ==> ask.start.value < e.message)
  }

  /** The turns of the round that gave this answer are in its room, and the round started before it. */
  predicate AnswersTheRound(asks: map<AskId, Ask>, e: Entry)
    requires e.Gave?
  {
    e.ask in asks && forall a :: a in asks && a.run == e.ask.run ==> Precedes(asks[a], e)
  }

  predicate RoundsAnswered(asks: map<AskId, Ask>, log: seq<Entry>) {
    forall e :: e in log && e.Gave? ==> AnswersTheRound(asks, e)
  }

  /** All turns of a live round are in its room, and a contribution starts where the round does. */
  lemma TurnOfRound(s: State, a: AskId)
    requires AskInv(s.store.rooms, s.runs, s.nextRun, s.asks) && RunInv(s.store, s.stuck, s.runs, s.nextRun)
    requires a in s.asks && a.run in s.runs
    ensures s.asks[a].room == s.runs[a.run].room
    ensures s.asks[a].start == None || s.asks[a].start == Some(s.runs[a.run].start)
    ensures s.runs[a.run].start < s.store.nextMessage
  {
    assert TurnsOk(s.store.rooms, s.asks, a.run, s.runs[a.run]) && RunOk(s.store, s.stuck, s.runs[a.run]);
    assert AskId(a.run, a.turn) == a;
    assert AskFits(s.store.rooms, s.runs[a.run], a.turn, s.asks[a]);
  }

  lemma OldAnswersStay(s: State, e: Event, later: State, g: Entry)
    requires Inv(s) && RoundsAnswered(s.asks, s.log) && SameTurns(s, e, later) && NewTurnsAreBlank(s, later)
    requires g in s.log && g.Gave?
    ensures AnswersTheRound(later.asks, g)
  {
    hide StoreInv, RunInv, LockInv, PendingInv, AnswersInv, SleepInv, TakesContext, TurnsOk;
    assert AnswersTheRound(s.asks, g);
    assert g.ask.run < s.nextRun;
    forall a | a in later.asks && a.run == g.ask.run
      ensures Precedes(later.asks[a], g)
    {
      if a in s.asks {
        assert Precedes(s.asks[a], g);
      } else {
        assert g.ask in s.asks && g.ask.run in s.runs && Precedes(s.asks[g.ask], g);
        hide AskInv;
        TurnOfRound(s, g.ask);
      }
    }
  }

  lemma NewAnswerIsLater(s: State, e: Event, later: State, a: AskId, text: string)
    requires Inv(s) && SameTurns(s, e, later) && NewTurnsAreBlank(s, later) && later.asks.Keys == s.asks.Keys
    requires a in s.asks && s.asks[a].stage.Requested?
    ensures AnswersTheRound(later.asks, Gave(s.asks[a].member, s.asks[a].room, s.store.nextMessage, text, a))
  {
    hide StoreInv, RunInv, AskInv, LockInv, PendingInv, AnswersInv, SleepInv, TakesContext;
    TurnRoom(s, a);
    hide AskFits;
    TurnOfRound(s, a);
    forall b | b in later.asks && b.run == a.run
      ensures Precedes(later.asks[b], Gave(s.asks[a].member, s.asks[a].room, s.store.nextMessage, text, a))
    {
      TurnOfRound(s, b);
    }
  }

  lemma StepRounds(s: State, e: Event, alphanumeric: char -> bool)
    requires Inv(s) && RoundsAnswered(s.asks, s.log)
    ensures RoundsAnswered(Step(s, e, alphanumeric).asks, Step(s, e, alphanumeric).log)
  {
    hide StoreInv, RunInv, AskInv, LockInv, PendingInv, AnswersInv, SleepInv, AnswersTheRound, SameTurns,
         NewTurnsAreBlank, DoSettle, NoAnswers;
    var later := Step(s, e, alphanumeric);
    StepLog(s, e, alphanumeric);
    StepTurns(s, e, alphanumeric);
    if e.Settle? {
      SettleMoves(s, e.ask, e.now, alphanumeric);
    }
    hide Step, Inv;
    forall g | g in later.log && g.Gave?
      ensures AnswersTheRound(later.asks, g)
    {
      if g in s.log {
        OldAnswersStay(s, e, later, g);
      } else {
        AddedIsInSuffix(s.log, later.log, g);
        SuffixAnswers(s, e, later, g);
        NewAnswerIsLater(s, e, later, e.ask, g.text);
      }
    }
  }

  lemma SuffixAnswers(s: State, e: Event, later: State, g: Entry)
    requires LogGrows(s, e, later) && g in later.log[|s.log|..] && g.Gave?
    ensures e.Settle? && e.ask in s.asks && s.asks[e.ask].stage.Requested?
    ensures g == Gave(s.asks[e.ask].member, s.asks[e.ask].room, s.store.nextMessage, g.text, e.ask)
  {
  }

  lemma AddedIsInSuffix(log: seq<Entry>, later: seq<Entry>, g: Entry)
    requires log <= later && g in later && g !in log
    ensures g in later[|log|..]
  {
    var k :| 0 <= k < |later| && later[k] == g;
    assert k >= |log|;
    assert later[|log|..][k - |log|] == g;
  }

  // ---------- a member remembers what it answered ----------

  /** An answer that a turn of the same member may read: any ordinary one in an ordinary room, its own in an
      incognito room. */
  predicate Relevant(rooms: Rooms, ask: Ask, e: Entry) {
    && e.Gave? && e.member == ask.member && ask.room in rooms && e.room in rooms
    && (if rooms[ask.room].incognito then e.room == ask.room else !rooms[e.room].incognito)
  }

  /** The context has this answer: in its room, by its member, word for word. */
  predicate Lists(context: seq<ContextMessage>, e: Entry)
    requires e.Gave?
  {
    exists c :: c in context && (c.room, c.id, c.author, c.text) == (e.room, e.message, e.member, e.text)
  }

  predicate Remembers(rooms: Rooms, ask: Ask, log: seq<Entry>) {
    && ask.context.Some?
    && forall e :: e in log && Relevant(rooms, ask, e) ==> Lists(ask.context.value, e)
  }

  predicate RememberInv(rooms: Rooms, asks: map<AskId, Ask>, log: seq<Entry>) {
    forall a :: a in asks && Looked(asks[a].stage) ==> Remembers(rooms, asks[a], log)
  }

  /** The context of a turn that looks now lists every answer of its member so far. */
  lemma LooksAtAnswers(s: State, a: AskId, e: Entry)
    requires Inv(s) && a in s.asks && s.asks[a].stage == Holding && e in s.log && Relevant(s.store.rooms, s.asks[a], e)
    ensures Lists(TurnContext(s.store.rooms, s.asks[a].member, s.asks[a].room, s.asks[a].start), e)
  {
    var rooms, ask := s.store.rooms, s.asks[a];
    assert IsKept(rooms, e) && SeesAnswers(ask, s.log);
    assert RoomsOk(rooms, s.store.nextMessage);
    hide StoreInv, RunInv, AskInv, LockInv, PendingInv, AnswersInv, SleepInv, RoomsOk, TurnContext;
    var m :| m in rooms[e.room].messages && IsAnswer(m, e);
    InTurnContext(rooms, s.store.nextMessage, ask.member, ask.room, ask.start, e.room, m);
    RoomIds(rooms, s.store.nextMessage, e.room);
    assert InContext(rooms[e.room], m).room == e.room;
  }

  lemma RoomIds(rooms: Rooms, bound: nat, r: nat)
    requires RoomsOk(rooms, bound) && r in rooms
    ensures rooms[r].id == r
  {
    assert RoomOk(r, rooms[r], bound);
  }

  /** While a turn is open, no other turn of its member can answer. */
  lemma OnlyTheHolderAnswers(s: State, a: AskId, b: AskId)
    requires LockInv(s.asks, s.holders) && a in s.asks && b in s.asks
    requires Holds(s.asks[a].stage) && Holds(s.asks[b].stage) && s.asks[a].member == s.asks[b].member
    ensures a == b
  {
  }

  lemma StaysRelevant(s: State, e: Event, later: State, a: AskId, g: Entry)
    requires Inv(s) && Later(s.store, later.store) && SameTurns(s, e, later)
    requires a in s.asks && s.asks[a].stage != Joined && g in s.log && Relevant(later.store.rooms, later.asks[a], g)
    ensures Relevant(s.store.rooms, s.asks[a], g)
  {
    assert IsKept(s.store.rooms, g);
    hide StoreInv, RunInv, AskInv, LockInv, PendingInv, AnswersInv, SleepInv, AskFits;
    TurnRoom(s, a);
    var rooms := s.store.rooms;
    var room := s.asks[a].room;
    assert Continues(rooms[room], later.store.rooms[room], s.store.nextMessage);
    assert Continues(rooms[g.room], later.store.rooms[g.room], s.store.nextMessage);
  }

  lemma KeepsRemembering(s: State, e: Event, later: State, a: AskId, g: Entry)
    requires Inv(s) && RememberInv(s.store.rooms, s.asks, s.log)
    requires Later(s.store, later.store) && SameTurns(s, e, later) && LogGrows(s, e, later)
    requires a in s.asks && Looked(later.asks[a].stage) && g in later.log
    requires Relevant(later.store.rooms, later.asks[a], g)
    ensures later.asks[a].context.Some? && Lists(later.asks[a].context.value, g)
  {
    assert LockInv(s.asks, s.holders);
    hide Inv, Lists, TurnContext, Relevant, Later, SameTurn;
    if g !in s.log {
      AddedIsInSuffix(s.log, later.log, g);
      NewAnswerIsElsewhere(s, e, later, a, g);
    } else if TakesContext(s, e, a, later.asks[a]) {
      StaysRelevant(s, e, later, a, g);
      LooksAtAnswers(s, a, g);
    } else {
      StaysRelevant(s, e, later, a, g);
      assert Remembers(s.store.rooms, s.asks[a], s.log);
    }
  }

  lemma NewAnswerIsElsewhere(s: State, e: Event, later: State, a: AskId, g: Entry)
    requires LockInv(s.asks, s.holders) && SameTurns(s, e, later) && LogGrows(s, e, later)
    requires a in s.asks && Looked(later.asks[a].stage) && g in later.log[|s.log|..]
    ensures !Relevant(later.store.rooms, later.asks[a], g)
  {
    if g.Gave? {
      SuffixAnswers(s, e, later, g);
      if g.member == s.asks[a].member {
        OnlyTheHolderAnswers(s, a, e.ask);
      }
    }
  }

  lemma StepRemembers(s: State, e: Event, alphanumeric: char -> bool)
    requires Inv(s) && RememberInv(s.store.rooms, s.asks, s.log)
    ensures var later := Step(s, e, alphanumeric); RememberInv(later.store.rooms, later.asks, later.log)
  {
    hide StoreInv, RunInv, AskInv, LockInv, PendingInv, AnswersInv, SleepInv, Step, SameTurns, LogGrows, Later,
         RememberInv, Relevant;
    var later := Step(s, e, alphanumeric);
    StepLog(s, e, alphanumeric);
    StepTurns(s, e, alphanumeric);
    StepIsLater(s, e, alphanumeric);
    hide Inv;
    RemembersAll(s, e, later);
  }

  lemma RemembersAll(s: State, e: Event, later: State)
    requires Inv(s) && RememberInv(s.store.rooms, s.asks, s.log)
    requires Later(s.store, later.store) && SameTurns(s, e, later) && NewTurnsAreBlank(s, later)
    requires LogGrows(s, e, later)
    ensures RememberInv(later.store.rooms, later.asks, later.log)
  {
    forall a | a in later.asks && Looked(later.asks[a].stage)
      ensures Remembers(later.store.rooms, later.asks[a], later.log)
    {
      hide Inv, RememberInv, Later, LogGrows, Relevant, Lists;
      assert a in s.asks;
      assert later.asks[a].context.Some? by {
        RememberedBefore(s, e, later, a);
      }
      forall g | g in later.log && Relevant(later.store.rooms, later.asks[a], g)
        ensures Lists(later.asks[a].context.value, g)
      {
        KeepsRemembering(s, e, later, a, g);
      }
    }
  }

  lemma RememberedBefore(s: State, e: Event, later: State, a: AskId)
    requires RememberInv(s.store.rooms, s.asks, s.log) && SameTurns(s, e, later) && a in s.asks
    requires Looked(later.asks[a].stage)
    ensures later.asks[a].context.Some?
  {
    hide Relevant, Lists, TurnContext;
  }
}
