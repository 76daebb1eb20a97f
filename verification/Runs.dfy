/** Whole runs of the coordinator: every reachable state keeps the invariant, rooms only grow, and a turn
    keeps what it is. */
module Runs {
  import opened Options
  import opened Rooms
  import opened Paging
  import opened ChatOps
  import opened Coordinator
  import opened Invariants
  import opened Preservation
  import opened RoomSteps

  // ---------- one step ----------

  lemma StepKeeps(s: State, e: Event, alphanumeric: char -> bool)
    requires Inv(s)
    ensures Inv(Step(s, e, alphanumeric))
  {
    hide Inv, DoSend, DoSleep, DoFinish, DoJoin, DoFollowUp, DoSettle, DoCreate, DoEnsureSolo, DoReserve, DoArchive,
         DoTakeTurn, DoFailEarly, DoSnapshot, DoRegister, DoSendDone, DoDeliver, DoReturn, WithActive;
    match e
    case Reserve => ReserveKeeps(s);
    case Create(_, _, _, _, _) => CreateKeeps(s, e);
    case EnsureSolo(member, name, incognito, now) => EnsureSoloKeeps(s, member, name, incognito, now);
    case Send(_, _, _, _, _) => SendKeeps(s, e, alphanumeric);
    case SetActive(id, active) => SetActiveKeeps(s, id, active);
    case SleepDue(due) => SleepKeeps(s, due);
    case SetArchived(id, archived) => ArchiveKeeps(s, id, archived);
    case FailEarly(a) => FailEarlyKeeps(s, a);
    case TakeTurn(a) => TakeTurnKeeps(s, a);
    case Snapshot(a) => SnapshotKeeps(s, a);
    case Register(a) => RegisterKeeps(s, a);
    case SendDone(a, delivered) => SendDoneKeeps(s, a, delivered);
    case Deliver(source, id, result) => DeliverKeeps(s, source, id, result);
    case Settle(a, now) => SettleKeeps(s, a, now, alphanumeric);
    case Return(a) => ReturnKeeps(s, a);
    case Join(a, now, note) => JoinKeeps(s, a, now, note, alphanumeric);
    case FollowUp(r, now, note) => FollowUpKeeps(s, r, now, note);
    case Finish(r, now) => FinishKeeps(s, r, now);
  }

  /** Rooms stay, keep what identifies them, and only get messages with new ids. */
  predicate Later(st: Store, later: Store) {
    Grows(st.rooms, st.nextMessage, later.rooms) && st.nextMessage <= later.nextMessage && st.nextRoom <= later.nextRoom
  }

  lemma UnnoticedIsLater(st: Store, later: Store)
    requires Unnoticed(st, later)
    ensures Later(st, later)
  {
    hide Grows, SameRounds;
  }

  lemma PushedIsLater(st: Store, id: nat, role: string, author: string, text: string, media: seq<Asset>, now: nat)
    requires StoreOk(st)
    ensures Later(st, Pushed(st, id, role, author, text, media, now))
  {
    PushKeeps(st, id, role, author, text, media, now);
    hide Grows, StoreOk;
  }

  lemma SameIsLater(st: Store)
    ensures Later(st, st)
  {
    GrowsReflexive(st.rooms, st.nextMessage);
  }

  lemma SendIsLater(s: State, e: Event, alphanumeric: char -> bool)
    requires StoreOk(s.store) && e.Send?
    ensures Later(s.store, DoSend(s, e, alphanumeric).store)
  {
    hide StoreOk, Grows, SendVerdict, Sent;
    if SendVerdict(s.store, e.id, e.text, e.media, alphanumeric).Accepted? {
      CalledAreMembers(s.store, e.id, e.text, e.media, alphanumeric);
      SentChanges(s.store, e.id, e.text, e.media, e.now);
    } else {
      SameIsLater(s.store);
    }
  }

  lemma FinishIsLater(s: State, r: nat, now: nat)
    requires StoreOk(s.store)
    ensures Later(s.store, DoFinish(s, r, now).store)
  {
    hide StoreOk, Grows;
    SameIsLater(s.store);
    if r in s.runs {
      FinishedKeeps(s.store, s.runs[r].room, now);
    }
  }

  lemma SettleIsLater(s: State, a: AskId, now: nat, alphanumeric: char -> bool)
    requires StoreOk(s.store)
    ensures Later(s.store, DoSettle(s, a, now, alphanumeric).store)
  {
    hide StoreOk, Grows, Later, Pushed, AnswerText, Role;
    SameIsLater(s.store);
    if a in s.asks && s.asks[a].stage.Requested? && s.asks[a].stage.reply.Some? {
      var ask, result := s.asks[a], s.asks[a].stage.reply.value;
      if AnswerText(result).Some? {
        var text := AnswerText(result).value;
        PushedIsLater(s.store, ask.room, Role(ask.kind, text, alphanumeric), ask.member, text, result.attachments, now);
      }
    }
  }

  lemma NoteIsLater(s: State, e: Event, alphanumeric: char -> bool)
    requires StoreOk(s.store) && (e.Join? || e.FollowUp?)
    ensures Later(s.store, Step(s, e, alphanumeric).store)
  {
    hide StoreOk, Grows, Later, Pushed;
    SameIsLater(s.store);
    if e.Join? && e.ask in s.asks {
      PushedIsLater(s.store, s.asks[e.ask].room, "error", SYSTEM, e.note, [], e.now);
    } else if e.FollowUp? && e.run in s.runs {
      PushedIsLater(s.store, s.runs[e.run].room, "error", SYSTEM, e.note, [], e.now);
    }
  }

  lemma RoomEventIsLater(s: State, e: Event, alphanumeric: char -> bool)
    requires Inv(s) && (e.Reserve? || e.Create? || e.EnsureSolo? || e.SetActive? || e.SleepDue? || e.SetArchived?)
    ensures Later(s.store, Step(s, e, alphanumeric).store)
  {
    hide Inv, Unnoticed, Later, DoCreate, DoEnsureSolo, DoReserve, DoArchive, DoSleep, WithActive;
    match e {
      case Reserve => ReserveKeeps(s);
      case Create(_, _, _, _, _) => CreateKeeps(s, e);
      case EnsureSolo(member, name, incognito, now) => EnsureSoloKeeps(s, member, name, incognito, now);
      case SetActive(id, active) => SetActiveKeeps(s, id, active);
      case SleepDue(due) => SleepKeeps(s, due);
      case SetArchived(id, archived) => ArchiveKeeps(s, id, archived);
    }
    UnnoticedIsLater(s.store, Step(s, e, alphanumeric).store);
  }

  lemma StepIsLater(s: State, e: Event, alphanumeric: char -> bool)
    requires Inv(s)
    ensures Later(s.store, Step(s, e, alphanumeric).store)
  {
    hide RunInv, AskInv, LockInv, PendingInv, AnswersInv, SleepInv, Later, StoreOk, DoTakeTurn, DoFailEarly,
         DoSnapshot, DoRegister, DoSendDone, DoDeliver, DoReturn, DoSend, DoSleep, DoFinish, DoJoin, DoFollowUp,
         DoSettle, DoCreate, DoEnsureSolo, DoReserve, DoArchive, WithActive, TurnContext;
    match e
    case Send(_, _, _, _, _) => SendIsLater(s, e, alphanumeric);
    case Settle(a, now) => SettleIsLater(s, a, now, alphanumeric);
    case Join(_, _, _) => NoteIsLater(s, e, alphanumeric);
    case FollowUp(_, _, _) => NoteIsLater(s, e, alphanumeric);
    case Finish(r, now) => FinishIsLater(s, r, now);
    case Reserve => RoomEventIsLater(s, e, alphanumeric);
    case Create(_, _, _, _, _) => RoomEventIsLater(s, e, alphanumeric);
    case EnsureSolo(_, _, _, _) => RoomEventIsLater(s, e, alphanumeric);
    case SetActive(_, _) => RoomEventIsLater(s, e, alphanumeric);
    case SleepDue(_) => RoomEventIsLater(s, e, alphanumeric);
    case SetArchived(_, _) => RoomEventIsLater(s, e, alphanumeric);
    case _ => TurnStepIsLater(s, e, alphanumeric);
  }

  lemma TurnStepIsLater(s: State, e: Event, alphanumeric: char -> bool)
    requires e.FailEarly? || e.TakeTurn? || e.Snapshot? || e.Register? || e.SendDone? || e.Deliver? || e.Return?
    ensures Later(s.store, Step(s, e, alphanumeric).store)
  {
    hide Grows, TurnContext;
    SameIsLater(s.store);
  }

  /** The turn has its context, and has not answered. */
  predicate Looked(stage: Stage) {
    stage.Snapshotted? || stage.Requested?
  }

  /** The turns stay the same turns, and a context is taken once, by the snapshot of the turn. */
  predicate SameTurns(s: State, e: Event, later: State) {
    forall a :: a in s.asks ==>
      && a in later.asks && SameTurn(s.asks[a], later.asks[a])
      && (later.asks[a].context == s.asks[a].context || TakesContext(s, e, a, later.asks[a]))
      && (Looked(later.asks[a].stage) ==> Looked(s.asks[a].stage) || TakesContext(s, e, a, later.asks[a]))
  }

  predicate TakesContext(s: State, e: Event, a: AskId, later: Ask)
    requires a in s.asks
  {
    && e == Snapshot(a) && s.asks[a].stage == Holding && s.asks[a].room in s.store.rooms
    && later.context == Some(TurnContext(s.store.rooms, s.asks[a].member, s.asks[a].room, s.asks[a].start))
  }

  /** New turns have not looked yet; they belong to a new round, or they are follow-ups in the room of theirs. */
  predicate NewTurnsAreBlank(s: State, later: State) {
    forall a :: a in later.asks && a !in s.asks ==>
      && later.asks[a].context == None && later.asks[a].stage == Queued
      && (later.asks[a].start == None || later.asks[a].start == Some(s.store.nextMessage))
      && (a.run == s.nextRun
          || (a.run in s.runs && later.asks[a].room == s.runs[a.run].room && later.asks[a].start == None))
  }

  /** This step changes one turn at most, and not what it is. */
  predicate OneTurnMoves(s: State, a: AskId, later: State) {
    && later.asks.Keys == s.asks.Keys
    && (forall b :: b in s.asks && b != a ==> later.asks[b] == s.asks[b])
    && (a in s.asks ==> SameTurn(s.asks[a], later.asks[a]) && later.asks[a].context == s.asks[a].context)
    && (a in s.asks && Looked(later.asks[a].stage) ==> Looked(s.asks[a].stage))
  }

  lemma LockMoves(s: State, a: AskId)
    ensures OneTurnMoves(s, a, DoTakeTurn(s, a)) && OneTurnMoves(s, a, DoReturn(s, a))
    ensures OneTurnMoves(s, a, DoFailEarly(s, a))
  {
  }

  lemma RequestMoves(s: State, a: AskId, delivered: bool)
    ensures OneTurnMoves(s, a, DoRegister(s, a)) && OneTurnMoves(s, a, DoSendDone(s, a, delivered))
  {
  }

  lemma DeliverMoves(s: State, source: string, id: RequestId, result: TurnResult) returns (a: AskId)
    ensures OneTurnMoves(s, a, DoDeliver(s, source, id, result))
  {
    a := if id in s.pending then s.pending[id].ask else AskId(0, 0);
  }

  lemma SettleMoves(s: State, a: AskId, now: nat, alphanumeric: char -> bool)
    ensures OneTurnMoves(s, a, DoSettle(s, a, now, alphanumeric))
  {
    hide Pushed, AnswerText, Role;
  }

  lemma JoinMovesOne(s: State, a: AskId, now: nat, note: string, alphanumeric: char -> bool)
    ensures OneTurnMoves(s, a, DoJoin(s, a, now, note, alphanumeric))
  {
    hide Pushed;
  }

  lemma SendAddsTurns(s: State, e: Event, alphanumeric: char -> bool)
    requires e.Send? && forall a :: a in s.asks ==> a.run < s.nextRun
    ensures var later := DoSend(s, e, alphanumeric); SameTurns(s, e, later) && NewTurnsAreBlank(s, later)
  {
    hide SendVerdict, Sent, FirstAsks, TakesContext;
  }

  lemma FollowUpAddsTurns(s: State, e: Event)
    requires e.FollowUp? && AskInv(s.store.rooms, s.runs, s.nextRun, s.asks)
    ensures var later := DoFollowUp(s, e.run, e.now, e.note); SameTurns(s, e, later) && NewTurnsAreBlank(s, later)
  {
    hide Pushed, TurnsOk, TakesContext;
    assert e.run in s.runs ==> AskId(e.run, s.runs[e.run].turns) !in s.asks;
  }

  lemma SnapshotTakes(s: State, a: AskId)
    ensures var later := DoSnapshot(s, a); SameTurns(s, Snapshot(a), later) && NewTurnsAreBlank(s, later)
  {
    hide TurnContext;
  }

  lemma MovesAreSame(s: State, e: Event, a: AskId, later: State)
    requires OneTurnMoves(s, a, later)
    ensures SameTurns(s, e, later) && NewTurnsAreBlank(s, later)
  {
    hide TakesContext;
  }

  lemma StepTurns(s: State, e: Event, alphanumeric: char -> bool)
    requires AskInv(s.store.rooms, s.runs, s.nextRun, s.asks)
    ensures SameTurns(s, e, Step(s, e, alphanumeric)) && NewTurnsAreBlank(s, Step(s, e, alphanumeric))
  {
    hide SameTurns, NewTurnsAreBlank, OneTurnMoves, TurnsOk, DoSend, DoFollowUp, DoSettle, DoJoin, DoSnapshot,
         DoRegister, DoDeliver, DoSendDone, DoTakeTurn, DoReturn, DoFailEarly, Pushed, SoloExists, WithActive,
         Finished;
    var later := Step(s, e, alphanumeric);
    match e
    case Send(_, _, _, _, _) => SendAddsTurns(s, e, alphanumeric);
    case FollowUp(_, _, _) => FollowUpAddsTurns(s, e);
    case Snapshot(a) => SnapshotTakes(s, a);
    case Settle(a, now) => SettleMoves(s, a, now, alphanumeric); MovesAreSame(s, e, a, later);
    case Join(a, now, note) => JoinMovesOne(s, a, now, note, alphanumeric); MovesAreSame(s, e, a, later);
    case FailEarly(a) => LockMoves(s, a); MovesAreSame(s, e, a, later);
    case TakeTurn(a) => LockMoves(s, a); MovesAreSame(s, e, a, later);
    case Return(a) => LockMoves(s, a); MovesAreSame(s, e, a, later);
    case Register(a) => RequestMoves(s, a, true); MovesAreSame(s, e, a, later);
    case SendDone(a, delivered) => RequestMoves(s, a, delivered); MovesAreSame(s, e, a, later);
    case Deliver(source, id, result) => var a := DeliverMoves(s, source, id, result); MovesAreSame(s, e, a, later);
    case _ => Untouched(s, e, later);
  }

  lemma Untouched(s: State, e: Event, later: State)
    requires later.asks == s.asks
    ensures SameTurns(s, e, later) && NewTurnsAreBlank(s, later)
  {
    hide TakesContext;
  }

  // ---------- whole runs ----------

  lemma {:induction false} ReachableInv(start: State, events: seq<Event>, n: nat, alphanumeric: char -> bool)
    requires Started(start) && n <= |events|
    ensures Inv(After(start, events, n, alphanumeric))
  {
    hide Inv, Step;
    if n == 0 {
      StartedInv(start);
    } else {
      ReachableInv(start, events, n - 1, alphanumeric);
      StepKeeps(After(start, events, n - 1, alphanumeric), events[n - 1], alphanumeric);
    }
  }

  lemma LaterTransitive(a: Store, b: Store, c: Store)
    requires Later(a, b) && Later(b, c)
    ensures Later(a, c)
  {
    GrowsTransitive(a.rooms, a.nextMessage, b.rooms, b.nextMessage, c.rooms);
  }

  /** Whatever happens between two moments of a run: rooms stay and only grow. */
  lemma {:induction false} RunIsLater(start: State, events: seq<Event>, k: nat, n: nat, alphanumeric: char -> bool)
    requires Started(start) && k <= n <= |events|
    ensures Later(After(start, events, k, alphanumeric).store, After(start, events, n, alphanumeric).store)
  {
    hide Step, Later;
    if k == n {
      SameIsLater(After(start, events, n, alphanumeric).store);
    } else {
      var s := After(start, events, n - 1, alphanumeric);
      RunIsLater(start, events, k, n - 1, alphanumeric);
      ReachableInv(start, events, n - 1, alphanumeric);
      StepIsLater(s, events[n - 1], alphanumeric);
      LaterTransitive(After(start, events, k, alphanumeric).store, s.store,
                      After(start, events, n, alphanumeric).store);
    }
  }

  /** Every context of a reachable state was taken at some earlier moment of the run, by the turn that it
      belongs to, while that turn held the lock of its member. */
  ghost predicate TakenAt(start: State, events: seq<Event>, k: nat, a: AskId, ask: Ask, alphanumeric: char -> bool)
    requires k < |events|
  {
    var s := After(start, events, k, alphanumeric);
    && a in s.asks && SameTurn(s.asks[a], ask) && TakesContext(s, events[k], a, ask)
  }

  lemma {:induction false} ContextsAreTaken(start: State, events: seq<Event>, n: nat, a: AskId,
                                            alphanumeric: char -> bool)
    returns (k: nat)
    requires Started(start) && n <= |events|
    requires a in After(start, events, n, alphanumeric).asks
    requires After(start, events, n, alphanumeric).asks[a].context.Some?
    ensures k < n && TakenAt(start, events, k, a, After(start, events, n, alphanumeric).asks[a], alphanumeric)
  {
    hide Step, TurnContext, StoreInv, RunInv, AskInv, LockInv, PendingInv, AnswersInv, SleepInv, StoreOk;
    var s := After(start, events, n - 1, alphanumeric);
    ReachableInv(start, events, n - 1, alphanumeric);
    StepTurns(s, events[n - 1], alphanumeric);
    if TakesContext(s, events[n - 1], a, After(start, events, n, alphanumeric).asks[a]) {
      k := n - 1;
    } else {
      k := ContextsAreTaken(start, events, n - 1, a, alphanumeric);
    }
  }
}
