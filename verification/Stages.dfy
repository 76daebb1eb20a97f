/** The life of one turn: which event moves it, and where to. */
module Stages {
  import opened Options
  import opened ChatOps
  import opened Coordinator
  import opened Invariants
  import Mentions
  import Rooms

  /** The one way on from each stage. */
  predicate Goes(before: Stage, after: Stage, e: Event, a: AskId) {
    match before
    case Queued => (e == TakeTurn(a) && after == Holding) || (e == FailEarly(a) && after == Returned(Failed))
    case Holding => e == Snapshot(a) && (after == Snapshotted || after == Settled(Failed))
    case Snapshotted => e == Register(a) && after.Requested? && !after.sent && after.reply == None
    case Requested(id, sent, reply) =>
      || (e.SendDone? && e.ask == a && !sent && after == if e.delivered then before.(sent := true) else Settled(Failed))
      || (e.Deliver? && e.request == id && reply == None && after == before.(reply := Some(e.result)))
      || (e.Settle? && e.ask == a && sent && reply.Some? && after.Settled?)
    case Settled(outcome) => e == Return(a) && after == Returned(outcome)
    case Returned(outcome) => e.Join? && e.ask == a && after == Joined
    case Joined => false
  }

  /** The event moves this turn, and no other. */
  predicate OnlyMoves(s: State, e: Event, a: AskId, later: State) {
    && later.asks.Keys == s.asks.Keys
    && (forall b :: b in s.asks && b != a ==> later.asks[b] == s.asks[b])
    && (a in s.asks ==> later.asks[a].stage == s.asks[a].stage || Goes(s.asks[a].stage, later.asks[a].stage, e, a))
  }

  lemma LockGoes(s: State, a: AskId)
    ensures OnlyMoves(s, TakeTurn(a), a, DoTakeTurn(s, a))
    ensures OnlyMoves(s, Return(a), a, DoReturn(s, a))
    ensures OnlyMoves(s, FailEarly(a), a, DoFailEarly(s, a))
  {
  }

  lemma SnapshotGoes(s: State, a: AskId)
    ensures OnlyMoves(s, Snapshot(a), a, DoSnapshot(s, a))
  {
    hide Rooms.TurnContext;
  }

  lemma RequestGoes(s: State, a: AskId, delivered: bool)
    ensures OnlyMoves(s, Register(a), a, DoRegister(s, a))
    ensures OnlyMoves(s, SendDone(a, delivered), a, DoSendDone(s, a, delivered))
  {
  }

  lemma DeliverGoes(s: State, source: string, id: RequestId, result: TurnResult) returns (a: AskId)
    requires PendingInv(s.asks, s.pending, s.nextRequest)
    ensures OnlyMoves(s, Deliver(source, id, result), a, DoDeliver(s, source, id, result))
  {
    a := if id in s.pending then s.pending[id].ask else AskId(0, 0);
    assert id in s.pending ==> Waits(s.asks, a, id);
  }

  lemma SettleGoes(s: State, a: AskId, now: nat, alphanumeric: char -> bool)
    ensures OnlyMoves(s, Settle(a, now), a, DoSettle(s, a, now, alphanumeric))
  {
    hide Pushed, Role, AnswerText;
  }

  lemma JoinGoes(s: State, a: AskId, now: nat, note: string, alphanumeric: char -> bool)
    ensures OnlyMoves(s, Join(a, now, note), a, DoJoin(s, a, now, note, alphanumeric))
  {
    hide Pushed, Mentions.FollowUps;
  }

  lemma RoundEventsKeepTurns(s: State, e: Event, alphanumeric: char -> bool)
    requires AskInv(s.store.rooms, s.runs, s.nextRun, s.asks) && (e.Send? || e.FollowUp?)
    ensures forall a :: a in s.asks ==>
              a in Step(s, e, alphanumeric).asks && Step(s, e, alphanumeric).asks[a] == s.asks[a]
  {
    hide Pushed, SendVerdict, Sent, FirstAsks, TurnsOk, AllJoined;
    if e.FollowUp? && e.run in s.runs {
      assert AskId(e.run, s.runs[e.run].turns) !in s.asks;
    }
  }

  /** Every event leaves a turn at its stage, or takes it on to the next. */
  predicate GoesOn(s: State, e: Event, later: State, a: AskId) {
    && a in s.asks && a in later.asks
    && (later.asks[a].stage == s.asks[a].stage || Goes(s.asks[a].stage, later.asks[a].stage, e, a))
  }

  lemma MovedGoesOn(s: State, e: Event, later: State, b: AskId, a: AskId)
    requires OnlyMoves(s, e, b, later) && a in s.asks
    ensures GoesOn(s, e, later, a)
  {
    hide Goes;
  }

  lemma TurnsGoOn(s: State, e: Event, alphanumeric: char -> bool, a: AskId)
    requires AskInv(s.store.rooms, s.runs, s.nextRun, s.asks) && PendingInv(s.asks, s.pending, s.nextRequest)
    requires a in s.asks
    ensures GoesOn(s, e, Step(s, e, alphanumeric), a)
  {
    hide AskInv, PendingInv, OnlyMoves, Goes, DoSend, DoFollowUp, DoSettle, DoJoin, DoSnapshot, DoRegister, DoDeliver,
         DoSendDone, DoTakeTurn, DoReturn, DoFailEarly, Pushed, SoloExists, WithActive, Finished;
    var later := Step(s, e, alphanumeric);
    match e
    case Send(_, _, _, _, _) => RoundEventsKeepTurns(s, e, alphanumeric);
    case FollowUp(_, _, _) => RoundEventsKeepTurns(s, e, alphanumeric);
    case Settle(b, now) => SettleGoes(s, b, now, alphanumeric); MovedGoesOn(s, e, later, b, a);
    case Snapshot(b) => SnapshotGoes(s, b); MovedGoesOn(s, e, later, b, a);
    case Join(b, now, note) => JoinGoes(s, b, now, note, alphanumeric); MovedGoesOn(s, e, later, b, a);
    case FailEarly(b) => LockGoes(s, b); MovedGoesOn(s, e, later, b, a);
    case TakeTurn(b) => LockGoes(s, b); MovedGoesOn(s, e, later, b, a);
    case Return(b) => LockGoes(s, b); MovedGoesOn(s, e, later, b, a);
    case Register(b) => RequestGoes(s, b, true); MovedGoesOn(s, e, later, b, a);
    case SendDone(b, delivered) => RequestGoes(s, b, delivered); MovedGoesOn(s, e, later, b, a);
    case Deliver(source, id, result) =>
      var b := DeliverGoes(s, source, id, result);
      MovedGoesOn(s, e, later, b, a);
    case _ =>
  }

  /** What it takes for an event to move this turn. */
  predicate MayMove(s: State, e: Event, a: AskId)
    requires a in s.asks
  {
    var stage := s.asks[a].stage;
    match e
    case TakeTurn(b) => b == a && stage == Queued && s.asks[a].member !in s.holders
    case FailEarly(b) => b == a && stage == Queued
    case Snapshot(b) => b == a && stage == Holding
    case Register(b) => b == a && stage == Snapshotted
    case SendDone(b, _) => b == a && stage.Requested? && !stage.sent
    case Deliver(source, id, _) =>
      stage.Requested? && stage.id == id && stage.reply == None && source == s.asks[a].member
    case Settle(b, _) => b == a && stage.Requested? && stage.sent && stage.reply.Some?
    case Return(b) => b == a && stage.Settled?
    case Join(b, _, _) => b == a && stage.Returned?
    case _ => false
  }

  /** In every state in order, an event moves a turn exactly when the turn is at the stage that the event is for;
      only the lock may make it wait. */
  lemma TurnsMoveExactly(s: State, e: Event, alphanumeric: char -> bool, a: AskId)
    requires Inv(s) && a in s.asks
    ensures GoesOn(s, e, Step(s, e, alphanumeric), a)
    ensures Step(s, e, alphanumeric).asks[a].stage != s.asks[a].stage <==> MayMove(s, e, a)
  {
    hide StoreInv, RunInv, LockInv, AnswersInv, SleepInv, AskFits, Goes, DoSend, DoFollowUp, DoSettle, DoJoin,
         DoSnapshot, DoRegister, DoDeliver, DoSendDone, DoTakeTurn, DoReturn, DoFailEarly, DoSleep, Pushed, SoloExists,
         WithActive, Finished;
    TurnsGoOn(s, e, alphanumeric, a);
    match e
    case Send(_, _, _, _, _) => RoundEventsKeepTurns(s, e, alphanumeric);
    case FollowUp(_, _, _) => RoundEventsKeepTurns(s, e, alphanumeric);
    case Deliver(source, id, result) => RepliesMoveExactly(s, source, id, result, a);
    case Settle(b, now) => SettleMoves(s, b, now, alphanumeric, a);
    case Join(b, now, note) => JoinMoves(s, b, now, note, alphanumeric, a);
    case SendDone(b, delivered) => SendDoneMoves(s, b, delivered, a);
    case Snapshot(b) => SnapshotMoves(s, b, a);
    case _ => PlainMoves(s, e, alphanumeric, a);
  }

  lemma SendDoneMoves(s: State, b: AskId, delivered: bool, a: AskId)
    requires a in s.asks
    ensures var later := DoSendDone(s, b, delivered);
            a in later.asks && (later.asks[a].stage != s.asks[a].stage <==> MayMove(s, SendDone(b, delivered), a))
  {
  }

  lemma SnapshotMoves(s: State, b: AskId, a: AskId)
    requires a in s.asks
    ensures var later := DoSnapshot(s, b);
            a in later.asks && (later.asks[a].stage != s.asks[a].stage <==> MayMove(s, Snapshot(b), a))
  {
    hide Rooms.TurnContext;
  }

  lemma PlainMoves(s: State, e: Event, alphanumeric: char -> bool, a: AskId)
    requires a in s.asks && a in Step(s, e, alphanumeric).asks
    requires !e.Send? && !e.FollowUp? && !e.Deliver? && !e.Settle? && !e.Join? && !e.SendDone? && !e.Snapshot?
    ensures Step(s, e, alphanumeric).asks[a].stage != s.asks[a].stage <==> MayMove(s, e, a)
  {
    hide SoloExists, WithActive, Finished, ChatOps.Slept, Reports, WithArchived, ArchiveVerdict, MembersOk, AllJoined,
         DoSend, DoFollowUp, DoDeliver, DoSettle, DoJoin, DoSendDone, DoSnapshot;
  }

  lemma SettleMoves(s: State, b: AskId, now: nat, alphanumeric: char -> bool, a: AskId)
    requires a in s.asks && a in DoSettle(s, b, now, alphanumeric).asks
    ensures DoSettle(s, b, now, alphanumeric).asks[a].stage != s.asks[a].stage <==> MayMove(s, Settle(b, now), a)
  {
    hide Pushed, Role, AnswerText;
  }

  lemma JoinMoves(s: State, b: AskId, now: nat, note: string, alphanumeric: char -> bool, a: AskId)
    requires AskInv(s.store.rooms, s.runs, s.nextRun, s.asks)
    requires a in s.asks && a in DoJoin(s, b, now, note, alphanumeric).asks
    ensures DoJoin(s, b, now, note, alphanumeric).asks[a].stage != s.asks[a].stage <==>
              MayMove(s, Join(b, now, note), a)
  {
    hide Pushed, Mentions.FollowUps, TurnsOk;
    assert s.asks[a].stage.Returned? ==> a.run in s.runs;
    hide AskInv;
  }

  lemma RepliesMoveExactly(s: State, source: string, id: RequestId, result: TurnResult, a: AskId)
    requires PendingInv(s.asks, s.pending, s.nextRequest) && a in s.asks
    ensures var later := DoDeliver(s, source, id, result);
            && a in later.asks
            && (later.asks[a].stage != s.asks[a].stage <==> MayMove(s, Deliver(source, id, result), a))
  {
    if id in s.pending {
      assert Waits(s.asks, s.pending[id].ask, id);
    }
  }
}
