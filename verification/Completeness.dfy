/** No mention is overlooked: when a round ends, everything that its answers asked for has been queued. */
module Completeness {
  import opened Rooms
  import opened Paging
  import opened ChatOps
  import opened Coordinator
  import opened Invariants
  import opened Runs
  import opened Continuity
  import opened Stages
  import opened Provenance
  import Rounds
  import Termination
  import Mentions

  /** All that this answer mentions is in the queue of its round. */
  predicate IsQueued(rooms: Rooms, run: Run, e: Entry, alphanumeric: char -> bool)
    requires e.Gave?
  {
    e.room in rooms
    && forall p :: p in Mentions.FollowUps(e.member, e.text, rooms[e.room].members, alphanumeric) ==> p in run.enqueued
  }

  /** A given answer is still to be joined, or its mentions are queued; unless its round is over. */
  predicate IsHeeded(rooms: Rooms, runs: map<nat, Run>, asks: map<AskId, Ask>, e: Entry, alphanumeric: char -> bool)
    requires e.Gave?
  {
    && e.ask in asks && asks[e.ask].member == e.member && asks[e.ask].room == e.room
    && (IsOutcome(asks[e.ask].stage, e.text)
        || (asks[e.ask].stage == Joined
            && (e.ask.run in runs && runs[e.ask.run].group ==> IsQueued(rooms, runs[e.ask.run], e, alphanumeric))))
  }

  predicate IsOutcome(stage: Stage, text: string) {
    HasAnswer(stage) && stage.outcome.text == text
  }

  predicate AllHeeded(s: State, alphanumeric: char -> bool) {
    forall e :: e in s.log && e.Gave? ==> IsHeeded(s.store.rooms, s.runs, s.asks, e, alphanumeric)
  }

  // ---------- one step ----------

  /** Joining an answer queues all that it mentions. */
  lemma JoinQueuesAll(s: State, e: Event, alphanumeric: char -> bool, text: string)
    requires e.Join? && e.ask in s.asks && s.asks[e.ask].stage == Returned(Answered(text)) && e.ask.run in s.runs
    requires s.runs[e.ask.run].group && s.asks[e.ask].room in s.store.rooms
    ensures var later, ask := Step(s, e, alphanumeric), s.asks[e.ask];
            && e.ask.run in later.runs
            && later.runs[e.ask.run].enqueued == s.runs[e.ask.run].enqueued
                 + Mentions.FollowUps(ask.member, text, s.store.rooms[ask.room].members, alphanumeric)
  {
    hide Mentions.FollowUps;
  }

  lemma QueueStays(s: State, e: Event, later: State, r: nat, g: Entry, alphanumeric: char -> bool)
    requires QueuesGrow(s, e, later, alphanumeric) && Later(s.store, later.store) && g.Gave?
    requires r in s.runs && r in later.runs && IsQueued(s.store.rooms, s.runs[r], g, alphanumeric)
    ensures IsQueued(later.store.rooms, later.runs[r], g, alphanumeric)
  {
    hide Mentions.FollowUps, HasAnswer;
    assert Continues(s.store.rooms[g.room], later.store.rooms[g.room], s.store.nextMessage);
  }

  lemma SameGroup(s: State, e: Event, alphanumeric: char -> bool, r: nat)
    requires forall q :: q in s.runs ==> q < s.nextRun
    requires r in s.runs && r in Step(s, e, alphanumeric).runs
    ensures Step(s, e, alphanumeric).runs[r].group == s.runs[r].group
  {
    hide Pushed, Role, AnswerText, SendVerdict, Sent, FirstAsks, TurnContext, SoloExists, WithRoom, Finished, Reports,
         ChatOps.Slept, WithActive, AllJoined, SleptEntries, MembersOk, Mentions.FollowUps;
  }

  lemma RunsAreOld(s: State, e: Event, alphanumeric: char -> bool, a: AskId)
    requires AskInv(s.store.rooms, s.runs, s.nextRun, s.asks) && a in s.asks
    requires a.run in Step(s, e, alphanumeric).runs
    ensures a.run in s.runs
  {
    hide Step, TurnsOk;
    Termination.GoneRoundsStayGone(s, e, alphanumeric, a.run);
  }

  /** What the step makes of the turn that gave an answer. */
  lemma AnswerGoesOn(s: State, e: Event, later: State, a: AskId, text: string)
    requires GoesOn(s, e, later, a) && (IsOutcome(s.asks[a].stage, text) || s.asks[a].stage == Joined)
    ensures || (IsOutcome(s.asks[a].stage, text) && IsOutcome(later.asks[a].stage, text))
            || (s.asks[a].stage == Joined && later.asks[a].stage == Joined)
            || (e.Join? && e.ask == a && s.asks[a].stage == Returned(Answered(text)) && later.asks[a].stage == Joined)
  {
  }

  lemma OldAnswerIsHeeded(s: State, e: Event, alphanumeric: char -> bool, g: Entry)
    requires Inv(s) && g in s.log && g.Gave? && IsHeeded(s.store.rooms, s.runs, s.asks, g, alphanumeric)
    ensures var later := Step(s, e, alphanumeric); IsHeeded(later.store.rooms, later.runs, later.asks, g, alphanumeric)
  {
    hide StoreInv, RunInv, AskInv, LockInv, PendingInv, AnswersInv, SleepInv, Step, GoesOn, IsOutcome, IsQueued,
         Later, QueuesGrow, TakesContext, Looked;
    var later := Step(s, e, alphanumeric);
    var a := g.ask;
    TurnsGoOn(s, e, alphanumeric, a);
    StepTurns(s, e, alphanumeric);
    assert a in later.asks;
    AnswerGoesOn(s, e, later, a, g.text);
    JoinedHasNoOutcome(later.asks[a].stage, g.text);
    if later.asks[a].stage == Joined && a.run in later.runs && later.runs[a.run].group {
      RunsAreOld(s, e, alphanumeric, a);
      RunNumbers(s);
      SameGroup(s, e, alphanumeric, a.run);
      StepQueues(s, e, alphanumeric);
      StepIsLater(s, e, alphanumeric);
      if s.asks[a].stage == Joined {
        JoinedHasNoOutcome(Joined, g.text);
        QueueStays(s, e, later, a.run, g, alphanumeric);
      } else {
        KeptInRoom(s, g);
        JoinQueuesAll(s, e, alphanumeric, g.text);
        NowQueued(s, later, a.run, g, alphanumeric);
      }
    }
  }

  lemma JoinedHasNoOutcome(stage: Stage, text: string)
    ensures stage == Joined ==> !IsOutcome(stage, text)
  {
  }

  lemma RunNumbers(s: State)
    requires Inv(s)
    ensures forall q :: q in s.runs ==> q < s.nextRun
  {
    hide RunOk;
  }

  lemma KeptInRoom(s: State, g: Entry)
    requires AnswersInv(s.store.rooms, s.asks, s.log) && g in s.log && g.Gave?
    ensures g.room in s.store.rooms && g.member in s.store.rooms[g.room].members
  {
    assert IsKept(s.store.rooms, g);
  }

  lemma NowQueued(s: State, later: State, r: nat, g: Entry, alphanumeric: char -> bool)
    requires g.Gave? && r in s.runs && r in later.runs && g.room in s.store.rooms && Later(s.store, later.store)
    requires later.runs[r].enqueued == s.runs[r].enqueued
               + Mentions.FollowUps(g.member, g.text, s.store.rooms[g.room].members, alphanumeric)
    ensures IsQueued(later.store.rooms, later.runs[r], g, alphanumeric)
  {
    hide Mentions.FollowUps;
    assert Continues(s.store.rooms[g.room], later.store.rooms[g.room], s.store.nextMessage);
  }

  lemma NewAnswerIsHeeded(s: State, e: Event, later: State, g: Entry, alphanumeric: char -> bool)
    requires LogGrows(s, e, later) && SameTurns(s, e, later) && g in later.log[|s.log|..] && g.Gave?
    ensures IsHeeded(later.store.rooms, later.runs, later.asks, g, alphanumeric)
  {
    hide TakesContext, Mentions.FollowUps;
  }

  lemma StepHeeds(s: State, e: Event, alphanumeric: char -> bool)
    requires Inv(s) && AllHeeded(s, alphanumeric)
    ensures AllHeeded(Step(s, e, alphanumeric), alphanumeric)
  {
    hide StoreInv, RunInv, AskInv, LockInv, PendingInv, AnswersInv, SleepInv, Step, IsHeeded, SameTurns;
    var later := Step(s, e, alphanumeric);
    StepLog(s, e, alphanumeric);
    StepTurns(s, e, alphanumeric);
    hide Inv;
    forall g | g in later.log && g.Gave?
      ensures IsHeeded(later.store.rooms, later.runs, later.asks, g, alphanumeric)
    {
      if g in s.log {
        OldAnswerIsHeeded(s, e, alphanumeric, g);
      } else {
        AddedIsInSuffix(s.log, later.log, g);
        NewAnswerIsHeeded(s, e, later, g, alphanumeric);
      }
    }
  }

  // ---------- whole runs ----------

  lemma {:induction false} EveryRunHeeds(start: State, events: seq<Event>, n: nat, alphanumeric: char -> bool)
    requires Started(start) && n <= |events|
    ensures AllHeeded(After(start, events, n, alphanumeric), alphanumeric)
  {
    hide Step, Inv, IsHeeded;
    if n > 0 {
      hide Started, AllHeeded;
      EveryRunHeeds(start, events, n - 1, alphanumeric);
      ReachableInv(start, events, n - 1, alphanumeric);
      StepHeeds(After(start, events, n - 1, alphanumeric), events[n - 1], alphanumeric);
    }
  }

  /** When a round ends, every mention of another member in every answer that the round got has been queued. */
  lemma EveryMentionIsQueued(start: State, events: seq<Event>, n: nat, alphanumeric: char -> bool,
                             r: nat, now: nat, e: Entry, p: (string, string))
    requires Started(start) && n < |events| && events[n] == Finish(r, now)
    requires r in After(start, events, n, alphanumeric).runs && r !in After(start, events, n + 1, alphanumeric).runs
    requires var s := After(start, events, n, alphanumeric);
             && e in s.log && e.Gave? && e.ask.run == r && s.runs[r].room in s.store.rooms
             && p in Mentions.FollowUps(e.member, e.text, s.store.rooms[s.runs[r].room].members, alphanumeric)
    ensures p in After(start, events, n, alphanumeric).runs[r].enqueued
  {
    hide Step, StoreInv, LockInv, PendingInv, SleepInv, Started, RunOk, TurnsOk, IsKept, SeesAnswers, IsQueued,
         HasAnswer;
    var s := After(start, events, n, alphanumeric);
    ReachableInv(start, events, n, alphanumeric);
    EveryRunHeeds(start, events, n, alphanumeric);
    Rounds.EndOfRound(s, r, now, alphanumeric);
    assert IsHeeded(s.store.rooms, s.runs, s.asks, e, alphanumeric);
    AllTurnsJoined(s, e.ask);
    JoinedHasNoOutcome(s.asks[e.ask].stage, e.text);
    TurnOfRound(s, e.ask);
    if s.runs[r].group {
      QueuedPair(s.store.rooms, s.runs[r], e, p, alphanumeric);
    } else {
      KeptInRoom(s, e);
      AloneCallsNobody(s, r, e, p, alphanumeric);
    }
  }

  lemma AllTurnsJoined(s: State, a: AskId)
    requires AskInv(s.store.rooms, s.runs, s.nextRun, s.asks) && a in s.asks && a.run in s.runs && AllJoined(s, a.run)
    ensures s.asks[a].stage == Joined
  {
    hide TurnsOk;
    assert AskId(a.run, a.turn) == a;
  }

  lemma QueuedPair(rooms: Rooms, run: Run, e: Entry, p: (string, string), alphanumeric: char -> bool)
    requires e.Gave? && IsQueued(rooms, run, e, alphanumeric)
    requires p in Mentions.FollowUps(e.member, e.text, rooms[e.room].members, alphanumeric)
    ensures p in run.enqueued
  {
  }

  /** In a room with one member there is nobody else to call. */
  lemma AloneCallsNobody(s: State, r: nat, e: Entry, p: (string, string), alphanumeric: char -> bool)
    requires RunInv(s.store, s.stuck, s.runs, s.nextRun) && r in s.runs && !s.runs[r].group && e.Gave?
    requires s.runs[r].room in s.store.rooms && e.member in s.store.rooms[s.runs[r].room].members
    ensures p !in Mentions.FollowUps(e.member, e.text, s.store.rooms[s.runs[r].room].members, alphanumeric)
  {
    assert RunOk(s.store, s.stuck, s.runs[r]);
    hide RunInv;
  }
}
