/** Where follow-ups come from: every mention that a round queues stands in an answer that the round got. */
module Provenance {
  import opened Rooms
  import opened Paging
  import opened ChatOps
  import opened Coordinator
  import opened Invariants
  import opened Runs
  import opened Continuity
  import opened Stages
  import Promises
  import Mentions

  predicate HasAnswer(stage: Stage) {
    (stage.Settled? || stage.Returned?) && stage.outcome.Answered?
  }

  /** This entry of the log is the answer of this turn. */
  predicate GivenBy(e: Entry, a: AskId, ask: Ask) {
    HasAnswer(ask.stage) && e.Gave? && e.ask == a && e.member == ask.member && e.text == ask.stage.outcome.text
  }

  predicate IsGiven(log: seq<Entry>, a: AskId, ask: Ask) {
    exists e :: e in log && GivenBy(e, a, ask)
  }

  predicate AnswersAreGiven(asks: map<AskId, Ask>, log: seq<Entry>) {
    forall a :: a in asks && HasAnswer(asks[a].stage) ==> IsGiven(log, a, asks[a])
  }

  /** An answer of this round that mentions `p.1`. */
  predicate CalledBy(e: Entry, r: nat, p: (string, string), members: seq<string>, alphanumeric: char -> bool) {
    e.Gave? && e.ask.run == r && e.member == p.0 && p in Mentions.FollowUps(e.member, e.text, members, alphanumeric)
  }

  predicate IsCalled(log: seq<Entry>, r: nat, p: (string, string), members: seq<string>, alphanumeric: char -> bool) {
    exists e :: e in log && CalledBy(e, r, p, members, alphanumeric)
  }

  predicate RunIsCalled(rooms: Rooms, log: seq<Entry>, r: nat, run: Run, alphanumeric: char -> bool) {
    run.room in rooms && forall p :: p in run.enqueued ==> IsCalled(log, r, p, rooms[run.room].members, alphanumeric)
  }

  predicate MentionsAreCalled(rooms: Rooms, runs: map<nat, Run>, log: seq<Entry>, alphanumeric: char -> bool) {
    forall r :: r in runs ==> RunIsCalled(rooms, log, r, runs[r], alphanumeric)
  }

  // ---------- one step ----------

  /** Answers appear when a turn settles, and stay what they are. */
  predicate OutcomesStay(s: State, e: Event, later: State) {
    forall a :: a in later.asks && HasAnswer(later.asks[a].stage) ==>
      && a in s.asks && later.asks[a].member == s.asks[a].member
      && (if e == Settle(a, if e.Settle? then e.now else 0) && !HasAnswer(s.asks[a].stage)
          then Settles(s, s.asks[a], a, later)
          else HasAnswer(s.asks[a].stage) && later.asks[a].stage.outcome == s.asks[a].stage.outcome)
  }

  lemma SettleOutcomes(s: State, a: AskId, now: nat, alphanumeric: char -> bool)
    ensures OutcomesStay(s, Settle(a, now), DoSettle(s, a, now, alphanumeric))
  {
    hide Pushed, Role, AnswerText;
  }

  lemma OutcomeStays(s: State, e: Event, later: State, a: AskId)
    requires GoesOn(s, e, later, a) && HasAnswer(later.asks[a].stage) && !e.Settle?
    ensures HasAnswer(s.asks[a].stage) && later.asks[a].stage.outcome == s.asks[a].stage.outcome
  {
  }

  lemma StepOutcomes(s: State, e: Event, alphanumeric: char -> bool)
    requires AskInv(s.store.rooms, s.runs, s.nextRun, s.asks) && PendingInv(s.asks, s.pending, s.nextRequest)
    ensures OutcomesStay(s, e, Step(s, e, alphanumeric))
  {
    hide AskInv, PendingInv, TakesContext, Step, GoesOn, Looked;
    var later := Step(s, e, alphanumeric);
    StepTurns(s, e, alphanumeric);
    if e.Settle? {
      SettleOutcomes(s, e.ask, e.now, alphanumeric);
      assert later == DoSettle(s, e.ask, e.now, alphanumeric) by { SettleIsAStep(s, e.ask, e.now, alphanumeric); }
    } else {
      forall a | a in later.asks && HasAnswer(later.asks[a].stage)
        ensures a in s.asks && later.asks[a].member == s.asks[a].member
        ensures HasAnswer(s.asks[a].stage) && later.asks[a].stage.outcome == s.asks[a].stage.outcome
      {
        TurnsGoOn(s, e, alphanumeric, a);
        OutcomeStays(s, e, later, a);
      }
    }
  }

  lemma SettleIsAStep(s: State, a: AskId, now: nat, alphanumeric: char -> bool)
    ensures Step(s, Settle(a, now), alphanumeric) == DoSettle(s, a, now, alphanumeric)
  {
  }

  lemma StepGives(s: State, e: Event, later: State)
    requires AnswersAreGiven(s.asks, s.log) && OutcomesStay(s, e, later) && LogGrows(s, e, later)
    ensures AnswersAreGiven(later.asks, later.log)
  {
    forall a | a in later.asks && HasAnswer(later.asks[a].stage)
      ensures IsGiven(later.log, a, later.asks[a])
    {
      if HasAnswer(s.asks[a].stage) {
        var g :| g in s.log && GivenBy(g, a, s.asks[a]);
        assert g in later.log && GivenBy(g, a, later.asks[a]);
      } else {
        assert GivenBy(later.log[|s.log|], a, later.asks[a]);
      }
    }
  }

  /** A queue grows when an answer is joined, by what this answer mentions. */
  predicate QueuesGrow(s: State, e: Event, later: State, alphanumeric: char -> bool) {
    forall r :: r in later.runs ==>
      && (r !in s.runs ==> later.runs[r].enqueued == [])
      && (r in s.runs ==> later.runs[r].room == s.runs[r].room)
      && (r in s.runs && later.runs[r].enqueued != s.runs[r].enqueued ==> Joins(s, e, r, later.runs[r], alphanumeric))
  }

  predicate Joins(s: State, e: Event, r: nat, run: Run, alphanumeric: char -> bool)
    requires r in s.runs
  {
    && e.Join? && e.ask.run == r && e.ask in s.asks && HasAnswer(s.asks[e.ask].stage)
    && s.asks[e.ask].room in s.store.rooms
    && run.enqueued == s.runs[r].enqueued + Mentions.FollowUps(s.asks[e.ask].member, s.asks[e.ask].stage.outcome.text,
                                                              s.store.rooms[s.asks[e.ask].room].members, alphanumeric)
  }

  lemma StepQueues(s: State, e: Event, alphanumeric: char -> bool)
    requires RunInv(s.store, s.stuck, s.runs, s.nextRun)
    ensures QueuesGrow(s, e, Step(s, e, alphanumeric), alphanumeric)
  {
    hide DoJoin, DoSend, DoFollowUp, DoFinish, QueuesGrow, RunInv, WithActive, Pushed, AnswerText, Role, TurnContext,
         SoloExists, MembersOk, Reports, SleptEntries;
    match e
    case Join(_, _, _) => JoinQueues(s, e, alphanumeric);
    case Send(_, _, _, _, _) => SendQueues(s, e, alphanumeric);
    case FollowUp(r, now, note) => FollowUpQueues(s, e, r, now, note, alphanumeric);
    case Finish(r, now) => FinishQueues(s, e, r, now, alphanumeric);
    case _ => SameQueues(s, e, Step(s, e, alphanumeric), alphanumeric);
  }

  lemma SameQueues(s: State, e: Event, later: State, alphanumeric: char -> bool)
    requires later.runs == s.runs
    ensures QueuesGrow(s, e, later, alphanumeric)
  {
    hide Joins;
  }

  lemma SendQueues(s: State, e: Event, alphanumeric: char -> bool)
    requires RunInv(s.store, s.stuck, s.runs, s.nextRun) && e.Send?
    ensures QueuesGrow(s, e, DoSend(s, e, alphanumeric), alphanumeric)
  {
    hide Joins, RunOk, HasRun, SendVerdict, Sent, FirstAsks;
  }

  lemma FollowUpQueues(s: State, e: Event, r: nat, now: nat, note: string, alphanumeric: char -> bool)
    ensures QueuesGrow(s, e, DoFollowUp(s, r, now, note), alphanumeric)
  {
    hide Joins, Pushed, AllJoined;
  }

  lemma FinishQueues(s: State, e: Event, r: nat, now: nat, alphanumeric: char -> bool)
    ensures QueuesGrow(s, e, DoFinish(s, r, now), alphanumeric)
  {
    hide Joins, Finished, AllJoined;
  }

  lemma JoinQueues(s: State, e: Event, alphanumeric: char -> bool)
    requires e.Join?
    ensures QueuesGrow(s, e, DoJoin(s, e.ask, e.now, e.note, alphanumeric), alphanumeric)
  {
    hide Pushed;
  }

  lemma CalledLater(log: seq<Entry>, later: seq<Entry>, r: nat, p: (string, string), members: seq<string>,
                    alphanumeric: char -> bool)
    requires IsCalled(log, r, p, members, alphanumeric) && log <= later
    ensures IsCalled(later, r, p, members, alphanumeric)
  {
    var e :| e in log && CalledBy(e, r, p, members, alphanumeric);
    assert e in later;
  }

  lemma JoinedIsCalled(s: State, e: Event, r: nat, run: Run, p: (string, string), alphanumeric: char -> bool)
    requires r in s.runs && Joins(s, e, r, run, alphanumeric) && AnswersAreGiven(s.asks, s.log)
    requires p in run.enqueued && p !in s.runs[r].enqueued
    ensures IsCalled(s.log, r, p, s.store.rooms[s.asks[e.ask].room].members, alphanumeric)
  {
    var ask := s.asks[e.ask];
    var g :| g in s.log && GivenBy(g, e.ask, ask);
    var more := Mentions.FollowUps(ask.member, ask.stage.outcome.text, s.store.rooms[ask.room].members, alphanumeric);
    assert p in more;
    hide Mentions.FollowUps;
    assert CalledBy(g, r, p, s.store.rooms[ask.room].members, alphanumeric);
  }

  lemma RunStaysCalled(s: State, e: Event, later: State, r: nat, alphanumeric: char -> bool)
    requires Inv(s) && AnswersAreGiven(s.asks, s.log) && r in s.runs && r in later.runs
    requires RunIsCalled(s.store.rooms, s.log, r, s.runs[r], alphanumeric)
    requires QueuesGrow(s, e, later, alphanumeric) && LogGrows(s, e, later) && Later(s.store, later.store)
    ensures RunIsCalled(later.store.rooms, later.log, r, later.runs[r], alphanumeric)
  {
    hide StoreInv, LockInv, PendingInv, AnswersInv, SleepInv, RunInv, AskInv, IsCalled, HasAnswer, Settles;
    var room := s.runs[r].room;
    assert Continues(s.store.rooms[room], later.store.rooms[room], s.store.nextMessage);
    forall p | p in later.runs[r].enqueued
      ensures IsCalled(later.log, r, p, later.store.rooms[room].members, alphanumeric)
    {
      if p !in s.runs[r].enqueued {
        TurnOfRound(s, e.ask);
        JoinedIsCalled(s, e, r, later.runs[r], p, alphanumeric);
      }
      CalledLater(s.log, later.log, r, p, s.store.rooms[room].members, alphanumeric);
    }
  }

  lemma StepCalls(s: State, e: Event, alphanumeric: char -> bool)
    requires Inv(s) && AnswersAreGiven(s.asks, s.log) && MentionsAreCalled(s.store.rooms, s.runs, s.log, alphanumeric)
    ensures var later := Step(s, e, alphanumeric);
            && AnswersAreGiven(later.asks, later.log)
            && MentionsAreCalled(later.store.rooms, later.runs, later.log, alphanumeric)
  {
    hide StoreInv, RunInv, AskInv, LockInv, PendingInv, AnswersInv, SleepInv, Step, OutcomesStay, LogGrows, Later,
         RunIsCalled, AnswersAreGiven;
    var later := Step(s, e, alphanumeric);
    StepLog(s, e, alphanumeric);
    StepOutcomes(s, e, alphanumeric);
    StepQueues(s, e, alphanumeric);
    StepIsLater(s, e, alphanumeric);
    StepGives(s, e, later);
    StepKeeps(s, e, alphanumeric);
    forall r | r in later.runs
      ensures RunIsCalled(later.store.rooms, later.log, r, later.runs[r], alphanumeric)
    {
      if r in s.runs {
        RunStaysCalled(s, e, later, r, alphanumeric);
      } else {
        NewRunIsCalled(later, r, alphanumeric);
      }
    }
  }

  lemma NewRunIsCalled(s: State, r: nat, alphanumeric: char -> bool)
    requires RunInv(s.store, s.stuck, s.runs, s.nextRun) && r in s.runs && s.runs[r].enqueued == []
    ensures RunIsCalled(s.store.rooms, s.log, r, s.runs[r], alphanumeric)
  {
    assert RunOk(s.store, s.stuck, s.runs[r]);
  }

  // ---------- whole runs ----------

  lemma {:induction false} ReachableCalls(start: State, events: seq<Event>, n: nat, alphanumeric: char -> bool)
    requires Started(start) && n <= |events|
    ensures var s := After(start, events, n, alphanumeric);
            AnswersAreGiven(s.asks, s.log) && MentionsAreCalled(s.store.rooms, s.runs, s.log, alphanumeric)
  {
    hide Step, Inv, RunIsCalled;
    if n > 0 {
      hide Started, AnswersAreGiven, MentionsAreCalled;
      ReachableCalls(start, events, n - 1, alphanumeric);
      ReachableInv(start, events, n - 1, alphanumeric);
      StepCalls(After(start, events, n - 1, alphanumeric), events[n - 1], alphanumeric);
    }
  }

  /** Each follow-up that a round has queued was called for by an answer of this very round: its source gave
      the answer, and the answer mentions its target and does not address the user. */
  lemma FollowUpsComeFromAnswers(start: State, events: seq<Event>, n: nat, alphanumeric: char -> bool, r: nat,
                                 p: (string, string))
    requires Started(start) && n <= |events| && r in After(start, events, n, alphanumeric).runs
    requires p in After(start, events, n, alphanumeric).runs[r].enqueued
    ensures var s := After(start, events, n, alphanumeric);
            exists e :: e in s.log && e.Gave? && e.ask.run == r && e.room == s.runs[r].room && e.member == p.0
                        && p.1 in Mentions.Candidates(e.text, alphanumeric)
                        && !Mentions.MentionsUser(e.text, alphanumeric)
  {
    hide Step, Inv, Started, AnswersAreGiven;
    var s := After(start, events, n, alphanumeric);
    ReachableCalls(start, events, n, alphanumeric);
    assert RunIsCalled(s.store.rooms, s.log, r, s.runs[r], alphanumeric);
    var e :| e in s.log && CalledBy(e, r, p, s.store.rooms[s.runs[r].room].members, alphanumeric);
    Mentioned(e.member, e.text, s.store.rooms[s.runs[r].room].members, alphanumeric, p);
    AnswerOfRound(start, events, n, alphanumeric, e);
  }

  lemma Mentioned(source: string, text: string, members: seq<string>, alphanumeric: char -> bool, p: (string, string))
    requires p in Mentions.FollowUps(source, text, members, alphanumeric)
    ensures p.1 in Mentions.Candidates(text, alphanumeric) && !Mentions.MentionsUser(text, alphanumeric)
  {
    hide Mentions.Candidates, Mentions.MentionsUser;
  }

  lemma AnswerOfRound(start: State, events: seq<Event>, n: nat, alphanumeric: char -> bool, e: Entry)
    requires Started(start) && n <= |events|
    requires var s := After(start, events, n, alphanumeric); e in s.log && e.Gave? && e.ask.run in s.runs
    ensures var s := After(start, events, n, alphanumeric); e.room == s.runs[e.ask.run].room
  {
    hide Step, StoreInv, RunInv, AskInv, LockInv, PendingInv, AnswersInv, SleepInv, Started, RememberInv;
    var s := After(start, events, n, alphanumeric);
    ReachableInv(start, events, n, alphanumeric);
    Promises.ReachableRemembers(start, events, n, alphanumeric);
    assert AnswersTheRound(s.asks, e) && Precedes(s.asks[e.ask], e);
    TurnOfRound(s, e.ask);
  }
}
