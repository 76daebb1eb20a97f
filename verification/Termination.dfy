/** Rounds end: each step of a round uses up some of a fixed amount of work, in every run and whatever the
    turns answer. */
module Termination {
  import opened Rooms
  import opened ChatOps
  import opened Coordinator
  import opened Invariants
  import opened Runs
  import Mentions

  // ---------- the work that a round has left ----------

  function Rank(stage: Stage): nat {
    match stage
    case Queued => 8
    case Holding => 7
    case Snapshotted => 6
    case Requested(_, sent, reply) => (if sent then 0 else 1) + (if reply.None? then 1 else 0) + 3
    case Settled(_) => 2
    case Returned(_) => 1
    case Joined => 0
  }

  /** The steps that the first `n` turns of a round have left. */
  function TurnWork(asks: map<AskId, Ask>, r: nat, n: nat): (w: nat)
    ensures w <= 8 * n
  {
    if n == 0 then 0 else
    TurnWork(asks, r, n - 1) + if AskId(r, n - 1) in asks then Rank(asks[AskId(r, n - 1)].stage) else 0
  }

  /** The steps that a round has left: those of its turns, nine for each turn that it may still start, the
      message about the limit, and the end. */
  function RoundWork(run: Run, asks: map<AskId, Ask>, r: nat): nat {
    TurnWork(asks, r, run.turns) + (if run.limitHit then 0 else 1) + 1
    + if run.turns <= run.initial + MAX_MENTION_TURNS then 9 * (run.initial + MAX_MENTION_TURNS - run.turns) else 0
  }

  function Work(s: State, r: nat): nat {
    if r in s.runs then RoundWork(s.runs[r], s.asks, r) else 0
  }

  /** Does this event belong to the round `r`? */
  predicate Concerns(s: State, e: Event, r: nat) {
    match e
    case FailEarly(a) => a.run == r
    case TakeTurn(a) => a.run == r
    case Snapshot(a) => a.run == r
    case Register(a) => a.run == r
    case SendDone(a, _) => a.run == r
    case Deliver(_, id, _) => id in s.pending && s.pending[id].ask.run == r
    case Settle(a, _) => a.run == r
    case Return(a) => a.run == r
    case Join(a, _, _) => a.run == r
    case FollowUp(q, _, _) => q == r
    case Finish(q, _) => q == r
    case _ => false
  }

  // ---------- turns use up their work ----------

  lemma {:induction false} SameWork(asks: map<AskId, Ask>, later: map<AskId, Ask>, r: nat, n: nat)
    requires forall k :: 0 <= k < n ==>
               AskId(r, k) in asks && AskId(r, k) in later && later[AskId(r, k)] == asks[AskId(r, k)]
    ensures TurnWork(later, r, n) == TurnWork(asks, r, n)
  {
    if n > 0 {
      assert later[AskId(r, n - 1)] == asks[AskId(r, n - 1)];
      SameWork(asks, later, r, n - 1);
    }
  }

  lemma {:induction false} WorkOfOneTurn(asks: map<AskId, Ask>, r: nat, n: nat, a: AskId, ask: Ask)
    requires a in asks
    ensures TurnWork(asks[a := ask], r, n) ==
              if a.run == r && a.turn < n then TurnWork(asks, r, n) - Rank(asks[a].stage) + Rank(ask.stage)
              else TurnWork(asks, r, n)
    ensures a.run == r && a.turn < n ==> Rank(asks[a].stage) <= TurnWork(asks, r, n)
  {
    hide Rank;
    if n > 0 {
      WorkOfOneTurn(asks, r, n - 1, a, ask);
    }
  }

  predicate SameBooks(run: Run, later: Run) {
    (later.initial, later.turns, later.limitHit) == (run.initial, run.turns, run.limitHit)
  }

  /** The step moves one turn towards its end, and touches no books. */
  predicate MovesOn(s: State, a: AskId, later: State) {
    && a in s.asks && a in later.asks && later.asks == s.asks[a := later.asks[a]]
    && Rank(later.asks[a].stage) < Rank(s.asks[a].stage)
    && later.runs.Keys == s.runs.Keys && (forall r :: r in s.runs ==> SameBooks(s.runs[r], later.runs[r]))
  }

  lemma LockMovesOn(s: State, a: AskId)
    ensures DoTakeTurn(s, a) == s || MovesOn(s, a, DoTakeTurn(s, a))
    ensures DoReturn(s, a) == s || MovesOn(s, a, DoReturn(s, a))
    ensures DoFailEarly(s, a) == s || MovesOn(s, a, DoFailEarly(s, a))
  {
  }

  lemma RequestMovesOn(s: State, a: AskId, delivered: bool)
    ensures DoRegister(s, a) == s || MovesOn(s, a, DoRegister(s, a))
    ensures DoSendDone(s, a, delivered) == s || MovesOn(s, a, DoSendDone(s, a, delivered))
  {
  }

  lemma SnapshotMovesOn(s: State, a: AskId)
    ensures DoSnapshot(s, a) == s || MovesOn(s, a, DoSnapshot(s, a))
  {
    hide TurnContext;
  }

  lemma SettleMovesOn(s: State, a: AskId, now: nat, alphanumeric: char -> bool)
    ensures DoSettle(s, a, now, alphanumeric) == s || MovesOn(s, a, DoSettle(s, a, now, alphanumeric))
  {
    hide Pushed, Role, AnswerText;
  }

  lemma JoinMovesOn(s: State, a: AskId, now: nat, note: string, alphanumeric: char -> bool)
    ensures DoJoin(s, a, now, note, alphanumeric) == s || MovesOn(s, a, DoJoin(s, a, now, note, alphanumeric))
  {
    hide Pushed, Mentions.FollowUps;
  }

  lemma DeliverMovesOn(s: State, source: string, id: RequestId, result: TurnResult)
    requires PendingInv(s.asks, s.pending, s.nextRequest)
    ensures DoDeliver(s, source, id, result) == s
            || (id in s.pending && MovesOn(s, s.pending[id].ask, DoDeliver(s, source, id, result)))
  {
    if id in s.pending {
      assert Waits(s.asks, s.pending[id].ask, id);
    }
  }

  lemma MovingUsesWork(s: State, a: AskId, later: State, r: nat)
    requires AskInv(s.store.rooms, s.runs, s.nextRun, s.asks) && MovesOn(s, a, later) && r in s.runs
    ensures Work(later, r) <= Work(s, r)
    ensures a.run == r ==> Work(later, r) < Work(s, r)
  {
    hide Rank, TurnWork, TurnsOk;
    WorkOfOneTurn(s.asks, r, s.runs[r].turns, a, later.asks[a]);
  }

  // ---------- rounds use up their work ----------

  lemma OtherRound(s: State, later: State, r: nat)
    requires AskInv(s.store.rooms, s.runs, s.nextRun, s.asks) && r in s.runs && r in later.runs
    requires later.runs[r] == s.runs[r]
    requires forall a :: a in s.asks && a.run == r ==> a in later.asks && later.asks[a] == s.asks[a]
    ensures Work(later, r) == Work(s, r)
  {
    assert TurnsOk(s.store.rooms, s.asks, r, s.runs[r]);
    SameWork(s.asks, later.asks, r, s.runs[r].turns);
  }

  lemma SendUsesNoWork(s: State, e: Event, alphanumeric: char -> bool, r: nat)
    requires AskInv(s.store.rooms, s.runs, s.nextRun, s.asks) && (forall q :: q in s.runs ==> q < s.nextRun)
    requires e.Send? && r in s.runs
    ensures Work(DoSend(s, e, alphanumeric), r) == Work(s, r)
  {
    hide SendVerdict, Sent, TurnsOk, FirstAsks;
    OtherRound(s, DoSend(s, e, alphanumeric), r);
  }

  lemma PoppingUsesWork(s: State, q: nat, r: nat, later: State)
    requires AskInv(s.store.rooms, s.runs, s.nextRun, s.asks) && q in s.runs && r in s.runs
    requires s.runs[q].queue != [] && s.runs[q].turns < s.runs[q].initial + MAX_MENTION_TURNS
    requires later.runs == s.runs[q := Popped(s.runs[q])]
    requires later.asks == s.asks[AskId(q, s.runs[q].turns) := Called(s.runs[q])]
    ensures if q == r then Work(later, r) < Work(s, r) else Work(later, r) == Work(s, r)
  {
    assert TurnsOk(s.store.rooms, s.asks, r, s.runs[r]);
    SameWork(s.asks, later.asks, r, s.runs[r].turns);
    hide TurnsOk;
  }

  lemma FollowUpUsesWork(s: State, q: nat, now: nat, note: string, r: nat)
    requires AskInv(s.store.rooms, s.runs, s.nextRun, s.asks) && r in s.runs
    requires q in s.runs ==> RunOk(s.store, s.stuck, s.runs[q])
    ensures var later := DoFollowUp(s, q, now, note);
            Work(later, r) <= Work(s, r) && (q == r && later != s ==> Work(later, r) < Work(s, r))
  {
    hide Pushed, AllJoined, HasStart, AskInv, TurnWork;
    var later := DoFollowUp(s, q, now, note);
    if later != s && s.runs[q].turns - s.runs[q].initial != MAX_MENTION_TURNS {
      hide RunOk;
      TurnsLeft(s.store, s.stuck, s.runs[q]);
      PoppingUsesWork(s, q, r, later);
    }
  }

  lemma TurnsLeft(st: Store, stuck: set<nat>, run: Run)
    requires RunOk(st, stuck, run) && run.turns - run.initial != MAX_MENTION_TURNS
    ensures run.turns < run.initial + MAX_MENTION_TURNS
  {
    hide HasStart;
  }

  lemma FinishUsesWork(s: State, q: nat, now: nat, r: nat)
    requires r in s.runs
    ensures var later := DoFinish(s, q, now);
            Work(later, r) <= Work(s, r) && (q == r && later != s ==> Work(later, r) < Work(s, r))
  {
    hide AllJoined, TurnWork, Finished;
  }

  /** Every event that belongs to a round uses up some of its work; no other event adds to it. */
  lemma StepUsesWork(s: State, e: Event, alphanumeric: char -> bool, r: nat)
    requires Inv(s) && r in s.runs
    ensures var later := Step(s, e, alphanumeric);
            Work(later, r) <= Work(s, r) && (Concerns(s, e, r) && later != s ==> Work(later, r) < Work(s, r))
  {
    hide StoreInv, LockInv, AnswersInv, SleepInv, RunOk, PendingInv, AskInv, Work, MovesOn, DoSend, DoFollowUp,
         DoSettle, DoJoin, DoSnapshot, DoRegister, DoDeliver, DoSendDone, DoTakeTurn, DoReturn, DoFailEarly, DoFinish,
         SoloExists, WithActive;
    assert forall q :: q in s.runs ==> q < s.nextRun && RunOk(s.store, s.stuck, s.runs[q]);
    hide RunInv;
    var later := Step(s, e, alphanumeric);
    match e
    case Send(_, _, _, _, _) => SendUsesNoWork(s, e, alphanumeric, r);
    case FollowUp(q, now, note) => FollowUpUsesWork(s, q, now, note, r);
    case Finish(q, now) => FinishUsesWork(s, q, now, r);
    case Snapshot(a) => SnapshotMovesOn(s, a); if later != s { MovingUsesWork(s, a, later, r); }
    case Settle(a, now) => SettleMovesOn(s, a, now, alphanumeric); if later != s { MovingUsesWork(s, a, later, r); }
    case Join(a, now, note) =>
      JoinMovesOn(s, a, now, note, alphanumeric);
      if later != s { MovingUsesWork(s, a, later, r); }
    case FailEarly(a) => LockMovesOn(s, a); if later != s { MovingUsesWork(s, a, later, r); }
    case TakeTurn(a) => LockMovesOn(s, a); if later != s { MovingUsesWork(s, a, later, r); }
    case Return(a) => LockMovesOn(s, a); if later != s { MovingUsesWork(s, a, later, r); }
    case Register(a) => RequestMovesOn(s, a, true); if later != s { MovingUsesWork(s, a, later, r); }
    case SendDone(a, delivered) => RequestMovesOn(s, a, delivered); if later != s { MovingUsesWork(s, a, later, r); }
    case Deliver(source, id, result) =>
      DeliverMovesOn(s, source, id, result);
      if later != s { MovingUsesWork(s, s.pending[id].ask, later, r); }
    case _ => OtherRound(s, later, r);
  }

  // ---------- whole runs ----------

  /** How many events between the moments `k` and `n` belong to the round and change something. */
  function StepsOf(start: State, events: seq<Event>, k: nat, n: nat, alphanumeric: char -> bool, r: nat): nat
    requires k <= n <= |events|
    decreases n
  {
    if k == n then 0 else
    var s := After(start, events, n - 1, alphanumeric);
    StepsOf(start, events, k, n - 1, alphanumeric, r)
    + if r in s.runs && Concerns(s, events[n - 1], r) && Step(s, events[n - 1], alphanumeric) != s then 1 else 0
  }

  /** Rounds are numbered once. */
  lemma GoneRoundsStayGone(s: State, e: Event, alphanumeric: char -> bool, r: nat)
    ensures s.nextRun <= Step(s, e, alphanumeric).nextRun
    ensures r < s.nextRun && r !in s.runs ==> r !in Step(s, e, alphanumeric).runs
  {
    hide Pushed, Role, AnswerText, SendVerdict, Sent, FirstAsks, TurnContext, SoloExists, WithRoom, Finished, Reports,
         ChatOps.Slept, WithActive, AllJoined, SleptEntries, Popped, Called, MembersOk, Mentions.FollowUps;
  }

  lemma {:induction false} WorkPaysForSteps(start: State, events: seq<Event>, k: nat, n: nat,
                                            alphanumeric: char -> bool, r: nat)
    requires Started(start) && k <= n <= |events| && r in After(start, events, k, alphanumeric).runs
    ensures StepsOf(start, events, k, n, alphanumeric, r) + Work(After(start, events, n, alphanumeric), r)
              <= Work(After(start, events, k, alphanumeric), r)
    ensures r < After(start, events, n, alphanumeric).nextRun
  {
    hide Step, Concerns, RoundWork, Started, StoreInv, AskInv, LockInv, PendingInv, AnswersInv, SleepInv, RunOk;
    if k == n {
      ReachableInv(start, events, n, alphanumeric);
    } else {
      var s := After(start, events, n - 1, alphanumeric);
      WorkPaysForSteps(start, events, k, n - 1, alphanumeric, r);
      GoneRoundsStayGone(s, events[n - 1], alphanumeric, r);
      if r in s.runs {
        ReachableInv(start, events, n - 1, alphanumeric);
        StepUsesWork(s, events[n - 1], alphanumeric, r);
      }
    }
  }

  /** A round with `initial` first turns takes at most nine steps for each of these and for each of sixteen
      follow-ups, and two more, whatever else happens in the run; then it is over. */
  lemma RoundsTerminate(start: State, events: seq<Event>, k: nat, n: nat, alphanumeric: char -> bool, r: nat)
    requires Started(start) && k <= n <= |events| && r in After(start, events, k, alphanumeric).runs
    ensures StepsOf(start, events, k, n, alphanumeric, r)
              <= 9 * (After(start, events, k, alphanumeric).runs[r].initial + 16) + 2
  {
    hide Step, Started, StoreInv, AskInv, LockInv, PendingInv, AnswersInv, SleepInv, RunOk, StepsOf;
    ReachableInv(start, events, k, alphanumeric);
    WorkPaysForSteps(start, events, k, n, alphanumeric, r);
    var s := After(start, events, k, alphanumeric);
    assert RunOk(s.store, s.stuck, s.runs[r]);
    WorkIsBounded(s.store, s.stuck, s.runs[r], s.asks, r);
  }

  lemma WorkIsBounded(st: Store, stuck: set<nat>, run: Run, asks: map<AskId, Ask>, r: nat)
    requires RunOk(st, stuck, run)
    ensures RoundWork(run, asks, r) <= 9 * (run.initial + 16) + 2
  {
    hide HasStart;
  }
}
