/** How rounds and rooms behave in every run: rounds are bounded and never get stuck, replies count once, and
    rooms follow their lifecycle. */
module Rounds {
  import opened Options
  import opened Rooms
  import opened ChatOps
  import opened Coordinator
  import opened Invariants
  import opened Preservation
  import opened RoomSteps
  import opened Runs
  import Text

  // ---------- bounded follow-ups ----------

  /** The turns of a round: its first turns, and after them one follow-up for each of the first sixteen
      mentions that were queued, in this order. */
  lemma RoundsAreBounded(start: State, events: seq<Event>, n: nat, alphanumeric: char -> bool, r: nat)
    requires Started(start) && n <= |events| && r in After(start, events, n, alphanumeric).runs
    ensures var s := After(start, events, n, alphanumeric);
            var run := s.runs[r];
            && run.turns <= run.initial + 16
            && (forall a :: a in s.asks && a.run == r ==> a.turn < run.turns)
            && run.turns - run.initial <= |run.enqueued|
            && run.room in s.store.rooms
            && (forall k :: run.initial <= k < run.turns ==>
                  && AskId(r, k) in s.asks && s.asks[AskId(r, k)].kind == Mention
                  && s.asks[AskId(r, k)].member == run.enqueued[k - run.initial].1)
            && (forall p :: p in run.enqueued ==> p.1 in s.store.rooms[run.room].members && p.0 != p.1)
  {
    hide Step, StoreInv, LockInv, PendingInv, AnswersInv, SleepInv, HasStart, Started;
    ReachableInv(start, events, n, alphanumeric);
    var s := After(start, events, n, alphanumeric);
    var run := s.runs[r];
    hide RunOk, TurnsOk;
    assert RunOk(s.store, s.stuck, run) && TurnsOk(s.store.rooms, s.asks, r, run);
    hide RunInv;
    BoundedRun(s.store, s.stuck, run, s.asks, r);
  }

  lemma BoundedRun(st: Store, stuck: set<nat>, run: Run, asks: map<AskId, Ask>, r: nat)
    requires RunOk(st, stuck, run) && TurnsOk(st.rooms, asks, r, run)
    ensures run.turns <= run.initial + 16 && run.turns - run.initial <= |run.enqueued| && run.room in st.rooms
    ensures forall k :: run.initial <= k < run.turns ==>
              && AskId(r, k) in asks && asks[AskId(r, k)].kind == Mention
              && asks[AskId(r, k)].member == run.enqueued[k - run.initial].1
    ensures forall p :: p in run.enqueued ==> p.1 in st.rooms[run.room].members && p.0 != p.1
  {
    hide HasStart;
    forall k | run.initial <= k < run.turns
      ensures AskId(r, k) in asks && asks[AskId(r, k)].kind == Mention
      ensures asks[AskId(r, k)].member == run.enqueued[k - run.initial].1
    {
      assert AskFits(st.rooms, run, k, asks[AskId(r, k)]);
      assert run.executed[k - run.initial] == run.enqueued[k - run.initial];
    }
  }

  /** A round ends with all its turns joined and the room free again. It has followed exactly the first
      sixteen mentions, or all when they are fewer; the limit was reached if and only if there was a seventeenth. */
  lemma RoundsEndAfterTheirMentions(start: State, events: seq<Event>, n: nat, alphanumeric: char -> bool, r: nat,
                                    now: nat)
    requires Started(start) && n < |events| && events[n] == Finish(r, now)
    requires r in After(start, events, n, alphanumeric).runs && r !in After(start, events, n + 1, alphanumeric).runs
    ensures var s, later := After(start, events, n, alphanumeric), After(start, events, n + 1, alphanumeric);
            var run := s.runs[r];
            var followed := if |run.enqueued| <= 16 then |run.enqueued| else 16;
            && run.executed == run.enqueued[..followed] && run.turns == run.initial + followed
            && (run.limitHit <==> |run.enqueued| > 16)
            && (forall k :: 0 <= k < run.turns ==> AskId(r, k) in s.asks && s.asks[AskId(r, k)].stage == Joined)
            && run.room in later.store.rooms && !later.store.rooms[run.room].busy
            && later.store.rooms[run.room].active == None
  {
    hide Step, StoreInv, AskInv, LockInv, PendingInv, AnswersInv, SleepInv, HasStart, Started;
    ReachableInv(start, events, n, alphanumeric);
    var s := After(start, events, n, alphanumeric);
    EndOfRound(s, r, now, alphanumeric);
  }

  lemma EndOfRound(s: State, r: nat, now: nat, alphanumeric: char -> bool)
    requires RunInv(s.store, s.stuck, s.runs, s.nextRun) && r in s.runs
    requires r !in Step(s, Finish(r, now), alphanumeric).runs
    ensures var run, later := s.runs[r], Step(s, Finish(r, now), alphanumeric);
            var followed := if |run.enqueued| <= 16 then |run.enqueued| else 16;
            && run.executed == run.enqueued[..followed] && run.turns == run.initial + followed
            && (run.limitHit <==> |run.enqueued| > 16)
            && AllJoined(s, r)
            && run.room in later.store.rooms && !later.store.rooms[run.room].busy
            && later.store.rooms[run.room].active == None
  {
    var run := s.runs[r];
    hide HasStart;
    assert RunOk(s.store, s.stuck, run);
    hide RunInv;
    assert run.limitHit || run.queue == [];
  }

  // ---------- nothing gets stuck ----------

  /** A step of the chat program itself; `SendDone` comes from the message board. */
  predicate OwnStep(e: Event) {
    || e.TakeTurn? || e.Snapshot? || e.Register? || e.SendDone? || e.Settle? || e.Return? || e.Join? || e.FollowUp?
    || e.Finish?
  }

  predicate CanStep(s: State, e: Event, alphanumeric: char -> bool) {
    OwnStep(e) && Step(s, e, alphanumeric) != s
  }

  /** A delivered request whose reply has not come. */
  ghost predicate AwaitsReply(s: State) {
    exists id :: id in s.pending && s.pending[id].ask in s.asks
      && s.asks[s.pending[id].ask].stage == Requested(id, true, None)
  }

  /** A turn that holds its lock can go on, or waits for a Resident. */
  lemma HolderGoesOn(s: State, a: AskId, alphanumeric: char -> bool)
    requires Inv(s) && a in s.asks && Holds(s.asks[a].stage)
    ensures AwaitsReply(s) || exists e :: CanStep(s, e, alphanumeric)
  {
    hide StoreInv, RunInv, AskInv, LockInv, AnswersInv, SleepInv, CanStep;
    match s.asks[a].stage
    case Holding => StageGoesOn(s, a, Snapshot(a), alphanumeric);
    case Snapshotted => StageGoesOn(s, a, Register(a), alphanumeric);
    case Settled(_) => StageGoesOn(s, a, Return(a), alphanumeric);
    case Requested(id, sent, reply) =>
      if !sent {
        SendGoesOn(s, a, alphanumeric);
      } else if reply.Some? {
        SettleGoesOn(s, a, alphanumeric);
      } else {
        assert s.asks[s.pending[id].ask].stage == Requested(id, true, None);
      }
  }

  lemma StageGoesOn(s: State, a: AskId, e: Event, alphanumeric: char -> bool)
    requires a in s.asks
    requires match s.asks[a].stage
             case Holding => e == Snapshot(a)
             case Snapshotted => e == Register(a)
             case Settled(_) => e == Return(a)
             case _ => false
    ensures CanStep(s, e, alphanumeric)
  {
    hide TurnContext;
    assert Step(s, e, alphanumeric).asks[a].stage != s.asks[a].stage;
  }

  lemma SendGoesOn(s: State, a: AskId, alphanumeric: char -> bool)
    requires a in s.asks && s.asks[a].stage.Requested? && !s.asks[a].stage.sent
    ensures CanStep(s, SendDone(a, true), alphanumeric)
  {
    assert DoSendDone(s, a, true).asks[a].stage.sent;
  }

  lemma SettleGoesOn(s: State, a: AskId, alphanumeric: char -> bool)
    requires a in s.asks && s.asks[a].stage.Requested? && s.asks[a].stage.sent && s.asks[a].stage.reply.Some?
    ensures CanStep(s, Settle(a, 0), alphanumeric)
  {
    hide Pushed, Role, AnswerText;
    assert DoSettle(s, a, 0, alphanumeric).asks[a].stage.Settled?;
  }

  lemma TurnGoesOn(s: State, a: AskId, alphanumeric: char -> bool)
    requires Inv(s) && a in s.asks && s.asks[a].stage != Joined
    ensures AwaitsReply(s) || exists e :: CanStep(s, e, alphanumeric)
  {
    hide StoreInv, RunInv, AskInv, PendingInv, AnswersInv, SleepInv, Pushed, AwaitsReply, AskFits;
    if Holds(s.asks[a].stage) {
      HolderGoesOn(s, a, alphanumeric);
    } else if s.asks[a].stage == Queued {
      if s.asks[a].member in s.holders {
        HolderGoesOn(s, s.holders[s.asks[a].member], alphanumeric);
      } else {
        assert DoTakeTurn(s, a).asks[a].stage == Holding;
        assert CanStep(s, TakeTurn(a), alphanumeric);
      }
    } else {
      TurnRoom(s, a);
      JoinGoesOn(s, a, alphanumeric);
      assert CanStep(s, Join(a, 0, ""), alphanumeric);
    }
  }

  lemma JoinGoesOn(s: State, a: AskId, alphanumeric: char -> bool)
    requires a in s.asks && s.asks[a].stage.Returned? && a.run in s.runs
    ensures DoJoin(s, a, 0, "", alphanumeric) != s
  {
    hide Pushed;
    assert DoJoin(s, a, 0, "", alphanumeric).asks[a].stage == Joined;
  }

  lemma RoundGoesOn(s: State, r: nat, alphanumeric: char -> bool)
    requires Inv(s) && r in s.runs && AllJoined(s, r)
    ensures exists e :: CanStep(s, e, alphanumeric)
  {
    hide StoreInv, AskInv, LockInv, PendingInv, AnswersInv, SleepInv, Pushed, RunOk, CanStep, AllJoined;
    assert RunOk(s.store, s.stuck, s.runs[r]);
    hide RunInv;
    if s.runs[r].queue == [] || s.runs[r].limitHit {
      FinishGoesOn(s, r, alphanumeric);
    } else {
      MentionsAreOfGroups(s.store, s.stuck, s.runs[r]);
      FollowUpGoesOn(s, r, alphanumeric);
    }
  }

  lemma MentionsAreOfGroups(st: Store, stuck: set<nat>, run: Run)
    requires RunOk(st, stuck, run) && run.queue != []
    ensures run.group
  {
    hide HasStart;
  }

  lemma FinishGoesOn(s: State, r: nat, alphanumeric: char -> bool)
    requires r in s.runs && AllJoined(s, r) && (s.runs[r].queue == [] || s.runs[r].limitHit)
    ensures CanStep(s, Finish(r, 0), alphanumeric)
  {
    hide AllJoined, Finished;
    assert r !in DoFinish(s, r, 0).runs;
  }

  lemma FollowUpGoesOn(s: State, r: nat, alphanumeric: char -> bool)
    requires r in s.runs && AllJoined(s, r) && s.runs[r].group && s.runs[r].queue != [] && !s.runs[r].limitHit
    ensures CanStep(s, FollowUp(r, 0, ""), alphanumeric)
  {
    hide Pushed, AllJoined;
    var later := DoFollowUp(s, r, 0, "");
    assert later.runs[r].limitHit || later.runs[r].turns == s.runs[r].turns + 1;
  }

  /** No deadlock: while any round is open, the program can take a step, or a Resident owes a reply. Turn locks
      are taken one at a time, so that holders never wait for each other. */
  lemma RoundsNeverDeadlock(start: State, events: seq<Event>, n: nat, alphanumeric: char -> bool)
    requires Started(start) && n <= |events| && After(start, events, n, alphanumeric).runs != map[]
    ensures var s := After(start, events, n, alphanumeric);
            AwaitsReply(s) || exists e :: CanStep(s, e, alphanumeric)
  {
    var s := After(start, events, n, alphanumeric);
    ReachableInv(start, events, n, alphanumeric);
    hide Step, StoreInv, RunInv, LockInv, PendingInv, AnswersInv, SleepInv, Started, CanStep, AwaitsReply, TurnsOk;
    var r :| r in s.runs;
    if AllJoined(s, r) {
      RoundGoesOn(s, r, alphanumeric);
    } else {
      var k := OpenTurn(s, r);
      TurnGoesOn(s, AskId(r, k), alphanumeric);
    }
  }

  lemma OpenTurn(s: State, r: nat) returns (k: nat)
    requires AskInv(s.store.rooms, s.runs, s.nextRun, s.asks) && r in s.runs && !AllJoined(s, r)
    ensures AskId(r, k) in s.asks && s.asks[AskId(r, k)].stage != Joined
  {
    assert TurnsOk(s.store.rooms, s.asks, r, s.runs[r]);
    k :| 0 <= k < s.runs[r].turns && !(AskId(r, k) in s.asks && s.asks[AskId(r, k)].stage == Joined);
  }

  // ---------- replies ----------

  /** A reply counts only for a pending request, and only from the Resident that was asked: then exactly that
      turn gets exactly this result. In every other case nothing changes. */
  lemma OnlyTheExpectedReplyCounts(start: State, events: seq<Event>, n: nat, alphanumeric: char -> bool,
                                   source: string, id: RequestId, result: TurnResult)
    requires Started(start) && n <= |events|
    ensures var s := After(start, events, n, alphanumeric);
            var later := Step(s, Deliver(source, id, result), alphanumeric);
            if id in s.pending && s.pending[id].expected == source then
              var a := s.pending[id].ask;
              && a in s.asks && s.asks[a].member == source && s.asks[a].stage.Requested? && s.asks[a].stage.id == id
              && s.asks[a].stage.reply == None
              && later == s.(pending := s.pending - {id},
                             asks := s.asks[a := s.asks[a].(stage := s.asks[a].stage.(reply := Some(result)))])
            else later == s
  {
    hide StoreInv, RunInv, AskInv, LockInv, AnswersInv, SleepInv, Started;
    ReachableInv(start, events, n, alphanumeric);
    var s := After(start, events, n, alphanumeric);
    if id in s.pending {
      assert Waits(s.asks, s.pending[id].ask, id);
    }
  }

  /** A turn that waits is always registered: its reply channel is never dropped unanswered. */
  lemma WaitingTurnsAreRegistered(start: State, events: seq<Event>, n: nat, alphanumeric: char -> bool, a: AskId)
    requires Started(start) && n <= |events|
    requires var asks := After(start, events, n, alphanumeric).asks;
             a in asks && asks[a].stage.Requested? && asks[a].stage.reply == None
    ensures var s := After(start, events, n, alphanumeric);
            s.asks[a].stage.id in s.pending && s.pending[s.asks[a].stage.id] == Pending(s.asks[a].member, a)
  {
    hide Step, StoreInv, RunInv, AskInv, LockInv, AnswersInv, SleepInv, Started;
    ReachableInv(start, events, n, alphanumeric);
  }

  /** Ids that were given out and are not pending. */
  predicate Spent(s: State, id: RequestId) {
    id.serial < s.nextRequest && id !in s.pending
  }

  lemma StepSpends(s: State, e: Event, alphanumeric: char -> bool, id: RequestId)
    requires Spent(s, id)
    ensures Spent(Step(s, e, alphanumeric), id)
  {
    hide Pushed, Role, AnswerText, SendVerdict, Sent, FirstAsks, TurnContext, SoloExists, WithRoom, Finished, Reports,
         ChatOps.Slept, WithActive, SleptEntries, AllJoined;
  }

  /** Once a reply has counted, no later message with the same request id changes anything. */
  lemma RepliesCountOnce(start: State, events: seq<Event>, k: nat, n: nat, alphanumeric: char -> bool,
                         id: RequestId, source: string, result: TurnResult)
    requires Started(start) && k < n <= |events| && events[k].Deliver? && events[k].request == id
    requires After(start, events, k + 1, alphanumeric) != After(start, events, k, alphanumeric)
    ensures var s := After(start, events, n, alphanumeric); Step(s, Deliver(source, id, result), alphanumeric) == s
  {
    SpentLater(start, events, k, n, alphanumeric, id);
  }

  lemma {:induction false} SpentLater(start: State, events: seq<Event>, k: nat, n: nat, alphanumeric: char -> bool,
                                      id: RequestId)
    requires Started(start) && k < n <= |events| && events[k].Deliver? && events[k].request == id
    requires After(start, events, k + 1, alphanumeric) != After(start, events, k, alphanumeric)
    ensures Spent(After(start, events, n, alphanumeric), id)
  {
    hide StoreInv, RunInv, AskInv, LockInv, AnswersInv, SleepInv, Started;
    if n == k + 1 {
      ReachableInv(start, events, k, alphanumeric);
      var s := After(start, events, k, alphanumeric);
      assert Waits(s.asks, s.pending[id].ask, id);
    } else {
      hide Step, Inv;
      SpentLater(start, events, k, n - 1, alphanumeric, id);
      StepSpends(After(start, events, n - 1, alphanumeric), events[n - 1], alphanumeric, id);
    }
  }

  // ---------- rooms ----------

  /** At this moment of the run a message to the room was accepted, and the save of it failed. */
  predicate LosesRound(start: State, events: seq<Event>, k: nat, alphanumeric: char -> bool, id: nat)
    requires k < |events|
  {
    var e := events[k];
    e.Send? && e.id == id && !e.saved
    && SendVerdict(After(start, events, k, alphanumeric).store, id, e.text, e.media, alphanumeric).Accepted?
  }

  predicate LostRound(start: State, events: seq<Event>, n: nat, alphanumeric: char -> bool, id: nat)
    requires n <= |events|
  {
    exists k :: 0 <= k < n && LosesRound(start, events, k, alphanumeric, id)
  }

  lemma StepStuck(s: State, e: Event, alphanumeric: char -> bool)
    ensures Step(s, e, alphanumeric).stuck ==
              if e.Send? && !e.saved && SendVerdict(s.store, e.id, e.text, e.media, alphanumeric).Accepted?
              then s.stuck + {e.id} else s.stuck
  {
    hide Pushed, Role, AnswerText, SendVerdict, Sent, FirstAsks, TurnContext, SoloExists, WithRoom, Finished, Reports,
         ChatOps.Slept, WithActive, SleptEntries, AllJoined;
  }

  /** The rooms that have lost a round are exactly those with such an event before. */
  lemma {:induction false} StuckExactly(start: State, events: seq<Event>, n: nat, alphanumeric: char -> bool, id: nat)
    requires Started(start) && n <= |events|
    ensures id in After(start, events, n, alphanumeric).stuck <==> LostRound(start, events, n, alphanumeric, id)
  {
    hide Step, SendVerdict;
    if n > 0 {
      StuckExactly(start, events, n - 1, alphanumeric, id);
      StepStuck(After(start, events, n - 1, alphanumeric), events[n - 1], alphanumeric);
      if LostRound(start, events, n, alphanumeric, id) && !LosesRound(start, events, n - 1, alphanumeric, id) {
        var k :| 0 <= k < n && LosesRound(start, events, k, alphanumeric, id);
        assert k < n - 1;
      }
      assert LosesRound(start, events, n - 1, alphanumeric, id) ==> LostRound(start, events, n, alphanumeric, id);
    }
  }

  /** In every reachable state: message ids ascend in each room and never repeat across rooms; a room has at
      most one round; a busy room is awake and not archived; an incognito room is not archived. */
  lemma RoomsFollowTheirLifecycle(start: State, events: seq<Event>, n: nat, alphanumeric: char -> bool)
    requires Started(start) && n <= |events|
    ensures var s := After(start, events, n, alphanumeric);
            && RoomsOk(s.store.rooms, s.store.nextMessage)
            && (forall r :: r in s.store.rooms ==> r < s.store.nextRoom && LifecycleOk(s.store.rooms[r]))
            && (forall q, r :: q in s.runs && r in s.runs && s.runs[q].room == s.runs[r].room ==> q == r)
  {
    hide Step, AskInv, LockInv, PendingInv, AnswersInv, SleepInv, Started, RoomsOk, LifecycleOk, RunOk;
    ReachableInv(start, events, n, alphanumeric);
  }

  /** A room with a round is busy. A busy room has a round if and only if no accepted message to it could not be
      saved so far; such a room is busy without a round. */
  lemma BusyRoomsHaveRounds(start: State, events: seq<Event>, n: nat, alphanumeric: char -> bool, id: nat)
    requires Started(start) && n <= |events| && id in After(start, events, n, alphanumeric).store.rooms
    ensures var s := After(start, events, n, alphanumeric);
            && (HasRun(s.runs, id) ==> s.store.rooms[id].busy)
            && (LostRound(start, events, n, alphanumeric, id) ==> s.store.rooms[id].busy)
            && (s.store.rooms[id].busy ==> (HasRun(s.runs, id) <==> !LostRound(start, events, n, alphanumeric, id)))
  {
    hide Step, StoreInv, AskInv, LockInv, PendingInv, AnswersInv, SleepInv, Started, LostRound;
    ReachableInv(start, events, n, alphanumeric);
    StuckExactly(start, events, n, alphanumeric, id);
    var s := After(start, events, n, alphanumeric);
    if r :| r in s.runs && s.runs[r].room == id {
      RunRoomIsFree(s.store, s.stuck, s.runs[r]);
    }
    hide RunOk;
  }

  /** Between two sleep reports of one room its user has said something there. */
  lemma SleepersWereWoken(start: State, events: seq<Event>, n: nat, alphanumeric: char -> bool, i: nat, j: nat)
    requires Started(start) && n <= |events|
    requires var log := After(start, events, n, alphanumeric).log; i < j < |log| && log[i].Slept? && log[j] == log[i]
    ensures var log := After(start, events, n, alphanumeric).log;
            exists k :: i < k < j && log[k] == Said(log[i].room)
  {
    hide Step, StoreInv, RunInv, AskInv, LockInv, PendingInv, AnswersInv, Started;
    ReachableInv(start, events, n, alphanumeric);
    var log := After(start, events, n, alphanumeric).log;
    assert SaidSince(log, i, j, log[i].room);
    var k :| i <= k < j && log[k] == Said(log[i].room);
  }

  /** A failed save leaves its room busy for good, without a round: no later message is accepted there. */
  lemma FailedSaveBlocksTheRoom(start: State, events: seq<Event>, k: nat, n: nat, alphanumeric: char -> bool, id: nat)
    requires Started(start) && k < n <= |events| && LosesRound(start, events, k, alphanumeric, id)
    ensures var s := After(start, events, n, alphanumeric);
            && id in s.store.rooms && s.store.rooms[id].busy && !HasRun(s.runs, id)
            && forall text, media :: !SendVerdict(s.store, id, text, media, alphanumeric).Accepted?
  {
    hide StoreInv, AskInv, LockInv, PendingInv, AnswersInv, SleepInv, RunOk, LosesRound, Started, Step;
    ReachableInv(start, events, n, alphanumeric);
    assert LostRound(start, events, n, alphanumeric, id);
    StuckExactly(start, events, n, alphanumeric, id);
    BusyRoomsHaveRounds(start, events, n, alphanumeric, id);
  }

  /** It does happen: a first message whose save fails. */
  lemma FailedSaveExample(alphanumeric: char -> bool)
    ensures var start := State(FRESH, {}, map[], 0, map[], map[], map[], 1, {}, []);
            var events := [EnsureSolo("a", "a", false, 0), Send(1, "x", [], 0, false)];
            && Started(start) && LosesRound(start, events, 1, alphanumeric, 1)
            && After(start, events, 2, alphanumeric).store.rooms[1].busy
            && After(start, events, 2, alphanumeric).runs == map[]
  {
    var start := State(FRESH, {}, map[], 0, map[], map[], map[], 1, {}, []);
    var events := [EnsureSolo("a", "a", false, 0), Send(1, "x", [], 0, false)];
    var made := After(start, events, 1, alphanumeric);
    assert made == Step(After(start, events, 0, alphanumeric), events[0], alphanumeric);
    assert !SoloExists(FRESH, "a", false);
    assert made.store.rooms == map[1 := NewRoom(1, "a", ["a"], false, 0)];
    assert Text.Trim("x") == "x";
    assert SendVerdict(made.store, 1, "x", [], alphanumeric) == Accepted(["a"]);
    assert After(start, events, 2, alphanumeric) == Step(made, events[1], alphanumeric);
  }
}
