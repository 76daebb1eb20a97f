/** Every step of the coordinator keeps the invariant, and lets the rooms grow. */
module Preservation {
  import opened Rooms
  import opened Paging
  import opened ChatOps
  import opened Coordinator
  import opened Invariants
  import Mentions

  // ---------- rooms that change under the rounds ----------

  /** Nothing that a round relies on has changed: members and busy flags of the old rooms; new rooms are idle. */
  predicate SameRounds(rooms: Rooms, later: Rooms) {
    && (forall r :: r in rooms ==> r in later && later[r].members == rooms[r].members && later[r].busy == rooms[r].busy)
    && (forall r :: r in later && r !in rooms ==> !later[r].busy)
  }

  lemma StartLater(rooms: Rooms, bound: nat, later: Rooms, r: nat, id: nat)
    requires Grows(rooms, bound, later) && r in rooms && HasStart(rooms[r], id)
    ensures r in later && HasStart(later[r], id)
  {
    var m :| m in rooms[r].messages && IsStart(m, id);
    assert Continues(rooms[r], later[r], bound);
    OldMessages(rooms[r], later[r], bound, m);
  }

  lemma RunOkLater(st: Store, later: Store, stuck: set<nat>, run: Run)
    requires RunOk(st, stuck, run) && SameRounds(st.rooms, later.rooms) && st.nextMessage <= later.nextMessage
    requires Grows(st.rooms, st.nextMessage, later.rooms)
    ensures RunOk(later, stuck, run)
  {
    hide Grows, HasStart;
    StartLater(st.rooms, st.nextMessage, later.rooms, run.room, run.start);
  }

  lemma RunInvLater(st: Store, later: Store, stuck: set<nat>, runs: map<nat, Run>, nextRun: nat)
    requires RunInv(st, stuck, runs, nextRun) && SameRounds(st.rooms, later.rooms)
    requires st.nextMessage <= later.nextMessage
    requires Grows(st.rooms, st.nextMessage, later.rooms)
    ensures RunInv(later, stuck, runs, nextRun)
  {
    hide RunOk, Grows;
    forall r | r in runs
      ensures RunOk(later, stuck, runs[r])
    {
      RunOkLater(st, later, stuck, runs[r]);
    }
  }

  lemma AskInvLater(rooms: Rooms, later: Rooms, runs: map<nat, Run>, nextRun: nat, asks: map<AskId, Ask>)
    requires AskInv(rooms, runs, nextRun, asks)
    requires forall r :: r in rooms ==> r in later && later[r].members == rooms[r].members
    ensures AskInv(later, runs, nextRun, asks)
  {
    forall r | r in runs
      ensures TurnsOk(later, asks, r, runs[r])
    {
      assert TurnsOk(rooms, asks, r, runs[r]);
    }
    hide TurnsOk;
  }

  lemma AnswersInvLater(rooms: Rooms, bound: nat, later: Rooms, asks: map<AskId, Ask>, log: seq<Entry>)
    requires AnswersInv(rooms, asks, log) && Grows(rooms, bound, later)
    ensures AnswersInv(later, asks, log)
  {
    forall e | e in log && e.Gave?
      ensures IsKept(later, e)
    {
      KeptLater(rooms, bound, later, e);
    }
    hide SeesAnswers, IsKept;
  }

  lemma KeptLater(rooms: Rooms, bound: nat, later: Rooms, e: Entry)
    requires e.Gave? && IsKept(rooms, e) && Grows(rooms, bound, later)
    ensures IsKept(later, e)
  {
    var m :| m in rooms[e.room].messages && IsAnswer(m, e);
    assert Continues(rooms[e.room], later[e.room], bound);
    OldMessages(rooms[e.room], later[e.room], bound, m);
  }

  lemma SleepInvLater(rooms: Rooms, later: Rooms, log: seq<Entry>)
    requires SleepInv(rooms, log) && forall r :: r in rooms ==> r in later && (rooms[r].sleeping ==> later[r].sleeping)
    ensures SleepInv(later, log)
  {
  }

  lemma SaidSinceLater(log: seq<Entry>, more: seq<Entry>, i: nat, j: nat, room: nat)
    requires i <= j <= |log|
    ensures SaidSince(log, i, j, room) ==> SaidSince(log + more, i, j, room)
    ensures SaidSince(log, i, j, room) ==> SaidSince(log + more, i, |log + more|, room)
  {
    if SaidSince(log, i, j, room) {
      var k :| i <= k < j && log[k] == Said(room);
      assert (log + more)[k] == Said(room);
    }
  }

  lemma SleepInvAppend(rooms: Rooms, log: seq<Entry>, e: Entry)
    requires SleepInv(rooms, log) && !e.Slept?
    ensures SleepInv(rooms, log + [e])
  {
    var later := log + [e];
    forall i | 0 <= i < |later| && later[i].Slept?
      ensures later[i].room in rooms && (rooms[later[i].room].sleeping || SaidSince(later, i, |later|, later[i].room))
    {
      SaidSinceLater(log, [e], i, |log|, later[i].room);
    }
    forall i, j | 0 <= i < j < |later| && later[i].Slept? && later[j] == later[i]
      ensures SaidSince(later, i, j, later[i].room)
    {
      SaidSinceLater(log, [e], i, j, later[i].room);
    }
  }

  /** The parts of the invariant that look at the rooms, after a step that a round does not notice. */
  predicate Unnoticed(st: Store, later: Store) {
    && SameRounds(st.rooms, later.rooms) && st.nextMessage <= later.nextMessage && st.nextRoom <= later.nextRoom
    && (forall r :: r in st.rooms && st.rooms[r].sleeping ==> later.rooms[r].sleeping)
    && Grows(st.rooms, st.nextMessage, later.rooms)
  }

  ghost predicate RoomsInv(st: Store, s: State) {
    && RunInv(st, s.stuck, s.runs, s.nextRun)
    && AskInv(st.rooms, s.runs, s.nextRun, s.asks)
    && AnswersInv(st.rooms, s.asks, s.log)
    && SleepInv(st.rooms, s.log)
  }

  lemma UnnoticedKeeps(s: State, st: Store)
    requires Inv(s) && Unnoticed(s.store, st)
    ensures RoomsInv(st, s)
  {
    hide StoreInv, RunInv, AskInv, LockInv, PendingInv, AnswersInv, SleepInv, Grows;
    RunInvLater(s.store, st, s.stuck, s.runs, s.nextRun);
    AskInvLater(s.store.rooms, st.rooms, s.runs, s.nextRun, s.asks);
    AnswersInvLater(s.store.rooms, s.store.nextMessage, st.rooms, s.asks, s.log);
    SleepInvLater(s.store.rooms, st.rooms, s.log);
  }

  /** A message is appended. */
  lemma PushedKeeps(s: State, id: nat, role: string, author: string, text: string, media: seq<Asset>, now: nat)
    requires Inv(s)
    ensures var st := Pushed(s.store, id, role, author, text, media, now);
            StoreInv(st, s.reserved) && RoomsInv(st, s) && Unnoticed(s.store, st)
  {
    hide RoomsInv, RunInv, AskInv, LockInv, PendingInv, AnswersInv, SleepInv, StoreOk, Unnoticed, Pushed;
    PushedIsUnnoticed(s.store, id, role, author, text, media, now);
    UnnoticedKeeps(s, Pushed(s.store, id, role, author, text, media, now));
  }

  lemma PushedIsUnnoticed(st: Store, id: nat, role: string, author: string, text: string, media: seq<Asset>, now: nat)
    requires StoreOk(st)
    ensures var later := Pushed(st, id, role, author, text, media, now);
            StoreOk(later) && Unnoticed(st, later) && later.nextRoom == st.nextRoom && later.rooms.Keys == st.rooms.Keys
  {
    hide StoreOk, Grows, NewMessage;
    PushKeeps(st, id, role, author, text, media, now);
  }

  // ---------- a turn settles ----------

  /** While one turn of a member in a room has looked at it, no contribution of the same member there is
      still to look. */
  lemma NoOtherContribution(s: State, a: AskId, b: AskId)
    requires RunInv(s.store, s.stuck, s.runs, s.nextRun) && AskInv(s.store.rooms, s.runs, s.nextRun, s.asks)
    requires a in s.asks && b in s.asks && s.asks[a].stage.Requested?
    requires s.asks[b].start.Some? && (s.asks[b].stage.Queued? || s.asks[b].stage.Holding?)
    ensures s.asks[a].member != s.asks[b].member || s.asks[a].room != s.asks[b].room
  {
    hide RunOk, TurnsOk, AskFits;
    assert a.run in s.runs && b.run in s.runs;
    var p, q := s.runs[a.run], s.runs[b.run];
    assert TurnsOk(s.store.rooms, s.asks, a.run, p) && TurnsOk(s.store.rooms, s.asks, b.run, q);
    assert RunOk(s.store, s.stuck, p) && RunOk(s.store, s.stuck, q);
    assert AskId(a.run, a.turn) == a && AskId(b.run, b.turn) == b;
    var rooms := s.store.rooms;
    assert AskFits(rooms, p, a.turn, s.asks[a]) by { FitsItsRound(rooms, s.asks, a, p); }
    assert AskFits(rooms, q, b.turn, s.asks[b]) by { FitsItsRound(rooms, s.asks, b, q); }
    ContributionIsFirst(s.store, s.stuck, q, b.turn, s.asks[b]);
    RoomOfTurn(rooms, p, a.turn, s.asks[a]);
    if a.run == b.run && a != b {
      FirstTurnsDiffer(rooms, s.asks, b, a, q);
    }
  }

  lemma RoomOfTurn(rooms: Rooms, run: Run, k: nat, ask: Ask)
    requires AskFits(rooms, run, k, ask)
    ensures ask.room == run.room
  {
  }

  lemma FitsItsRound(rooms: Rooms, asks: map<AskId, Ask>, a: AskId, run: Run)
    requires TurnsOk(rooms, asks, a.run, run) && a in asks && a.turn < run.turns
    ensures AskFits(rooms, run, a.turn, asks[a])
  {
    hide AskFits;
    assert AskId(a.run, a.turn) == a;
  }

  lemma ContributionIsFirst(st: Store, stuck: set<nat>, run: Run, k: nat, ask: Ask)
    requires RunOk(st, stuck, run) && AskFits(st.rooms, run, k, ask) && k < run.turns && ask.start.Some?
    ensures k < run.initial && ask.room == run.room
  {
    hide HasStart;
  }

  /** A contribution and any other turn of its round: another member, or a follow-up after it was joined. */
  lemma FirstTurnsDiffer(rooms: Rooms, asks: map<AskId, Ask>, b: AskId, a: AskId, run: Run)
    requires TurnsOk(rooms, asks, b.run, run) && a.run == b.run && a in asks && b in asks && a != b
    requires b.turn < run.initial && a.turn < run.turns && b.turn < run.turns
    requires asks[b].stage != Joined && asks[a].stage != Joined
    ensures asks[a].member != asks[b].member
  {
    hide AskFits;
    assert AskId(a.run, a.turn) == a && AskId(b.run, b.turn) == b;
  }

  lemma GaveKeepsAnswers(s: State, a: AskId, e: Entry)
    requires RunInv(s.store, s.stuck, s.runs, s.nextRun) && AskInv(s.store.rooms, s.runs, s.nextRun, s.asks)
    requires AnswersInv(s.store.rooms, s.asks, s.log)
    requires a in s.asks && s.asks[a].stage.Requested?
    requires e.Gave? && e.member == s.asks[a].member && e.room == s.asks[a].room
    ensures forall b :: b in s.asks ==> SeesAnswers(s.asks[b], s.log + [e])
  {
    forall b | b in s.asks
      ensures SeesAnswers(s.asks[b], s.log + [e])
    {
      assert SeesAnswers(s.asks[b], s.log);
      if s.asks[b].start.Some? && (s.asks[b].stage.Queued? || s.asks[b].stage.Holding?) {
        NoOtherContribution(s, a, b);
      }
    }
  }

  lemma TurnRoom(s: State, a: AskId)
    requires AskInv(s.store.rooms, s.runs, s.nextRun, s.asks) && a in s.asks && s.asks[a].stage != Joined
    ensures a.run in s.runs && a.turn < s.runs[a.run].turns
    ensures AskFits(s.store.rooms, s.runs[a.run], a.turn, s.asks[a])
    ensures s.asks[a].room == s.runs[a.run].room && s.asks[a].room in s.store.rooms
    ensures s.asks[a].member in s.store.rooms[s.asks[a].room].members
  {
    assert TurnsOk(s.store.rooms, s.asks, a.run, s.runs[a.run]);
    assert AskId(a.run, a.turn) == a;
  }

  lemma SettleKeeps(s: State, a: AskId, now: nat, alphanumeric: char -> bool)
    requires Inv(s)
    ensures Inv(DoSettle(s, a, now, alphanumeric))
  {
    hide StoreInv, RunInv, AskInv, PendingInv, AnswersInv, SleepInv, Pushed, Role, AnswerText;
    var later := DoSettle(s, a, now, alphanumeric);
    if a in s.asks && s.asks[a].stage.Requested? && s.asks[a].stage.sent && s.asks[a].stage.reply.Some? {
      var ask, result := s.asks[a], s.asks[a].stage.reply.value;
      MoveKeepsPending(s.asks, s.pending, s.nextRequest, a, later.asks[a]);
      assert later.asks == s.asks[a := later.asks[a]];
      if AnswerText(result).None? {
        MoveKeepsTurns(s.store.rooms, s.runs, s.nextRun, s.asks, a, later.asks[a]);
        MoveKeepsAnswers(s.store.rooms, s.asks, s.log, a, later.asks[a]);
      } else {
        var text := AnswerText(result).value;
        var role, e := Role(ask.kind, text, alphanumeric), Gave(ask.member, ask.room, s.store.nextMessage, text, a);
        PushedKeeps(s, ask.room, role, ask.member, text, result.attachments, now);
        MoveKeepsTurns(later.store.rooms, s.runs, s.nextRun, s.asks, a, later.asks[a]);
        SleepInvAppend(later.store.rooms, s.log, e);
        TurnRoom(s, a);
        GaveKeepsAnswers(s, a, e);
        PushedIsKept(s.store, ask.room, role, ask.member, text, result.attachments, now, a);
        AnswerAppended(later.store.rooms, s.asks, s.log, e);
        MoveKeepsAnswers(later.store.rooms, s.asks, s.log + [e], a, later.asks[a]);
      }
    }
  }

  lemma PushedIsKept(st: Store, id: nat, role: string, author: string, text: string, media: seq<Asset>, now: nat,
                     a: AskId)
    requires id in st.rooms && author in st.rooms[id].members && (role == "agent" || role == "summary")
    ensures IsKept(Pushed(st, id, role, author, text, media, now).rooms, Gave(author, id, st.nextMessage, text, a))
  {
    var later := Pushed(st, id, role, author, text, media, now).rooms[id];
    var m := NewMessage(st, role, author, text, media, now);
    assert later.messages[|later.messages| - 1] == m && IsAnswer(m, Gave(author, id, st.nextMessage, text, a));
  }

  lemma AnswerAppended(rooms: Rooms, asks: map<AskId, Ask>, log: seq<Entry>, e: Entry)
    requires AnswersInv(rooms, asks, log) && e.Gave? && IsKept(rooms, e)
    requires forall b :: b in asks ==> SeesAnswers(asks[b], log + [e])
    ensures AnswersInv(rooms, asks, log + [e])
  {
    hide IsKept, SeesAnswers;
  }

  // ---------- a turn is joined ----------

  /** A round changes its queue only. */
  lemma QueueKeeps(st: Store, stuck: set<nat>, runs: map<nat, Run>, nextRun: nat, asks: map<AskId, Ask>,
                   r: nat, more: seq<(string, string)>)
    requires RunInv(st, stuck, runs, nextRun) && AskInv(st.rooms, runs, nextRun, asks)
    requires r in runs && runs[r].group && !runs[r].limitHit
    requires forall p :: p in more ==> p.1 in st.rooms[runs[r].room].members && p.0 != p.1
    ensures var later := runs[r := runs[r].(queue := runs[r].queue + more, enqueued := runs[r].enqueued + more)];
            RunInv(st, stuck, later, nextRun) && AskInv(st.rooms, later, nextRun, asks)
  {
    var run := runs[r].(queue := runs[r].queue + more, enqueued := runs[r].enqueued + more);
    hide TurnsOk, AskInv, HasStart;
    assert RunOk(st, stuck, runs[r]);
    assert RunOk(st, stuck, run);
    hide RunOk, RunInv;
    ReplaceRun(st, stuck, runs, nextRun, r, run);
    ReplaceTurns(st.rooms, runs, nextRun, asks, r, run);
  }

  lemma ReplaceTurns(rooms: Rooms, runs: map<nat, Run>, nextRun: nat, asks: map<AskId, Ask>, r: nat, run: Run)
    requires AskInv(rooms, runs, nextRun, asks) && r in runs
    requires run.(queue := [], enqueued := []) == runs[r].(queue := [], enqueued := [])
    ensures AskInv(rooms, runs[r := run], nextRun, asks)
  {
    assert TurnsOk(rooms, asks, r, runs[r]);
    SameRunTurns(rooms, asks, r, runs[r], run);
    hide TurnsOk;
  }

  lemma SameRunTurns(rooms: Rooms, asks: map<AskId, Ask>, r: nat, run: Run, later: Run)
    requires TurnsOk(rooms, asks, r, run) && run.(queue := [], enqueued := []) == later.(queue := [], enqueued := [])
    ensures TurnsOk(rooms, asks, r, later)
  {
    forall k | 0 <= k < run.turns
      ensures AskId(r, k) in asks && AskFits(rooms, later, k, asks[AskId(r, k)])
    {
      assert AskFits(rooms, run, k, asks[AskId(r, k)]);
    }
    hide AskFits;
  }

  /** A round goes on in the same room. */
  lemma ReplaceRun(st: Store, stuck: set<nat>, runs: map<nat, Run>, nextRun: nat, r: nat, run: Run)
    requires RunInv(st, stuck, runs, nextRun) && r in runs && run.room == runs[r].room && RunOk(st, stuck, run)
    ensures RunInv(st, stuck, runs[r := run], nextRun)
  {
    hide RunOk;
    var later := runs[r := run];
    forall id | HasRun(runs, id)
      ensures HasRun(later, id)
    {
      var q :| q in runs && runs[q].room == id;
      assert later[q].room == id;
    }
  }

  /** The outcome of a joined turn: a failure is shown in the room, an answer may call other members. */
  lemma FailedJoinKeeps(s: State, a: AskId, now: nat, note: string)
    requires Inv(s) && a in s.asks && s.asks[a].stage == Returned(Failed)
    ensures Inv(WithStage(s, a, Joined).(store := Pushed(s.store, s.asks[a].room, "error", SYSTEM, note, [], now)))
  {
    hide StoreInv, RunInv, AskInv, LockInv, PendingInv, AnswersInv, SleepInv, Unnoticed, Pushed;
    var ask := s.asks[a].(stage := Joined);
    var st := Pushed(s.store, ask.room, "error", SYSTEM, note, [], now);
    PushedKeeps(s, ask.room, "error", SYSTEM, note, [], now);
    JoinMoves(s, st, a, ask);
  }

  lemma AnsweredJoinKeeps(s: State, a: AskId)
    requires Inv(s) && a in s.asks && s.asks[a].stage.Returned?
    ensures Inv(WithStage(s, a, Joined))
  {
    hide StoreInv, RunInv, AskInv, LockInv, PendingInv, AnswersInv, SleepInv;
    JoinMoves(s, s.store, a, s.asks[a].(stage := Joined));
  }

  lemma JoinKeeps(s: State, a: AskId, now: nat, note: string, alphanumeric: char -> bool)
    requires Inv(s)
    ensures Inv(DoJoin(s, a, now, note, alphanumeric))
  {
    hide StoreInv, RunInv, AskInv, LockInv, PendingInv, AnswersInv, SleepInv, Pushed, AskFits;
    if a in s.asks && s.asks[a].stage.Returned? && a.run in s.runs {
      if s.asks[a].stage.outcome.Failed? {
        FailedJoinKeeps(s, a, now, note);
      } else {
        AnsweredJoinKeeps(s, a);
        var ask, joined := s.asks[a], WithStage(s, a, Joined);
        if s.runs[a.run].group && ask.room in s.store.rooms {
          TurnRoom(s, a);
          NotAtLimit(s, a);
          var more := Mentions.FollowUps(ask.member, ask.stage.outcome.text, s.store.rooms[ask.room].members,
                                         alphanumeric);
          MembersOnly(more, s.store.rooms[ask.room].members);
          QueueKeeps(s.store, s.stuck, s.runs, s.nextRun, joined.asks, a.run, more);
        }
      }
    }
  }

  lemma MembersOnly(pairs: seq<(string, string)>, members: seq<string>)
    requires forall k :: 0 <= k < |pairs| ==> pairs[k].1 in members && pairs[k].0 != pairs[k].1
    ensures forall p :: p in pairs ==> p.1 in members && p.0 != p.1
  {
  }

  lemma JoinMoves(s: State, st: Store, a: AskId, ask: Ask)
    requires RoomsInv(st, s) && LockInv(s.asks, s.holders) && PendingInv(s.asks, s.pending, s.nextRequest)
    requires a in s.asks && s.asks[a].stage.Returned? && ask == s.asks[a].(stage := Joined)
    ensures LockInv(s.asks[a := ask], s.holders) && PendingInv(s.asks[a := ask], s.pending, s.nextRequest)
    ensures AskInv(st.rooms, s.runs, s.nextRun, s.asks[a := ask])
    ensures AnswersInv(st.rooms, s.asks[a := ask], s.log)
    ensures RunInv(st, s.stuck, s.runs, s.nextRun) && SleepInv(st.rooms, s.log)
  {
    hide RunInv, AskInv, PendingInv, AnswersInv, SleepInv;
    MoveKeepsPending(s.asks, s.pending, s.nextRequest, a, ask);
    MoveKeepsTurns(st.rooms, s.runs, s.nextRun, s.asks, a, ask);
    MoveKeepsAnswers(st.rooms, s.asks, s.log, a, ask);
  }

  /** A round at its limit has joined all its turns. */
  lemma NotAtLimit(s: State, a: AskId)
    requires AskInv(s.store.rooms, s.runs, s.nextRun, s.asks) && a in s.asks && s.asks[a].stage != Joined
    ensures a.run in s.runs && !s.runs[a.run].limitHit
  {
    assert TurnsOk(s.store.rooms, s.asks, a.run, s.runs[a.run]);
    assert AskId(a.run, a.turn) == a;
  }

  // ---------- new turns ----------

  /** New turns that wait for their lock. */
  predicate NewTurns(asks: map<AskId, Ask>, more: map<AskId, Ask>) {
    more.Keys !! asks.Keys && forall a :: a in more ==> more[a].stage.Queued?
  }

  lemma NewTurnsKeepLocks(asks: map<AskId, Ask>, holders: map<string, AskId>, more: map<AskId, Ask>)
    requires LockInv(asks, holders) && NewTurns(asks, more)
    ensures LockInv(asks + more, holders)
  {
  }

  lemma NewTurnsKeepPending(asks: map<AskId, Ask>, pending: map<RequestId, Pending>, nextRequest: nat, more: map<AskId,
                            Ask>)
    requires PendingInv(asks, pending, nextRequest) && NewTurns(asks, more)
    ensures PendingInv(asks + more, pending, nextRequest)
  {
    assert forall a, id :: Waits(asks + more, a, id) <==> Waits(asks, a, id);
  }

  lemma NewTurnsKeepAnswers(rooms: Rooms, asks: map<AskId, Ask>, log: seq<Entry>, more: map<AskId, Ask>)
    requires AnswersInv(rooms, asks, log)
    requires forall a :: a in more ==> SeesAnswers(more[a], log)
    ensures AnswersInv(rooms, asks + more, log)
  {
    hide SeesAnswers, IsKept;
  }

  lemma RunRoom(st: Store, stuck: set<nat>, run: Run)
    requires RunOk(st, stuck, run)
    ensures run.room in st.rooms
  {
  }

  lemma PoppedRunOk(st: Store, stuck: set<nat>, run: Run)
    requires RunOk(st, stuck, run) && run.group && run.queue != [] && !run.limitHit
    requires run.turns - run.initial != MAX_MENTION_TURNS
    ensures RunOk(st, stuck, Popped(run))
    ensures run.queue[0] in run.enqueued && run.queue[0].1 in st.rooms[run.room].members
    ensures |run.executed| == run.turns - run.initial && run.initial >= 1
  {
    hide HasStart;
    assert run.enqueued[|run.executed|] == run.queue[0];
    assert run.queue == [run.queue[0]] + run.queue[1..];
  }

  lemma PoppedTurnsOk(rooms: Rooms, asks: map<AskId, Ask>, r: nat, run: Run)
    requires TurnsOk(rooms, asks, r, run) && !run.limitHit
    requires run.room in rooms && run.queue != [] && run.queue[0].1 in rooms[run.room].members
    requires |run.executed| == run.turns - run.initial && 1 <= run.initial <= run.turns
    requires forall k :: 0 <= k < run.turns ==> asks[AskId(r, k)].stage == Joined
    ensures TurnsOk(rooms, asks + map[AskId(r, run.turns) := Called(run)], r, Popped(run))
  {
    var more := map[AskId(r, run.turns) := Called(run)];
    var popped := Popped(run);
    forall k | 0 <= k < popped.turns
      ensures AskId(r, k) in asks + more && AskFits(rooms, popped, k, (asks + more)[AskId(r, k)])
    {
      assert k < run.turns ==> AskFits(rooms, run, k, asks[AskId(r, k)]);
    }
    hide AskFits;
  }

  lemma PopKeepsTurns(rooms: Rooms, runs: map<nat, Run>, nextRun: nat, asks: map<AskId, Ask>, r: nat, run: Run,
                      more: map<AskId, Ask>)
    requires AskInv(rooms, runs, nextRun, asks) && r in runs && run.turns == runs[r].turns + 1
    requires r < nextRun && more.Keys == {AskId(r, runs[r].turns)} && more[AskId(r, runs[r].turns)].stage.Queued?
    requires TurnsOk(rooms, asks + more, r, run)
    ensures AskInv(rooms, runs[r := run], nextRun, asks + more)
  {
    var later := runs[r := run];
    forall q | q in later
      ensures TurnsOk(rooms, asks + more, q, later[q])
    {
      if q != r {
        assert TurnsOk(rooms, asks, q, runs[q]);
        OtherTurns(rooms, asks, more, q, runs[q]);
      }
    }
    hide TurnsOk;
  }

  lemma OtherTurns(rooms: Rooms, asks: map<AskId, Ask>, more: map<AskId, Ask>, q: nat, run: Run)
    requires TurnsOk(rooms, asks, q, run) && forall a :: a in more ==> a.run != q
    ensures TurnsOk(rooms, asks + more, q, run)
  {
    hide AskFits;
    assert forall k :: AskId(q, k) in asks ==> (asks + more)[AskId(q, k)] == asks[AskId(q, k)];
  }

  lemma NextAskIsNew(st: Store, stuck: set<nat>, runs: map<nat, Run>, nextRun: nat, asks: map<AskId, Ask>, r: nat)
    requires RunInv(st, stuck, runs, nextRun) && AskInv(st.rooms, runs, nextRun, asks) && r in runs
    requires runs[r].queue != []
    ensures NewTurns(asks, map[AskId(r, runs[r].turns) := Called(runs[r])])
    ensures RunOk(st, stuck, runs[r]) && TurnsOk(st.rooms, asks, r, runs[r]) && r < nextRun
  {
    hide RunOk, TurnsOk;
  }

  lemma PopKeepsRounds(st: Store, stuck: set<nat>, runs: map<nat, Run>, nextRun: nat, asks: map<AskId, Ask>, r: nat)
    requires RunInv(st, stuck, runs, nextRun) && AskInv(st.rooms, runs, nextRun, asks) && r in runs
    requires runs[r].group && runs[r].queue != [] && !runs[r].limitHit
    requires runs[r].turns - runs[r].initial != MAX_MENTION_TURNS
    requires forall k :: 0 <= k < runs[r].turns ==> AskId(r, k) in asks && asks[AskId(r, k)].stage == Joined
    ensures var run := runs[r];
            var popped := Popped(run);
            var more := map[AskId(r, run.turns) := Called(run)];
            && RunInv(st, stuck, runs[r := popped], nextRun)
            && AskInv(st.rooms, runs[r := popped], nextRun, asks + more)
            && NewTurns(asks, more)
  {
    var run := runs[r];
    var popped := Popped(run);
    var more := map[AskId(r, run.turns) := Called(run)];
    hide RunOk, TurnsOk, AskFits, NewTurns, Popped, Called, HasStart;
    NextAskIsNew(st, stuck, runs, nextRun, asks, r);
    hide RunInv, AskInv;
    RunRoom(st, stuck, run);
    PoppedRunOk(st, stuck, run);
    PoppedTurnsOk(st.rooms, asks, r, run);
    ReplaceRun(st, stuck, runs, nextRun, r, popped);
    PoppedCounts(run);
    PopKeepsTurns(st.rooms, runs, nextRun, asks, r, popped, more);
  }

  lemma PoppedCounts(run: Run)
    requires run.queue != []
    ensures Popped(run).turns == run.turns + 1 && Popped(run).room == run.room && Called(run).stage == Queued
  {
  }

  lemma PopKeeps(s: State, r: nat)
    requires Inv(s) && r in s.runs && s.runs[r].group && AllJoined(s, r) && s.runs[r].queue != [] && !s.runs[r].limitHit
    requires s.runs[r].turns - s.runs[r].initial != MAX_MENTION_TURNS
    ensures var run := s.runs[r];
            Inv(s.(runs := s.runs[r := Popped(run)], asks := s.asks + map[AskId(r, run.turns) := Called(run)]))
  {
    var run := s.runs[r];
    var more := map[AskId(r, run.turns) := Called(run)];
    hide StoreInv, RunInv, AskInv, LockInv, PendingInv, AnswersInv, SleepInv, Popped;
    PopKeepsRounds(s.store, s.stuck, s.runs, s.nextRun, s.asks, r);
    NewTurnsKeepLocks(s.asks, s.holders, more);
    NewTurnsKeepPending(s.asks, s.pending, s.nextRequest, more);
    NewTurnsKeepAnswers(s.store.rooms, s.asks, s.log, more);
  }

  lemma FollowUpKeeps(s: State, r: nat, now: nat, note: string)
    requires Inv(s)
    ensures Inv(DoFollowUp(s, r, now, note))
  {
    hide StoreInv, RunInv, AskInv, PendingInv, AnswersInv, SleepInv, LockInv, Unnoticed, Pushed;
    var later := DoFollowUp(s, r, now, note);
    if r in s.runs && s.runs[r].group && AllJoined(s, r) && s.runs[r].queue != [] && !s.runs[r].limitHit {
      var run := s.runs[r];
      if run.turns - run.initial == MAX_MENTION_TURNS {
        PushedKeeps(s, run.room, "error", SYSTEM, note, [], now);
        LimitKeeps(s, later.store, r);
      } else {
        PopKeeps(s, r);
        assert later.asks == s.asks + map[AskId(r, run.turns) := Called(run)];
      }
    }
  }

  lemma LimitKeeps(s: State, st: Store, r: nat)
    requires RoomsInv(st, s) && r in s.runs && AllJoined(s, r) && s.runs[r].queue != []
    requires s.runs[r].turns - s.runs[r].initial == MAX_MENTION_TURNS
    ensures RoomsInv(st, s.(runs := s.runs[r := s.runs[r].(limitHit := true)]))
  {
    var run := s.runs[r].(limitHit := true);
    hide AnswersInv, SleepInv, AskFits, HasStart, RunOk, TurnsOk;
    assert RunOk(st, s.stuck, s.runs[r]) && TurnsOk(st.rooms, s.asks, r, s.runs[r]);
    LimitRunOk(st, s.stuck, s.runs[r]);
    LimitTurns(st.rooms, s.asks, r, s.runs[r], run);
    ReplaceRun(st, s.stuck, s.runs, s.nextRun, r, run);
  }

  lemma LimitRunOk(st: Store, stuck: set<nat>, run: Run)
    requires RunOk(st, stuck, run) && run.queue != [] && run.turns - run.initial == MAX_MENTION_TURNS
    ensures RunOk(st, stuck, run.(limitHit := true))
  {
  }

  lemma LimitTurns(rooms: Rooms, asks: map<AskId, Ask>, r: nat, run: Run, later: Run)
    requires TurnsOk(rooms, asks, r, run) && later == run.(limitHit := true)
    requires forall k :: 0 <= k < run.turns ==> asks[AskId(r, k)].stage == Joined
    ensures TurnsOk(rooms, asks, r, later)
  {
    forall k | 0 <= k < run.turns
      ensures AskFits(rooms, later, k, asks[AskId(r, k)])
    {
      assert AskFits(rooms, run, k, asks[AskId(r, k)]);
    }
    hide AskFits;
  }
}
