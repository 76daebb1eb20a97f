/** What holds in every state that the coordinator can reach. */
module Invariants {
  import opened Options
  import opened Rooms
  import opened ChatOps
  import opened Coordinator

  // ---------- the invariant ----------

  predicate StoreInv(st: Store, reserved: set<nat>) {
    StoreOk(st) && forall id :: id in reserved ==> 1 <= id < st.nextRoom && id !in st.rooms
  }

  /** The message of the user that a round started with. */
  predicate IsStart(m: Message, id: nat) {
    m.id == id && m.role == "user" && m.author == HUMAN
  }

  ghost predicate HasStart(room: Room, id: nat) {
    exists m :: m in room.messages && IsStart(m, id)
  }

  /** A round belongs to a busy room, keeps its books, and stays within its bounds. */
  ghost predicate RunOk(st: Store, stuck: set<nat>, run: Run) {
    && run.room in st.rooms && st.rooms[run.room].busy && run.room !in stuck
    && HasStart(st.rooms[run.room], run.start) && run.start < st.nextMessage
    && 1 <= run.initial <= run.turns <= run.initial + MAX_MENTION_TURNS
    && (run.group <==> |st.rooms[run.room].members| > 1)
    && (!run.group ==> run.turns == 1 && run.enqueued == [])
    && |run.executed| == run.turns - run.initial
    && run.enqueued == run.executed + run.queue
    && (run.limitHit ==> |run.executed| == MAX_MENTION_TURNS && run.queue != [])
    && (forall p :: p in run.enqueued ==> p.1 in st.rooms[run.room].members && p.0 != p.1)
  }

  ghost predicate HasRun(runs: map<nat, Run>, id: nat) {
    exists r :: r in runs && runs[r].room == id
  }

  /** Rounds and busy rooms: one round per room, and a busy room has a round or has lost it to a failed save. */
  ghost predicate RunInv(st: Store, stuck: set<nat>, runs: map<nat, Run>, nextRun: nat) {
    && (forall r :: r in runs ==> r < nextRun && RunOk(st, stuck, runs[r]))
    && (forall q, r :: q in runs && r in runs && q != r ==> runs[q].room != runs[r].room)
    && (forall id :: id in stuck ==> id in st.rooms && st.rooms[id].busy)
    && (forall id :: id in st.rooms && st.rooms[id].busy ==> id in stuck || HasRun(runs, id))
  }

  /** Turn `k` of a round does what the round asked for. */
  predicate AskFits(rooms: Rooms, run: Run, k: nat, ask: Ask) {
    && ask.room == run.room
    && run.room in rooms && ask.member in rooms[run.room].members
    && (k < run.initial ==>
        (ask.kind, ask.start) == if run.group then (Contribution, Some(run.start)) else (Direct, None))
    && (run.initial <= k < run.initial + |run.executed| ==>
          ask.kind == Mention && ask.start == None && ask.member == run.executed[k - run.initial].1)
  }

  predicate TurnsOk(rooms: Rooms, asks: map<AskId, Ask>, r: nat, run: Run) {
    && (forall k :: 0 <= k < run.turns ==> AskId(r, k) in asks && AskFits(rooms, run, k, asks[AskId(r, k)]))
    && (forall j, k :: 0 <= j < k < run.turns && k < run.initial ==>
        asks[AskId(r, j)].member != asks[AskId(r, k)].member)
    && (run.turns > run.initial ==> forall k :: 0 <= k < run.turns - 1 ==> asks[AskId(r, k)].stage == Joined)
    && (run.limitHit ==> forall k :: 0 <= k < run.turns ==> asks[AskId(r, k)].stage == Joined)
  }

  predicate AskInv(rooms: Rooms, runs: map<nat, Run>, nextRun: nat, asks: map<AskId, Ask>) {
    && (forall r :: r in runs ==> TurnsOk(rooms, asks, r, runs[r]))
    && (forall a :: a in asks ==>
          && a.run < nextRun
          && (a.run in runs ==> a.turn < runs[a.run].turns)
          && (a.run !in runs ==> asks[a].stage == Joined))
  }

  predicate Holds(stage: Stage) {
    stage.Holding? || stage.Snapshotted? || stage.Requested? || stage.Settled?
  }

  /** The turn lock of a member is held by exactly one turn of this member, or by none. */
  predicate LockInv(asks: map<AskId, Ask>, holders: map<string, AskId>) {
    && (forall m :: m in holders ==>
        holders[m] in asks && asks[holders[m]].member == m && Holds(asks[holders[m]].stage))
    && (forall a :: a in asks && Holds(asks[a].stage) ==> asks[a].member in holders && holders[asks[a].member] == a)
  }

  /** This turn waits for the reply to this request. */
  predicate Waits(asks: map<AskId, Ask>, a: AskId, id: RequestId) {
    a in asks && asks[a].stage.Requested? && asks[a].stage.id == id
  }

  /** A request is pending exactly while its turn waits for the reply. */
  ghost predicate PendingInv(asks: map<AskId, Ask>, pending: map<RequestId, Pending>, nextRequest: nat) {
    && (forall id :: id in pending ==>
          && Waits(asks, pending[id].ask, id) && asks[pending[id].ask].stage.reply == None
          && pending[id].expected == asks[pending[id].ask].member)
    && (forall a :: a in asks && asks[a].stage.Requested? ==>
          && asks[a].stage.id.serial < nextRequest
          && (asks[a].stage.reply == None ==> asks[a].stage.id in pending && pending[asks[a].stage.id].ask == a))
    && (forall a, b :: a in asks && b in asks && SameRequest(asks[a].stage, asks[b].stage) ==> a == b)
  }

  predicate SameRequest(a: Stage, b: Stage) {
    a.Requested? && b.Requested? && a.id == b.id
  }

  predicate IsAnswer(m: Message, e: Entry)
    requires e.Gave?
  {
    m.id == e.message && m.author == e.member && m.text == e.text && (m.role == "agent" || m.role == "summary")
  }

  /** A recorded answer is a message of its room. */
  ghost predicate IsKept(rooms: Rooms, e: Entry)
    requires e.Gave?
  {
    && e.room in rooms && e.member in rooms[e.room].members
    && exists m :: m in rooms[e.room].messages && IsAnswer(m, e)
  }

  /** A contribution that has not looked at its room yet sees every answer that its member gave there. */
  predicate SeesAnswers(ask: Ask, log: seq<Entry>) {
    ask.start.Some? && (ask.stage.Queued? || ask.stage.Holding?) ==>
      forall e :: e in log && e.Gave? && e.member == ask.member && e.room == ask.room ==> e.message <= ask.start.value
  }

  ghost predicate AnswersInv(rooms: Rooms, asks: map<AskId, Ask>, log: seq<Entry>) {
    && (forall e :: e in log && e.Gave? ==> IsKept(rooms, e))
    && (forall a :: a in asks ==> SeesAnswers(asks[a], log))
  }

  predicate SaidSince(log: seq<Entry>, i: nat, j: nat, room: nat)
    requires i <= j <= |log|
  {
    exists k :: i <= k < j && log[k] == Said(room)
  }

  /** Between two reports of a room there is a user message in it; until then the room sleeps. */
  predicate SleepInv(rooms: Rooms, log: seq<Entry>) {
    && (forall i :: 0 <= i < |log| && log[i].Slept? ==>
          log[i].room in rooms && (rooms[log[i].room].sleeping || SaidSince(log, i, |log|, log[i].room)))
    && (forall i, j :: 0 <= i < j < |log| && log[i].Slept? && log[j] == log[i] ==> SaidSince(log, i, j, log[i].room))
  }

  ghost predicate Inv(s: State) {
    && StoreInv(s.store, s.reserved)
    && RunInv(s.store, s.stuck, s.runs, s.nextRun)
    && AskInv(s.store.rooms, s.runs, s.nextRun, s.asks)
    && LockInv(s.asks, s.holders)
    && PendingInv(s.asks, s.pending, s.nextRequest)
    && AnswersInv(s.store.rooms, s.asks, s.log)
    && SleepInv(s.store.rooms, s.log)
  }

  lemma StartedInv(s: State)
    requires Started(s)
    ensures Inv(s)
  {
  }

  // ---------- turns that only move on ----------

  /** The same turn, perhaps at another stage. */
  predicate SameTurn(a: Ask, b: Ask) {
    (a.room, a.member, a.kind, a.start) == (b.room, b.member, b.kind, b.start)
  }

  lemma MoveKeepsTurns(rooms: Rooms, runs: map<nat, Run>, nextRun: nat, asks: map<AskId, Ask>, a: AskId, ask: Ask)
    requires AskInv(rooms, runs, nextRun, asks)
    requires a in asks && asks[a].stage != Joined && SameTurn(asks[a], ask)
    ensures AskInv(rooms, runs, nextRun, asks[a := ask])
  {
    var later := asks[a := ask];
    forall r | r in runs
      ensures TurnsOk(rooms, later, r, runs[r])
    {
      assert TurnsOk(rooms, asks, r, runs[r]);
      assert forall k :: AskId(r, k) in asks ==> SameTurn(asks[AskId(r, k)], later[AskId(r, k)]);
    }
  }

  lemma MoveKeepsAnswers(rooms: Rooms, asks: map<AskId, Ask>, log: seq<Entry>, a: AskId, ask: Ask)
    requires AnswersInv(rooms, asks, log)
    requires a in asks && SameTurn(asks[a], ask) && !ask.stage.Queued?
    requires ask.stage.Holding? ==> asks[a].stage.Queued?
    ensures AnswersInv(rooms, asks[a := ask], log)
  {
    assert SeesAnswers(asks[a], log);
    hide IsKept;
  }

  /** A turn that is not waiting for a reply moves to a stage without a request. */
  lemma MoveKeepsPending(asks: map<AskId, Ask>, pending: map<RequestId, Pending>, nextRequest: nat, a: AskId, ask: Ask)
    requires PendingInv(asks, pending, nextRequest)
    requires a in asks && SameTurn(asks[a], ask) && !ask.stage.Requested?
    requires asks[a].stage.Requested? ==> asks[a].stage.reply.Some?
    ensures PendingInv(asks[a := ask], pending, nextRequest)
  {
  }

  /** A turn sends its request under a fresh id. */
  lemma RegisterKeepsPending(asks: map<AskId, Ask>, pending: map<RequestId, Pending>, nextRequest: nat, a: AskId,
                             ask: Ask)
    requires PendingInv(asks, pending, nextRequest)
    requires a in asks && SameTurn(asks[a], ask) && !asks[a].stage.Requested?
    requires ask.stage.Requested? && ask.stage.reply == None && ask.stage.id.serial == nextRequest
    ensures PendingInv(asks[a := ask], pending[ask.stage.id := Pending(ask.member, a)], nextRequest + 1)
  {
  }

  /** A turn stops waiting, and its request is no longer pending. */
  lemma AnswerKeepsPending(asks: map<AskId, Ask>, pending: map<RequestId, Pending>, nextRequest: nat, a: AskId,
                           ask: Ask)
    requires PendingInv(asks, pending, nextRequest)
    requires a in asks && SameTurn(asks[a], ask) && asks[a].stage.Requested?
    requires ask.stage.Requested? ==> ask.stage.id == asks[a].stage.id && ask.stage.reply.Some?
    ensures PendingInv(asks[a := ask], pending - {asks[a].stage.id}, nextRequest)
  {
    assert Waits(asks, a, asks[a].stage.id);
    assert forall id :: Waits(asks[a := ask], a, id) ==> Waits(asks, a, id);
  }

  /** A turn learns that its request was delivered. */
  lemma DeliveredKeepsPending(asks: map<AskId, Ask>, pending: map<RequestId, Pending>, nextRequest: nat, a: AskId,
                              ask: Ask)
    requires PendingInv(asks, pending, nextRequest)
    requires a in asks && asks[a].stage.Requested? && ask == asks[a].(stage := asks[a].stage.(sent := true))
    ensures PendingInv(asks[a := ask], pending, nextRequest)
  {
    assert forall b, id :: Waits(asks[a := ask], b, id) <==> Waits(asks, b, id);
  }

  lemma TakeTurnKeeps(s: State, a: AskId)
    requires Inv(s)
    ensures Inv(DoTakeTurn(s, a))
  {
    hide StoreInv, RunInv, AskInv, PendingInv, AnswersInv, SleepInv;
    if DoTakeTurn(s, a) != s {
      var ask := s.asks[a].(stage := Holding);
      assert DoTakeTurn(s, a).asks == s.asks[a := ask];
      MoveKeepsPending(s.asks, s.pending, s.nextRequest, a, ask);
      MoveKeepsTurns(s.store.rooms, s.runs, s.nextRun, s.asks, a, ask);
      MoveKeepsAnswers(s.store.rooms, s.asks, s.log, a, ask);
    }
  }

  lemma FailEarlyKeeps(s: State, a: AskId)
    requires Inv(s)
    ensures Inv(DoFailEarly(s, a))
  {
    hide StoreInv, RunInv, AskInv, PendingInv, AnswersInv, SleepInv;
    if DoFailEarly(s, a) != s {
      var ask := s.asks[a].(stage := Returned(Failed));
      assert DoFailEarly(s, a).asks == s.asks[a := ask];
      MoveKeepsPending(s.asks, s.pending, s.nextRequest, a, ask);
      MoveKeepsTurns(s.store.rooms, s.runs, s.nextRun, s.asks, a, ask);
      MoveKeepsAnswers(s.store.rooms, s.asks, s.log, a, ask);
    }
  }

  lemma SnapshotKeeps(s: State, a: AskId)
    requires Inv(s)
    ensures Inv(DoSnapshot(s, a))
  {
    hide StoreInv, RunInv, AskInv, PendingInv, AnswersInv, SleepInv, TurnContext;
    if a in s.asks && s.asks[a].stage == Holding {
      var ask := DoSnapshot(s, a).asks[a];
      assert DoSnapshot(s, a).asks == s.asks[a := ask];
      MoveKeepsPending(s.asks, s.pending, s.nextRequest, a, ask);
      MoveKeepsTurns(s.store.rooms, s.runs, s.nextRun, s.asks, a, ask);
      MoveKeepsAnswers(s.store.rooms, s.asks, s.log, a, ask);
    }
  }

  lemma RegisterKeeps(s: State, a: AskId)
    requires Inv(s)
    ensures Inv(DoRegister(s, a))
  {
    hide StoreInv, RunInv, AskInv, PendingInv, AnswersInv, SleepInv;
    if a in s.asks && s.asks[a].stage == Snapshotted {
      var ask := DoRegister(s, a).asks[a];
      assert DoRegister(s, a).asks == s.asks[a := ask];
      RegisterKeepsPending(s.asks, s.pending, s.nextRequest, a, ask);
      MoveKeepsTurns(s.store.rooms, s.runs, s.nextRun, s.asks, a, ask);
      MoveKeepsAnswers(s.store.rooms, s.asks, s.log, a, ask);
    }
  }

  lemma SendDoneKeeps(s: State, a: AskId, delivered: bool)
    requires Inv(s)
    ensures Inv(DoSendDone(s, a, delivered))
  {
    hide StoreInv, RunInv, AskInv, PendingInv, AnswersInv, SleepInv;
    if a in s.asks && s.asks[a].stage.Requested? && !s.asks[a].stage.sent {
      var ask := DoSendDone(s, a, delivered).asks[a];
      assert DoSendDone(s, a, delivered).asks == s.asks[a := ask];
      if delivered {
        DeliveredKeepsPending(s.asks, s.pending, s.nextRequest, a, ask);
      } else {
        AnswerKeepsPending(s.asks, s.pending, s.nextRequest, a, ask);
      }
      MoveKeepsTurns(s.store.rooms, s.runs, s.nextRun, s.asks, a, ask);
      MoveKeepsAnswers(s.store.rooms, s.asks, s.log, a, ask);
    }
  }

  lemma DeliverKeeps(s: State, source: string, id: RequestId, result: TurnResult)
    requires Inv(s)
    ensures Inv(DoDeliver(s, source, id, result))
  {
    hide StoreInv, RunInv, AskInv, AnswersInv, SleepInv;
    if id in s.pending && s.pending[id].expected == source {
      var a := s.pending[id].ask;
      assert Waits(s.asks, a, id);
      var ask := DoDeliver(s, source, id, result).asks[a];
      assert DoDeliver(s, source, id, result).asks == s.asks[a := ask];
      AnswerKeepsPending(s.asks, s.pending, s.nextRequest, a, ask);
      MoveKeepsTurns(s.store.rooms, s.runs, s.nextRun, s.asks, a, ask);
      MoveKeepsAnswers(s.store.rooms, s.asks, s.log, a, ask);
    }
  }

  lemma ReturnKeeps(s: State, a: AskId)
    requires Inv(s)
    ensures Inv(DoReturn(s, a))
  {
    hide StoreInv, RunInv, AskInv, PendingInv, AnswersInv, SleepInv;
    if a in s.asks && s.asks[a].stage.Settled? {
      var ask := DoReturn(s, a).asks[a];
      assert DoReturn(s, a).asks == s.asks[a := ask];
      MoveKeepsPending(s.asks, s.pending, s.nextRequest, a, ask);
      MoveKeepsTurns(s.store.rooms, s.runs, s.nextRun, s.asks, a, ask);
      MoveKeepsAnswers(s.store.rooms, s.asks, s.log, a, ask);
    }
  }
}
