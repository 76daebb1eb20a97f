/** The steps that start and end a round, and the steps that concern rooms, keep the invariant; so does every
    step of the coordinator. */
module RoomSteps {
  import opened Options
  import opened Rooms
  import opened Paging
  import opened ChatOps
  import opened Coordinator
  import opened Invariants
  import opened Preservation
  import Ordered

  // ---------- a round ends ----------

  /** Only this room differs, and its members do not. */
  predicate OneRoomChanged(st: Store, later: Store, id: nat) {
    && id in st.rooms && later.rooms.Keys == st.rooms.Keys
    && later.rooms[id].members == st.rooms[id].members
    && (forall r :: r in st.rooms && r != id ==> later.rooms[r] == st.rooms[r])
    && st.nextMessage <= later.nextMessage && later.nextRoom == st.nextRoom
    && Grows(st.rooms, st.nextMessage, later.rooms)
  }

  lemma RunElsewhere(st: Store, later: Store, id: nat, stuck: set<nat>, run: Run)
    requires OneRoomChanged(st, later, id) && RunOk(st, stuck, run) && run.room != id
    ensures RunOk(later, stuck, run)
  {
    hide HasStart, Grows;
  }

  lemma EndedRunInv(st: Store, later: Store, stuck: set<nat>, runs: map<nat, Run>, nextRun: nat, r: nat)
    requires RunInv(st, stuck, runs, nextRun) && r in runs && OneRoomChanged(st, later, runs[r].room)
    requires !later.rooms[runs[r].room].busy
    ensures RunInv(later, stuck, runs - {r}, nextRun)
  {
    hide RunOk, Grows;
    RunRoomIsFree(st, stuck, runs[r]);
    forall q | q in runs - {r}
      ensures RunOk(later, stuck, runs[q])
    {
      RunElsewhere(st, later, runs[r].room, stuck, runs[q]);
    }
    forall id | id in later.rooms && later.rooms[id].busy
      ensures id in stuck || HasRun(runs - {r}, id)
    {
      if id !in stuck {
        var q :| q in runs && runs[q].room == id;
        assert q in runs - {r};
      }
    }
  }

  lemma RunRoomIsFree(st: Store, stuck: set<nat>, run: Run)
    requires RunOk(st, stuck, run)
    ensures run.room in st.rooms && st.rooms[run.room].busy && run.room !in stuck
  {
  }

  lemma EndedAskInv(rooms: Rooms, runs: map<nat, Run>, nextRun: nat, asks: map<AskId, Ask>, r: nat)
    requires AskInv(rooms, runs, nextRun, asks) && r in runs
    requires forall k :: 0 <= k < runs[r].turns ==> AskId(r, k) in asks && asks[AskId(r, k)].stage == Joined
    ensures AskInv(rooms, runs - {r}, nextRun, asks)
  {
    hide TurnsOk;
    forall a | a in asks && a.run !in runs - {r}
      ensures asks[a].stage == Joined
    {
      assert a.run == r ==> a == AskId(r, a.turn);
    }
  }

  lemma FinishedChanges(st: Store, id: nat, now: nat)
    requires StoreOk(st) && id in st.rooms
    ensures var later := Finished(st, id, now);
            && StoreOk(later) && OneRoomChanged(st, later, id) && !later.rooms[id].busy
            && later.rooms[id].sleeping == st.rooms[id].sleeping
  {
    hide StoreOk, Grows;
    FinishedKeeps(st, id, now);
  }

  lemma FinishKeeps(s: State, r: nat, now: nat)
    requires Inv(s)
    ensures Inv(DoFinish(s, r, now))
  {
    hide RunInv, AskInv, LockInv, PendingInv, AnswersInv, SleepInv, Finished, StoreOk, OneRoomChanged;
    if DoFinish(s, r, now) != s {
      var id := s.runs[r].room;
      RunOfRoom(s, r);
      FinishedChanges(s.store, id, now);
      var later := Finished(s.store, id, now);
      ChangedRooms(s.store, later, id);
      EndedRunInv(s.store, later, s.stuck, s.runs, s.nextRun, r);
      AskInvLater(s.store.rooms, later.rooms, s.runs, s.nextRun, s.asks);
      EndedAskInv(later.rooms, s.runs, s.nextRun, s.asks, r);
      AnswersInvLater(s.store.rooms, s.store.nextMessage, later.rooms, s.asks, s.log);
      SleepInvLater(s.store.rooms, later.rooms, s.log);
    }
  }

  lemma ChangedRooms(st: Store, later: Store, id: nat)
    requires OneRoomChanged(st, later, id)
    ensures id in st.rooms && later.rooms.Keys == st.rooms.Keys && later.nextRoom == st.nextRoom
    ensures forall r :: r in st.rooms ==> later.rooms[r].members == st.rooms[r].members
    ensures forall r :: r in st.rooms && r != id ==> later.rooms[r] == st.rooms[r]
    ensures Grows(st.rooms, st.nextMessage, later.rooms) && st.nextMessage <= later.nextMessage
  {
    hide Grows;
  }

  lemma RunOfRoom(s: State, r: nat)
    requires RunInv(s.store, s.stuck, s.runs, s.nextRun) && r in s.runs
    ensures s.runs[r].room in s.store.rooms && s.store.rooms[s.runs[r].room].busy && s.runs[r].room !in s.stuck
  {
    RunRoomIsFree(s.store, s.stuck, s.runs[r]);
  }

  // ---------- a round begins ----------

  lemma SentChanges(st: Store, id: nat, raw: string, media: seq<Asset>, now: nat)
    requires StoreOk(st) && id in st.rooms && !st.rooms[id].archived
    ensures var later := Sent(st, id, raw, media, now);
            && StoreOk(later) && OneRoomChanged(st, later, id) && later.nextMessage == st.nextMessage + 1
            && later.rooms[id].busy && HasStart(later.rooms[id], st.nextMessage)
  {
    hide StoreOk, Grows, HasStart, NewMessage;
    SentKeeps(st, id, raw, media, now);
    SentIsMessage(st, id, raw, media, now);
  }

  lemma SentIsMessage(st: Store, id: nat, raw: string, media: seq<Asset>, now: nat)
    requires id in st.rooms
    ensures HasStart(Sent(st, id, raw, media, now).rooms[id], st.nextMessage)
  {
    var later := Sent(st, id, raw, media, now).rooms[id];
    assert IsStart(later.messages[|later.messages| - 1], st.nextMessage);
  }

  lemma BusyRunInv(st: Store, later: Store, stuck: set<nat>, runs: map<nat, Run>, nextRun: nat, id: nat)
    requires RunInv(st, stuck, runs, nextRun) && OneRoomChanged(st, later, id)
    requires !st.rooms[id].busy && later.rooms[id].busy
    ensures RunInv(later, stuck + {id}, runs, nextRun)
    ensures forall r :: r in runs ==> runs[r].room != id && RunOk(later, stuck, runs[r])
    ensures id !in stuck
  {
    hide Grows;
    forall r | r in runs
      ensures runs[r].room != id && RunOk(later, stuck, runs[r]) && RunOk(later, stuck + {id}, runs[r])
    {
      hide HasStart;
      assert RunOk(st, stuck, runs[r]);
      RunElsewhere(st, later, id, stuck, runs[r]);
    }
    hide RunOk;
  }

  lemma BegunRunInv(st: Store, later: Store, stuck: set<nat>, runs: map<nat, Run>, nextRun: nat, run: Run)
    requires RunInv(st, stuck, runs, nextRun) && OneRoomChanged(st, later, run.room)
    requires !st.rooms[run.room].busy && later.rooms[run.room].busy && RunOk(later, stuck, run)
    ensures RunInv(later, stuck, runs[nextRun := run], nextRun + 1)
  {
    hide RunOk, Grows;
    BusyRunInv(st, later, stuck, runs, nextRun, run.room);
    var begun := runs[nextRun := run];
    forall id | id in later.rooms && later.rooms[id].busy
      ensures id in stuck || HasRun(begun, id)
    {
      if id !in stuck && id != run.room {
        var q :| q in runs && runs[q].room == id;
        assert begun[q].room == id;
      } else {
        assert begun[nextRun].room == run.room;
      }
    }
  }

  /** The books of a round that has just begun. */
  function Begun(st: Store, id: nat, count: nat): Run
    requires id in st.rooms
  {
    Run(id, |st.rooms[id].members| > 1, st.nextMessage, count, count, [], [], [], false)
  }

  lemma BegunRunOk(st: Store, later: Store, stuck: set<nat>, id: nat, called: seq<string>)
    requires OneRoomChanged(st, later, id) && later.rooms[id].busy && later.nextMessage == st.nextMessage + 1
    requires HasStart(later.rooms[id], st.nextMessage) && id !in stuck
    requires |called| >= 1 && (|st.rooms[id].members| == 1 ==> called == st.rooms[id].members)
    requires |st.rooms[id].members| >= 1
    ensures RunOk(later, stuck, Begun(st, id, |called|))
  {
    hide HasStart, Grows;
  }

  lemma BegunTurnsOk(st: Store, later: Rooms, asks: map<AskId, Ask>, r: nat, id: nat, called: seq<string>)
    requires id in st.rooms && id in later && later[id].members == st.rooms[id].members
    requires |called| >= 1 && DistinctMembers(called) && forall m :: m in called ==> m in st.rooms[id].members
    ensures TurnsOk(later, asks + FirstAsks(r, id, |st.rooms[id].members| > 1, st.nextMessage, called), r,
                    Begun(st, id, |called|))
  {
    var more := FirstAsks(r, id, |st.rooms[id].members| > 1, st.nextMessage, called);
    assert forall k :: 0 <= k < |called| ==> (asks + more)[AskId(r, k)] == more[AskId(r, k)];
    forall k | 0 <= k < |called|
      ensures AskFits(later, Begun(st, id, |called|), k, (asks + more)[AskId(r, k)])
    {
      assert called[k] in called;
    }
    hide AskFits, FirstAsks;
  }

  lemma BegunAskInv(rooms: Rooms, runs: map<nat, Run>, nextRun: nat, asks: map<AskId, Ask>, run: Run, more: map<AskId,
                    Ask>)
    requires AskInv(rooms, runs, nextRun, asks) && (forall r :: r in runs ==> r < nextRun)
    requires forall a :: a in more ==> a.run == nextRun && a.turn < run.turns
    requires TurnsOk(rooms, asks + more, nextRun, run)
    ensures AskInv(rooms, runs[nextRun := run], nextRun + 1, asks + more)
  {
    hide TurnsOk;
    forall r | r in runs
      ensures TurnsOk(rooms, asks + more, r, runs[r])
    {
      OtherTurns(rooms, asks, more, r, runs[r]);
    }
  }

  /** Nobody has answered yet what was asked just now. */
  lemma FirstAsksSeeAnswers(rooms: Rooms, nextMessage: nat, log: seq<Entry>, ask: Ask)
    requires RoomsOk(rooms, nextMessage) && ask.start == Some(nextMessage)
    requires forall e :: e in log && e.Gave? ==> IsKept(rooms, e)
    ensures SeesAnswers(ask, log)
  {
    forall e | e in log && e.Gave? && e.room == ask.room
      ensures e.message <= nextMessage
    {
      assert IsKept(rooms, e) && RoomOk(e.room, rooms[e.room], nextMessage);
    }
  }

  lemma SaidKeepsSleep(rooms: Rooms, later: Rooms, log: seq<Entry>, id: nat)
    requires SleepInv(rooms, log)
    requires forall r :: r in rooms ==> r in later && (r != id ==> later[r].sleeping == rooms[r].sleeping)
    ensures SleepInv(later, log + [Said(id)])
  {
    var more := log + [Said(id)];
    SleepInvAppend(rooms, log, Said(id));
    forall i | 0 <= i < |more| && more[i].Slept? && more[i].room == id
      ensures SaidSince(more, i, |more|, id)
    {
      assert more[|log|] == Said(id);
    }
  }

  lemma SaidKeepsAnswers(rooms: Rooms, asks: map<AskId, Ask>, log: seq<Entry>, e: Entry)
    requires AnswersInv(rooms, asks, log) && !e.Gave?
    ensures AnswersInv(rooms, asks, log + [e])
  {
    forall a | a in asks
      ensures SeesAnswers(asks[a], log + [e])
    {
      assert SeesAnswers(asks[a], log);
    }
    hide IsKept, SeesAnswers;
  }

  /** What a message of the user does to the rooms, whether or not it could be saved. */
  lemma SaidKeeps(s: State, later: Store, id: nat)
    requires Inv(s) && StoreOk(later) && OneRoomChanged(s.store, later, id)
    ensures StoreInv(later, s.reserved)
    ensures AskInv(later.rooms, s.runs, s.nextRun, s.asks)
    ensures AnswersInv(later.rooms, s.asks, s.log + [Said(id)])
    ensures SleepInv(later.rooms, s.log + [Said(id)])
  {
    hide RunInv, AskInv, LockInv, PendingInv, AnswersInv, SleepInv, StoreOk, OneRoomChanged;
    ChangedRooms(s.store, later, id);
    hide Grows;
    AskInvLater(s.store.rooms, later.rooms, s.runs, s.nextRun, s.asks);
    AnswersInvLater(s.store.rooms, s.store.nextMessage, later.rooms, s.asks, s.log);
    SaidKeepsAnswers(later.rooms, s.asks, s.log, Said(id));
    SaidKeepsSleep(s.store.rooms, later.rooms, s.log, id);
  }

  lemma SendKeeps(s: State, e: Event, alphanumeric: char -> bool)
    requires Inv(s) && e.Send?
    ensures Inv(DoSend(s, e, alphanumeric))
  {
    hide RunInv, AskInv, LockInv, PendingInv, AnswersInv, SleepInv, Sent, SendVerdict, StoreOk, OneRoomChanged,
         FirstAsks;
    var verdict := SendVerdict(s.store, e.id, e.text, e.media, alphanumeric);
    if verdict.Accepted? {
      CalledAreMembers(s.store, e.id, e.text, e.media, alphanumeric);
      SentChanges(s.store, e.id, e.text, e.media, e.now);
      var later := Sent(s.store, e.id, e.text, e.media, e.now);
      ChangedRooms(s.store, later, e.id);
      SaidKeeps(s, later, e.id);
      BusyRunInv(s.store, later, s.stuck, s.runs, s.nextRun, e.id);
      if e.saved {
        RoundBegins(s, later, e.id, verdict.called);
      }
    }
  }

  lemma RoundBegins(s: State, later: Store, id: nat, called: seq<string>)
    requires Inv(s) && OneRoomChanged(s.store, later, id) && !s.store.rooms[id].busy && later.rooms[id].busy
    requires later.nextMessage == s.store.nextMessage + 1 && HasStart(later.rooms[id], s.store.nextMessage)
    requires |called| >= 1 && DistinctMembers(called) && forall m :: m in called ==> m in s.store.rooms[id].members
    requires |s.store.rooms[id].members| == 1 ==> called == s.store.rooms[id].members
    requires AskInv(later.rooms, s.runs, s.nextRun, s.asks)
    requires AnswersInv(later.rooms, s.asks, s.log + [Said(id)])
    ensures var run := Begun(s.store, id, |called|);
            var more := FirstAsks(s.nextRun, id, run.group, run.start, called);
            && RunInv(later, s.stuck, s.runs[s.nextRun := run], s.nextRun + 1)
            && AskInv(later.rooms, s.runs[s.nextRun := run], s.nextRun + 1, s.asks + more)
            && LockInv(s.asks + more, s.holders)
            && PendingInv(s.asks + more, s.pending, s.nextRequest)
            && AnswersInv(later.rooms, s.asks + more, s.log + [Said(id)])
  {
    var run := Begun(s.store, id, |called|);
    var more := FirstAsks(s.nextRun, id, run.group, run.start, called);
    BeginningAnswers(s, later, id, called);
    hide StoreOk, RunInv, AskInv, LockInv, PendingInv, AnswersInv, SleepInv, FirstAsks, SeesAnswers, DistinctMembers,
         OneRoomChanged, HasStart;
    RoomHasMembers(s.store, id);
    NewRoundInv(s.store, later, s.stuck, s.runs, s.nextRun, s.asks, id, called);
    NewTurnsKeepLocks(s.asks, s.holders, more);
    NewTurnsKeepPending(s.asks, s.pending, s.nextRequest, more);
    NewTurnsKeepAnswers(later.rooms, s.asks, s.log + [Said(id)], more);
  }

  lemma NewRoundInv(st: Store, later: Store, stuck: set<nat>, runs: map<nat, Run>, nextRun: nat, asks: map<AskId, Ask>,
                    id: nat, called: seq<string>)
    requires RunInv(st, stuck, runs, nextRun) && AskInv(later.rooms, runs, nextRun, asks)
    requires OneRoomChanged(st, later, id) && !st.rooms[id].busy && later.rooms[id].busy
    requires later.nextMessage == st.nextMessage + 1 && HasStart(later.rooms[id], st.nextMessage)
    requires |called| >= 1 && DistinctMembers(called) && forall m :: m in called ==> m in st.rooms[id].members
    requires (|st.rooms[id].members| == 1 ==> called == st.rooms[id].members) && |st.rooms[id].members| >= 1
    ensures var run := Begun(st, id, |called|);
            var more := FirstAsks(nextRun, id, run.group, run.start, called);
            && RunInv(later, stuck, runs[nextRun := run], nextRun + 1)
            && AskInv(later.rooms, runs[nextRun := run], nextRun + 1, asks + more)
            && NewTurns(asks, more)
  {
    var run := Begun(st, id, |called|);
    var more := FirstAsks(nextRun, id, run.group, run.start, called);
    hide RunOk, TurnsOk, HasStart, FirstAsks, DistinctMembers;
    assert NewTurns(asks, more) && forall r :: r in runs ==> r < nextRun;
    BusyRunInv(st, later, stuck, runs, nextRun, id);
    ChangedRooms(st, later, id);
    hide RunInv, AskInv, OneRoomChanged, NewTurns;
    BegunRunOk(st, later, stuck, id, called);
    BegunRunInv(st, later, stuck, runs, nextRun, run);
    BegunTurnsOk(st, later.rooms, asks, nextRun, id, called);
    BegunAskInv(later.rooms, runs, nextRun, asks, run, more);
  }

  lemma RoomHasMembers(st: Store, id: nat)
    requires StoreOk(st) && id in st.rooms
    ensures |st.rooms[id].members| >= 1
  {
  }

  lemma BeginningAnswers(s: State, later: Store, id: nat, called: seq<string>)
    requires Inv(s) && id in s.store.rooms
    ensures var run := Begun(s.store, id, |called|);
            var more := FirstAsks(s.nextRun, id, run.group, run.start, called);
            forall a :: a in more ==> SeesAnswers(more[a], s.log + [Said(id)])
  {
    hide RunInv, AskInv, LockInv, PendingInv, SleepInv, RoomsOk;
    var run := Begun(s.store, id, |called|);
    var more := FirstAsks(s.nextRun, id, run.group, run.start, called);
    forall a | a in more
      ensures SeesAnswers(more[a], s.log + [Said(id)])
    {
      hide IsKept, SeesAnswers;
      if run.group {
        FirstAsksSeeAnswers(s.store.rooms, s.store.nextMessage, s.log + [Said(id)], more[a]);
      } else {
        NoStartSeesAll(more[a], s.log + [Said(id)]);
      }
    }
  }

  lemma NoStartSeesAll(ask: Ask, log: seq<Entry>)
    requires ask.start == None
    ensures SeesAnswers(ask, log)
  {
  }

  // ---------- rooms come, fall asleep and are archived ----------

  lemma FlagsAreUnnoticed(st: Store, later: Store)
    requires Grows(st.rooms, st.nextMessage, later.rooms) && st.nextMessage <= later.nextMessage
    requires st.nextRoom <= later.nextRoom
    requires forall r :: r in st.rooms ==> later.rooms[r].busy == st.rooms[r].busy
    requires forall r :: r in st.rooms && st.rooms[r].sleeping ==> later.rooms[r].sleeping
    requires forall r :: r in later.rooms && r !in st.rooms ==> !later.rooms[r].busy
    ensures Unnoticed(st, later)
  {
    forall r | r in st.rooms
      ensures later.rooms[r].members == st.rooms[r].members
    {
      assert Continues(st.rooms[r], later.rooms[r], st.nextMessage);
    }
  }

  /** A step that no round notices keeps the invariant if it keeps the store in order. */
  lemma QuietKeeps(s: State, later: Store, reserved: set<nat>)
    requires Inv(s) && StoreInv(later, reserved)
    requires Unnoticed(s.store, later)
    ensures Inv(s.(store := later, reserved := reserved))
  {
    hide StoreInv, RunInv, AskInv, LockInv, PendingInv, AnswersInv, SleepInv, Unnoticed;
    UnnoticedKeeps(s, later);
  }

  lemma LaterCounter(st: Store, nextRoom: nat)
    requires StoreOk(st) && st.nextRoom <= nextRoom
    ensures StoreOk(st.(nextRoom := nextRoom)) && Unnoticed(st, st.(nextRoom := nextRoom))
    ensures st.nextRoom >= 1 && st.nextRoom !in st.rooms
  {
    hide RoomsOk, LifecycleOk, DistinctMembers, Grows;
    GrowsReflexive(st.rooms, st.nextMessage);
  }

  lemma ReserveKeeps(s: State)
    requires Inv(s)
    ensures Inv(DoReserve(s)) && Unnoticed(s.store, DoReserve(s).store)
  {
    hide RunInv, AskInv, LockInv, PendingInv, AnswersInv, SleepInv, StoreOk, Unnoticed;
    var later := s.store.(nextRoom := s.store.nextRoom + 1);
    LaterCounter(s.store, s.store.nextRoom + 1);
    QuietKeeps(s, later, s.reserved + {s.store.nextRoom});
  }

  /** A new room with a reserved or fresh id. */
  lemma CreatedKeeps(s: State, nextRoom: nat, room: Room, reserved: set<nat>)
    requires Inv(s) && s.store.nextRoom <= nextRoom && 1 <= room.id < nextRoom && room.id !in s.store.rooms
    requires room.messages == [] && !room.busy && !room.archived && |room.members| >= 1 && DistinctMembers(room.members)
    requires reserved <= s.reserved && room.id !in reserved
    ensures var later := WithRoom(s.store.(nextRoom := nextRoom), room);
            Inv(s.(store := later, reserved := reserved)) && Unnoticed(s.store, later)
  {
    hide StoreOk, RunInv, AskInv, LockInv, PendingInv, AnswersInv, SleepInv, DistinctMembers, Grows;
    var st := s.store.(nextRoom := nextRoom);
    var later := WithRoom(st, room);
    LaterCounter(s.store, nextRoom);
    InsertKeeps(st, room);
    FlagsAreUnnoticed(s.store, later);
    QuietKeeps(s, later, reserved);
  }

  lemma CreateKeeps(s: State, e: Event)
    requires Inv(s) && e.Create?
    ensures Inv(DoCreate(s, e)) && Unnoticed(s.store, DoCreate(s, e).store)
  {
    hide RunInv, AskInv, LockInv, PendingInv, AnswersInv, SleepInv, DistinctMembers, StoreOk, Unnoticed;
    if e.id in s.reserved && MembersOk(e.members) {
      CreatedKeeps(s, s.store.nextRoom, NewRoom(e.id, e.name, e.members, e.incognito, e.now), s.reserved - {e.id});
    } else {
      NothingHappens(s);
    }
  }

  lemma NothingHappens(s: State)
    ensures Unnoticed(s.store, s.store)
  {
    GrowsReflexive(s.store.rooms, s.store.nextMessage);
  }

  lemma EnsureSoloKeeps(s: State, member: string, name: string, incognito: bool, now: nat)
    requires Inv(s)
    ensures var later := DoEnsureSolo(s, member, name, incognito, now); Inv(later) && Unnoticed(s.store, later.store)
  {
    hide RunInv, AskInv, LockInv, PendingInv, AnswersInv, SleepInv, StoreOk, Unnoticed, SoloExists;
    LaterCounter(s.store, s.store.nextRoom);
    if SoloExists(s.store, member, incognito) {
      NothingHappens(s);
    } else {
      CreatedKeeps(s, s.store.nextRoom + 1, NewRoom(s.store.nextRoom, name, [member], incognito, now), s.reserved);
    }
  }

  lemma SetActiveKeeps(s: State, id: nat, active: Option<string>)
    requires Inv(s)
    ensures var later := WithActive(s.store, id, active); Inv(s.(store := later)) && Unnoticed(s.store, later)
  {
    hide StoreOk, RunInv, AskInv, LockInv, PendingInv, AnswersInv, SleepInv, Grows, Unnoticed;
    var later := WithActive(s.store, id, active);
    WithActiveKeeps(s.store, id, active);
    FlagsAreUnnoticed(s.store, later);
    QuietKeeps(s, later, s.reserved);
  }

  lemma ArchiveKeeps(s: State, id: nat, archived: bool)
    requires Inv(s)
    ensures var later := DoArchive(s, id, archived); Inv(later) && Unnoticed(s.store, later.store)
  {
    hide RunInv, AskInv, LockInv, PendingInv, AnswersInv, SleepInv, StoreOk, Grows, Unnoticed;
    if ArchiveVerdict(s.store, id).Accepted? {
      var later := WithArchived(s.store, id, archived);
      ArchivedKeeps(s.store, id, archived);
      FlagsAreUnnoticed(s.store, later);
      QuietKeeps(s, later, s.reserved);
    } else {
      NothingHappens(s);
    }
  }

  lemma SleptIsUnnoticed(st: Store, due: set<nat>)
    requires StoreOk(st)
    ensures StoreOk(ChatOps.Slept(st, due)) && Unnoticed(st, ChatOps.Slept(st, due))
  {
    hide StoreOk, Grows, Unnoticed;
    SleptKeeps(st, due);
    FlagsAreUnnoticed(st, ChatOps.Slept(st, due));
  }

  /** Everyone who falls asleep was awake: a user message came after the last report. */
  lemma SleptKeepsSleep(rooms: Rooms, later: Rooms, log: seq<Entry>, ids: seq<nat>)
    requires SleepInv(rooms, log) && Ordered.Ascending(ids)
    requires forall r :: r in rooms ==> r in later && (rooms[r].sleeping ==> later[r].sleeping)
    requires forall r :: r in ids ==> r in rooms && !rooms[r].sleeping && later[r].sleeping
    ensures SleepInv(later, log + SleptEntries(ids))
  {
    var more := SleptEntries(ids);
    var whole := log + more;
    assert forall k :: |log| <= k < |whole| ==> whole[k] == Slept(ids[k - |log|]) && ids[k - |log|] in ids;
    hide SleptEntries;
    forall i | 0 <= i < |whole| && whole[i].Slept?
      ensures whole[i].room in later && (later[whole[i].room].sleeping || SaidSince(whole, i, |whole|, whole[i].room))
    {
      if i < |log| {
        SaidSinceLater(log, more, i, |log|, whole[i].room);
      }
    }
    forall i, j | 0 <= i < j < |whole| && whole[i].Slept? && whole[j] == whole[i]
      ensures SaidSince(whole, i, j, whole[i].room)
    {
      if j < |log| {
        SaidSinceLater(log, more, i, j, whole[i].room);
      } else {
        assert whole[j] == Slept(ids[j - |log|]);
        assert i < |log|;
        SaidUpTo(log, more, i, j, whole[i].room);
      }
    }
  }

  lemma SaidUpTo(log: seq<Entry>, more: seq<Entry>, i: nat, j: nat, room: nat)
    requires i <= |log| <= j <= |log + more| && SaidSince(log, i, |log|, room)
    ensures SaidSince(log + more, i, j, room)
  {
    var k :| i <= k < |log| && log[k] == Said(room);
    assert (log + more)[k] == Said(room);
  }

  lemma SleepEntriesKeepAnswers(rooms: Rooms, asks: map<AskId, Ask>, log: seq<Entry>, ids: seq<nat>)
    requires AnswersInv(rooms, asks, log)
    ensures AnswersInv(rooms, asks, log + SleptEntries(ids))
  {
    var more := SleptEntries(ids);
    assert forall e :: e in more ==> e.Slept?;
    forall a | a in asks
      ensures SeesAnswers(asks[a], log + more)
    {
      assert SeesAnswers(asks[a], log);
    }
    hide IsKept, SeesAnswers;
  }

  lemma SleepKeeps(s: State, due: set<nat>)
    requires Inv(s)
    ensures Inv(DoSleep(s, due)) && Unnoticed(s.store, DoSleep(s, due).store)
  {
    hide RunInv, AskInv, LockInv, PendingInv, AnswersInv, SleepInv, StoreOk, SleptEntries, Unnoticed;
    var later, ids := ChatOps.Slept(s.store, due), Reports(s.store, due);
    SleptIsUnnoticed(s.store, due);
    UnnoticedKeeps(s, later);
    SleptKeepsSleep(s.store.rooms, later.rooms, s.log, ids);
    SleepEntriesKeepAnswers(later.rooms, s.asks, s.log, ids);
  }
}
