/** What one room goes through in a run: it gets messages one at a time, its sleeps are counted, and it
    survives a restart. */
module RoomHistories {
  import opened Options
  import opened Rooms
  import opened ChatOps
  import opened Coordinator
  import opened Invariants
  import opened RoomSteps
  import opened Runs
  import opened Continuity
  import Snapshots
  import Ordered
  import Text

  // ---------- one step ----------

  predicate Fits(m: Message) {
    m.attachments == Views(m.media)
  }

  /** The message of a Resident, in contrast to those of the user and of the system. */
  predicate IsReply(m: Message) {
    m.role == "agent" || m.role == "summary"
  }

  /** At most one message more, with attachments that show its assets, and a reply only if `replies`; one more
      sleep if it just fell asleep. */
  predicate RoomAdvances(room: Room, later: Room, slept: bool, replies: bool) {
    && (|later.messages| > |room.messages| ==> replies || !IsReply(later.messages[|room.messages|]))
    && (later.messages == room.messages
        || (|later.messages| == |room.messages| + 1 && room.messages <= later.messages
            && Fits(later.messages[|room.messages|])))
    && later.sleepGeneration == room.sleepGeneration + if slept then 1 else 0
  }

  predicate StoreAdvances(st: Store, later: Store, slept: set<nat>, replies: bool) {
    forall r :: r in later.rooms ==>
      if r in st.rooms then RoomAdvances(st.rooms[r], later.rooms[r], r in slept, replies)
      else later.rooms[r].messages == [] && later.rooms[r].sleepGeneration == 0
  }

  lemma SameAdvances(st: Store, later: Store)
    requires later.rooms == st.rooms
    ensures StoreAdvances(st, later, {}, false) && StoreAdvances(st, later, {}, true)
  {
  }

  lemma PushedAdvances(st: Store, id: nat, role: string, author: string, text: string, media: seq<Asset>, now: nat)
    ensures StoreAdvances(st, Pushed(st, id, role, author, text, media, now), {}, role == "agent" || role == "summary")
  {
    assert Fits(NewMessage(st, role, author, text, media, now));
  }

  lemma SentAdvances(st: Store, id: nat, text: string, media: seq<Asset>, now: nat)
    requires id in st.rooms
    ensures StoreAdvances(st, Sent(st, id, text, media, now), {}, false)
  {
    PushedAdvances(st, id, "user", HUMAN, Text.Trim(text), media, now);
    hide NewMessage, Views;
  }

  lemma CreatedAdvances(st: Store, nextRoom: nat, id: nat, name: string, members: seq<string>, incognito: bool,
                        now: nat)
    requires id !in st.rooms
    ensures StoreAdvances(st, WithRoom(st.(nextRoom := nextRoom), NewRoom(id, name, members, incognito, now)),
                          {}, false)
  {
    hide Fits;
  }

  lemma FlagsAdvance(st: Store, id: nat, active: Option<string>, archived: bool, now: nat)
    ensures StoreAdvances(st, WithActive(st, id, active), {}, false)
    ensures StoreAdvances(st, Finished(st, id, now), {}, false)
    ensures id in st.rooms ==> StoreAdvances(st, WithArchived(st, id, archived), {}, false)
  {
    hide Fits;
  }

  lemma RoomEventAdvances(s: State, e: Event, alphanumeric: char -> bool)
    requires StoreInv(s.store, s.reserved)
    requires e.Reserve? || e.Create? || e.EnsureSolo? || e.SetActive? || e.SetArchived? || e.Finish?
    ensures StoreAdvances(s.store, Step(s, e, alphanumeric).store, {}, false)
  {
    hide SoloExists, MembersOk, AllJoined, StoreAdvances, StoreOk, WithRoom, Finished, WithActive, WithArchived,
         NewRoom;
    SameAdvances(s.store, Step(s, Reserve, alphanumeric).store);
    SameAdvances(s.store, s.store);
    match e
    case Reserve =>
    case Create(id, name, members, incognito, now) =>
      if id in s.reserved {
        CreatedAdvances(s.store, s.store.nextRoom, id, name, members, incognito, now);
      }
    case EnsureSolo(member, name, incognito, now) =>
      LaterCounter(s.store, s.store.nextRoom);
      CreatedAdvances(s.store, s.store.nextRoom + 1, s.store.nextRoom, name, [member], incognito, now);
    case SetActive(id, active) => FlagsAdvance(s.store, id, active, false, 0);
    case SetArchived(id, archived) => FlagsAdvance(s.store, id, None, archived, 0);
    case Finish(r, now) =>
      if r in s.runs {
        FlagsAdvance(s.store, s.runs[r].room, None, false, now);
      }
  }

  function SleptNow(s: State, e: Event): set<nat> {
    if e.SleepDue? then set r | r in s.store.rooms && FallsAsleep(s.store, e.due, r) else {}
  }

  lemma SettleAdvances(s: State, a: AskId, now: nat, alphanumeric: char -> bool)
    ensures StoreAdvances(s.store, DoSettle(s, a, now, alphanumeric).store, {}, true)
  {
    hide Pushed, AnswerText, Role, StoreAdvances;
    SameAdvances(s.store, s.store);
    if a in s.asks && s.asks[a].stage.Requested? && s.asks[a].stage.reply.Some? {
      var ask, result := s.asks[a], s.asks[a].stage.reply.value;
      if AnswerText(result).Some? {
        var text := AnswerText(result).value;
        PushedAdvances(s.store, ask.room, Role(ask.kind, text, alphanumeric),
                       ask.member, text, result.attachments, now);
      }
    }
  }

  lemma NoteAdvances(s: State, e: Event, alphanumeric: char -> bool)
    requires e.Join? || e.FollowUp?
    ensures StoreAdvances(s.store, Step(s, e, alphanumeric).store, {}, false)
  {
    hide Pushed, StoreAdvances, AllJoined;
    SameAdvances(s.store, s.store);
    if e.Join? && e.ask in s.asks {
      PushedAdvances(s.store, s.asks[e.ask].room, "error", SYSTEM, e.note, [], e.now);
    } else if e.FollowUp? && e.run in s.runs {
      PushedAdvances(s.store, s.runs[e.run].room, "error", SYSTEM, e.note, [], e.now);
    }
  }

  lemma SendAdvances(s: State, e: Event, alphanumeric: char -> bool)
    requires StoreOk(s.store) && e.Send?
    ensures StoreAdvances(s.store, DoSend(s, e, alphanumeric).store, {}, false)
  {
    hide StoreOk, SendVerdict, Sent, StoreAdvances;
    SameAdvances(s.store, s.store);
    if SendVerdict(s.store, e.id, e.text, e.media, alphanumeric).Accepted? {
      CalledAreMembers(s.store, e.id, e.text, e.media, alphanumeric);
      SentAdvances(s.store, e.id, e.text, e.media, e.now);
    }
  }

  lemma StepAdvances(s: State, e: Event, alphanumeric: char -> bool)
    requires StoreInv(s.store, s.reserved)
    ensures StoreAdvances(s.store, Step(s, e, alphanumeric).store, SleptNow(s, e), e.Settle?)
  {
    hide StoreOk, StoreAdvances, DoSend, DoFinish, DoJoin, DoFollowUp, DoSettle, DoCreate, DoEnsureSolo, DoReserve,
         DoArchive, WithActive, TurnContext;
    match e
    case Send(_, _, _, _, _) => SendAdvances(s, e, alphanumeric);
    case Settle(a, now) => SettleAdvances(s, a, now, alphanumeric);
    case Join(_, _, _) => NoteAdvances(s, e, alphanumeric);
    case FollowUp(_, _, _) => NoteAdvances(s, e, alphanumeric);
    case Finish(_, _) => RoomEventAdvances(s, e, alphanumeric);
    case Reserve => RoomEventAdvances(s, e, alphanumeric);
    case Create(_, _, _, _, _) => RoomEventAdvances(s, e, alphanumeric);
    case EnsureSolo(_, _, _, _) => RoomEventAdvances(s, e, alphanumeric);
    case SetActive(_, _) => RoomEventAdvances(s, e, alphanumeric);
    case SetArchived(_, _) => RoomEventAdvances(s, e, alphanumeric);
    case SleepDue(due) => SleptAdvances(s.store, due);
    case _ => SameAdvances(s.store, Step(s, e, alphanumeric).store);
  }

  lemma SleptAdvances(st: Store, due: set<nat>)
    ensures StoreAdvances(st, ChatOps.Slept(st, due), set r | r in st.rooms && FallsAsleep(st, due, r), false)
  {
    hide Fits;
  }

  // ---------- sleeps are counted ----------

  function SleepCount(log: seq<Entry>, id: nat): nat {
    if log == [] then 0 else
    SleepCount(log[..|log| - 1], id) + if log[|log| - 1] == Entry.Slept(id) then 1 else 0
  }

  lemma {:induction false} SleepCountAppend(log: seq<Entry>, more: seq<Entry>, id: nat)
    ensures SleepCount(log + more, id) == SleepCount(log, id) + SleepCount(more, id)
  {
    if more == [] {
      assert log + more == log;
    } else {
      assert (log + more)[..|log + more| - 1] == log + more[..|more| - 1];
      SleepCountAppend(log, more[..|more| - 1], id);
    }
  }

  lemma {:induction false} EachReportOnce(ids: seq<nat>, id: nat)
    requires Ordered.Ascending(ids)
    ensures SleepCount(SleptEntries(ids), id) == if id in ids then 1 else 0
  {
    if ids != [] {
      var front, last := ids[..|ids| - 1], ids[|ids| - 1];
      assert SleptEntries(ids)[..|ids| - 1] == SleptEntries(front);
      assert forall k :: k in ids <==> k in front || k == last;
      assert forall k :: k in front ==> k < last;
      EachReportOnce(front, id);
    }
  }

  /** Whatever a step adds to the log, sleeps are only reported by the check for sleeping rooms. */
  lemma StepCounts(s: State, e: Event, alphanumeric: char -> bool, id: nat)
    ensures SleepCount(Step(s, e, alphanumeric).log, id) ==
              SleepCount(s.log, id) + if id in SleptNow(s, e) then 1 else 0
  {
    hide Step, SleepCount;
    if e.SleepDue? {
      SleepsCount(s, e.due, id);
      assert Step(s, e, alphanumeric) == DoSleep(s, e.due) by { SleepStep(s, e.due, alphanumeric); }
    } else {
      var later := Step(s, e, alphanumeric);
      StepLog(s, e, alphanumeric);
      assert later.log == s.log + later.log[|s.log|..];
      SleepCountAppend(s.log, later.log[|s.log|..], id);
      NeverReported(later.log[|s.log|..], id);
    }
  }

  lemma SleepStep(s: State, due: set<nat>, alphanumeric: char -> bool)
    ensures Step(s, SleepDue(due), alphanumeric) == DoSleep(s, due)
  {
  }

  lemma SleepsCount(s: State, due: set<nat>, id: nat)
    ensures SleepCount(DoSleep(s, due).log, id)
         == SleepCount(s.log, id) + if id in s.store.rooms && FallsAsleep(s.store, due, id) then 1 else 0
  {
    hide SleepCount, SleptEntries, FallsAsleep;
    SleepCountAppend(s.log, SleptEntries(Reports(s.store, due)), id);
    EachReportOnce(Reports(s.store, due), id);
  }

  lemma {:induction false} NeverReported(log: seq<Entry>, id: nat)
    requires forall i :: 0 <= i < |log| && log[i].Slept? ==> log[i].room != id
    ensures SleepCount(log, id) == 0
  {
    if log != [] {
      NeverReported(log[..|log| - 1], id);
    }
  }

  /** In every run, the sleep generation of a room has gone up by one with every report, and only then. */
  lemma {:induction false} SleepsAreCounted(start: State, events: seq<Event>, n: nat, alphanumeric: char -> bool,
                                            id: nat)
    requires Started(start) && n <= |events| && id in After(start, events, n, alphanumeric).store.rooms
    ensures var s := After(start, events, n, alphanumeric);
            s.store.rooms[id].sleepGeneration ==
              SleepCount(s.log, id) + if id in start.store.rooms then start.store.rooms[id].sleepGeneration else 0
  {
    hide Step, RunInv, AskInv, LockInv, PendingInv, AnswersInv, StoreOk;
    if n > 0 {
      var s := After(start, events, n - 1, alphanumeric);
      ReachableInv(start, events, n - 1, alphanumeric);
      StepAdvances(s, events[n - 1], alphanumeric);
      StepCounts(s, events[n - 1], alphanumeric, id);
      if id in s.store.rooms {
        SleepsAreCounted(start, events, n - 1, alphanumeric, id);
      } else {
        NeverReported(s.log, id);
        StartRoomsStay(start, events, n - 1, alphanumeric);
      }
    }
  }

  lemma StartRoomsStay(start: State, events: seq<Event>, n: nat, alphanumeric: char -> bool)
    requires Started(start) && n <= |events|
    ensures forall id :: id in start.store.rooms ==> id in After(start, events, n, alphanumeric).store.rooms
  {
    hide Step;
    RunIsLater(start, events, 0, n, alphanumeric);
  }

  // ---------- restarts ----------

  /** Attachments show exactly the assets of their message, in every room. */
  predicate AllFit(rooms: Rooms) {
    forall id :: id in rooms ==> Snapshots.AttachmentsFit(rooms[id])
  }

  lemma {:induction false} AttachmentsStayFit(start: State, events: seq<Event>, n: nat, alphanumeric: char -> bool)
    requires Started(start) && n <= |events| && AllFit(start.store.rooms)
    ensures AllFit(After(start, events, n, alphanumeric).store.rooms)
  {
    hide Step, RunInv, AskInv, LockInv, PendingInv, AnswersInv, SleepInv, StoreOk, Started;
    if n > 0 {
      var s := After(start, events, n - 1, alphanumeric);
      AttachmentsStayFit(start, events, n - 1, alphanumeric);
      ReachableInv(start, events, n - 1, alphanumeric);
      StepAdvances(s, events[n - 1], alphanumeric);
    }
  }

  /** The program when it has put these rooms in place. */
  function AtStart(st: Store): State {
    State(st, {}, map[], 0, map[], map[], map[], 1, {}, [])
  }

  /** Every reachable state survives a restart, and the run after it, and so on: the next start is again a start
      of which all this is true, and it has every ordinary room, with all messages, attachments and assets,
      exactly if no id stands for two assets. */
  lemma RunsSurviveRestart(start: State, events: seq<Event>, n: nat, alphanumeric: char -> bool)
    requires Started(start) && n <= |events| && AllFit(start.store.rooms)
    ensures var rooms := After(start, events, n, alphanumeric).store.rooms;
            var next := Snapshots.NextStart(rooms);
            && Started(AtStart(next)) && AllFit(next.rooms)
            && (Snapshots.OneAssetPerId(Snapshots.Kept(rooms)) <==>
                next.rooms == map id | id in rooms && !rooms[id].incognito ::
                    rooms[id].(busy := false, active := None, sleeping := true))
  {
    hide Step, RunInv, AskInv, LockInv, PendingInv, AnswersInv, SleepInv, StoreOk, Started, Snapshots.NextStart,
         Snapshots.AttachmentsFit, Snapshots.OneAssetPerId, Snapshots.Kept;
    AttachmentsStayFit(start, events, n, alphanumeric);
    ReachableInv(start, events, n, alphanumeric);
    var s := After(start, events, n, alphanumeric);
    Snapshots.SnapshotRoundTrip(s.store);
    Snapshots.NextStartIsInOrder(s.store);
    Snapshots.NextStartFits(s.store);
    ReadyToStart(Snapshots.NextStart(s.store.rooms));
  }

  lemma ReadyToStart(st: Store)
    requires StoreOk(st) && forall r :: r in st.rooms ==> !st.rooms[r].busy
    ensures Started(AtStart(st))
  {
    hide StoreOk;
  }
}
