/** The chat coordinator as the object that it is in the program: its fields, and the methods that change them
    under the lock of the rooms. The methods change the rooms as the functions of `ChatOps` say that the step
    machine is made of; the table of pending requests and the replies represent those of the machine. */
module Chat {
  import opened Options
  import opened Ordered
  import opened Rooms
  import opened ChatOps
  import opened Coordinator
  import Invariants
  import SlotFile
  import Snapshots
  import Mentions
  import Text

  // ---------- presence ----------

  datatype Timing = Timing(now: nat, idle: nat, lease: nat, grace: nat)

  function Since(now: nat, moment: nat): nat {
    if now < moment then 0 else now - moment
  }

  /** The viewers that were seen within the lease. */
  function Present(clients: map<string, nat>, t: Timing): map<string, nat> {
    map c | c in clients && Since(t.now, clients[c]) < t.lease :: clients[c]
  }

  function Clients(presence: map<nat, map<string, nat>>, id: nat): map<string, nat> {
    if id in presence then presence[id] else map[]
  }

  /** Nothing has happened for long, or the last viewer left long enough ago. */
  predicate IsDue(room: Room, clients: map<string, nat>, last: Option<nat>, t: Timing) {
    || Since(t.now, room.lastActivity) >= t.idle
    || (Present(clients, t) == map[] && Since(t.now, if last.Some? then last.value else room.lastActivity) >= t.grace)
  }

  function LastSeen(lastPresence: map<nat, nat>, id: nat): Option<nat> {
    if id in lastPresence then Some(lastPresence[id]) else None
  }

  function DueRooms(rooms: Rooms, presence: map<nat, map<string, nat>>, lastPresence: map<nat, nat>,
                    t: Timing): set<nat> {
    set r | r in rooms && IsDue(rooms[r], Clients(presence, r), LastSeen(lastPresence, r), t)
  }

  predicate Idle(room: Room) {
    !room.sleeping && !room.busy
  }

  /** The presence records after a check: those of the rooms that were looked at have lost their stale viewers. */
  function Pruned(rooms: Rooms, presence: map<nat, map<string, nat>>, t: Timing): map<nat, map<string, nat>> {
    map id | id in presence.Keys + (set r | r in rooms && Idle(rooms[r])) ::
      if id in rooms && Idle(rooms[id]) then Present(Clients(presence, id), t) else presence[id]
  }

  /** The rooms and the presence records when the check has looked at the rooms `done`. */
  function SleptIn(st: Store, due: set<nat>, done: set<nat>): (rooms: Rooms)
    ensures rooms.Keys == st.rooms.Keys
  {
    map r | r in st.rooms :: if r in done && FallsAsleep(st, due, r) then Asleep(st.rooms[r]) else st.rooms[r]
  }

  lemma AllKeys(rooms: Rooms, keys: seq<nat>)
    requires keys == InOrder(rooms.Keys)
    ensures First(keys, |keys|) == rooms.Keys
  {
    forall k | k in rooms
      ensures k in First(keys, |keys|)
    {
      assert k in keys;
      var i :| 0 <= i < |keys| && keys[i] == k;
    }
    assert forall i :: 0 <= i < |keys| ==> keys[i] in keys;
  }

  lemma AllLookedAt(st: Store, due: set<nat>, keys: seq<nat>, ids: seq<nat>)
    requires keys == InOrder(st.rooms.Keys) && Ascending(ids)
    requires forall k :: k in ids <==> k in First(keys, |keys|) && FallsAsleep(st, due, k)
    ensures First(keys, |keys|) == st.rooms.Keys
    ensures st.(rooms := SleptIn(st, due, First(keys, |keys|))) == ChatOps.Slept(st, due)
    ensures ids == Reports(st, due)
  {
    hide First, FallsAsleep;
    AllKeys(st.rooms, keys);
    AllSlept(st, due);
    AscendingUnique(ids, Reports(st, due));
  }

  lemma AllSlept(st: Store, due: set<nat>)
    ensures st.(rooms := SleptIn(st, due, st.rooms.Keys)) == ChatOps.Slept(st, due)
    ensures forall k :: k in Reports(st, due) <==> k in st.rooms && FallsAsleep(st, due, k)
  {
    hide FallsAsleep;
  }

  function PrunedIn(rooms: Rooms, presence: map<nat, map<string, nat>>, t: Timing,
                    done: set<nat>): map<nat, map<string, nat>> {
    map id | id in presence.Keys + (set r | r in rooms && r in done && Idle(rooms[r])) ::
      if id in rooms && id in done && Idle(rooms[id]) then Present(Clients(presence, id), t) else presence[id]
  }

  /** How far the check has come. */
  ghost predicate Checked(st: Store, due: set<nat>, seen: map<nat, map<string, nat>>, t: Timing, done: set<nat>,
                          ids: seq<nat>,
                          rooms: Rooms, presence: map<nat, map<string, nat>>, report: seq<Room>) {
    && rooms == SleptIn(st, due, done) && presence == PrunedIn(st.rooms, seen, t, done)
    && Ascending(ids) && (forall k :: k in ids <==> k in st.rooms && k in done && FallsAsleep(st, due, k))
    && report == RoomsOf(rooms, ids)
  }

  lemma SameRooms(st: Store, due: set<nat>, seen: map<nat, map<string, nat>>, t: Timing, done: set<nat>, ids: seq<nat>,
                  rooms: Rooms, presence: map<nat, map<string, nat>>, report: seq<Room>)
    requires Checked(st, due, seen, t, done, ids, rooms, presence, report)
    ensures rooms.Keys == st.rooms.Keys
  {
  }

  lemma NothingChecked(st: Store, due: set<nat>, seen: map<nat, map<string, nat>>, t: Timing, keys: seq<nat>)
    ensures Checked(st, due, seen, t, First(keys, 0), [], st.rooms, seen, [])
  {
    assert First(keys, 0) == {};
  }

  lemma OneMoreChecked(st: Store, due: set<nat>, seen: map<nat, map<string, nat>>, lastPresence: map<nat, nat>,
                       t: Timing,
                       done: set<nat>, ids: seq<nat>, rooms: Rooms, presence: map<nat, map<string, nat>>,
                       report: seq<Room>,
                       id: nat, asleep: bool)
    requires Checked(st, due, seen, t, done, ids, rooms, presence, report)
    requires due == DueRooms(st.rooms, seen, lastPresence, t)
    requires id in st.rooms && id in rooms && forall k :: k in done ==> k < id
    requires asleep == (Idle(rooms[id]) && IsDue(rooms[id], Clients(presence, id), LastSeen(lastPresence, id), t))
    ensures var later := if asleep then rooms[id := Asleep(rooms[id])] else rooms;
            Checked(st, due, seen, t, done + {id}, if asleep then ids + [id] else ids, later,
                    if Idle(rooms[id]) then presence[id := Present(Clients(presence, id), t)] else presence,
                    if asleep then report + [later[id]] else report)
  {
    hide IsDue, DueRooms, Idle, LastSeen, Present, Clients, SleptIn, PrunedIn, RoomsOf, Asleep, FallsAsleep;
    OneMoreRoom(st, due, seen, lastPresence, t, done, id);
    OneMoreReport(st, due, done, ids, id);
    var longer := if asleep then ids + [id] else ids;
    assert asleep == FallsAsleep(st, due, id);
    assert forall k :: k in longer <==> k in ids || (asleep && k == id);
    assert forall k :: 0 <= k < |ids| ==> ids[k] in ids;
    assert Ascending(longer);
    assert SleptIn(st, due, done + {id}) == if asleep then rooms[id := Asleep(rooms[id])] else rooms;
    assert PrunedIn(st.rooms, seen, t, done + {id}) ==
        if Idle(rooms[id]) then presence[id := Present(Clients(presence, id), t)] else presence;
  }

  lemma AllChecked(st: Store, due: set<nat>, seen: map<nat, map<string, nat>>, t: Timing, keys: seq<nat>, ids: seq<nat>,
                   rooms: Rooms, presence: map<nat, map<string, nat>>, report: seq<Room>)
    requires keys == InOrder(st.rooms.Keys)
    requires Checked(st, due, seen, t, First(keys, |keys|), ids, rooms, presence, report)
    ensures st.(rooms := rooms) == ChatOps.Slept(st, due) && presence == Pruned(st.rooms, seen, t)
    ensures report == RoomsOf(rooms, Reports(st, due))
  {
    AllKeys(st.rooms, keys);
    AllLookedAt(st, due, keys, ids);
    AllPruned(st.rooms, seen, t);
  }

  lemma OneMoreRoom(st: Store, due: set<nat>, seen: map<nat, map<string, nat>>, lastPresence: map<nat, nat>, t: Timing,
                    done: set<nat>, id: nat)
    requires id in st.rooms && id !in done && due == DueRooms(st.rooms, seen, lastPresence, t)
    ensures var rooms, presence := SleptIn(st, due, done), PrunedIn(st.rooms, seen, t, done);
            && id in rooms && rooms[id] == st.rooms[id] && Clients(presence, id) == Clients(seen, id)
            && (FallsAsleep(st, due, id) <==>
                Idle(rooms[id]) && IsDue(rooms[id], Clients(presence, id), LastSeen(lastPresence, id), t))
            && SleptIn(st, due, done + {id}) ==
                 (if FallsAsleep(st, due, id) then rooms[id := Asleep(rooms[id])] else rooms)
            && PrunedIn(st.rooms, seen, t, done + {id}) ==
                 if Idle(rooms[id]) then presence[id := Present(Clients(presence, id), t)] else presence
  {
    hide IsDue, Present, Asleep;
    SleptOneMore(st, due, done, id);
    PrunedOneMore(st.rooms, seen, t, done, id);
    hide PrunedIn;
  }

  lemma SleptOneMore(st: Store, due: set<nat>, done: set<nat>, id: nat)
    requires id in st.rooms && id !in done
    ensures var rooms := SleptIn(st, due, done);
            SleptIn(st, due, done + {id}) == if FallsAsleep(st, due, id) then rooms[id := Asleep(rooms[id])] else rooms
  {
    hide FallsAsleep, Asleep;
  }

  lemma PrunedOneMore(rooms: Rooms, seen: map<nat, map<string, nat>>, t: Timing, done: set<nat>, id: nat)
    requires id in rooms && id !in done
    ensures var presence := PrunedIn(rooms, seen, t, done);
            && Clients(presence, id) == Clients(seen, id)
            && PrunedIn(rooms, seen, t, done + {id}) ==
                 if Idle(rooms[id]) then presence[id := Present(Clients(presence, id), t)] else presence
  {
    hide Present;
  }

  lemma AllPruned(rooms: Rooms, presence: map<nat, map<string, nat>>, t: Timing)
    ensures PrunedIn(rooms, presence, t, rooms.Keys) == Pruned(rooms, presence, t)
  {
  }

  function RoomsOf(rooms: Rooms, ids: seq<nat>): (r: seq<Room>)
    requires forall k :: k in ids ==> k in rooms
    ensures |r| == |ids| && forall k :: 0 <= k < |ids| ==> ids[k] in ids && r[k] == rooms[ids[k]]
  {
    seq(|ids|, k requires 0 <= k < |ids| => assert ids[k] in ids; rooms[ids[k]])
  }

  function First(keys: seq<nat>, n: nat): set<nat>
    requires n <= |keys|
  {
    set i | 0 <= i < n :: keys[i]
  }

  lemma OneMoreReport(st: Store, due: set<nat>, done: set<nat>, ids: seq<nat>, id: nat)
    requires (forall k :: k in ids ==> k in st.rooms && k in done) && id in st.rooms
    ensures var rooms, later := SleptIn(st, due, done), SleptIn(st, due, done + {id});
            && RoomsOf(later, ids) == RoomsOf(rooms, ids)
            && (id !in ids ==> RoomsOf(later, ids + [id]) == RoomsOf(rooms, ids) + [later[id]])
  {
    assert forall k :: 0 <= k < |ids| ==> ids[k] in ids;
  }

  lemma NextKey(keys: seq<nat>, n: nat)
    requires Ascending(keys) && n < |keys|
    ensures keys[n] in keys && First(keys, n + 1) == First(keys, n) + {keys[n]}
    ensures forall k :: k in First(keys, n) ==> k < keys[n]
  {
  }

  method RestoreMessage(message: Message, media: map<string, Asset>) returns (restored: Message)
    ensures restored == Snapshots.RestoredMessage(message, media)
  {
    var views := message.attachments;
    var shown: seq<View>, assets := [], [];
    for k := 0 to |views|
      invariant |shown| == k && forall i :: 0 <= i < k ==> shown[i] == Snapshots.RestoredView(views[i], media)
      invariant assets == Snapshots.FoundAssets(views[..k], media)
    {
      assert views[..k + 1][..k] == views[..k];
      if views[k].id in media {
        shown := shown + [ViewOf(media[views[k].id])];
        assets := assets + [media[views[k].id]];
      } else {
        shown := shown + [views[k]];
      }
    }
    assert views[..|views|] == views && shown == Snapshots.RestoredViews(views, media);
    restored := message.(attachments := shown, media := assets);
  }

  /** Asking again at the same time reports nobody: who was due is asleep by now. */
  lemma NobodyIsReportedTwice(st: Store, presence: map<nat, map<string, nat>>, lastPresence: map<nat, nat>, t: Timing)
    ensures var later := ChatOps.Slept(st, DueRooms(st.rooms, presence, lastPresence, t));
            Reports(later, DueRooms(later.rooms, Pruned(st.rooms, presence, t), lastPresence, t)) == []
  {
    var later := ChatOps.Slept(st, DueRooms(st.rooms, presence, lastPresence, t));
    var due := DueRooms(later.rooms, Pruned(st.rooms, presence, t), lastPresence, t);
    forall r | r in later.rooms && FallsAsleep(later, due, r)
      ensures false
    {
      assert later.rooms[r] == st.rooms[r] && Idle(st.rooms[r]);
      PrunedOnce(Clients(presence, r), t);
    }
    assert (set r | r in later.rooms && FallsAsleep(later, due, r)) == {};
  }

  /** Which rooms fall asleep, in terms of the clock: an idle room is due when nothing has happened in it for `idle`
      milliseconds, or when no viewer was seen in the last `lease` milliseconds and the last one has been gone (or
      nothing has happened, if there never was one) for `grace` milliseconds. */
  lemma RoomsSleepExactly(st: Store, presence: map<nat, map<string, nat>>, lastPresence: map<nat, nat>, t: Timing,
                          id: nat)
    requires id in st.rooms
    ensures var (room, after) :=
              (st.rooms[id], ChatOps.Slept(st, DueRooms(st.rooms, presence, lastPresence, t)).rooms[id]);
            var gone := if id in lastPresence then lastPresence[id] else room.lastActivity;
            var watched := id in presence
              && exists viewer :: viewer in presence[id] && t.lease > 0 && t.now < presence[id][viewer] + t.lease;
            var due := (t.idle == 0 || t.now >= room.lastActivity + t.idle)
                       || (!watched && (t.grace == 0 || t.now >= gone + t.grace));
            after == if due && !room.sleeping && !room.busy then
                       room.(sleeping := true, sleepGeneration := room.sleepGeneration + 1)
                     else room
  {
    NobodyPresent(Clients(presence, id), t);
  }

  /** A check forgets the viewers of idle rooms that were not seen within the lease, and no others. */
  lemma PrunedExactly(rooms: Rooms, presence: map<nat, map<string, nat>>, t: Timing, id: nat, viewer: string)
    ensures var before, after := Clients(presence, id), Clients(Pruned(rooms, presence, t), id);
            var stale := id in rooms && !rooms[id].sleeping && !rooms[id].busy && viewer in before
                         && !(t.lease > 0 && t.now < before[viewer] + t.lease);
            && (viewer in after <==> viewer in before && !stale)
            && (viewer in after ==> after[viewer] == before[viewer])
  {
  }

  lemma NobodyPresent(clients: map<string, nat>, t: Timing)
    ensures Present(clients, t) == map[] <==>
              !exists viewer :: viewer in clients && t.lease > 0 && t.now < clients[viewer] + t.lease
  {
    forall viewer
      ensures viewer in Present(clients, t) <==> viewer in clients && t.lease > 0 && t.now < clients[viewer] + t.lease
    {
    }
    if Present(clients, t) != map[] {
      var viewer :| viewer in Present(clients, t);
    }
  }

  lemma PrunedOnce(clients: map<string, nat>, t: Timing)
    ensures Present(Present(clients, t), t) == Present(clients, t)
  {
  }

  /** A room with activity in the last `idle` milliseconds and a viewer within the lease stays awake. */
  lemma WatchedRoomsStayAwake(st: Store, presence: map<nat, map<string, nat>>, lastPresence: map<nat, nat>, t: Timing,
                              id: nat, viewer: string)
    requires id in st.rooms && Since(t.now, st.rooms[id].lastActivity) < t.idle
    requires id in presence && viewer in presence[id] && Since(t.now, presence[id][viewer]) < t.lease
    ensures ChatOps.Slept(st, DueRooms(st.rooms, presence, lastPresence, t)).rooms[id] == st.rooms[id]
  {
    assert viewer in Present(Clients(presence, id), t);
  }

  // ---------- follow-ups ----------

  function MentionsIn(member: string, outcome: Outcome, members: seq<string>, alphanumeric: char -> bool):
    seq<(string, string)>
  {
    if outcome.Failed? then [] else Mentions.FollowUps(member, outcome.text, members, alphanumeric)
  }

  /** The mentions in these answers, in the order of the answers. */
  function AllMentions(turns: seq<(string, Outcome)>, members: seq<string>, alphanumeric: char -> bool):
    seq<(string, string)>
  {
    if turns == [] then [] else
    var last := turns[|turns| - 1];
    AllMentions(turns[..|turns| - 1], members, alphanumeric) + MentionsIn(last.0, last.1, members, alphanumeric)
  }

  /** Exactly the mentions that the answers make. */
  lemma {:induction false} MentionsOfAnswers(turns: seq<(string, Outcome)>, members: seq<string>,
                                             alphanumeric: char -> bool, p: (string, string))
    ensures p in AllMentions(turns, members, alphanumeric) <==>
              exists k :: 0 <= k < |turns| && turns[k].1.Answered?
                && p in Mentions.FollowUps(turns[k].0, turns[k].1.text, members, alphanumeric)
  {
    hide Mentions.FollowUps;
    if turns != [] {
      var front, last := turns[..|turns| - 1], turns[|turns| - 1];
      MentionsOfAnswers(front, members, alphanumeric, p);
      assert forall k :: 0 <= k < |front| ==> front[k] == turns[k];
    }
  }

  /** The follow-up turns with their outcomes. */
  function FollowUpTurns(executed: seq<(string, string)>, outcomes: nat -> Outcome): (r: seq<(string, Outcome)>)
    ensures |r| == |executed|
    ensures forall k :: 0 <= k < |r| ==> r[k] == (executed[k].1, outcomes(k))
  {
    seq(|executed|, k requires 0 <= k < |executed| => (executed[k].1, outcomes(k)))
  }

  lemma OneMoreTurn(turns: seq<(string, Outcome)>, n: nat, members: seq<string>, alphanumeric: char -> bool)
    requires n < |turns|
    ensures AllMentions(turns[..n + 1], members, alphanumeric) ==
              AllMentions(turns[..n], members, alphanumeric) + MentionsIn(turns[n].0, turns[n].1, members, alphanumeric)
  {
    assert turns[..n + 1][..n] == turns[..n];
  }

  lemma OneMoreFollowUp(executed: seq<(string, string)>, next: (string, string), outcomes: nat -> Outcome,
                        members: seq<string>, alphanumeric: char -> bool)
    ensures AllMentions(FollowUpTurns(executed + [next], outcomes), members, alphanumeric) ==
              AllMentions(FollowUpTurns(executed, outcomes), members, alphanumeric)
              + MentionsIn(next.1, outcomes(|executed|), members, alphanumeric)
  {
    var turns := FollowUpTurns(executed + [next], outcomes);
    assert turns[..|executed|] == FollowUpTurns(executed, outcomes);
  }

  /** The answers of the first turns are joined, in any order, and their mentions queue up. */
  method JoinAnswers(joined: seq<(string, Outcome)>, members: seq<string>, alphanumeric: char -> bool)
    returns (pending: seq<(string, string)>)
    ensures pending == AllMentions(joined, members, alphanumeric)
  {
    hide MentionsIn;
    pending := [];
    for n := 0 to |joined|
      invariant pending == AllMentions(joined[..n], members, alphanumeric)
    {
      OneMoreTurn(joined, n, members, alphanumeric);
      pending := pending + MentionsIn(joined[n].0, joined[n].1, members, alphanumeric);
    }
    assert joined[..|joined|] == joined;
  }

  /** Mentions are followed first come, first served, and sixteen at most, whatever the turns answer. */
  method FollowMentions(first: seq<(string, string)>, members: seq<string>, outcomes: nat -> Outcome,
                        alphanumeric: char -> bool)
    returns (executed: seq<(string, string)>, limitHit: bool)
    ensures var enqueued := first + AllMentions(FollowUpTurns(executed, outcomes), members, alphanumeric);
            && executed == (if |enqueued| <= 16 then enqueued else enqueued[..16])
            && (limitHit <==> |enqueued| > 16)
  {
    hide AllMentions, MentionsIn, FollowUpTurns;
    var pending, followUps := first, 0;
    executed, limitHit := [], false;
    NoFollowUps(outcomes, members, alphanumeric);
    while pending != []
      invariant followUps == |executed| <= 16
      invariant executed + pending == first + AllMentions(FollowUpTurns(executed, outcomes), members, alphanumeric)
      decreases 16 - followUps
    {
      var next := pending[0];
      if followUps == 16 {
        limitHit := true;
        break;
      }
      OneMoreFollowUp(executed, next, outcomes, members, alphanumeric);
      var more := MentionsIn(next.1, outcomes(followUps), members, alphanumeric);
      assert executed + [next] + (pending[1..] + more) == (executed + pending) + more;
      pending := pending[1..] + more;
      executed := executed + [next];
      followUps := followUps + 1;
    }
  }

  lemma NoFollowUps(outcomes: nat -> Outcome, members: seq<string>, alphanumeric: char -> bool)
    ensures AllMentions(FollowUpTurns([], outcomes), members, alphanumeric) == []
  {
  }

  // ---------- the coordinator ----------

  datatype Reply =
    | Done(room: Room)
    | Rejected(verdict: Verdict)
    | NotSaved        // the change is made, but writing it failed
    | Died            // the process ended while writing

  function Afterwards(outcome: SlotFile.Outcome, room: Room): Reply {
    match outcome
    case Saved => Done(room)
    case Refused => NotSaved
    case Crashed => Died
  }

  function OutcomeOf(reply: Reply): SlotFile.Outcome {
    match reply
    case NotSaved => SlotFile.Refused
    case Died => SlotFile.Crashed
    case _ => SlotFile.Saved
  }

  /** The snapshot file after a save of these rooms, as readers see it: on success it holds them, an error
      changes nothing, and a crash leaves the old or the new snapshot. Success is unconditional; the rest
      fails only by the one fault of `SaveIsAtomicExactly`. Without storage nothing happens. */
  ghost predicate DiskFollows(storing: bool, before: SlotFile.Slots<Snapshots.Snapshot>, rooms: Rooms,
                              disk: SlotFile.Fates,
                              after: SlotFile.Slots<Snapshots.Snapshot>, outcome: SlotFile.Outcome) {
    var saved := Snapshots.Saved(rooms);
    && (!storing ==> after == before && outcome == SlotFile.Saved)
    && (storing && outcome == SlotFile.Saved ==> SlotFile.Current(after) == Some(saved))
    && (storing && !SlotFile.StaleRollback(before, saved, disk) ==>
          SlotFile.Atomic(SlotFile.Current(before), saved, SlotFile.Current(after), outcome))
  }

  /** The reply that was handed to the waiting turn, if any. */
  function HandedOver(replies: map<AskId, TurnResult>, a: AskId): Option<TurnResult> {
    if a in replies then Some(replies[a]) else None
  }

  predicate BeforeRequest(stage: Stage) {
    stage.Queued? || stage.Holding? || stage.Snapshotted?
  }

  predicate Reusable(room: Room, member: string, incognito: bool) {
    room.incognito == incognito && (incognito || !room.archived) && room.members == [member]
  }

  lemma MoreRooms(st: Store)
    requires StoreOk(st)
    ensures StoreOk(st.(nextRoom := st.nextRoom + 1)) && st.nextRoom >= 1 && st.nextRoom !in st.rooms
  {
    hide RoomsOk, LifecycleOk, DistinctMembers;
  }

  lemma NothingSaved(slots: SlotFile.Slots<Snapshots.Snapshot>, rooms: Rooms, disk: SlotFile.Fates)
    ensures DiskFollows(false, slots, rooms, disk, slots, SlotFile.Saved)
  {
  }

  lemma PendingIdsAreUsed(s: State, id: RequestId)
    requires Invariants.PendingInv(s.asks, s.pending, s.nextRequest)
    ensures id in s.pending ==> id.serial < s.nextRequest
  {
    if id in s.pending {
      assert Invariants.Waits(s.asks, s.pending[id].ask, id);
    }
  }

  lemma RoomNumbers(st: Store, id: nat)
    requires StoreOk(st) && id in st.rooms
    ensures st.rooms[id].id == id
  {
    assert RoomOk(id, st.rooms[id], st.nextMessage);
  }

  class ChatResident {
    var rooms: Rooms
    var nextRoom: nat
    var nextMessage: nat
    var nextRequest: nat
    var pending: map<RequestId, Pending>     // who has to reply, and which turn waits
    var replies: map<AskId, TurnResult>      // what was handed to the waiting turns
    var presence: map<nat, map<string, nat>>
    var lastPresence: map<nat, nat>
    var storing: bool
    const storage: SlotFile.SnapshotFile<Snapshots.Snapshot>

    constructor ()
      ensures Valid() && fresh(storage) && State() == FRESH && !storing
      ensures pending == map[] && replies == map[] && nextRequest == 1
    {
      rooms, nextRoom, nextMessage, nextRequest := map[], 1, 1, 1;
      pending, replies, presence, lastPresence := map[], map[], map[], map[];
      storing := false;
      storage := new SlotFile.SnapshotFile();
    }

    function State(): Store
      reads this`rooms, this`nextRoom, this`nextMessage
    {
      Store(rooms, nextRoom, nextMessage)
    }

    /** The rooms are in order, and the snapshot file holds nothing partial. */
    ghost predicate Valid()
      reads this`rooms, this`nextRoom, this`nextMessage, storage
    {
      StoreOk(State()) && SlotFile.Clean(storage.State())
    }

    /** The requests and replies are those of this state of the step machine. */
    ghost predicate Represents(s: State)
      reads this`rooms, this`nextRoom, this`nextMessage, this`nextRequest, this`pending, this`replies
    {
      && s.store == State() && s.nextRequest == nextRequest && s.pending == pending
      && (forall a :: a in s.asks && s.asks[a].stage.Requested? ==> s.asks[a].stage.reply == HandedOver(replies, a))
      && (forall a :: a in replies ==> a in s.asks && !BeforeRequest(s.asks[a].stage))
    }

    method SaveLocked(disk: SlotFile.Fates) returns (outcome: SlotFile.Outcome)
      requires Valid()
      modifies storage
      ensures Valid()
      ensures DiskFollows(storing, old(storage.State()), rooms, disk, storage.State(), outcome)
    {
      hide StoreOk;
      if !storing {
        return SlotFile.Saved;
      }
      var kept, media := Snapshots.TakeSnapshot(rooms);
      outcome := storage.Save(Snapshots.Snapshot(Snapshots.AllStripped(kept), media), disk);
    }

    /** Start saving, and save what there is. A second call is an error and changes nothing. */
    method EnableStorage(disk: SlotFile.Fates) returns (outcome: Option<SlotFile.Outcome>)
      requires Valid()
      modifies this`storing, storage
      ensures Valid() && storing
      ensures outcome.None? <==> old(storing)
      ensures outcome.None? ==> storage.State() == old(storage.State())
      ensures outcome.Some? ==> DiskFollows(true, old(storage.State()), rooms, disk, storage.State(), outcome.value)
    {
      hide StoreOk, DiskFollows, SlotFile.Clean;
      if storing {
        return None;
      }
      storing := true;
      var result := SaveLocked(disk);
      outcome := Some(result);
    }

    /** A message of the user. When it is accepted, the snapshot on disk has it before the round begins; a failed
        save is reported, but leaves the room busy. */
    method SendUserMessage(id: nat, raw: string, media: seq<Asset>, now: nat, alphanumeric: char -> bool,
                           disk: SlotFile.Fates)
      returns (reply: Reply, called: seq<string>, start: nat)
      requires Valid()
      modifies this`rooms, this`nextMessage, storage
      ensures Valid()
      ensures reply.Rejected? <==> !old(MayBeSent(rooms, id, raw, media, alphanumeric))
      ensures var verdict := SendVerdict(old(State()), id, raw, media, alphanumeric);
              if verdict.Accepted? then
                && !reply.Rejected? && called == verdict.called && start == old(nextMessage)
                && State() == Sent(old(State()), id, raw, media, now)
                && (reply.Done? ==> reply.room == rooms[id])
                && DiskFollows(storing, old(storage.State()), rooms, disk, storage.State(), OutcomeOf(reply))
              else reply == Rejected(verdict) && State() == old(State()) && storage.State() == old(storage.State())
    {
      hide StoreOk, Mentions.ChosenBy, Mentions.Candidates, DiskFollows, SlotFile.Clean, MayBeSent, IsMeantFor,
           ContentOk;
      VerdictExactly(State(), id, raw, media, alphanumeric);
      called, start := [], 0;
      var text := Text.Trim(raw);
      if (text == "" && media == []) || |text| > MAX_MESSAGE_CHARS || |media| > MAX_MESSAGE_MEDIA {
        return Rejected(Invalid), called, start;
      }
      if id !in rooms {
        return Rejected(NotFound), called, start;
      }
      var room := rooms[id];
      if room.busy {
        return Rejected(Busy), called, start;
      }
      if room.archived {
        return Rejected(Invalid), called, start;
      }
      if |room.members| > 1 {
        var chosen := Mentions.MentionedMembers(text, room.members, alphanumeric);
        if chosen.NotAMember? {
          return Rejected(Invalid), called, start;
        }
        called := if chosen.members != [] then chosen.members else room.members;
      } else {
        called := room.members;
      }
      Accept(id, raw, media, now);
      start := nextMessage - 1;
      var outcome := SaveLocked(disk);
      reply := Afterwards(outcome, rooms[id]);
    }

    method Accept(id: nat, raw: string, media: seq<Asset>, now: nat)
      requires Valid() && id in rooms && !rooms[id].archived
      modifies this`rooms, this`nextMessage
      ensures Valid() && State() == Sent(old(State()), id, raw, media, now)
    {
      hide StoreOk;
      SentKeeps(State(), id, raw, media, now);
      var room := rooms[id];
      var message := NewMessage(State(), "user", HUMAN, Text.Trim(raw), media, now);
      nextMessage := nextMessage + 1;
      rooms := rooms[id := room.(busy := true, sleeping := false, lastActivity := now,
                                 messages := room.messages + [message])];
      assert State() == Sent(old(State()), id, raw, media, now);
    }

    /** A message of the program or of a Resident. An error while saving it is only logged. */
    method PushMessage(id: nat, role: string, author: string, text: string, media: seq<Asset>, now: nat,
                       disk: SlotFile.Fates)
      returns (ghost outcome: SlotFile.Outcome)
      requires Valid()
      modifies this`rooms, this`nextMessage, storage
      ensures Valid() && State() == Pushed(old(State()), id, role, author, text, media, now)
      ensures rooms == (if id in old(rooms) then
                          var message := Message(old(nextMessage), role, author, text, now, Views(media), media);
                          old(rooms)[id := old(rooms)[id].(lastActivity := now,
                                                           messages := old(rooms)[id].messages + [message])]
                        else old(rooms))
      ensures id in rooms ==> DiskFollows(storing, old(storage.State()), rooms, disk, storage.State(), outcome)
      ensures id !in rooms ==> storage.State() == old(storage.State())
    {
      hide StoreOk, DiskFollows, SlotFile.Clean;
      Append(id, role, author, text, media, now);
      outcome := SlotFile.Saved;
      if id in rooms {
        var written := SaveLocked(disk);
        outcome := written;
      }
    }

    method Append(id: nat, role: string, author: string, text: string, media: seq<Asset>, now: nat)
      requires Valid()
      modifies this`rooms, this`nextMessage
      ensures Valid() && State() == Pushed(old(State()), id, role, author, text, media, now)
    {
      hide StoreOk, SlotFile.Clean;
      PushKeeps(State(), id, role, author, text, media, now);
      if id in rooms {
        var message := NewMessage(State(), role, author, text, media, now);
        nextMessage := nextMessage + 1;
        rooms := rooms[id := rooms[id].(messages := rooms[id].messages + [message], lastActivity := now)];
      }
    }

    method SetActive(id: nat, active: Option<string>)
      requires Valid()
      modifies this`rooms
      ensures Valid() && State() == WithActive(old(State()), id, active)
      ensures rooms == (if id in old(rooms) then old(rooms)[id := old(rooms)[id].(active := active)] else old(rooms))
    {
      hide StoreOk;
      WithActiveKeeps(State(), id, active);
      if id in rooms {
        rooms := rooms[id := rooms[id].(active := active)];
      }
    }

    method Finish(id: nat, now: nat, disk: SlotFile.Fates) returns (ghost outcome: SlotFile.Outcome)
      requires Valid()
      modifies this`rooms, storage
      ensures Valid() && State() == Finished(old(State()), id, now)
      ensures rooms == (if id in old(rooms) then
                          old(rooms)[id := old(rooms)[id].(busy := false, active := None, lastActivity := now)]
                        else old(rooms))
      ensures id in rooms ==> DiskFollows(storing, old(storage.State()), rooms, disk, storage.State(), outcome)
      ensures id !in rooms ==> storage.State() == old(storage.State())
    {
      hide StoreOk, DiskFollows, SlotFile.Clean;
      Free(id, now);
      outcome := SlotFile.Saved;
      if id in rooms {
        var written := SaveLocked(disk);
        outcome := written;
      }
    }

    method Free(id: nat, now: nat)
      requires Valid()
      modifies this`rooms
      ensures Valid() && State() == Finished(old(State()), id, now)
    {
      hide StoreOk, SlotFile.Clean;
      FinishedKeeps(State(), id, now);
      if id in rooms {
        rooms := rooms[id := rooms[id].(busy := false, active := None, lastActivity := now)];
      }
    }

    method SetArchived(id: nat, archived: bool, disk: SlotFile.Fates) returns (reply: Reply)
      requires Valid()
      modifies this`rooms, storage
      ensures Valid()
      ensures var verdict := ArchiveVerdict(old(State()), id);
              if verdict.Accepted? then
                && !reply.Rejected? && State() == WithArchived(old(State()), id, archived)
                && id in old(rooms) && rooms == old(rooms)[id := old(rooms)[id].(archived := archived)]
                && (reply.Done? ==> reply.room == rooms[id])
                && DiskFollows(storing, old(storage.State()), rooms, disk, storage.State(), OutcomeOf(reply))
              else reply == Rejected(verdict) && State() == old(State()) && storage.State() == old(storage.State())
    {
      hide StoreOk, DiskFollows, SlotFile.Clean;
      if id !in rooms {
        return Rejected(NotFound);
      }
      if rooms[id].busy {
        return Rejected(Busy);
      }
      if rooms[id].incognito {
        return Rejected(Invalid);
      }
      Archive(id, archived);
      var outcome := SaveLocked(disk);
      reply := Afterwards(outcome, rooms[id]);
    }

    method Archive(id: nat, archived: bool)
      requires Valid() && ArchiveVerdict(State(), id).Accepted?
      modifies this`rooms
      ensures Valid() && State() == WithArchived(old(State()), id, archived)
    {
      hide StoreOk, SlotFile.Clean;
      ArchivedKeeps(State(), id, archived);
      rooms := rooms[id := rooms[id].(archived := archived)];
    }

    /** The one direct room of a member: found, or made. The rooms are looked through and changed in one go. */
    method EnsureSoloRoom(member: string, name: string, incognito: bool, now: nat,
                          disk: SlotFile.Fates) returns (reply: Reply)
      requires Valid()
      modifies this`rooms, this`nextRoom, storage
      ensures Valid()
      ensures if old(SoloExists(State(), member, incognito)) then
                && State() == old(State()) && reply.Done? && reply.room.id in rooms
                && rooms[reply.room.id] == reply.room
                && reply.room.members == [member] && reply.room.incognito == incognito
                && (incognito || !reply.room.archived)
                && storage.State() == old(storage.State())
              else
                && !reply.Rejected?
                && State() == WithRoom(old(State()).(nextRoom := old(nextRoom) + 1),
                                       NewRoom(old(nextRoom), name, [member], incognito, now))
                && (reply.Done? ==> reply.room == rooms[old(nextRoom)])
                && DiskFollows(storing && !incognito, old(storage.State()), rooms, disk, storage.State(),
                               OutcomeOf(reply))
      ensures SoloExists(State(), member, incognito)
    {
      hide StoreOk, DiskFollows, SlotFile.Clean;
      var found := FindSolo(member, incognito);
      if found.Some? {
        return Done(rooms[found.value]);
      }
      var room := Insert([member], name, incognito, now);
      assert Reusable(rooms[room.id], member, incognito);
      if incognito {
        NothingSaved(storage.State(), rooms, disk);
        return Done(room);
      }
      var outcome := SaveLocked(disk);
      reply := Afterwards(outcome, room);
    }

    method FindSolo(member: string, incognito: bool) returns (found: Option<nat>)
      requires Valid()
      ensures found.Some? <==> SoloExists(State(), member, incognito)
      ensures found.Some? ==> && found.value in rooms && rooms[found.value].id == found.value
                              && Reusable(rooms[found.value], member, incognito)
    {
      hide StoreOk;
      var keys := InOrder(rooms.Keys);
      for n := 0 to |keys|
        invariant forall k :: 0 <= k < n ==> !Reusable(rooms[keys[k]], member, incognito)
      {
        assert keys[n] in keys;
        if Reusable(rooms[keys[n]], member, incognito) {
          RoomNumbers(State(), keys[n]);
          return Some(keys[n]);
        }
      }
      assert forall r :: r in rooms ==> r in keys;
      found := None;
    }

    method Insert(members: seq<string>, name: string, incognito: bool, now: nat) returns (room: Room)
      requires Valid() && MembersOk(members)
      modifies this`rooms, this`nextRoom
      ensures Valid() && room == NewRoom(old(nextRoom), name, members, incognito, now)
      ensures State() == WithRoom(old(State()).(nextRoom := old(nextRoom) + 1), room)
    {
      hide StoreOk, SlotFile.Clean;
      MoreRooms(State());
      room := NewRoom(nextRoom, name, members, incognito, now);
      nextRoom := nextRoom + 1;
      InsertKeeps(State(), room);
      rooms := rooms[room.id := room];
    }

    // ---------- requests and replies ----------

    /** A turn with its context asks for a reply: the step `Register` of the machine, under an unused id. */
    method Register(a: AskId, room: nat, member: string, ghost s: State) returns (id: RequestId)
      requires Represents(s) && Invariants.PendingInv(s.asks, s.pending, s.nextRequest)
      requires a in s.asks && s.asks[a].stage == Snapshotted && (s.asks[a].room, s.asks[a].member) == (room, member)
      modifies this`pending, this`nextRequest
      ensures Represents(DoRegister(s, a))
      ensures id == RequestId(room, old(nextRequest)) && id !in old(pending)
      ensures pending == old(pending)[id := Pending(member, a)]
    {
      id := RequestId(room, nextRequest);
      PendingIdsAreUsed(s, id);
      nextRequest := nextRequest + 1;
      pending := pending[id := Pending(member, a)];
    }

    /** The reply worker: the step `Deliver` of the machine. A turn gets a reply only from the member that it
        belongs to, for the request that it waits for, and keeps the first one. */
    method Deliver(source: string, id: RequestId, result: TurnResult, ghost s: State)
      requires Represents(s) && Invariants.PendingInv(s.asks, s.pending, s.nextRequest)
      modifies this`pending, this`replies
      ensures Represents(DoDeliver(s, source, id, result))
      ensures forall a :: a in old(replies) ==> a in replies && replies[a] == old(replies)[a]
      ensures forall a :: a in replies && a !in old(replies) ==>
                && replies[a] == result && a in s.asks && s.asks[a].member == source && Invariants.Waits(s.asks, a, id)
    {
      if id in pending && pending[id].expected == source {
        assert Invariants.Waits(s.asks, pending[id].ask, id);
        replies := replies[pending[id].ask := result];
        pending := pending - {id};
      }
    }

    // ---------- sleeping and restoring ----------

    /** Send one room to sleep if it is due. */
    method LookAt(id: nat, t: Timing) returns (asleep: bool)
      requires id in rooms
      modifies this`rooms, this`presence
      ensures asleep == (Idle(old(rooms)[id])
                         && IsDue(old(rooms)[id], Clients(old(presence), id), LastSeen(lastPresence, id), t))
      ensures rooms == if asleep then old(rooms)[id := Asleep(old(rooms)[id])] else old(rooms)
      ensures presence == if Idle(old(rooms)[id]) then
                            old(presence)[id := Present(Clients(old(presence), id), t)]
                          else old(presence)
    {
      asleep := false;
      if Idle(rooms[id]) {
        var clients := Present(Clients(presence, id), t);
        PrunedOnce(Clients(presence, id), t);
        presence := presence[id := clients];
        asleep := IsDue(rooms[id], clients, LastSeen(lastPresence, id), t);
        if asleep {
          rooms := rooms[id := Asleep(rooms[id])];
        }
      }
    }

    method LookAtAll(t: Timing) returns (report: seq<Room>)
      modifies this`rooms, this`presence
      ensures var due := old(DueRooms(rooms, presence, lastPresence, t));
              && State() == ChatOps.Slept(old(State()), due)
              && report == RoomsOf(rooms, Reports(old(State()), due))
      ensures presence == Pruned(old(rooms), old(presence), t)
    {
      hide DueRooms, Reports, ChatOps.Slept, Pruned, Checked, RoomsOf, First, SleptIn, PrunedIn, IsDue, Idle, Present,
           Clients, FallsAsleep, Asleep, LastSeen;
      ghost var st, seen, due := State(), presence, DueRooms(rooms, presence, lastPresence, t);
      ghost var ids: seq<nat> := [];
      report := [];
      var keys := InOrder(rooms.Keys);
      NothingChecked(st, due, seen, t, keys);
      for n := 0 to |keys|
        invariant State() == st.(rooms := rooms)
        invariant Checked(st, due, seen, t, First(keys, n), ids, rooms, presence, report)
      {
        NextKey(keys, n);
        report, ids := CheckRoom(keys[n], t, report, st, due, seen, First(keys, n), ids);
      }
      AllChecked(st, due, seen, t, keys, ids, rooms, presence, report);
    }

    method CheckRoom(id: nat, t: Timing, report: seq<Room>, ghost st: Store, ghost due: set<nat>,
                     ghost seen: map<nat, map<string, nat>>, ghost done: set<nat>, ghost ids: seq<nat>)
      returns (longer: seq<Room>, ghost more: seq<nat>)
      requires due == DueRooms(st.rooms, seen, lastPresence, t)
      requires Checked(st, due, seen, t, done, ids, rooms, presence, report)
      requires id in st.rooms && forall k :: k in done ==> k < id
      modifies this`rooms, this`presence
      ensures Checked(st, due, seen, t, done + {id}, more, rooms, presence, longer)
    {
      hide IsDue, FallsAsleep, DueRooms, Checked, Clients, LastSeen, Present, Asleep;
      ghost var r, p := rooms, presence;
      SameRooms(st, due, seen, t, done, ids, rooms, presence, report);
      var asleep := LookAt(id, t);
      longer := if asleep then report + [rooms[id]] else report;
      more := if asleep then ids + [id] else ids;
      OneMoreChecked(st, due, seen, lastPresence, t, done, ids, r, p, report, id, asleep);
    }

    /** Put to sleep what is due, and report it. */
    method SleepDue(t: Timing, disk: SlotFile.Fates) returns (report: seq<Room>, ghost outcome: SlotFile.Outcome)
      requires Valid()
      modifies this`rooms, this`presence, storage
      ensures Valid()
      ensures var due := old(DueRooms(rooms, presence, lastPresence, t));
              && State() == ChatOps.Slept(old(State()), due)
              && report == RoomsOf(rooms, Reports(old(State()), due))
      ensures presence == Pruned(old(rooms), old(presence), t)
      ensures report != [] ==> DiskFollows(storing, old(storage.State()), rooms, disk, storage.State(), outcome)
      ensures report == [] ==> storage.State() == old(storage.State())
    {
      hide StoreOk, DiskFollows, SlotFile.Clean, DueRooms, ChatOps.Slept, Reports, RoomsOf, Pruned;
      SleptKeeps(State(), DueRooms(rooms, presence, lastPresence, t));
      report := LookAtAll(t);
      outcome := SlotFile.Saved;
      if report != [] {
        var written := SaveLocked(disk);
        outcome := written;
      }
    }

    /** Put saved rooms in place. */
    method RestoreRooms(restored: seq<Room>, media: map<string, Asset>)
      modifies this`rooms, this`nextRoom, this`nextMessage
      ensures State() == Snapshots.Restored(old(State()), restored, media)
    {
      ghost var st := State();
      for i := 0 to |restored|
        invariant State() == Snapshots.Restored(st, restored[..i], media)
      {
        assert restored[..i + 1][..i] == restored[..i];
        var room := restored[i];
        nextRoom := Snapshots.Max(nextRoom, room.id + 1);
        var messages := RestoreMessages(room.messages, media);
        rooms := rooms[room.id := Snapshots.AtRest(room).(messages := messages)];
      }
      assert restored[..|restored|] == restored;
    }

    method RestoreMessages(messages: seq<Message>, media: map<string, Asset>) returns (restored: seq<Message>)
      modifies this`nextMessage
      ensures restored == Snapshots.RestoredMessages(messages, media)
      ensures nextMessage == Snapshots.RaisedCounter(old(nextMessage), messages)
    {
      hide Snapshots.RestoredMessage;
      restored := [];
      for j := 0 to |messages|
        invariant nextMessage == Snapshots.RaisedCounter(old(nextMessage), messages[..j])
        invariant |restored| == j && forall k :: 0 <= k < j ==>
                    restored[k] == Snapshots.RestoredMessage(messages[k], media)
      {
        assert messages[..j + 1][..j] == messages[..j];
        nextMessage := Snapshots.Max(nextMessage, messages[j].id + 1);
        var message := RestoreMessage(messages[j], media);
        restored := restored + [message];
      }
      assert messages[..|messages|] == messages;
    }

    /** Start again from a snapshot that an earlier life of the program saved. */
    method Restart(ghost saved: Store, snapshot: Snapshots.Snapshot)
      requires Valid() && State() == FRESH
      requires StoreOk(saved) && snapshot == Snapshots.Saved(saved.rooms)
      modifies this`rooms, this`nextRoom, this`nextMessage
      ensures Valid() && State() == Snapshots.NextStart(saved.rooms)
    {
      hide StoreOk, SlotFile.Clean, Snapshots.Restored, Snapshots.AllStripped, Snapshots.Kept, Snapshots.MediaOf;
      RestoreRooms(snapshot.rooms, snapshot.media);
      Snapshots.NextStartIsInOrder(saved);
    }
  }
}
