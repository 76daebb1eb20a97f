/** The sections of the chat coordinator that run under the lock of the rooms, each as one step, and what
    every one of them keeps. */
module ChatOps {
  import opened Options
  import opened Rooms
  import opened Paging
  import Mentions
  import Text

  const MAX_MESSAGE_MEDIA: nat := 4
  const MAX_MESSAGE_CHARS: nat := 20_000
  const MAX_MEMBERS: nat := 8
  const HUMAN := Mentions.YOU
  const SYSTEM := "\U{7CFB}\U{7EDF}"

  datatype Store = Store(rooms: Rooms, nextRoom: nat, nextMessage: nat)

  const FRESH := Store(map[], 1, 1)

  // ---------- the steps ----------

  function NewMessage(st: Store, role: string, author: string, text: string, media: seq<Asset>, now: nat): Message {
    Message(st.nextMessage, role, author, text, now, Views(media), media)
  }

  function Views(media: seq<Asset>): (views: seq<View>)
    ensures |views| == |media|
    ensures forall k :: 0 <= k < |media| ==> views[k] == ViewOf(media[k])
    ensures forall k :: 0 <= k < |media| ==>
              (views[k].id, views[k].name, views[k].mimeType, views[k].url)
              == (media[k].id, media[k].name, media[k].mimeType, "/api/media/" + media[k].id)
  {
    seq(|media|, k requires 0 <= k < |media| => ViewOf(media[k]))
  }

  /** Append a message to a room. */
  function Pushed(st: Store, id: nat, role: string, author: string, text: string, media: seq<Asset>, now: nat): Store {
    if id !in st.rooms then st else
    var room := st.rooms[id];
    st.(rooms := st.rooms[id := room.(messages := room.messages + [NewMessage(st, role, author, text, media, now)],
                                      lastActivity := now)],
        nextMessage := st.nextMessage + 1)
  }

  datatype Verdict = Accepted(called: seq<string>) | NotFound | Busy | Invalid

  /** Is this user message accepted, and which members does it call? */
  function SendVerdict(st: Store, id: nat, raw: string, media: seq<Asset>, alphanumeric: char -> bool): Verdict {
    var text := Text.Trim(raw);
    if (text == "" && media == []) || |text| > MAX_MESSAGE_CHARS || |media| > MAX_MESSAGE_MEDIA then Invalid else
    if id !in st.rooms then NotFound else
    var room := st.rooms[id];
    if room.busy then Busy else
    if room.archived then Invalid else
    if |room.members| <= 1 then Accepted(room.members) else
    match Mentions.ChosenBy(Mentions.Candidates(text, alphanumeric), room.members)
    case NotAMember(_) => Invalid
    case Chosen(mentioned) => Accepted(if mentioned != [] then mentioned else room.members)
  }

  /** Is there something to send, and not too much? Texts have up to 20000 characters, messages up to 4 media. */
  predicate ContentOk(raw: string, media: seq<Asset>) {
    var text := Text.Trim(raw);
    (text != "" || media != []) && |text| <= 20_000 && |media| <= 4
  }

  /** Everyone whom the text mentions is a member, or the user. */
  predicate OnlyKnown(raw: string, members: seq<string>, alphanumeric: char -> bool) {
    var keys := Mentions.Candidates(Text.Trim(raw), alphanumeric);
    forall k :: 0 <= k < |keys| ==> keys[k] in members || Mentions.IsUser(keys[k])
  }

  /** What it takes for a message of the user to be accepted. */
  predicate MayBeSent(rooms: Rooms, id: nat, raw: string, media: seq<Asset>, alphanumeric: char -> bool) {
    && ContentOk(raw, media) && id in rooms && !rooms[id].busy && !rooms[id].archived
    && (|rooms[id].members| > 1 ==> OnlyKnown(raw, rooms[id].members, alphanumeric))
  }

  /** The members that a message is meant for: those that it mentions, or everyone. */
  predicate IsMeantFor(text: string, members: seq<string>, called: seq<string>, alphanumeric: char -> bool) {
    var mentioned := Mentions.Selected(Mentions.Candidates(text, alphanumeric), key => !Mentions.IsUser(key));
    if |members| > 1 && mentioned != [] then called == mentioned else called == members
  }

  /** A message is accepted exactly under these conditions, for these members, and the first one that fails says
      why it is refused. */
  lemma VerdictExactly(st: Store, id: nat, raw: string, media: seq<Asset>, alphanumeric: char -> bool)
    ensures var verdict := SendVerdict(st, id, raw, media, alphanumeric);
            && (verdict.Accepted? <==> MayBeSent(st.rooms, id, raw, media, alphanumeric))
            && (verdict.Accepted? ==>
                  IsMeantFor(Text.Trim(raw), st.rooms[id].members, verdict.called, alphanumeric))
            && (!verdict.Accepted? ==>
                  if !ContentOk(raw, media) then verdict == Invalid
                  else if id !in st.rooms then verdict == NotFound
                  else if st.rooms[id].busy then verdict == Busy
                  else verdict == Invalid)
  {
    if id in st.rooms {
      var keys := Mentions.Candidates(Text.Trim(raw), alphanumeric);
      assert forall k :: 0 <= k < |keys| ==>
          (Mentions.Stranger(keys[k], st.rooms[id].members) <==>
            !(keys[k] in st.rooms[id].members || Mentions.IsUser(keys[k])));
      hide Mentions.Candidates, Mentions.IsUser, Mentions.Stranger, Mentions.Selected;
    }
  }

  /** The effect of an accepted user message; its id is the start of the round. */
  function Sent(st: Store, id: nat, raw: string, media: seq<Asset>, now: nat): Store
    requires id in st.rooms
  {
    var pushed := Pushed(st, id, "user", HUMAN, Text.Trim(raw), media, now);
    pushed.(rooms := pushed.rooms[id := pushed.rooms[id].(busy := true, sleeping := false, lastActivity := now)])
  }

  function WithActive(st: Store, id: nat, active: Option<string>): Store {
    if id !in st.rooms then st else st.(rooms := st.rooms[id := st.rooms[id].(active := active)])
  }

  function Finished(st: Store, id: nat, now: nat): Store {
    if id !in st.rooms then st else
    st.(rooms := st.rooms[id := st.rooms[id].(busy := false, active := None, lastActivity := now)])
  }

  function Asleep(room: Room): Room {
    room.(sleeping := true, sleepGeneration := room.sleepGeneration + 1)
  }

  predicate FallsAsleep(st: Store, due: set<nat>, id: nat) {
    id in st.rooms && id in due && !st.rooms[id].sleeping && !st.rooms[id].busy
  }

  /** The rooms of `due` that are awake and not busy fall asleep. */
  function Slept(st: Store, due: set<nat>): Store {
    st.(rooms := map r | r in st.rooms :: if FallsAsleep(st, due, r) then Asleep(st.rooms[r]) else st.rooms[r])
  }

  function ArchiveVerdict(st: Store, id: nat): Verdict {
    if id !in st.rooms then NotFound else
    if st.rooms[id].busy then Busy else
    if st.rooms[id].incognito then Invalid else Accepted([])
  }

  function WithArchived(st: Store, id: nat, archived: bool): Store
    requires id in st.rooms
  {
    st.(rooms := st.rooms[id := st.rooms[id].(archived := archived)])
  }

  predicate DistinctMembers(members: seq<string>) {
    forall a, b :: 0 <= a < b < |members| ==> members[a] != members[b]
  }

  predicate MembersOk(members: seq<string>) {
    1 <= |members| <= MAX_MEMBERS && DistinctMembers(members)
  }

  function NewRoom(id: nat, name: string, members: seq<string>, incognito: bool, now: nat): Room {
    Room(id, name, members, [], false, None, false, 0, now, false, incognito)
  }

  function WithRoom(st: Store, room: Room): Store {
    st.(rooms := st.rooms[room.id := room])
  }

  // ---------- what the steps keep ----------

  /** A busy room is awake and not archived; an incognito room is never archived. */
  predicate LifecycleOk(room: Room) {
    && (room.busy ==> !room.sleeping && !room.archived)
    && (room.incognito ==> !room.archived)
  }

  predicate StoreOk(st: Store) {
    && RoomsOk(st.rooms, st.nextMessage)
    && st.nextRoom >= 1
    && (forall r :: r in st.rooms ==> r < st.nextRoom)
    && (forall r :: r in st.rooms ==> LifecycleOk(st.rooms[r]))
    && (forall r :: r in st.rooms ==> |st.rooms[r].members| >= 1 && DistinctMembers(st.rooms[r].members))
  }

  /** Replace one room by its continuation, with ids from the counter on. */
  lemma UpdateKeeps(st: Store, id: nat, room: Room, nextMessage: nat)
    requires StoreOk(st) && id in st.rooms && st.nextMessage <= nextMessage
    requires RoomOk(id, room, nextMessage) && LifecycleOk(room) && Continues(st.rooms[id], room, st.nextMessage)
    ensures StoreOk(Store(st.rooms[id := room], st.nextRoom, nextMessage))
    ensures Grows(st.rooms, st.nextMessage, st.rooms[id := room])
  {
    hide Apart, RoomOk, Continues, LifecycleOk, DistinctMembers;
    var rooms := st.rooms[id := room];
    forall r | r in rooms
      ensures RoomOk(r, rooms[r], nextMessage)
    {
      if r != id {
        RoomOkLater(r, st.rooms[r], st.nextMessage, nextMessage);
      }
    }
    forall r, s | r in rooms && s in rooms && r != s
      ensures Apart(rooms[r], rooms[s])
    {
      if r == id {
        StillApart(st.rooms[id], room, st.nextMessage, s, st.rooms[s]);
      } else if s == id {
        StillApart(st.rooms[id], room, st.nextMessage, r, st.rooms[r]);
      }
    }
    SameMembers(st.rooms[id], room, st.nextMessage);
    assert Grows(st.rooms, st.nextMessage, rooms) by {
      forall r | r in st.rooms
        ensures Continues(st.rooms[r], rooms[r], st.nextMessage)
      {
        GrowsReflexive(st.rooms, st.nextMessage);
      }
    }
  }

  lemma RoomOkLater(id: nat, room: Room, bound: nat, later: nat)
    requires RoomOk(id, room, bound) && bound <= later
    ensures RoomOk(id, room, later)
  {
  }

  lemma SameMembers(a: Room, b: Room, bound: nat)
    requires Continues(a, b, bound)
    ensures a.members == b.members
  {
  }

  lemma StillApart(before: Room, room: Room, bound: nat, id: nat, other: Room)
    requires Continues(before, room, bound) && Apart(before, other) && RoomOk(id, other, bound)
    ensures Apart(room, other) && Apart(other, room)
  {
    forall m, n | m in room.messages && n in other.messages
      ensures m.id != n.id
    {
      OldMessages(before, room, bound, m);
    }
  }

  /** Ids are taken from the counter while the rooms are locked: that is why they ascend in every room and
      never repeat. */
  lemma PushKeeps(st: Store, id: nat, role: string, author: string, text: string, media: seq<Asset>, now: nat)
    requires StoreOk(st)
    ensures var later := Pushed(st, id, role, author, text, media, now);
            StoreOk(later) && Grows(st.rooms, st.nextMessage, later.rooms) && st.nextMessage <= later.nextMessage
  {
    hide StoreOk, Grows, RoomOk, Continues, NewMessage;
    GrowsReflexive(st.rooms, st.nextMessage);
    if id in st.rooms {
      var m := NewMessage(st, role, author, text, media, now);
      FreshId(st, role, author, text, media, now);
      RoomIsOk(st, id);
      PushedRoomOk(id, st.rooms[id], m, now, st.nextMessage);
      UpdateKeeps(st, id, st.rooms[id].(messages := st.rooms[id].messages + [m], lastActivity := now),
                  st.nextMessage + 1);
    }
  }

  lemma PushedRoomOk(id: nat, room: Room, m: Message, now: nat, nextMessage: nat)
    requires RoomOk(id, room, nextMessage) && m.id == nextMessage
    ensures var later := room.(messages := room.messages + [m], lastActivity := now);
            RoomOk(id, later, nextMessage + 1) && Continues(room, later, nextMessage)
  {
    assert forall k :: 0 <= k < |room.messages| ==> room.messages[k] in room.messages;
  }

  lemma SentKeeps(st: Store, id: nat, raw: string, media: seq<Asset>, now: nat)
    requires StoreOk(st) && id in st.rooms && !st.rooms[id].archived
    ensures var later := Sent(st, id, raw, media, now);
            StoreOk(later) && Grows(st.rooms, st.nextMessage, later.rooms) && st.nextMessage < later.nextMessage
  {
    hide StoreOk, Grows, RoomOk, Continues, LifecycleOk, NewMessage, Sent;
    var m := NewMessage(st, "user", HUMAN, Text.Trim(raw), media, now);
    assert m.id == st.nextMessage by { FreshId(st, "user", HUMAN, Text.Trim(raw), media, now); }
    var pushed := st.rooms[id].(messages := st.rooms[id].messages + [m], lastActivity := now);
    RoomIsOk(st, id);
    PushedRoomOk(id, st.rooms[id], m, now, st.nextMessage);
    WokenRoomOk(id, st.rooms[id], pushed, now, st.nextMessage);
    UpdateKeeps(st, id, pushed.(busy := true, sleeping := false, lastActivity := now), st.nextMessage + 1);
    SentOnce(st, id, raw, media, now);
  }

  lemma FreshId(st: Store, role: string, author: string, text: string, media: seq<Asset>, now: nat)
    ensures NewMessage(st, role, author, text, media, now).id == st.nextMessage
  {
  }

  lemma SentOnce(st: Store, id: nat, raw: string, media: seq<Asset>, now: nat)
    requires id in st.rooms
    ensures var m := NewMessage(st, "user", HUMAN, Text.Trim(raw), media, now);
            var room := st.rooms[id].(messages := st.rooms[id].messages + [m], busy := true, sleeping := false,
                                      lastActivity := now);
            Sent(st, id, raw, media, now) == Store(st.rooms[id := room], st.nextRoom, st.nextMessage + 1)
  {
    hide NewMessage;
  }

  lemma RoomIsOk(st: Store, id: nat)
    requires StoreOk(st) && id in st.rooms
    ensures RoomOk(id, st.rooms[id], st.nextMessage) && LifecycleOk(st.rooms[id])
  {
    hide RoomOk, LifecycleOk, Apart, DistinctMembers;
  }

  lemma WokenRoomOk(id: nat, before: Room, room: Room, now: nat, nextMessage: nat)
    requires RoomOk(id, room, nextMessage + 1) && Continues(before, room, nextMessage) && !room.archived
    ensures var woken := room.(busy := true, sleeping := false, lastActivity := now);
            RoomOk(id, woken, nextMessage + 1) && Continues(before, woken, nextMessage) && LifecycleOk(woken)
  {
  }

  /** A step that only sets flags of one room. */
  lemma FlagsKeep(st: Store, id: nat, room: Room)
    requires StoreOk(st) && id in st.rooms && LifecycleOk(room)
    requires (room.id, room.name, room.members, room.messages, room.incognito)
          == (id, st.rooms[id].name, st.rooms[id].members, st.rooms[id].messages, st.rooms[id].incognito)
    ensures StoreOk(st.(rooms := st.rooms[id := room])) && Grows(st.rooms, st.nextMessage, st.rooms[id := room])
  {
    assert RoomOk(id, st.rooms[id], st.nextMessage);
    UpdateKeeps(st, id, room, st.nextMessage);
  }

  lemma WithActiveKeeps(st: Store, id: nat, active: Option<string>)
    requires StoreOk(st)
    ensures var later := WithActive(st, id, active); StoreOk(later) && Grows(st.rooms, st.nextMessage, later.rooms)
  {
    GrowsReflexive(st.rooms, st.nextMessage);
    if id in st.rooms {
      assert RoomOk(id, st.rooms[id], st.nextMessage);
      FlagsKeep(st, id, st.rooms[id].(active := active));
    }
  }

  lemma FinishedKeeps(st: Store, id: nat, now: nat)
    requires StoreOk(st)
    ensures var later := Finished(st, id, now); StoreOk(later) && Grows(st.rooms, st.nextMessage, later.rooms)
  {
    GrowsReflexive(st.rooms, st.nextMessage);
    if id in st.rooms {
      RoomIsOk(st, id);
      hide StoreOk, Grows;
      FlagsKeep(st, id, st.rooms[id].(busy := false, active := None, lastActivity := now));
    }
  }

  lemma ArchivedKeeps(st: Store, id: nat, archived: bool)
    requires StoreOk(st) && ArchiveVerdict(st, id).Accepted?
    ensures var later := WithArchived(st, id, archived); StoreOk(later) && Grows(st.rooms, st.nextMessage, later.rooms)
  {
    assert RoomOk(id, st.rooms[id], st.nextMessage) && LifecycleOk(st.rooms[id]);
    FlagsKeep(st, id, st.rooms[id].(archived := archived));
  }

  lemma SleptKeeps(st: Store, due: set<nat>)
    requires StoreOk(st)
    ensures var later := Slept(st, due); StoreOk(later) && Grows(st.rooms, st.nextMessage, later.rooms)
  {
    hide Apart, DistinctMembers;
    var later := Slept(st, due);
    forall r | r in later.rooms
      ensures RoomOk(r, later.rooms[r], later.nextMessage) && LifecycleOk(later.rooms[r])
      ensures Continues(st.rooms[r], later.rooms[r], st.nextMessage)
      ensures (later.rooms[r].members, later.rooms[r].messages) == (st.rooms[r].members, st.rooms[r].messages)
    {
      assert RoomOk(r, st.rooms[r], st.nextMessage) && LifecycleOk(st.rooms[r]);
    }
    forall r, s | r in later.rooms && s in later.rooms && r != s
      ensures Apart(later.rooms[r], later.rooms[s])
    {
      assert Apart(st.rooms[r], st.rooms[s]);
      SameMessagesApart(st.rooms[r], st.rooms[s], later.rooms[r], later.rooms[s]);
    }
    hide RoomOk, LifecycleOk, Slept;
  }

  lemma SameMessagesApart(a: Room, b: Room, c: Room, d: Room)
    requires Apart(a, b) && c.messages == a.messages && d.messages == b.messages
    ensures Apart(c, d)
  {
  }

  lemma GrowsReflexive(rooms: Rooms, bound: nat)
    ensures Grows(rooms, bound, rooms)
  {
  }

  lemma InsertKeeps(st: Store, room: Room)
    requires StoreOk(st) && 1 <= room.id < st.nextRoom && room.id !in st.rooms
    requires room.messages == [] && !room.busy && !room.archived && |room.members| >= 1 && DistinctMembers(room.members)
    ensures StoreOk(WithRoom(st, room)) && Grows(st.rooms, st.nextMessage, WithRoom(st, room).rooms)
  {
    var later := WithRoom(st, room);
    forall r | r in later.rooms
      ensures RoomOk(r, later.rooms[r], later.nextMessage) && LifecycleOk(later.rooms[r])
    {
      assert r != room.id ==> RoomOk(r, st.rooms[r], st.nextMessage) && LifecycleOk(st.rooms[r]);
    }
    forall r, s | r in later.rooms && s in later.rooms && r != s
      ensures Apart(later.rooms[r], later.rooms[s])
    {
      assert r != room.id && s != room.id ==> Apart(st.rooms[r], st.rooms[s]);
    }
    forall r | r in st.rooms
      ensures Continues(st.rooms[r], later.rooms[r], st.nextMessage)
    {
    }
  }

  /** The members that an accepted message calls are members of the room, each once, and at least one. */
  lemma CalledAreMembers(st: Store, id: nat, raw: string, media: seq<Asset>, alphanumeric: char -> bool)
    requires StoreOk(st) && SendVerdict(st, id, raw, media, alphanumeric).Accepted?
    ensures var called := SendVerdict(st, id, raw, media, alphanumeric).called;
            && id in st.rooms && !st.rooms[id].busy && !st.rooms[id].archived
            && |called| >= 1 && DistinctMembers(called)
            && (forall m :: m in called ==> m in st.rooms[id].members)
            && (|st.rooms[id].members| == 1 ==> called == st.rooms[id].members)
  {
    var room, text := st.rooms[id], Text.Trim(raw);
    var keys := Mentions.Candidates(text, alphanumeric);
    if |room.members| > 1 {
      assert Mentions.ChosenBy(keys, room.members).Chosen?;
      var mentioned := Mentions.ChosenBy(keys, room.members).members;
      assert forall k :: 0 <= k < |keys| ==> !Mentions.Stranger(keys[k], room.members);
      forall m | m in mentioned
        ensures m in room.members
      {
        var k :| 0 <= k < |keys| && keys[k] == m;
      }
    }
  }
}
