/** Equal ordinary rooms are read and saved alike: nothing that a Resident reads for an ordinary room and nothing
    that is saved depends on what incognito rooms contain. Only the numbers of messages are shared: a message in
    an incognito room moves later ids, and nothing else, in ordinary rooms. */
module Privacy {
  import opened Options
  import opened Ordered
  import opened Rooms
  import opened Paging
  import opened ChatOps
  import opened Coordinator
  import opened Invariants
  import opened Runs
  import opened Promises
  import Snapshots

  function Ordinary(rooms: Rooms): Rooms {
    map r | r in rooms && !rooms[r].incognito :: rooms[r]
  }

  /** The two states differ in incognito rooms only. */
  predicate Alike(a: Rooms, b: Rooms) {
    Ordinary(a) == Ordinary(b)
  }

  predicate IsOrdinary(rooms: Rooms, id: nat) {
    id in rooms && !rooms[id].incognito
  }

  lemma AlikeRooms(a: Rooms, b: Rooms, id: nat)
    requires Alike(a, b)
    ensures IsOrdinary(a, id) <==> IsOrdinary(b, id)
    ensures IsOrdinary(a, id) ==> a[id] == b[id]
  {
    assert id in Ordinary(a) <==> IsOrdinary(a, id);
    assert id in Ordinary(b) <==> IsOrdinary(b, id);
  }

  lemma ReadableAlike(a: Rooms, b: Rooms, member: string, id: nat)
    requires Alike(a, b) && IsOrdinary(a, id) && id in b
    ensures IsOrdinary(b, id) && Readable(a, member, id) == Readable(b, member, id)
  {
    AlikeRooms(a, b, id);
    forall r
      ensures r in Readable(a, member, id) <==> r in Readable(b, member, id)
      ensures r in Readable(a, member, id) ==> a[r] == b[r]
    {
      AlikeRooms(a, b, r);
    }
  }

  /** A turn in an ordinary room gets the same context. */
  lemma ContextsAreAlike(a: Rooms, b: Rooms, member: string, id: nat, start: Option<nat>)
    requires Alike(a, b) && IsOrdinary(a, id)
    ensures id in b && TurnContext(a, member, id, start) == TurnContext(b, member, id, start)
  {
    AlikeRooms(a, b, id);
    ReadableAlike(a, b, member, id);
  }

  /** Any query about an ordinary room gets the same reply, whatever it asks for. */
  lemma RepliesAreAlike(a: Rooms, b: Rooms, q: ContextQuery)
    requires Alike(a, b) && IsOrdinary(a, q.room)
    ensures ChatContextFor(a, q) == ChatContextFor(b, q)
  {
    AlikeRooms(a, b, q.room);
    ReadableAlike(a, b, q.requester, q.room);
  }

  // ---------- snapshots ----------

  predicate SameOrdinaryKeys(a: Rooms, ks: seq<nat>, b: Rooms, ls: seq<nat>) {
    && (forall k :: k in ks ==> k in a) && (forall l :: l in ls ==> l in b)
    && (forall k :: k in ks && !a[k].incognito ==> k in ls && b[k] == a[k])
    && (forall l :: l in ls && !b[l].incognito ==> l in ks && a[l] == b[l])
  }

  lemma WithoutLast(a: Rooms, ks: seq<nat>, b: Rooms, ls: seq<nat>)
    requires SameOrdinaryKeys(a, ks, b, ls) && Ascending(ks) && ks != [] && a[ks[|ks| - 1]].incognito
    ensures SameOrdinaryKeys(a, ks[..|ks| - 1], b, ls) && Ascending(ks[..|ks| - 1])
  {
    var front, last := ks[..|ks| - 1], ks[|ks| - 1];
    assert forall k :: k in ks <==> k in front || k == last;
  }

  lemma Mirrored(a: Rooms, ks: seq<nat>, b: Rooms, ls: seq<nat>)
    requires SameOrdinaryKeys(a, ks, b, ls)
    ensures SameOrdinaryKeys(b, ls, a, ks)
  {
  }

  lemma {:induction false} KeptAlike(a: Rooms, ks: seq<nat>, b: Rooms, ls: seq<nat>)
    requires SameOrdinaryKeys(a, ks, b, ls) && Ascending(ks) && Ascending(ls)
    ensures Snapshots.OrdinaryRooms(a, ks) == Snapshots.OrdinaryRooms(b, ls)
    decreases |ks| + |ls|
  {
    if ks != [] && a[ks[|ks| - 1]].incognito {
      WithoutLast(a, ks, b, ls);
      KeptAlike(a, ks[..|ks| - 1], b, ls);
    } else if ls != [] && b[ls[|ls| - 1]].incognito {
      Mirrored(a, ks, b, ls);
      WithoutLast(b, ls, a, ks);
      Mirrored(b, ls[..|ls| - 1], a, ks);
      KeptAlike(a, ks, b, ls[..|ls| - 1]);
    } else if ks != [] || ls != [] {
      LastsAgree(a, ks, b, ls);
      KeptAlike(a, ks[..|ks| - 1], b, ls[..|ls| - 1]);
    }
  }

  lemma LastsAgree(a: Rooms, ks: seq<nat>, b: Rooms, ls: seq<nat>)
    requires SameOrdinaryKeys(a, ks, b, ls) && Ascending(ks) && Ascending(ls) && (ks != [] || ls != [])
    requires ks != [] ==> !a[ks[|ks| - 1]].incognito
    requires ls != [] ==> !b[ls[|ls| - 1]].incognito
    ensures ks != [] && ls != [] && ks[|ks| - 1] == ls[|ls| - 1] && a[ks[|ks| - 1]] == b[ls[|ls| - 1]]
    ensures SameOrdinaryKeys(a, ks[..|ks| - 1], b, ls[..|ls| - 1]) && Ascending(ks[..|ks| - 1])
    ensures Ascending(ls[..|ls| - 1])
  {
    assert ks != [] ==> ks[|ks| - 1] in ks && ks[|ks| - 1] in ls;
    assert ls != [] ==> ls[|ls| - 1] in ls && ls[|ls| - 1] in ks;
    var k, l := ks[|ks| - 1], ls[|ls| - 1];
    assert k <= l && l <= k;
    assert forall x :: x in ks <==> x in ks[..|ks| - 1] || x == k;
    assert forall x :: x in ls <==> x in ls[..|ls| - 1] || x == k;
  }

  /** The two states are saved as the same snapshot. */
  lemma SnapshotsAreAlike(a: Rooms, b: Rooms)
    requires Alike(a, b)
    ensures Snapshots.Saved(a) == Snapshots.Saved(b)
  {
    forall id
      ensures IsOrdinary(a, id) <==> IsOrdinary(b, id)
      ensures IsOrdinary(a, id) ==> a[id] == b[id]
    {
      AlikeRooms(a, b, id);
    }
    var ks, ls := InOrder(a.Keys), InOrder(b.Keys);
    forall k | k in ks && !a[k].incognito
      ensures k in ls && b[k] == a[k]
    {
      assert IsOrdinary(a, k) && IsOrdinary(b, k);
    }
    forall l | l in ls && !b[l].incognito
      ensures l in ks && a[l] == b[l]
    {
      assert IsOrdinary(b, l) && IsOrdinary(a, l);
    }
    KeptAlike(a, ks, b, ls);
  }

  // ---------- steps and runs ----------

  /** What happens in an incognito room is not seen outside of it. */
  lemma IncognitoStepsAreInvisible(st: Store, id: nat, role: string, author: string, text: string, media: seq<Asset>,
                                   now: nat, active: Option<string>)
    requires id in st.rooms && st.rooms[id].incognito
    ensures Alike(st.rooms, Pushed(st, id, role, author, text, media, now).rooms)
    ensures Alike(st.rooms, Sent(st, id, text, media, now).rooms)
    ensures Alike(st.rooms, WithActive(st, id, active).rooms)
    ensures Alike(st.rooms, Finished(st, id, now).rooms)
  {
    OneIncognitoRoom(st.rooms, id, Pushed(st, id, role, author, text, media, now).rooms[id]);
    OneIncognitoRoom(st.rooms, id, Sent(st, id, text, media, now).rooms[id]);
    OneIncognitoRoom(st.rooms, id, WithActive(st, id, active).rooms[id]);
    OneIncognitoRoom(st.rooms, id, Finished(st, id, now).rooms[id]);
    assert Sent(st, id, text, media, now).rooms == st.rooms[id := Sent(st, id, text, media, now).rooms[id]];
  }

  /** What one incognito message changes in the ordinary message after it: its id is one more. */
  lemma IncognitoOnlyMovesIds(st: Store, private: nat, id: nat, secret: seq<char>,
                              role: string, author: string, text: string, media: seq<Asset>, now: nat)
    requires private in st.rooms && st.rooms[private].incognito && IsOrdinary(st.rooms, id)
    ensures var quiet := Pushed(st, id, role, author, text, media, now);
            var talked := Pushed(Pushed(st, private, role, author, secret, [], now),
                                 id, role, author, text, media, now);
            var n := |st.rooms[id].messages|;
            && |quiet.rooms[id].messages| == n + 1
            && var m := quiet.rooms[id].messages[n];
               && m.id == st.nextMessage
               && Ordinary(talked.rooms) == Ordinary(quiet.rooms)[id := quiet.rooms[id].(messages :=
                                              st.rooms[id].messages + [m.(id := m.id + 1)])]
  {
    var quiet := Pushed(st, id, role, author, text, media, now);
    var talked := Pushed(Pushed(st, private, role, author, secret, [], now), id, role, author, text, media, now);
    forall r
      ensures r in Ordinary(talked.rooms) <==> r in Ordinary(quiet.rooms)
    {
    }
  }

  lemma OneIncognitoRoom(rooms: Rooms, id: nat, room: Room)
    requires id in rooms && rooms[id].incognito && room.incognito
    ensures Alike(rooms, rooms[id := room])
  {
    forall r
      ensures r in Ordinary(rooms) <==> r in Ordinary(rooms[id := room])
    {
    }
    assert Ordinary(rooms) == Ordinary(rooms[id := room]);
  }

  /** In every run: a turn in an ordinary room is sent messages of ordinary rooms only, and a turn in an
      incognito room is sent messages of this room only; all of rooms that its member belongs to. */
  lemma TurnsReadTheirSide(start: State, events: seq<Event>, n: nat, alphanumeric: char -> bool, a: AskId,
                           c: ContextMessage)
    requires Started(start) && n <= |events|
    requires var asks := After(start, events, n, alphanumeric).asks;
             a in asks && asks[a].context.Some? && c in asks[a].context.value
    ensures var s := After(start, events, n, alphanumeric);
            && s.asks[a].room in s.store.rooms && c.room in s.store.rooms
            && s.asks[a].member in s.store.rooms[c.room].members
            && (if s.store.rooms[s.asks[a].room].incognito then c.room == s.asks[a].room
                else !s.store.rooms[c.room].incognito)
  {
    hide Step, Inv, TurnContext, Started, RoomsOk;
    var s := After(start, events, n, alphanumeric);
    var k := ContextsAreTaken(start, events, n, a, alphanumeric);
    var t := After(start, events, k, alphanumeric);
    BoundOfRun(start, events, k, alphanumeric);
    var m := ContextSource(t.store.rooms, t.store.nextMessage, s.asks[a].member, s.asks[a].room, s.asks[a].start, c);
    RunIsLater(start, events, k, n, alphanumeric);
    assert Continues(t.store.rooms[c.room], s.store.rooms[c.room], t.store.nextMessage);
    assert Continues(t.store.rooms[s.asks[a].room], s.store.rooms[s.asks[a].room], t.store.nextMessage);
  }
}
