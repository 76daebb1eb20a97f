/** Chat rooms, and the two queries that read their messages: the context that a turn is sent with, and the
    paged reads that a Resident makes later in the same turn. */
module Rooms {
  import opened Options
  import opened Ordered

  datatype Asset = Asset(id: string, name: string, mimeType: string, path: string, modelPaths: seq<string>)

  datatype View = View(id: string, name: string, mimeType: string, url: string)

  function ViewOf(a: Asset): View {
    View(a.id, a.name, a.mimeType, "/api/media/" + a.id)
  }

  datatype Message = Message(id: nat, role: string, author: string, text: string, createdAt: nat,
                             attachments: seq<View>, media: seq<Asset>)

  datatype Room = Room(id: nat, name: string, members: seq<string>, messages: seq<Message>,
                       busy: bool, active: Option<string>, sleeping: bool, sleepGeneration: nat,
                       lastActivity: nat, archived: bool, incognito: bool)

  type Rooms = map<nat, Room>

  /** A message as an LLM Resident gets it. */
  datatype ContextMessage = ContextMessage(id: nat, room: nat, roomName: string, role: string, author: string,
                                           text: string, createdAt: nat, attachments: seq<Asset>)

  function InContext(room: Room, m: Message): ContextMessage {
    ContextMessage(m.id, room.id, room.name, m.role, m.author, m.text, m.createdAt, m.media)
  }

  // ---------- collecting and sorting ----------

  /** Which messages of a room a query wants. */
  type Filter = (nat, Message) -> bool

  function FromRoom(room: Room, messages: seq<Message>, keep: Filter): (r: seq<ContextMessage>)
    ensures forall c :: c in r <==> exists m :: m in messages && keep(room.id, m) && c == InContext(room, m)
  {
    if messages == [] then [] else
    assert forall m :: m in messages <==> m == messages[0] || m in messages[1..];
    (if keep(room.id, messages[0]) then [InContext(room, messages[0])] else []) + FromRoom(room, messages[1..], keep)
  }

  function FromRooms(rooms: Rooms, keys: seq<nat>, keep: Filter): (r: seq<ContextMessage>)
    requires forall k :: k in keys ==> k in rooms
    ensures forall c :: c in r <==> exists k :: k in keys && c in FromRoom(rooms[k], rooms[k].messages, keep)
  {
    if keys == [] then [] else
    assert forall k :: k in keys <==> k == keys[0] || k in keys[1..];
    FromRoom(rooms[keys[0]], rooms[keys[0]].messages, keep) + FromRooms(rooms, keys[1..], keep)
  }

  predicate StrictlySorted(s: seq<ContextMessage>) {
    forall a, b :: 0 <= a < b < |s| ==> s[a].id < s[b].id
  }

  /** Put `c` behind everything that is not above it. */
  function Inserted(s: seq<ContextMessage>, c: ContextMessage): (r: seq<ContextMessage>)
    ensures |r| == |s| + 1
    ensures forall x :: x in r <==> x in s || x == c
  {
    if s == [] || s[|s| - 1].id <= c.id then s + [c] else
    var front, last := s[..|s| - 1], s[|s| - 1];
    assert forall x :: x in s <==> x in front || x == last;
    Inserted(front, c) + [last]
  }

  /** A stable sort by message id. */
  function SortById(s: seq<ContextMessage>): (r: seq<ContextMessage>)
    ensures |r| == |s|
    ensures forall x :: x in r <==> x in s
  {
    if s == [] then [] else
    var front, last := s[..|s| - 1], s[|s| - 1];
    assert forall x :: x in s <==> x in front || x == last;
    Inserted(SortById(front), last)
  }

  predicate DistinctIds(s: seq<ContextMessage>) {
    forall a, b :: 0 <= a < b < |s| ==> s[a].id != s[b].id
  }

  lemma {:induction false} InsertedStrictly(s: seq<ContextMessage>, c: ContextMessage)
    requires StrictlySorted(s) && forall x :: x in s ==> x.id != c.id
    ensures StrictlySorted(Inserted(s, c))
  {
    if s != [] && s[|s| - 1].id > c.id {
      var front := s[..|s| - 1];
      assert forall x :: x in front ==> x in s;
      InsertedStrictly(front, c);
      assert forall k :: 0 <= k < |front| ==> front[k].id < s[|s| - 1].id;
      var r := Inserted(front, c);
      forall k | 0 <= k < |r|
        ensures r[k].id < s[|s| - 1].id
      {
        assert r[k] in r;
        assert r[k] in front || r[k] == c;
      }
    } else if s != [] {
      assert s[|s| - 1] in s;
    }
  }

  /** Messages with distinct ids come out in strictly ascending order. */
  lemma {:induction false} SortByIdStrictly(s: seq<ContextMessage>)
    requires DistinctIds(s)
    ensures StrictlySorted(SortById(s))
  {
    if s != [] {
      var front, last := s[..|s| - 1], s[|s| - 1];
      SortByIdStrictly(front);
      InsertedStrictly(SortById(front), last);
    }
  }

  function Collected(rooms: Rooms, keep: Filter): seq<ContextMessage> {
    SortById(FromRooms(rooms, InOrder(rooms.Keys), keep))
  }

  // ---------- the two queries ----------

  /** The rooms that a turn of `member` in room `id` may read: only its own room when that is incognito,
      otherwise every ordinary room that it is a member of. */
  function Readable(rooms: Rooms, member: string, id: nat): Rooms
    requires id in rooms
  {
    map r | r in rooms && member in rooms[r].members && (if rooms[id].incognito then r == id else !rooms[r].incognito)
          :: rooms[r]
  }

  function TurnFilter(id: nat, start: Option<nat>): Filter {
    (r: nat, m: Message) => r != id || start.None? || m.id <= start.value
  }

  /** The context of a turn; a contribution sees its own room only up to the start of the round. */
  function TurnContext(rooms: Rooms, member: string, id: nat, start: Option<nat>): seq<ContextMessage>
    requires id in rooms
  {
    Collected(Readable(rooms, member, id), TurnFilter(id, start))
  }

  function Raised(bound: map<nat, nat>, c: ContextMessage): map<nat, nat> {
    bound[c.room := if c.room in bound && bound[c.room] > c.id then bound[c.room] else c.id]
  }

  /** For each room of a context, the last message of it that the turn has seen. */
  function VisibleThrough(context: seq<ContextMessage>): map<nat, nat> {
    if context == [] then map[] else Raised(VisibleThrough(context[..|context| - 1]), context[|context| - 1])
  }

  lemma {:induction false} VisibleThroughIsMax(context: seq<ContextMessage>)
    ensures forall c :: c in context ==> c.room in VisibleThrough(context) && c.id <= VisibleThrough(context)[c.room]
    ensures forall r :: r in VisibleThrough(context) ==>
              exists c :: c in context && c.room == r && c.id == VisibleThrough(context)[r]
  {
    if context != [] {
      var front, last := context[..|context| - 1], context[|context| - 1];
      var earlier, bound := VisibleThrough(front), VisibleThrough(context);
      VisibleThroughIsMax(front);
      assert forall c :: c in context <==> c in front || c == last;
      forall r | r in bound
        ensures exists c :: c in context && c.room == r && c.id == bound[r]
      {
        if r in earlier && bound[r] == earlier[r] {
          var c :| c in front && c.room == r && c.id == earlier[r];
          assert c in context;
        } else {
          assert last in context && last.room == r && last.id == bound[r];
        }
      }
    }
  }

  method ComputeVisibleThrough(context: seq<ContextMessage>) returns (bound: map<nat, nat>)
    ensures bound == VisibleThrough(context)
  {
    bound := map[];
    for n := 0 to |context|
      invariant bound == VisibleThrough(context[..n])
    {
      assert context[..n + 1][..n] == context[..n];
      var event := context[n];
      if event.room in bound {
        if bound[event.room] <= event.id {
          bound := bound[event.room := event.id];
        }
      } else {
        bound := bound[event.room := event.id];
      }
    }
    assert context[..|context|] == context;
  }

  datatype ContextQuery = ContextQuery(requester: string, room: nat, visibleThrough: map<nat, nat>,
                                       scopeAll: bool, before: Option<nat>, limit: nat)

  /** `Panics` stands for an index out of bounds. */
  datatype ContextReply =
    | Denied
    | Page(roomName: string, messages: seq<ContextMessage>, hasEarlier: bool, nextBefore: Option<nat>)
    | Panics

  function QueryFilter(q: ContextQuery): Filter {
    (r: nat, m: Message) =>
      && r in q.visibleThrough && (q.scopeAll || r == q.room)
      && m.id <= q.visibleThrough[r] && (q.before.None? || m.id < q.before.value)
  }

  /** All messages that match a query. */
  function Matching(rooms: Rooms, q: ContextQuery): seq<ContextMessage>
    requires q.room in rooms
  {
    Collected(Readable(rooms, q.requester, q.room), QueryFilter(q))
  }

  function ChatContextFor(rooms: Rooms, q: ContextQuery): ContextReply {
    if q.room !in rooms || q.requester !in rooms[q.room].members then Denied
    else LastPage(rooms[q.room].name, Matching(rooms, q), q.limit)
  }

  function LastPage(roomName: string, all: seq<ContextMessage>, limit: nat): ContextReply {
    if |all| <= limit then Page(roomName, all, false, None) else
    var page := all[|all| - limit..];
    if page == [] then Panics else Page(roomName, page, true, Some(page[0].id))
  }

  /** A reply needs at least one place on its page, unless there is nothing to put on it. */
  lemma PanicsExactly(rooms: Rooms, q: ContextQuery)
    ensures ChatContextFor(rooms, q).Panics? <==>
            q.room in rooms && q.requester in rooms[q.room].members && q.limit == 0 && Matching(rooms, q) != []
  {
  }

  // ---------- well-formed rooms ----------

  predicate AscendingMessages(messages: seq<Message>) {
    forall a, b :: 0 <= a < b < |messages| ==> messages[a].id < messages[b].id
  }

  /** The two rooms have no message id in common. */
  predicate Apart(a: Room, b: Room) {
    forall m, n :: m in a.messages && n in b.messages ==> m.id != n.id
  }

  predicate RoomOk(id: nat, room: Room, nextMessage: nat) {
    && room.id == id >= 1
    && AscendingMessages(room.messages)
    && forall m :: m in room.messages ==> m.id < nextMessage
  }

  /** Message identity: ids ascend inside each room, differ across rooms, and are below the counter. */
  predicate RoomsOk(rooms: Rooms, nextMessage: nat) {
    && (forall r :: r in rooms ==> RoomOk(r, rooms[r], nextMessage))
    && (forall r, s :: r in rooms && s in rooms && r != s ==> Apart(rooms[r], rooms[s]))
  }

  // ---------- what the queries list ----------

  /** `c` is a wanted message of one of the rooms. */
  ghost predicate Wanted(rooms: Rooms, keep: Filter, c: ContextMessage) {
    exists r, m :: r in rooms && m in rooms[r].messages && keep(rooms[r].id, m) && c == InContext(rooms[r], m)
  }

  lemma CollectedLists(rooms: Rooms, keep: Filter, c: ContextMessage)
    ensures c in Collected(rooms, keep) <==> Wanted(rooms, keep, c)
  {
    var keys := InOrder(rooms.Keys);
    var flat := FromRooms(rooms, keys, keep);
    assert c in Collected(rooms, keep) <==> c in multiset(Collected(rooms, keep));
    assert c in flat <==> c in multiset(flat);
    if Wanted(rooms, keep, c) {
      var r, m :| r in rooms && m in rooms[r].messages && keep(rooms[r].id, m) && c == InContext(rooms[r], m);
      assert r in keys && c in FromRoom(rooms[r], rooms[r].messages, keep);
    }
    if c in flat {
      var r :| r in keys && c in FromRoom(rooms[r], rooms[r].messages, keep);
      var m :| m in rooms[r].messages && keep(rooms[r].id, m) && c == InContext(rooms[r], m);
      assert r in rooms;
    }
  }

  lemma SameIdSameMessage(id: nat, room: Room, nextMessage: nat, m: Message, n: Message)
    requires RoomOk(id, room, nextMessage) && m in room.messages && n in room.messages && m.id == n.id
    ensures m == n
  {
    var a :| 0 <= a < |room.messages| && room.messages[a] == m;
    var b :| 0 <= b < |room.messages| && room.messages[b] == n;
    assert a == b;
  }

  lemma ApartIds(a: Room, b: Room, m: Message, n: Message)
    requires Apart(a, b) && m in a.messages && n in b.messages
    ensures m.id != n.id
  {
  }

  lemma {:induction false} FromRoomDistinct(room: Room, messages: seq<Message>, keep: Filter)
    requires AscendingMessages(messages)
    ensures DistinctIds(FromRoom(room, messages, keep))
    ensures forall c :: c in FromRoom(room, messages, keep) ==> exists m :: m in messages && m.id == c.id
  {
    if messages != [] {
      var rest := FromRoom(room, messages[1..], keep);
      FromRoomDistinct(room, messages[1..], keep);
      forall c | c in rest
        ensures c.id != messages[0].id
      {
        var m :| m in messages[1..] && m.id == c.id;
      }
      assert forall k :: 0 <= k < |rest| ==> rest[k] in rest;
    }
  }

  lemma OtherRoomsDiffer(rooms: Rooms, nextMessage: nat, r: nat, s: nat, keep: Filter, c: ContextMessage,
                         d: ContextMessage)
    requires RoomsOk(rooms, nextMessage) && r in rooms && s in rooms && r != s
    requires c in FromRoom(rooms[r], rooms[r].messages, keep) && d in FromRoom(rooms[s], rooms[s].messages, keep)
    ensures c.id != d.id
  {
    hide FromRoom, Apart;
    assert RoomOk(r, rooms[r], nextMessage) && RoomOk(s, rooms[s], nextMessage) && Apart(rooms[r], rooms[s]);
    FromRoomDistinct(rooms[r], rooms[r].messages, keep);
    FromRoomDistinct(rooms[s], rooms[s].messages, keep);
    var m :| m in rooms[r].messages && m.id == c.id;
    var n :| n in rooms[s].messages && n.id == d.id;
    ApartIds(rooms[r], rooms[s], m, n);
  }

  lemma MessagesAscend(rooms: Rooms, nextMessage: nat, r: nat)
    requires RoomsOk(rooms, nextMessage) && r in rooms
    ensures AscendingMessages(rooms[r].messages)
  {
    assert RoomOk(r, rooms[r], nextMessage);
  }

  lemma {:induction false} FromRoomsDistinct(rooms: Rooms, keys: seq<nat>, keep: Filter, nextMessage: nat)
    requires RoomsOk(rooms, nextMessage) && Ascending(keys) && forall k :: k in keys ==> k in rooms
    ensures DistinctIds(FromRooms(rooms, keys, keep))
  {
    if keys != [] {
      hide RoomsOk, RoomOk, Apart;
      var room := rooms[keys[0]];
      var head, rest := FromRoom(room, room.messages, keep), FromRooms(rooms, keys[1..], keep);
      assert keys[0] in keys && forall k :: k in keys[1..] ==> k in keys;
      FromRoomsDistinct(rooms, keys[1..], keep, nextMessage);
      MessagesAscend(rooms, nextMessage, keys[0]);
      FromRoomDistinct(room, room.messages, keep);
      forall c, d | c in head && d in rest
        ensures c.id != d.id
      {
        hide FromRoom, FromRooms;
        var k :| k in keys[1..] && d in FromRoom(rooms[k], rooms[k].messages, keep);
        assert k != keys[0];
        OtherRoomsDiffer(rooms, nextMessage, keys[0], k, keep, c, d);
      }
      DistinctTogether(head, rest);
    }
  }

  lemma DistinctTogether(a: seq<ContextMessage>, b: seq<ContextMessage>)
    requires DistinctIds(a) && DistinctIds(b) && forall c, d :: c in a && d in b ==> c.id != d.id
    ensures DistinctIds(a + b)
  {
    assert forall k :: 0 <= k < |a| ==> a[k] in a;
    assert forall k :: 0 <= k < |b| ==> b[k] in b;
  }

  lemma CollectedStrictly(rooms: Rooms, keep: Filter, nextMessage: nat)
    requires RoomsOk(rooms, nextMessage)
    ensures StrictlySorted(Collected(rooms, keep))
  {
    FromRoomsDistinct(rooms, InOrder(rooms.Keys), keep, nextMessage);
    SortByIdStrictly(FromRooms(rooms, InOrder(rooms.Keys), keep));
  }

  /** The last element, and what is left without it. */
  lemma LastIsGreatest(s: seq<ContextMessage>, last: ContextMessage, front: seq<ContextMessage>)
    requires StrictlySorted(s) && s == front + [last]
    ensures StrictlySorted(front)
    ensures forall c :: c in s ==> c.id <= last.id
    ensures forall c :: c in front <==> c in s && c != last
  {
    assert forall i :: 0 <= i < |front| ==> front[i] == s[i];
    assert last == s[|front|];
  }

  /** A strictly ascending sequence is determined by its elements. */
  lemma {:induction false} SameElementsSameSequence(a: seq<ContextMessage>, b: seq<ContextMessage>)
    requires StrictlySorted(a) && StrictlySorted(b)
    requires forall c :: c in a <==> c in b
    ensures a == b
  {
    if a == [] {
      EmptyToo(b);
    } else if b == [] {
      EmptyToo(a);
    } else {
      var n, m := |a| - 1, |b| - 1;
      var x, y := a[n], b[m];
      assert a == a[..n] + [x] && b == b[..m] + [y];
      LastIsGreatest(a, x, a[..n]);
      LastIsGreatest(b, y, b[..m]);
      assert x in a && y in b && x in b && y in a;
      assert x.id == y.id;
      assert x == y by {
        assert y in a[..n] || y == x;
        BelowLast(a, n, y);
      }
      SameElementsSameSequence(a[..n], b[..m]);
    }
  }

  lemma EmptyToo(s: seq<ContextMessage>)
    requires forall c :: c !in s
    ensures s == []
  {
    FirstIsIn(s);
  }

  lemma FirstIsIn(s: seq<ContextMessage>)
    ensures s == [] || s[0] in s
  {
  }

  lemma BelowLast(s: seq<ContextMessage>, n: nat, c: ContextMessage)
    requires StrictlySorted(s) && n == |s| - 1
    ensures c in s[..n] ==> c.id < s[n].id
  {
  }
}
